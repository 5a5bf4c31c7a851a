/** Writing a batch of files all or none, on a file system in which any operation may fail. */
module AtomicFiles {
  import opened Wrappers

  type Content = string

  /** Names the caller uses, and names CreateTemp makes up. */
  datatype Path = Named(name: string) | Temp(id: nat)

  type Files = map<Path, Content>

  datatype Removal = Removed | Missing | RemoveFailed

  datatype Status = Present | Absent | Unknown

  ghost predicate Same(a: Files, b: Files, p: Path) {
    (p in a <==> p in b) && (p in a ==> a[p] == b[p])
  }

  ghost predicate SameBut(a: Files, b: Files, paths: set<Path>) {
    forall p :: p !in paths ==> Same(a, b, p)
  }

  lemma SameEverywhere(a: Files, b: Files)
    requires forall p :: Same(a, b, p)
    ensures a == b
  {
    assert forall p :: p in a ==> Same(a, b, p);
    assert forall p :: p in b ==> Same(a, b, p);
  }

  /** The file system; log holds the state after every operation, failures counts the ones that failed. */
  class FileSystem {
    var files: Files
    var next: nat
    ghost var log: seq<Files>
    ghost var failures: nat

    ghost predicate Valid()
      reads this
    {
      forall p :: p in files && p.Temp? ==> p.id < next
    }

    constructor (files: Files, next: nat)
      requires forall p :: p in files && p.Temp? ==> p.id < next
      ensures Valid() && this.files == files && this.next == next && log == [] && failures == 0
    {
      this.files := files;
      this.next := next;
      log := [];
      failures := 0;
    }

    /** Fails at will, and always when there is nothing to rename. */
    method Rename(from: Path, to: Path) returns (ok: bool)
      requires Valid() && from != to && (to.Temp? ==> to.id < next)
      modifies this
      ensures Valid() && next == old(next) && log == old(log) + [files]
      ensures failures == old(failures) + if ok then 0 else 1
      ensures if ok then from in old(files) && files == old(files)[to := old(files)[from]] - {from} else files == old(files)
    {
      ok := *;
      if from !in files {
        ok := false;
      }
      if ok {
        files := files[to := files[from]] - {from};
      } else {
        failures := failures + 1;
      }
      log := log + [files];
    }

    method Remove(p: Path) returns (r: Removal)
      requires Valid()
      modifies this
      ensures Valid() && next == old(next) && log == old(log) + [files]
      ensures failures == old(failures) + if r.RemoveFailed? then 1 else 0
      ensures r.Removed? ==> p in old(files) && files == old(files) - {p}
      ensures r.Missing? ==> p !in old(files)
      ensures !r.Removed? ==> files == old(files)
    {
      var fails: bool := *;
      if fails {
        r := RemoveFailed;
        failures := failures + 1;
      } else if p in files {
        r := Removed;
        files := files - {p};
      } else {
        r := Missing;
      }
      log := log + [files];
    }

    method Lstat(p: Path) returns (s: Status)
      modifies this`failures
      ensures failures == old(failures) + if s.Unknown? then 1 else 0
      ensures s.Present? ==> p in files
      ensures s.Absent? ==> p !in files
    {
      var fails: bool := *;
      if fails {
        failures := failures + 1;
      }
      s := if fails then Unknown else if p in files then Present else Absent;
    }

    /** An empty file under a name nobody has used. */
    method CreateTemp() returns (p: Option<Path>)
      requires Valid()
      modifies this
      ensures Valid() && log == old(log) + [files]
      ensures failures == old(failures) + if p.None? then 1 else 0
      ensures p.Some? ==> p.value == Temp(old(next)) && next == old(next) + 1 && files == old(files)[p.value := ""]
      ensures p.None? ==> next == old(next) && files == old(files)
    {
      var fails: bool := *;
      if fails {
        p := None;
        failures := failures + 1;
      } else {
        p := Some(Temp(next));
        files := files[Temp(next) := ""];
        next := next + 1;
      }
      log := log + [files];
    }

    /** A failed write may leave anything in the file. */
    method Write(p: Path, data: Content) returns (ok: bool)
      requires Valid() && p in files
      modifies this
      ensures Valid() && next == old(next) && log == old(log) + [files]
      ensures failures == old(failures) + if ok then 0 else 1
      ensures SameBut(old(files), files, {p}) && p in files
      ensures ok ==> files == old(files)[p := data]
    {
      ok := *;
      var partial: Content := *;
      files := files[p := if ok then data else partial];
      if !ok {
        failures := failures + 1;
      }
      log := log + [files];
    }

    /** Close and Chmod: no effect on contents, but they may fail. */
    method Finish() returns (ok: bool)
      modifies this`failures
      ensures failures == old(failures) + if ok then 0 else 1
    {
      ok := *;
      if !ok {
        failures := failures + 1;
      }
    }
  }

  // ---------------------------------------------------------------- the helpers

  /** Every state logged since differs from this one on these paths only. */
  ghost predicate LoggedBut(log: seq<Files>, since: nat, files: Files, paths: set<Path>) {
    since <= |log| && forall k :: since <= k < |log| ==> SameBut(files, log[k], paths)
  }

  /** An action fails exactly when one of its operations has. */
  predicate Counts(before: nat, after: nat, ok: bool) {
    if ok then after == before else after > before
  }

  /** A complete temporary file, or none. */
  method StageFile(fs: FileSystem, data: Content) returns (tmp: Option<Path>)
    requires fs.Valid()
    modifies fs
    ensures fs.Valid() && old(fs.next) <= fs.next <= old(fs.next) + 1 && old(fs.log) <= fs.log
    ensures Counts(old(fs.failures), fs.failures, tmp.Some?)
    ensures LoggedBut(fs.log, |old(fs.log)|, old(fs.files), {Temp(old(fs.next))})
    ensures SameBut(old(fs.files), fs.files, {Temp(old(fs.next))})
    ensures tmp.Some? ==> tmp.value == Temp(old(fs.next)) && fs.next == old(fs.next) + 1 && fs.files == old(fs.files)[tmp.value := data]
    ensures tmp.None? ==> fs.files == old(fs.files) || fs.failures >= old(fs.failures) + 2
  {
    tmp := fs.CreateTemp();
    if tmp.None? {
      return;
    }
    var written := fs.Write(tmp.value, data);
    var closed := fs.Finish();
    if written && closed {
      var modeSet := fs.Finish();
      if modeSet {
        return;
      }
    }
    ghost var before := fs.files;
    var r := fs.Remove(tmp.value);
    if r.Removed? {
      forall p ensures Same(old(fs.files), fs.files, p) {
        assert p != tmp.value ==> Same(old(fs.files)[tmp.value := ""], before, p);
      }
      SameEverywhere(old(fs.files), fs.files);
    }
    tmp := None;
  }

  /** Moves the target to a unique name beside it. */
  method BackupTarget(fs: FileSystem, target: Path) returns (backup: Option<Path>)
    requires fs.Valid() && target.Named?
    modifies fs
    ensures fs.Valid() && old(fs.next) <= fs.next <= old(fs.next) + 1 && old(fs.log) <= fs.log
    ensures Counts(old(fs.failures), fs.failures, backup.Some?)
    ensures forall k :: |old(fs.log)| <= k < |fs.log| ==>
      SameBut(old(fs.files), fs.log[k], {Temp(old(fs.next))}) || (backup.Some? && fs.log[k] == fs.files)
    ensures backup.None? ==> SameBut(old(fs.files), fs.files, {Temp(old(fs.next))})
    ensures backup.Some? ==>
      && backup.value == Temp(old(fs.next)) && fs.next == old(fs.next) + 1 && target in old(fs.files)
      && fs.files == old(fs.files)[backup.value := old(fs.files)[target]] - {target}
    ensures backup.None? ==> fs.files == old(fs.files) || fs.failures >= old(fs.failures) + 2
  {
    backup := fs.CreateTemp();
    if backup.None? {
      return;
    }
    var closed := fs.Finish();
    if !closed {
      var _ := fs.Remove(backup.value);
      return None;
    }
    var moved := fs.Rename(target, backup.value);
    if !moved {
      var _ := fs.Remove(backup.value);
      return None;
    }
  }

  // ---------------------------------------------------------------- what a batch is held to

  datatype StagedFile = StagedFile(target: Path, tmp: Path, backup: Option<Path>, isNew: bool)

  /** The files before the batch, the first unused temporary name, and what is to be written where. */
  datatype Job = Job(start: Files, lo: nat, targets: seq<Path>, data: seq<Content>)

  ghost predicate ValidJob(job: Job) {
    && |job.data| == |job.targets|
    && (forall i :: 0 <= i < |job.targets| ==> job.targets[i].Named?)
    && (forall i, j :: 0 <= i < j < |job.targets| ==> job.targets[i] != job.targets[j])
    && (forall p :: p in job.start && p.Temp? ==> p.id < job.lo)
  }

  ghost predicate Mine(job: Job, p: Path) {
    p in job.targets || (p.Temp? && p.id >= job.lo)
  }

  /** Files that are none of the batch's business are as they were. */
  ghost predicate Others(job: Job, files: Files) {
    forall p :: !Mine(job, p) ==> Same(job.start, files, p)
  }

  /** Every original is where it was or at its backup: homes[i] is the backup of target i, once it has one. */
  ghost predicate Safe(job: Job, files: Files, homes: seq<Option<Path>>)
    requires |homes| == |job.targets|
  {
    forall i :: 0 <= i < |homes| && job.targets[i] in job.start ==>
      Holds(files, job.targets[i], job.start[job.targets[i]])
      || (homes[i].Some? && Holds(files, homes[i].value, job.start[job.targets[i]]))
  }

  predicate Holds(files: Files, p: Path, data: Content) {
    p in files && files[p] == data
  }

  ghost predicate AllSafe(job: Job, log: seq<Files>, since: nat, homes: seq<Option<Path>>)
    requires |homes| == |job.targets|
  {
    since <= |log| && forall k :: since <= k < |log| ==> Safe(job, log[k], homes)
  }

  predicate InRange(job: Job, p: Path, next: nat) {
    p.Temp? && job.lo <= p.id < next
  }

  /** The records fit the targets, and no two of their temporary names coincide. */
  ghost predicate Shape(job: Job, staged: seq<StagedFile>, homes: seq<Option<Path>>, next: nat) {
    && |staged| <= |job.targets| == |homes|
    && (forall i :: 0 <= i < |staged| ==>
          && staged[i].target == job.targets[i] && InRange(job, staged[i].tmp, next)
          && (staged[i].backup.Some? ==> staged[i].backup == homes[i]))
    && (forall i :: 0 <= i < |homes| && homes[i].Some? ==> i < |staged| && InRange(job, homes[i].value, next))
    && (forall i, j :: 0 <= i < j < |staged| ==> staged[i].tmp != staged[j].tmp)
    && (forall i, j :: 0 <= i < j < |homes| && homes[i].Some? ==> homes[i] != homes[j])
    && (forall i, j :: 0 <= i < |staged| && 0 <= j < |homes| ==> homes[j] != Some(staged[i].tmp))
  }

  /** One file on the way forward: untouched, backed up, or installed. */
  ghost predicate FileOk(job: Job, files: Files, s: StagedFile, data: Content) {
    && (s.backup.None? && !s.isNew ==> Same(job.start, files, s.target))
    && (s.backup.None? && s.isNew ==> s.target !in job.start)
    && (s.backup.Some? ==> s.target in job.start && Holds(files, s.backup.value, job.start[s.target]))
    && (s.backup.Some? && !s.isNew ==> s.target !in files)
    && (if s.isNew then Holds(files, s.target, data) && s.tmp !in files else Holds(files, s.tmp, data))
  }

  /** Every temporary file is a staged or a backup file. */
  ghost predicate Accounted(job: Job, files: Files, staged: seq<StagedFile>) {
    forall p :: p in files && p.Temp? && p.id >= job.lo ==>
      exists i :: 0 <= i < |staged| && (p == staged[i].tmp || Some(p) == staged[i].backup)
  }

  /** The state between two operations before the commit, as long as nothing has failed. */
  ghost predicate Forward(job: Job, files: Files, staged: seq<StagedFile>, homes: seq<Option<Path>>, next: nat)
    requires ValidJob(job)
  {
    && Shape(job, staged, homes, next) && Others(job, files)
    && (forall i :: 0 <= i < |staged| ==> FileOk(job, files, staged[i], job.data[i]) && staged[i].backup == homes[i])
    && (forall i :: |staged| <= i < |job.targets| ==> Same(job.start, files, job.targets[i]))
  }

  lemma ForwardIsSafe(job: Job, files: Files, staged: seq<StagedFile>, homes: seq<Option<Path>>, next: nat)
    requires ValidJob(job) && Forward(job, files, staged, homes, next)
    ensures Safe(job, files, homes)
  {
  }

  /** Temporary files come and go without endangering anything. */
  lemma TempsAreSafe(job: Job, before: Files, after: Files, homes: seq<Option<Path>>, temps: set<Path>)
    requires ValidJob(job) && |homes| == |job.targets| && Safe(job, before, homes) && SameBut(before, after, temps)
    requires forall p :: p in temps ==> p.Temp? && Some(p) !in homes
    ensures Safe(job, after, homes)
  {
    forall i | 0 <= i < |homes| && job.targets[i] in job.start
      ensures Holds(after, job.targets[i], job.start[job.targets[i]])
              || (homes[i].Some? && Holds(after, homes[i].value, job.start[job.targets[i]]))
    {
      assert Same(before, after, job.targets[i]);
      if homes[i].Some? {
        assert homes[i] in homes;
        assert Same(before, after, homes[i].value);
      }
    }
  }

  /** Once a backup has a name, it is the name meant in every earlier state, too. */
  lemma SafeWithMoreHomes(job: Job, log: seq<Files>, since: nat, homes: seq<Option<Path>>, i: nat, b: Path)
    requires |homes| == |job.targets| && AllSafe(job, log, since, homes) && i < |homes| && homes[i].None?
    ensures AllSafe(job, log, since, homes[i := Some(b)])
  {
    forall k | since <= k < |log| ensures Safe(job, log[k], homes[i := Some(b)]) {
      assert Safe(job, log[k], homes);
    }
  }

  // ---------------------------------------------------------------- one step forward

  /** An operation on other paths leaves a file's record true. */
  lemma FileOkFrame(job: Job, a: Files, b: Files, s: StagedFile, data: Content, changed: set<Path>)
    requires FileOk(job, a, s, data) && SameBut(a, b, changed)
    requires s.target !in changed && s.tmp !in changed && (s.backup.Some? ==> s.backup.value !in changed)
    ensures FileOk(job, b, s, data)
  {
    assert Same(a, b, s.target) && Same(a, b, s.tmp);
    if s.backup.Some? {
      assert Same(a, b, s.backup.value);
    }
  }

  lemma OthersFrame(job: Job, a: Files, b: Files, changed: set<Path>)
    requires Others(job, a) && SameBut(a, b, changed) && forall p :: p in changed ==> Mine(job, p)
    ensures Others(job, b)
  {
    forall p | !Mine(job, p) ensures Same(job.start, b, p) {
      assert Same(job.start, a, p) && Same(a, b, p);
    }
  }

  /** The other records stay true when only this file's paths change. */
  lemma RestFrame(job: Job, a: Files, b: Files, staged: seq<StagedFile>, homes: seq<Option<Path>>, next: nat, i: nat, extra: set<Path>)
    requires ValidJob(job) && Forward(job, a, staged, homes, next) && i < |staged|
    requires SameBut(a, b, {staged[i].target, staged[i].tmp} + extra)
    requires forall p :: p in extra ==> p.Temp? && p.id >= next && p.id >= job.lo
    ensures Others(job, b)
    ensures forall j :: 0 <= j < |staged| && j != i ==> FileOk(job, b, staged[j], job.data[j])
    ensures forall j :: |staged| <= j < |job.targets| ==> Same(job.start, b, job.targets[j])
  {
    hide FileOk;
    var changed := {staged[i].target, staged[i].tmp} + extra;
    OthersFrame(job, a, b, changed);
    forall j | 0 <= j < |staged| && j != i ensures FileOk(job, b, staged[j], job.data[j]) {
      assert staged[j].target !in changed && staged[j].tmp !in changed;
      FileOkFrame(job, a, b, staged[j], job.data[j], changed);
    }
    forall j | |staged| <= j < |job.targets| ensures Same(job.start, b, job.targets[j]) {
      assert job.targets[j] !in changed;
      assert Same(a, b, job.targets[j]);
    }
  }

  lemma StageStep(job: Job, files: Files, staged: seq<StagedFile>, homes: seq<Option<Path>>, next: nat)
    requires ValidJob(job) && Forward(job, files, staged, homes, next)
    requires |staged| < |job.targets| && job.lo <= next
    ensures var i := |staged|;
      var s := StagedFile(job.targets[i], Temp(next), None, false);
      Forward(job, files[Temp(next) := job.data[i]], staged + [s], homes, next + 1)
  {
    hide FileOk;
    var i := |staged|;
    var s := StagedFile(job.targets[i], Temp(next), None, false);
    var now := staged + [s];
    var after := files[Temp(next) := job.data[i]];
    OthersFrame(job, files, after, {Temp(next)});
    forall j | 0 <= j < |staged| ensures FileOk(job, after, staged[j], job.data[j]) {
      FileOkFrame(job, files, after, staged[j], job.data[j], {Temp(next)});
    }
    assert Same(job.start, files, job.targets[i]);
    assert FileOk(job, after, s, job.data[i]) by {
      NewFileOk(job, after, s, job.data[i]);
    }
    forall j | i < j < |job.targets| ensures Same(job.start, after, job.targets[j]) {
      assert Same(job.start, files, job.targets[j]);
    }
  }

  lemma NewFileOk(job: Job, files: Files, s: StagedFile, data: Content)
    requires s.backup.None? && !s.isNew && Same(job.start, files, s.target) && Holds(files, s.tmp, data)
    ensures FileOk(job, files, s, data)
  {
  }

  lemma BackupStep(job: Job, files: Files, staged: seq<StagedFile>, homes: seq<Option<Path>>, next: nat, i: nat)
    requires ValidJob(job) && Forward(job, files, staged, homes, next)
    requires i < |staged| && staged[i].backup.None? && !staged[i].isNew && staged[i].target in files && job.lo <= next
    ensures var b := Temp(next);
      Forward(job, files[b := files[staged[i].target]] - {staged[i].target}, staged[i := staged[i].(backup := Some(b))],
              homes[i := Some(b)], next + 1)
  {
    hide FileOk;
    var b := Temp(next);
    var after := files[b := files[staged[i].target]] - {staged[i].target};
    RestFrame(job, files, after, staged, homes, next, i, {b});
    BackedUpIsOk(job, files, staged[i], job.data[i], b);
    BackupShape(job, staged, homes, next, i);
  }

  lemma BackedUpIsOk(job: Job, files: Files, s: StagedFile, data: Content, b: Path)
    requires FileOk(job, files, s, data) && s.backup.None? && !s.isNew && s.target in files && b != s.target && b != s.tmp && s.tmp != s.target
    ensures FileOk(job, files[b := files[s.target]] - {s.target}, s.(backup := Some(b)), data)
  {
  }

  lemma BackupShape(job: Job, staged: seq<StagedFile>, homes: seq<Option<Path>>, next: nat, i: nat)
    requires Shape(job, staged, homes, next) && i < |staged| && job.lo <= next
    ensures Shape(job, staged[i := staged[i].(backup := Some(Temp(next)))], homes[i := Some(Temp(next))], next + 1)
  {
  }

  lemma InstallStep(job: Job, files: Files, staged: seq<StagedFile>, homes: seq<Option<Path>>, next: nat, i: nat)
    requires ValidJob(job) && Forward(job, files, staged, homes, next)
    requires i < |staged| && !staged[i].isNew && (staged[i].backup.None? ==> staged[i].target !in job.start)
    ensures staged[i].tmp in files
    ensures Forward(job, files[staged[i].target := files[staged[i].tmp]] - {staged[i].tmp}, staged[i := staged[i].(isNew := true)], homes, next)
  {
    hide FileOk;
    InstalledIsOk(job, files, staged[i], job.data[i]);
    var after := files[staged[i].target := files[staged[i].tmp]] - {staged[i].tmp};
    RestFrame(job, files, after, staged, homes, next, i, {});
  }

  lemma InstalledIsOk(job: Job, files: Files, s: StagedFile, data: Content)
    requires FileOk(job, files, s, data) && !s.isNew && (s.backup.None? ==> s.target !in job.start)
    requires s.tmp != s.target && (s.backup.Some? ==> s.backup.value != s.target && s.backup.value != s.tmp)
    ensures s.tmp in files
    ensures FileOk(job, files[s.target := files[s.tmp]] - {s.tmp}, s.(isNew := true), data)
  {
  }

  // ---------------------------------------------------------------- no file unaccounted for

  lemma AccountedGrows(job: Job, files: Files, staged: seq<StagedFile>, after: Files, now: seq<StagedFile>)
    requires Accounted(job, files, staged) && |now| >= |staged|
    requires forall j :: 0 <= j < |staged| ==> now[j].tmp == staged[j].tmp && (staged[j].backup.Some? ==> now[j].backup == staged[j].backup)
    requires forall p :: p in after && p.Temp? && p !in files ==>
      exists j :: 0 <= j < |now| && (p == now[j].tmp || Some(p) == now[j].backup)
    ensures Accounted(job, after, now)
  {
    forall p | p in after && p.Temp? && p.id >= job.lo ensures exists j :: 0 <= j < |now| && (p == now[j].tmp || Some(p) == now[j].backup) {
      if p in files {
        var j :| 0 <= j < |staged| && (p == staged[j].tmp || Some(p) == staged[j].backup);
        assert p == now[j].tmp || Some(p) == now[j].backup;
      }
    }
  }

  // ---------------------------------------------------------------- the phases

  /** Safe before and after an operation, so safe at every moment logged. */
  ghost predicate Going(job: Job, fs: FileSystem, staged: seq<StagedFile>, homes: seq<Option<Path>>, since: nat)
    reads fs
  {
    && ValidJob(job) && fs.Valid() && job.lo <= fs.next
    && Forward(job, fs.files, staged, homes, fs.next) && AllSafe(job, fs.log, since, homes)
  }

  lemma OneMoreState(job: Job, before: seq<Files>, log: seq<Files>, since: nat, homes: seq<Option<Path>>)
    requires |homes| == |job.targets| && AllSafe(job, before, since, homes) && before <= log
    requires forall k :: |before| <= k < |log| ==> Safe(job, log[k], homes)
    ensures AllSafe(job, log, since, homes)
  {
    forall k | since <= k < |log| ensures Safe(job, log[k], homes) {
      if k < |before| {
        assert before[k] == log[k];
      }
    }
  }

  /** States that differ in new temporary files only are as safe as the one before. */
  lemma TempStates(job: Job, files: Files, before: seq<Files>, log: seq<Files>, since: nat, homes: seq<Option<Path>>, temps: set<Path>)
    requires ValidJob(job) && |homes| == |job.targets| && Safe(job, files, homes) && AllSafe(job, before, since, homes) && before <= log
    requires LoggedBut(log, |before|, files, temps) && forall p :: p in temps ==> p.Temp? && Some(p) !in homes
    ensures AllSafe(job, log, since, homes)
  {
    forall k | |before| <= k < |log| ensures Safe(job, log[k], homes) {
      TempsAreSafe(job, files, log[k], homes, temps);
    }
    OneMoreState(job, before, log, since, homes);
  }

  /** A new temporary file disturbs no record. */
  lemma ForwardFrame(job: Job, a: Files, b: Files, staged: seq<StagedFile>, homes: seq<Option<Path>>, next: nat, now: nat)
    requires ValidJob(job) && Forward(job, a, staged, homes, next) && job.lo <= next <= now && SameBut(a, b, {Temp(next)})
    ensures Forward(job, b, staged, homes, now)
  {
    hide FileOk;
    OthersFrame(job, a, b, {Temp(next)});
    forall j | 0 <= j < |staged| ensures FileOk(job, b, staged[j], job.data[j]) {
      FileOkFrame(job, a, b, staged[j], job.data[j], {Temp(next)});
    }
    forall j | |staged| <= j < |job.targets| ensures Same(job.start, b, job.targets[j]) {
      assert Same(a, b, job.targets[j]);
    }
  }

  lemma NewNameIsNoHome(job: Job, staged: seq<StagedFile>, homes: seq<Option<Path>>, next: nat)
    requires Shape(job, staged, homes, next)
    ensures Some(Temp(next)) !in homes
  {
  }

  /** The states while target i moves to its backup. */
  lemma BackupStates(job: Job, files: Files, before: seq<Files>, after: Files, log: seq<Files>, since: nat, homes: seq<Option<Path>>, i: nat,
                     next: nat)
    requires ValidJob(job) && |homes| == |job.targets| && i < |homes| && homes[i].None? && Some(Temp(next)) !in homes
    requires Safe(job, files, homes) && AllSafe(job, before, since, homes) && before <= log
    requires Safe(job, after, homes[i := Some(Temp(next))])
    requires forall k :: |before| <= k < |log| ==> SameBut(files, log[k], {Temp(next)}) || log[k] == after
    ensures AllSafe(job, log, since, homes[i := Some(Temp(next))])
  {
    var more := homes[i := Some(Temp(next))];
    SafeWithMoreHomes(job, before, since, homes, i, Temp(next));
    forall k | |before| <= k < |log| ensures Safe(job, log[k], more) {
      if log[k] != after {
        TempsAreSafe(job, files, log[k], homes, {Temp(next)});
      }
    }
    OneMoreState(job, before, log, since, more);
  }

  /** The records of one batch, updated as it goes. */
  class Batch {
    const fs: FileSystem
    var staged: seq<StagedFile>
    ghost var homes: seq<Option<Path>>

    constructor (fs: FileSystem, ghost targets: seq<Path>)
      ensures this.fs == fs && staged == [] && homes == seq(|targets|, i => None)
    {
      this.fs := fs;
      staged := [];
      homes := seq(|targets|, i => None);
    }

    /** Every file complete beside its target, before anything else happens. */
    method Stage(targets: seq<Path>, data: seq<Content>, ghost job: Job, ghost since: nat) returns (ok: bool, ghost stray: set<Path>)
      requires Going(job, fs, staged, homes, since) && staged == [] && targets == job.targets && data == job.data
      requires Accounted(job, fs.files, staged)
      modifies this`staged, fs
      ensures Going(job, fs, staged, homes, since) && old(fs.log) <= fs.log
      ensures forall i :: 0 <= i < |staged| ==> staged[i].backup.None? && !staged[i].isNew
      ensures ok ==> |staged| == |targets| && Accounted(job, fs.files, staged)
      ensures Counts(old(fs.failures), fs.failures, ok)
      ensures !ok ==> Owed(job, fs.files, staged, 0, |staged|, 0, stray) && fs.failures >= old(fs.failures) + 1 + |stray|
    {
      hide Forward, Accounted, AllSafe, Owed;
      stray := {};
      for i := 0 to |targets|
        invariant Going(job, fs, staged, homes, since) && old(fs.log) <= fs.log
        invariant |staged| == i && Accounted(job, fs.files, staged) && fs.failures == old(fs.failures)
        invariant forall i :: 0 <= i < |staged| ==> staged[i].backup.None? && !staged[i].isNew
      {
        ghost var files, log, next := fs.files, fs.log, fs.next;
        ForwardParts(job, files, staged, homes, next);
        NewNameIsNoHome(job, staged, homes, next);
        var tmp := StageFile(fs, data[i]);
        TempStates(job, files, log, fs.log, since, homes, {Temp(next)});
        if tmp.None? {
          ForwardFrame(job, files, fs.files, staged, homes, next, fs.next);
          stray := if fs.files == files then {} else {Temp(next)};
          StrayIsOwed(job, files, fs.files, staged, next);
          return false, stray;
        }
        StageStep(job, files, staged, homes, next);
        var s := StagedFile(targets[i], tmp.value, None, false);
        assert s == (staged + [s])[i];
        AccountedGrows(job, files, staged, fs.files, staged + [s]);
        staged := staged + [s];
      }
      ok := true;
    }

    /** One target, if it exists, moves to its backup. */
    method BackUpOne(i: nat, ghost job: Job, ghost since: nat) returns (ok: bool, ghost stray: set<Path>)
      requires Going(job, fs, staged, homes, since) && i < |staged| && Accounted(job, fs.files, staged)
      requires staged[i].backup.None? && !staged[i].isNew
      modifies this, fs
      ensures Going(job, fs, staged, homes, since) && old(fs.log) <= fs.log
      ensures |staged| == |old(staged)| && staged == old(staged)[i := old(staged)[i].(backup := staged[i].backup)]
      ensures ok ==> Accounted(job, fs.files, staged) && (staged[i].backup.None? ==> staged[i].target !in job.start)
      ensures Counts(old(fs.failures), fs.failures, ok)
      ensures !ok ==> Owed(job, fs.files, staged, 0, |staged|, 0, stray) && fs.failures >= old(fs.failures) + 1 + |stray|
    {
      hide Forward, Accounted, AllSafe, Owed, SameBut, Safe, Others;
      stray := {};
      ForwardParts(job, fs.files, staged, homes, fs.next);
      ForwardFile(job, fs.files, staged, homes, fs.next, i);
      StrayIsOwed(job, fs.files, fs.files, staged, fs.next);
      var status := fs.Lstat(staged[i].target);
      if !status.Present? {
        return status.Absent?, {};
      }
      ghost var files, log, next := fs.files, fs.log, fs.next;
      NewNameIsNoHome(job, staged, homes, next);
      var backup := BackupTarget(fs, staged[i].target);
      if backup.None? {
        TempStates(job, files, log, fs.log, since, homes, {Temp(next)});
        ForwardFrame(job, files, fs.files, staged, homes, next, fs.next);
        stray := if fs.files == files then {} else {Temp(next)};
        StrayIsOwed(job, files, fs.files, staged, next);
        return false, stray;
      }
      BackupStep(job, files, staged, homes, next, i);
      ghost var was := staged;
      staged := staged[i := staged[i].(backup := backup)];
      assert Some(Temp(next)) == staged[i].backup;
      AccountedGrows(job, files, was, fs.files, staged);
      ForwardIsSafe(job, fs.files, staged, homes[i := backup], fs.next);
      BackupStates(job, files, log, fs.files, fs.log, since, homes, i, next);
      homes := homes[i := backup];
      ok := true;
    }

    /** Existing targets move to their backups. */
    method BackUp(ghost job: Job, ghost since: nat) returns (ok: bool, ghost stray: set<Path>)
      requires Going(job, fs, staged, homes, since) && |staged| == |job.targets| && Accounted(job, fs.files, staged)
      requires forall i :: 0 <= i < |staged| ==> staged[i].backup.None? && !staged[i].isNew
      modifies this, fs
      ensures Going(job, fs, staged, homes, since) && |staged| == |job.targets| && old(fs.log) <= fs.log
      ensures ok ==> Accounted(job, fs.files, staged)
      ensures ok ==> forall i :: 0 <= i < |staged| ==> !staged[i].isNew && (staged[i].backup.None? ==> staged[i].target !in job.start)
      ensures Counts(old(fs.failures), fs.failures, ok)
      ensures !ok ==> Owed(job, fs.files, staged, 0, |staged|, 0, stray) && fs.failures >= old(fs.failures) + 1 + |stray|
    {
      hide Forward, Accounted, AllSafe, Owed;
      stray := {};
      for i := 0 to |staged|
        invariant Going(job, fs, staged, homes, since) && old(fs.log) <= fs.log && fs.failures == old(fs.failures)
        invariant |staged| == |job.targets| && Accounted(job, fs.files, staged)
        invariant forall j :: 0 <= j < i ==> !staged[j].isNew && (staged[j].backup.None? ==> staged[j].target !in job.start)
        invariant forall j :: i <= j < |staged| ==> staged[j].backup.None? && !staged[j].isNew
      {
        var done;
        done, stray := BackUpOne(i, job, since);
        if !done {
          return false, stray;
        }
      }
      ok := true;
    }

    /** The staged files take their targets' places. */
    method Install(ghost job: Job, ghost since: nat) returns (ok: bool)
      requires Going(job, fs, staged, homes, since) && |staged| == |job.targets| && Accounted(job, fs.files, staged)
      requires forall i :: 0 <= i < |staged| ==> !staged[i].isNew && (staged[i].backup.None? ==> staged[i].target !in job.start)
      modifies this`staged, fs
      ensures Going(job, fs, staged, homes, since) && |staged| == |job.targets| && old(fs.log) <= fs.log
      ensures Accounted(job, fs.files, staged) && (ok ==> forall i :: 0 <= i < |staged| ==> staged[i].isNew)
      ensures Counts(old(fs.failures), fs.failures, ok)
    {
      hide Forward, Accounted, AllSafe;
      for i := 0 to |staged|
        invariant Going(job, fs, staged, homes, since) && old(fs.log) <= fs.log && fs.failures == old(fs.failures)
        invariant |staged| == |job.targets| && Accounted(job, fs.files, staged)
        invariant forall j :: 0 <= j < i ==> staged[j].isNew
        invariant forall j :: i <= j < |staged| ==> !staged[j].isNew && (staged[j].backup.None? ==> staged[j].target !in job.start)
      {
        ghost var files, log := fs.files, fs.log;
        ForwardParts(job, files, staged, homes, fs.next);
        InstallStep(job, files, staged, homes, fs.next, i);
        var moved := fs.Rename(staged[i].tmp, staged[i].target);
        if moved {
          ghost var was := staged;
          staged := staged[i := staged[i].(isNew := true)];
          AccountedGrows(job, files, was, fs.files, staged);
          ForwardIsSafe(job, fs.files, staged, homes, fs.next);
        }
        OneMoreState(job, log, fs.log, since, homes);
        if !moved {
          return false;
        }
      }
      ok := true;
    }

    /** Undo, first part: installed files go; failures are counted, not fatal. */
    method RemoveInstalled(ghost job: Job, ghost since: nat, ghost stray: set<Path>) returns (complete: bool, ghost kept: set<Path>)
      requires Going(job, fs, staged, homes, since) && |staged| == |job.targets|
      requires Owed(job, fs.files, staged, 0, |staged|, 0, stray)
      modifies fs
      ensures fs.Valid() && Rolling(job, fs.files, staged, homes, fs.next)
      ensures AllSafe(job, fs.log, since, homes) && old(fs.log) <= fs.log
      ensures fs.failures >= old(fs.failures) && (complete || fs.failures > old(fs.failures))
      ensures complete ==> forall j :: 0 <= j < |staged| ==> Undone(job, fs.files, staged[j])
      ensures Owed(job, fs.files, staged, 0, |staged|, 0, kept) && |kept| <= |stray| + fs.failures - old(fs.failures)
    {
      hide Forward, AllSafe, RollOk, Safe, Others, Owed, SameBut, Same;
      complete, kept := true, stray;
      ForwardRolls(job, fs.files, staged, homes, fs.next);
      for i := 0 to |staged|
        invariant fs.Valid() && Rolling(job, fs.files, staged, homes, fs.next)
        invariant AllSafe(job, fs.log, since, homes) && old(fs.log) <= fs.log
        invariant fs.failures >= old(fs.failures) && (complete || fs.failures > old(fs.failures))
        invariant Owed(job, fs.files, staged, 0, |staged|, 0, kept)
        invariant |kept| <= |stray| + fs.failures - old(fs.failures)
        invariant complete ==> forall j :: 0 <= j < i ==> Undone(job, fs.files, staged[j])
      {
        ghost var files, log := fs.files, fs.log;
        NotNewIsUndone(job, files, staged, homes, fs.next, i);
        if staged[i].isNew {
          var r := fs.Remove(staged[i].target);
          if r.RemoveFailed? {
            complete := false;
          }
          OwedShrinks(job, files, fs.files, staged, 0, |staged|, 0, kept);
          RemoveRolls(job, files, fs.files, staged, homes, fs.next, i);
          RollingIsSafe(job, fs.files, staged, homes, fs.next);
          OneMoreState(job, log, fs.log, since, homes);
        }
      }
    }

    /** Undo: installed files go, backups return in reverse order. */
    method Rollback(ghost job: Job, ghost since: nat, ghost stray: set<Path>) returns (complete: bool, ghost kept: set<Path>)
      requires Going(job, fs, staged, homes, since) && |staged| == |job.targets|
      requires Owed(job, fs.files, staged, 0, |staged|, 0, stray)
      modifies this`staged, fs
      ensures ValidJob(job) && fs.Valid() && Shape(job, staged, homes, fs.next) && Others(job, fs.files)
      ensures AllSafe(job, fs.log, since, homes) && Safe(job, fs.files, homes) && old(fs.log) <= fs.log
      ensures |staged| == |job.targets|
      ensures fs.failures >= old(fs.failures) && (complete || fs.failures > old(fs.failures))
      ensures complete ==> forall i :: 0 <= i < |job.targets| ==> Same(job.start, fs.files, job.targets[i])
      ensures Owed(job, fs.files, staged, 0, 0, 0, kept) && |kept| <= |stray| + fs.failures - old(fs.failures)
    {
      hide Forward, AllSafe, RollOk, Safe, Others, Owed, SameBut, Same;
      complete, kept := RemoveInstalled(job, since, stray);
      var i := |staged|;
      while i > 0
        invariant 0 <= i <= |staged| == |job.targets| && fs.Valid() && Rolling(job, fs.files, staged, homes, fs.next)
        invariant AllSafe(job, fs.log, since, homes) && old(fs.log) <= fs.log
        invariant fs.failures >= old(fs.failures) && (complete || fs.failures > old(fs.failures))
        invariant complete ==> forall j :: 0 <= j < |staged| ==> Undone(job, fs.files, staged[j])
        invariant complete ==> forall j :: i <= j < |staged| ==> staged[j].backup.None?
        invariant Owed(job, fs.files, staged, 0, i, 0, kept) && |kept| <= |stray| + fs.failures - old(fs.failures)
      {
        i := i - 1;
        if staged[i].backup.Some? {
          ghost var files, log, was := fs.files, fs.log, staged;
          BackupIsThere(job, files, staged, homes, fs.next, i);
          var moved := fs.Rename(staged[i].backup.value, staged[i].target);
          if moved {
            staged := staged[i := staged[i].(backup := None)];
            RestoreRolls(job, files, fs.files, was, homes, fs.next, i);
            RestoredIsPaid(job, files, fs.files, was, i, kept);
          } else {
            complete := false;
            OwedPasses(job, files, staged, 0, i, kept);
            kept := kept + {staged[i].backup.value};
          }
          RollingIsSafe(job, fs.files, staged, homes, fs.next);
          OneMoreState(job, log, fs.log, since, homes);
        } else {
          NothingOwed(job, fs.files, staged, 0, i, kept);
        }
      }
      RollingIsSafe(job, fs.files, staged, homes, fs.next);
      forall j | complete && 0 <= j < |job.targets| ensures Same(job.start, fs.files, job.targets[j]) {
        assert Undone(job, fs.files, staged[j]);
      }
    }

    /** After the commit point only the backups go; a failure is reported and changes nothing else. */
    method CleanBackups(ghost job: Job) returns (clean: bool, ghost kept: set<Path>)
      requires ValidJob(job) && fs.Valid() && Forward(job, fs.files, staged, homes, fs.next) && |staged| == |job.targets|
      requires Accounted(job, fs.files, staged) && forall i :: 0 <= i < |staged| ==> staged[i].isNew
      modifies this`staged, fs
      ensures fs.Valid() && Written(job, fs.files, staged, homes, fs.next) && old(fs.log) <= fs.log
      ensures clean ==> forall p :: p in fs.files && p.Temp? ==> p.id < job.lo
      ensures Counts(old(fs.failures), fs.failures, clean)
      ensures Owed(job, fs.files, staged, 0, 0, 0, kept) && |kept| <= fs.failures - old(fs.failures)
    {
      hide Forward, Accounted, Written, Owed;
      clean, kept := true, {};
      StrayIsOwed(job, fs.files, fs.files, staged, fs.next);
      ForwardIsWritten(job, fs.files, staged, homes, fs.next);
      for i := 0 to |staged|
        invariant |staged| == |job.targets| && fs.Valid() && Written(job, fs.files, staged, homes, fs.next)
        invariant Accounted(job, fs.files, staged) && old(fs.log) <= fs.log && Counts(old(fs.failures), fs.failures, clean)
        invariant clean ==> forall j :: 0 <= j < i ==> staged[j].backup.None?
        invariant Owed(job, fs.files, staged, i, |staged|, 0, kept) && |kept| <= fs.failures - old(fs.failures)
      {
        if staged[i].backup.Some? {
          ghost var files := fs.files;
          BackupExists(job, files, staged, homes, fs.next, i);
          var r := fs.Remove(staged[i].backup.value);
          if r.Removed? {
            BackupGoes(job, files, staged, homes, fs.next, i);
            RemovedIsPaid(job, files, staged, i, kept);
            staged := staged[i := staged[i].(backup := None)];
          } else {
            clean := false;
            OwedPassesUp(job, files, staged, i, kept);
            kept := kept + {staged[i].backup.value};
          }
        } else {
          NothingOwedUp(job, fs.files, staged, i, kept);
        }
      }
      NothingOwedBetween(job, fs.files, staged, kept);
      if clean {
        NothingLeft(job, fs.files, staged, homes, fs.next);
      }
    }

    /** The deferred clean-up: whatever staged files are left go, failures are ignored. */
    method Discard(ghost job: Job, ghost owed: set<Path>) returns (ghost kept: set<Path>)
      requires fs.Valid() && forall i :: 0 <= i < |staged| ==> staged[i].tmp.Temp?
      requires Owed(job, fs.files, staged, 0, 0, 0, owed)
      modifies fs
      ensures NewTemps(fs.files, job.lo) <= kept && |kept| <= |owed| + fs.failures - old(fs.failures)
      ensures fs.Valid() && fs.next == old(fs.next) && old(fs.log) <= fs.log
      ensures SameBut(old(fs.files), fs.files, Tmps(staged)) && fs.files.Keys <= old(fs.files).Keys
      ensures LoggedBut(fs.log, |old(fs.log)|, old(fs.files), Tmps(staged)) && fs.failures >= old(fs.failures)
    {
      hide Owed;
      kept := owed;
      for i := 0 to |staged|
        invariant Owed(job, fs.files, staged, 0, 0, i, kept) && |kept| <= |owed| + fs.failures - old(fs.failures)
        invariant fs.Valid() && fs.next == old(fs.next) && old(fs.log) <= fs.log
        invariant SameBut(old(fs.files), fs.files, Tmps(staged)) && fs.files.Keys <= old(fs.files).Keys
        invariant LoggedBut(fs.log, |old(fs.log)|, old(fs.files), Tmps(staged)) && fs.failures >= old(fs.failures)
      {
        assert staged[i].tmp in Tmps(staged);
        ghost var files := fs.files;
        var r := fs.Remove(staged[i].tmp);
        TmpIsPaid(job, files, fs.files, staged, i, kept);
        if r.RemoveFailed? {
          kept := kept + {staged[i].tmp};
        }
      }
      AllPaid(job, fs.files, staged, kept);
    }
  }

  ghost function Tmps(staged: seq<StagedFile>): set<Path> {
    set i | 0 <= i < |staged| :: staged[i].tmp
  }

  // ---------------------------------------------------------------- the batch

  /** How a call ends: all written; all written, but a backup is still there; an error, after a complete
      or an incomplete rollback. */
  datatype Outcome = Committed | CommittedDirty | Failed(rolledBack: bool)

  ghost function Names(names: seq<string>): (paths: seq<Path>)
    ensures |paths| == |names| && forall i :: 0 <= i < |names| ==> paths[i] == Named(names[i])
  {
    seq(|names|, i requires 0 <= i < |names| => Named(names[i]))
  }

  /** Every target has its new content and everything else is as it was. */
  ghost predicate Replaced(job: Job, files: Files)
    requires |job.data| == |job.targets|
  {
    && (forall i :: 0 <= i < |job.targets| ==> Holds(files, job.targets[i], job.data[i]))
    && (forall p :: p !in job.targets ==> Same(job.start, files, p))
  }

  /** Backups have new names, no two the same. */
  ghost predicate GoodHomes(job: Job, homes: seq<Option<Path>>) {
    && |homes| == |job.targets|
    && (forall i :: 0 <= i < |homes| && homes[i].Some? ==> homes[i].value.Temp? && homes[i].value.id >= job.lo)
    && (forall i, j :: 0 <= i < j < |homes| && homes[i].Some? ==> homes[i] != homes[j])
  }

  /** What the whole call guarantees. The originals are safe in every state logged before the commit
      point, and in all states when the call fails. */
  ghost predicate AllOrNothing(job: Job, files: Files, log: seq<Files>, since: nat, commit: nat, homes: seq<Option<Path>>, outcome: Outcome)
    requires |job.data| == |job.targets|
  {
    && GoodHomes(job, homes) && Others(job, files)
    && since <= commit <= |log| && (forall k :: since <= k < commit ==> Safe(job, log[k], homes))
    && match outcome
       case Committed => Replaced(job, files)
       case CommittedDirty => forall i :: 0 <= i < |job.targets| ==> Holds(files, job.targets[i], job.data[i])
       case Failed(rolledBack) =>
         && commit == |log| && Safe(job, files, homes)
         && (rolledBack ==> forall i :: 0 <= i < |job.targets| ==> Same(job.start, files, job.targets[i]))
  }

  lemma GoingAtFirst(job: Job, fs: FileSystem, homes: seq<Option<Path>>)
    requires ValidJob(job) && fs.Valid() && job.start == fs.files && job.lo == fs.next && homes == seq(|job.targets|, i => None)
    ensures Going(job, fs, [], homes, |fs.log|) && Accounted(job, fs.files, [])
  {
  }

  lemma HomesAreGood(job: Job, staged: seq<StagedFile>, homes: seq<Option<Path>>, next: nat)
    requires Shape(job, staged, homes, next)
    ensures GoodHomes(job, homes)
    ensures forall p :: p in Tmps(staged) ==> p.Temp? && p.id >= job.lo && Some(p) !in homes
  {
  }

  /** An error before the commit point: discard, and keep what the rollback achieved. */
  lemma FailureIsSafe(job: Job, before: Files, after: Files, log: seq<Files>, logNow: seq<Files>, since: nat, staged: seq<StagedFile>,
                      homes: seq<Option<Path>>, next: nat, rolledBack: bool)
    requires ValidJob(job) && Shape(job, staged, homes, next) && Others(job, before) && Safe(job, before, homes)
    requires AllSafe(job, log, since, homes) && log <= logNow
    requires SameBut(before, after, Tmps(staged)) && LoggedBut(logNow, |log|, before, Tmps(staged))
    requires rolledBack ==> forall i :: 0 <= i < |job.targets| ==> Same(job.start, before, job.targets[i])
    ensures AllOrNothing(job, after, logNow, since, |logNow|, homes, Failed(rolledBack))
  {
    hide Shape, Safe;
    HomesAreGood(job, staged, homes, next);
    TempsAreSafe(job, before, after, homes, Tmps(staged));
    TempStates(job, before, log, logNow, since, homes, Tmps(staged));
    OthersFrame(job, before, after, Tmps(staged));
    forall i | rolledBack && 0 <= i < |job.targets| ensures Same(job.start, after, job.targets[i]) {
      assert Same(job.start, before, job.targets[i]);
      assert Same(before, after, job.targets[i]);
    }
  }

  /** After the commit point: discarding finds nothing of the batch's own. */
  lemma CommitHolds(job: Job, before: Files, after: Files, log: seq<Files>, commit: nat, since: nat, staged: seq<StagedFile>,
                    homes: seq<Option<Path>>, next: nat, clean: bool)
    requires Written(job, before, staged, homes, next) && since <= commit <= |log|
    requires forall k :: since <= k < commit ==> Safe(job, log[k], homes)
    requires SameBut(before, after, Tmps(staged)) && after.Keys <= before.Keys
    requires clean ==> forall p :: p in before && p.Temp? ==> p.id < job.lo
    ensures AllOrNothing(job, after, log, since, commit, homes, if clean then Committed else CommittedDirty)
  {
    hide Shape, Safe;
    HomesAreGood(job, staged, homes, next);
    OthersFrame(job, before, after, Tmps(staged));
    forall i | 0 <= i < |job.targets| ensures Holds(after, job.targets[i], job.data[i]) {
      assert Same(before, after, job.targets[i]);
    }
    if clean {
      forall p | p !in job.targets ensures Same(job.start, after, p) {
        if p.Temp? && p.id >= job.lo {
          assert p !in after;
        } else {
          assert !Mine(job, p);
        }
      }
    }
  }

  /** Stage everything, back up, install; roll back on the first error before all targets are installed;
      then clean up. Whatever fails, all or nothing; if nothing fails, all; and a single failing operation
      never leaves an incomplete rollback. Every temporary file left behind is charged to a failed operation
      of its own besides the error itself, so a single failure leaves the file system as it was. */
  method WriteFilesAtomic(fs: FileSystem, names: seq<string>, data: seq<Content>)
    returns (outcome: Outcome, ghost homes: seq<Option<Path>>, ghost commit: nat)
    requires fs.Valid() && |names| == |data| && forall i, j :: 0 <= i < j < |names| ==> names[i] != names[j]
    modifies fs
    ensures fs.Valid()
    ensures AllOrNothing(Job(old(fs.files), old(fs.next), Names(names), data), fs.files, fs.log, |old(fs.log)|, commit, homes, outcome)
    ensures fs.failures == old(fs.failures) ==> outcome == Committed
    ensures outcome == Failed(false) ==> fs.failures >= old(fs.failures) + 2
    ensures |NewTemps(fs.files, old(fs.next))| + (if outcome.Failed? then 1 else 0) <= fs.failures - old(fs.failures)
    ensures outcome.Failed? && fs.failures == old(fs.failures) + 1 ==> fs.files == old(fs.files)
  {
    hide Owed, Forward, Accounted, AllSafe, Safe, Shape, Others, Written, AllOrNothing, SameBut, LoggedBut;
    var targets: seq<Path> := seq(|names|, i requires 0 <= i < |names| => Named(names[i]));
    ghost var job := Job(fs.files, fs.next, targets, data);
    ghost var since := |fs.log|;
    var batch := new Batch(fs, targets);
    GoingAtFirst(job, fs, batch.homes);
    ghost var stray: set<Path>, kept: set<Path>;
    var ok: bool;
    ok, stray := batch.Stage(targets, data, job, since);
    ghost var files, log;
    if !ok {
      files, log := fs.files, fs.log;
      ForwardParts(job, files, batch.staged, batch.homes, fs.next);
      UntouchedTargets(job, files, batch.staged, batch.homes, fs.next);
      StagedAreTemps(job, batch.staged, batch.homes, fs.next);
      NoBackupsOwed(job, files, batch.staged, stray);
      kept := batch.Discard(job, stray);
      FailureIsSafe(job, files, fs.files, log, fs.log, since, batch.staged, batch.homes, fs.next, true);
      SubsetSize(NewTemps(fs.files, job.lo), kept);
      NothingChanged(job, fs.files, fs.log, since, |fs.log|, batch.homes);
      return Failed(true), batch.homes, |fs.log|;
    }
    ok, stray := batch.BackUp(job, since);
    if ok {
      ok := batch.Install(job, since);
      stray := {};
      StrayIsOwed(job, fs.files, fs.files, batch.staged, fs.next);
    }
    if !ok {
      var complete;
      complete, kept := batch.Rollback(job, since, stray);
      files, log := fs.files, fs.log;
      StagedAreTemps(job, batch.staged, batch.homes, fs.next);
      ghost var recorded := batch.staged;
      kept := batch.Discard(job, kept);
      SubsetSize(NewTemps(fs.files, job.lo), kept);
      SameLength(job, recorded, batch.homes, fs.next);
      FailureIsSafe(job, files, fs.files, log, fs.log, since, recorded, batch.homes, fs.next, complete);
      if complete {
        NothingChanged(job, fs.files, fs.log, since, |fs.log|, batch.homes);
      }
      return Failed(complete), batch.homes, |fs.log|;
    }
    ghost var point := fs.log;
    var clean;
    clean, kept := batch.CleanBackups(job);
    files, log := fs.files, fs.log;
    WrittenAreTemps(job, files, batch.staged, batch.homes, fs.next);
    kept := batch.Discard(job, kept);
    SubsetSize(NewTemps(fs.files, job.lo), kept);
    StillSafe(job, point, fs.log, since, batch.homes);
    CommitHolds(job, files, fs.files, fs.log, |point|, since, batch.staged, batch.homes, fs.next, clean);
    return if clean then Committed else CommittedDirty, batch.homes, |point|;
  }

  lemma StagedAreTemps(job: Job, staged: seq<StagedFile>, homes: seq<Option<Path>>, next: nat)
    requires Shape(job, staged, homes, next)
    ensures forall i :: 0 <= i < |staged| ==> staged[i].tmp.Temp?
  {
  }

  lemma SameLength(job: Job, staged: seq<StagedFile>, homes: seq<Option<Path>>, next: nat)
    requires Shape(job, staged, homes, next)
    ensures |staged| <= |job.targets| == |homes|
  {
  }

  lemma WrittenAreTemps(job: Job, files: Files, staged: seq<StagedFile>, homes: seq<Option<Path>>, next: nat)
    requires Written(job, files, staged, homes, next)
    ensures forall i :: 0 <= i < |staged| ==> staged[i].tmp.Temp?
    ensures |homes| == |job.targets|
  {
  }

  lemma StillSafe(job: Job, before: seq<Files>, log: seq<Files>, since: nat, homes: seq<Option<Path>>)
    requires |homes| == |job.targets| && AllSafe(job, before, since, homes) && before <= log
    ensures since <= |before| <= |log| && forall k :: since <= k < |before| ==> Safe(job, log[k], homes)
  {
    assert forall k :: since <= k < |before| ==> before[k] == log[k];
  }

  lemma UntouchedTargets(job: Job, files: Files, staged: seq<StagedFile>, homes: seq<Option<Path>>, next: nat)
    requires ValidJob(job) && Forward(job, files, staged, homes, next)
    requires forall i :: 0 <= i < |staged| ==> staged[i].backup.None? && !staged[i].isNew
    ensures forall i :: 0 <= i < |job.targets| ==> Same(job.start, files, job.targets[i])
  {
    forall i | 0 <= i < |job.targets| ensures Same(job.start, files, job.targets[i]) {
      if i < |staged| {
        assert FileOk(job, files, staged[i], job.data[i]);
      }
    }
  }

  lemma ForwardParts(job: Job, files: Files, staged: seq<StagedFile>, homes: seq<Option<Path>>, next: nat)
    requires ValidJob(job) && Forward(job, files, staged, homes, next)
    ensures Shape(job, staged, homes, next) && Others(job, files) && Safe(job, files, homes)
    ensures forall i :: 0 <= i < |staged| ==> staged[i].target == job.targets[i] && staged[i].backup == homes[i]
  {
    ForwardIsSafe(job, files, staged, homes, next);
  }

  lemma ForwardFile(job: Job, files: Files, staged: seq<StagedFile>, homes: seq<Option<Path>>, next: nat, i: nat)
    requires ValidJob(job) && Forward(job, files, staged, homes, next) && i < |staged|
    ensures FileOk(job, files, staged[i], job.data[i])
  {
  }

  // ---------------------------------------------------------------- rolling back

  /** During a rollback: without a backup a target is as at the start or a new file; with one, the
      original is in it. */
  ghost predicate RollOk(job: Job, files: Files, s: StagedFile) {
    && (s.backup.None? ==> Same(job.start, files, s.target) || (s.isNew && s.target !in job.start))
    && (s.backup.Some? ==> s.target in job.start && Holds(files, s.backup.value, job.start[s.target]))
  }

  ghost predicate Rolling(job: Job, files: Files, staged: seq<StagedFile>, homes: seq<Option<Path>>, next: nat) {
    && ValidJob(job) && Shape(job, staged, homes, next) && Others(job, files) && |staged| == |job.targets|
    && forall i :: 0 <= i < |staged| ==> RollOk(job, files, staged[i])
  }

  ghost predicate Undone(job: Job, files: Files, s: StagedFile) {
    s.backup.None? ==> Same(job.start, files, s.target)
  }

  lemma ForwardRolls(job: Job, files: Files, staged: seq<StagedFile>, homes: seq<Option<Path>>, next: nat)
    requires ValidJob(job) && Forward(job, files, staged, homes, next) && |staged| == |job.targets|
    ensures Rolling(job, files, staged, homes, next)
    ensures forall i :: 0 <= i < |staged| && staged[i].isNew && staged[i].backup.None? ==> staged[i].target !in job.start
  {
    hide FileOk;
    forall i | 0 <= i < |staged|
      ensures RollOk(job, files, staged[i]) && (staged[i].isNew && staged[i].backup.None? ==> staged[i].target !in job.start)
    {
      FileRolls(job, files, staged[i], job.data[i]);
    }
  }

  lemma FileRolls(job: Job, files: Files, s: StagedFile, data: Content)
    requires FileOk(job, files, s, data)
    ensures RollOk(job, files, s) && (s.isNew && s.backup.None? ==> s.target !in job.start)
  {
  }

  lemma RollingIsSafe(job: Job, files: Files, staged: seq<StagedFile>, homes: seq<Option<Path>>, next: nat)
    requires Rolling(job, files, staged, homes, next)
    ensures Safe(job, files, homes)
  {
    forall i | 0 <= i < |homes| && job.targets[i] in job.start
      ensures Holds(files, job.targets[i], job.start[job.targets[i]])
              || (homes[i].Some? && Holds(files, homes[i].value, job.start[job.targets[i]]))
    {
      assert RollOk(job, files, staged[i]);
    }
  }

  lemma NotNewIsUndone(job: Job, files: Files, staged: seq<StagedFile>, homes: seq<Option<Path>>, next: nat, i: nat)
    requires Rolling(job, files, staged, homes, next) && i < |staged|
    ensures !staged[i].isNew ==> Undone(job, files, staged[i])
  {
    assert RollOk(job, files, staged[i]);
  }

  lemma RollOkFrame(job: Job, a: Files, b: Files, s: StagedFile, changed: set<Path>)
    requires RollOk(job, a, s) && SameBut(a, b, changed)
    requires s.target !in changed && (s.backup.Some? ==> s.backup.value !in changed)
    ensures RollOk(job, b, s) && (Undone(job, a, s) ==> Undone(job, b, s))
  {
    assert Same(a, b, s.target);
    if s.backup.Some? {
      assert Same(a, b, s.backup.value);
    }
  }

  /** Removing an installed file, or finding it gone, undoes it. */
  lemma RemoveRolls(job: Job, a: Files, b: Files, staged: seq<StagedFile>, homes: seq<Option<Path>>, next: nat, i: nat)
    requires Rolling(job, a, staged, homes, next) && i < |staged| && staged[i].isNew
    requires staged[i].backup.None? ==> staged[i].target !in job.start
    requires b == a || b == a - {staged[i].target}
    ensures Rolling(job, b, staged, homes, next)
    ensures staged[i].target !in b ==> Undone(job, b, staged[i])
    ensures forall j :: 0 <= j < |staged| && j != i && Undone(job, a, staged[j]) ==> Undone(job, b, staged[j])
  {
    hide RollOk, Undone;
    var changed := {staged[i].target};
    assert SameBut(a, b, changed);
    OthersFrame(job, a, b, changed);
    forall j | 0 <= j < |staged| && j != i ensures RollOk(job, b, staged[j]) && (Undone(job, a, staged[j]) ==> Undone(job, b, staged[j])) {
      assert staged[j].target != staged[i].target;
      RollOkFrame(job, a, b, staged[j], changed);
    }
    OwnRemoval(job, a, b, staged[i]);
  }

  lemma OwnRemoval(job: Job, a: Files, b: Files, s: StagedFile)
    requires RollOk(job, a, s) && s.isNew && s.target.Named? && (s.backup.Some? ==> s.backup.value.Temp?)
    requires b == a || b == a - {s.target}
    requires s.backup.None? ==> s.target !in job.start
    ensures RollOk(job, b, s) && (s.target !in b ==> Undone(job, b, s))
  {
  }

  lemma BackupIsThere(job: Job, files: Files, staged: seq<StagedFile>, homes: seq<Option<Path>>, next: nat, i: nat)
    requires Rolling(job, files, staged, homes, next) && i < |staged| && staged[i].backup.Some?
    ensures staged[i].backup.value in files && staged[i].backup.value.Temp? && staged[i].target.Named?
  {
    assert RollOk(job, files, staged[i]);
  }

  /** A backup that returns makes its target what it was. */
  lemma RestoreRolls(job: Job, a: Files, b: Files, staged: seq<StagedFile>, homes: seq<Option<Path>>, next: nat, i: nat)
    requires Rolling(job, a, staged, homes, next) && i < |staged| && staged[i].backup.Some? && staged[i].backup.value in a
    requires b == a[staged[i].target := a[staged[i].backup.value]] - {staged[i].backup.value}
    ensures var now := staged[i := staged[i].(backup := None)];
      && Rolling(job, b, now, homes, next) && Undone(job, b, now[i])
      && forall j :: 0 <= j < |staged| && j != i && Undone(job, a, staged[j]) ==> Undone(job, b, now[j])
  {
    hide RollOk, Undone;
    var changed := {staged[i].target, staged[i].backup.value};
    var now := staged[i := staged[i].(backup := None)];
    assert SameBut(a, b, changed);
    OthersFrame(job, a, b, changed);
    forall j | 0 <= j < |staged| && j != i ensures RollOk(job, b, staged[j]) && (Undone(job, a, staged[j]) ==> Undone(job, b, staged[j])) {
      assert staged[j].target != staged[i].target;
      if staged[j].backup.Some? {
        assert homes[j] != homes[i];
      }
      RollOkFrame(job, a, b, staged[j], changed);
    }
    OwnRestore(job, a, b, staged[i]);
  }

  lemma OwnRestore(job: Job, a: Files, b: Files, s: StagedFile)
    requires RollOk(job, a, s) && s.backup.Some? && s.target != s.backup.value && s.backup.value in a
    requires b == a[s.target := a[s.backup.value]] - {s.backup.value}
    ensures RollOk(job, b, s.(backup := None)) && Undone(job, b, s.(backup := None))
  {
  }

  // ---------------------------------------------------------------- after the commit point

  /** Every target holds its new content, no staged file is left, the rest is as it was. */
  ghost predicate Written(job: Job, files: Files, staged: seq<StagedFile>, homes: seq<Option<Path>>, next: nat) {
    && ValidJob(job) && Shape(job, staged, homes, next) && Others(job, files) && |staged| == |job.targets|
    && forall i :: 0 <= i < |staged| ==>
         && Holds(files, job.targets[i], job.data[i]) && staged[i].tmp !in files
         && (staged[i].backup.Some? ==> staged[i].backup.value in files)
  }

  lemma BackupExists(job: Job, files: Files, staged: seq<StagedFile>, homes: seq<Option<Path>>, next: nat, i: nat)
    requires Written(job, files, staged, homes, next) && i < |staged| && staged[i].backup.Some?
    ensures staged[i].backup.value in files
  {
  }

  lemma ForwardIsWritten(job: Job, files: Files, staged: seq<StagedFile>, homes: seq<Option<Path>>, next: nat)
    requires ValidJob(job) && Forward(job, files, staged, homes, next) && |staged| == |job.targets|
    requires forall i :: 0 <= i < |staged| ==> staged[i].isNew
    ensures Written(job, files, staged, homes, next)
  {
    forall i | 0 <= i < |staged|
      ensures Holds(files, job.targets[i], job.data[i]) && staged[i].tmp !in files
      ensures staged[i].backup.Some? ==> staged[i].backup.value in files
    {
      assert FileOk(job, files, staged[i], job.data[i]);
    }
  }

  lemma BackupGoes(job: Job, files: Files, staged: seq<StagedFile>, homes: seq<Option<Path>>, next: nat, i: nat)
    requires Written(job, files, staged, homes, next) && Accounted(job, files, staged) && i < |staged| && staged[i].backup.Some?
    ensures var after, now := files - {staged[i].backup.value}, staged[i := staged[i].(backup := None)];
      Written(job, after, now, homes, next) && Accounted(job, after, now)
  {
    var b := staged[i].backup.value;
    var after, now := files - {b}, staged[i := staged[i].(backup := None)];
    OthersFrame(job, files, after, {b});
    forall p | p in after && p.Temp? && p.id >= job.lo ensures exists j :: 0 <= j < |now| && (p == now[j].tmp || Some(p) == now[j].backup) {
      var j :| 0 <= j < |staged| && (p == staged[j].tmp || Some(p) == staged[j].backup);
      assert p == now[j].tmp || Some(p) == now[j].backup;
    }
  }

  lemma NothingLeft(job: Job, files: Files, staged: seq<StagedFile>, homes: seq<Option<Path>>, next: nat)
    requires Written(job, files, staged, homes, next) && Accounted(job, files, staged)
    requires forall j :: 0 <= j < |staged| ==> staged[j].backup.None?
    ensures forall p :: p in files && p.Temp? ==> p.id < job.lo
  {
    forall p | p in files && p.Temp? ensures p.id < job.lo {
      if p.id >= job.lo {
        var j :| 0 <= j < |staged| && (p == staged[j].tmp || Some(p) == staged[j].backup);
      }
    }
  }

  // ---------------------------------------------------------------- temporary files left behind

  ghost function NewTemps(files: Files, lo: nat): set<Path> {
    set p | p in files && p.Temp? && p.id >= lo
  }

  /** Every new temporary file is a staged file from number tmps on, the backup of a file in the range, or
      one whose removal has failed. */
  ghost predicate Owed(job: Job, files: Files, staged: seq<StagedFile>, from: nat, to: nat, tmps: nat, failed: set<Path>) {
    forall p :: p in files && p.Temp? && p.id >= job.lo ==>
      p in failed || IsTmp(staged, tmps, p) || IsBackup(staged, from, to, p)
  }

  ghost predicate IsTmp(staged: seq<StagedFile>, tmps: nat, p: Path) {
    exists j :: tmps <= j < |staged| && staged[j].tmp == p
  }

  ghost predicate IsBackup(staged: seq<StagedFile>, from: nat, to: nat, p: Path) {
    exists j :: from <= j < to && j < |staged| && staged[j].backup == Some(p)
  }

  lemma StrayIsOwed(job: Job, before: Files, after: Files, staged: seq<StagedFile>, next: nat)
    requires Accounted(job, before, staged) && (before == after || SameBut(before, after, {Temp(next)}))
    ensures Owed(job, after, staged, 0, |staged|, 0, if after == before then {} else {Temp(next)})
  {
    forall p | p in after && p.Temp? && p.id >= job.lo && p in before
      ensures IsTmp(staged, 0, p) || IsBackup(staged, 0, |staged|, p)
    {
      var j :| 0 <= j < |staged| && (p == staged[j].tmp || Some(p) == staged[j].backup);
    }
    assert forall p :: p == Temp(next) || Same(before, after, p);
  }

  lemma OwedShrinks(job: Job, a: Files, b: Files, staged: seq<StagedFile>, from: nat, to: nat, tmps: nat, failed: set<Path>)
    requires Owed(job, a, staged, from, to, tmps, failed) && forall p :: p in b && p.Temp? ==> p in a
    ensures Owed(job, b, staged, from, to, tmps, failed)
  {
  }

  /** A backup that has returned is no longer there. */
  lemma RestoredIsPaid(job: Job, a: Files, b: Files, staged: seq<StagedFile>, i: nat, failed: set<Path>)
    requires i < |staged| && staged[i].backup.Some? && staged[i].target.Named? && staged[i].backup.value in a
    requires Owed(job, a, staged, 0, i + 1, 0, failed)
    requires b == a[staged[i].target := a[staged[i].backup.value]] - {staged[i].backup.value}
    ensures Owed(job, b, staged[i := staged[i].(backup := None)], 0, i, 0, failed)
  {
    var now := staged[i := staged[i].(backup := None)];
    forall p | p in b && p.Temp? && p.id >= job.lo ensures p in failed || IsTmp(now, 0, p) || IsBackup(now, 0, i, p) {
      if IsTmp(staged, 0, p) {
        var j :| 0 <= j < |staged| && staged[j].tmp == p;
        assert now[j].tmp == p;
      } else if IsBackup(staged, 0, i + 1, p) {
        var j :| 0 <= j < i + 1 && j < |staged| && staged[j].backup == Some(p);
        assert now[j].backup == Some(p);
      }
    }
  }

  /** A backup that has not is charged to the failure. */
  lemma OwedPasses(job: Job, files: Files, staged: seq<StagedFile>, from: nat, i: nat, failed: set<Path>)
    requires i < |staged| && staged[i].backup.Some? && Owed(job, files, staged, from, i + 1, 0, failed)
    ensures Owed(job, files, staged, from, i, 0, failed + {staged[i].backup.value})
  {
    forall p | IsBackup(staged, from, i + 1, p) && p != staged[i].backup.value ensures IsBackup(staged, from, i, p) {
      var j :| from <= j < i + 1 && j < |staged| && staged[j].backup == Some(p);
    }
  }

  lemma NothingOwed(job: Job, files: Files, staged: seq<StagedFile>, from: nat, i: nat, failed: set<Path>)
    requires i < |staged| && staged[i].backup.None? && Owed(job, files, staged, from, i + 1, 0, failed)
    ensures Owed(job, files, staged, from, i, 0, failed)
  {
    forall p | IsBackup(staged, from, i + 1, p) ensures IsBackup(staged, from, i, p) {
      var j :| from <= j < i + 1 && j < |staged| && staged[j].backup == Some(p);
    }
  }

  lemma RemovedIsPaid(job: Job, files: Files, staged: seq<StagedFile>, i: nat, failed: set<Path>)
    requires i < |staged| && staged[i].backup.Some? && Owed(job, files, staged, i, |staged|, 0, failed)
    ensures Owed(job, files - {staged[i].backup.value}, staged[i := staged[i].(backup := None)], i + 1, |staged|, 0, failed)
  {
    var now, b := staged[i := staged[i].(backup := None)], staged[i].backup.value;
    forall p | p in files && p != b && p.Temp? && p.id >= job.lo ensures p in failed || IsTmp(now, 0, p) || IsBackup(now, i + 1, |now|, p) {
      if IsTmp(staged, 0, p) {
        var j :| 0 <= j < |staged| && staged[j].tmp == p;
        assert now[j].tmp == p;
      } else if IsBackup(staged, i, |staged|, p) {
        var j :| i <= j < |staged| && staged[j].backup == Some(p);
        assert now[j].backup == Some(p);
      }
    }
  }

  lemma OwedPassesUp(job: Job, files: Files, staged: seq<StagedFile>, i: nat, failed: set<Path>)
    requires i < |staged| && staged[i].backup.Some? && Owed(job, files, staged, i, |staged|, 0, failed)
    ensures Owed(job, files, staged, i + 1, |staged|, 0, failed + {staged[i].backup.value})
  {
    forall p | IsBackup(staged, i, |staged|, p) && p != staged[i].backup.value ensures IsBackup(staged, i + 1, |staged|, p) {
      var j :| i <= j < |staged| && staged[j].backup == Some(p);
    }
  }

  lemma NothingOwedUp(job: Job, files: Files, staged: seq<StagedFile>, i: nat, failed: set<Path>)
    requires i < |staged| && staged[i].backup.None? && Owed(job, files, staged, i, |staged|, 0, failed)
    ensures Owed(job, files, staged, i + 1, |staged|, 0, failed)
  {
    forall p | IsBackup(staged, i, |staged|, p) ensures IsBackup(staged, i + 1, |staged|, p) {
      var j :| i <= j < |staged| && staged[j].backup == Some(p);
    }
  }

  lemma NothingOwedBetween(job: Job, files: Files, staged: seq<StagedFile>, failed: set<Path>)
    requires Owed(job, files, staged, |staged|, |staged|, 0, failed)
    ensures Owed(job, files, staged, 0, 0, 0, failed)
  {
    assert forall p :: !IsBackup(staged, |staged|, |staged|, p);
  }

  lemma NoBackupsOwed(job: Job, files: Files, staged: seq<StagedFile>, failed: set<Path>)
    requires Owed(job, files, staged, 0, |staged|, 0, failed) && forall i :: 0 <= i < |staged| ==> staged[i].backup.None?
    ensures Owed(job, files, staged, 0, 0, 0, failed)
  {
    assert forall p :: !IsBackup(staged, 0, |staged|, p);
  }

  /** A staged file that is gone is paid for, one that could not be removed is charged. */
  lemma TmpIsPaid(job: Job, a: Files, b: Files, staged: seq<StagedFile>, i: nat, failed: set<Path>)
    requires i < |staged| && Owed(job, a, staged, 0, 0, i, failed) && (b == a || b == a - {staged[i].tmp})
    ensures staged[i].tmp !in b ==> Owed(job, b, staged, 0, 0, i + 1, failed)
    ensures Owed(job, b, staged, 0, 0, i + 1, failed + {staged[i].tmp})
  {
    forall p | IsTmp(staged, i, p) && p != staged[i].tmp ensures IsTmp(staged, i + 1, p) {
      var j :| i <= j < |staged| && staged[j].tmp == p;
    }
    assert forall p :: !IsBackup(staged, 0, 0, p);
  }

  lemma AllPaid(job: Job, files: Files, staged: seq<StagedFile>, failed: set<Path>)
    requires Owed(job, files, staged, 0, 0, |staged|, failed)
    ensures NewTemps(files, job.lo) <= failed
  {
    assert forall p :: !IsBackup(staged, 0, 0, p) && !IsTmp(staged, |staged|, p);
  }

  lemma {:induction false} SubsetSize(a: set<Path>, b: set<Path>)
    requires a <= b
    ensures |a| <= |b|
  {
    if a != {} {
      var p :| p in a;
      SubsetSize(a - {p}, b - {p});
    }
  }

  /** A complete rollback without new temporary files has changed nothing at all. */
  lemma NothingChanged(job: Job, files: Files, log: seq<Files>, since: nat, commit: nat, homes: seq<Option<Path>>)
    requires ValidJob(job) && AllOrNothing(job, files, log, since, commit, homes, Failed(true))
    ensures |NewTemps(files, job.lo)| == 0 ==> files == job.start
  {
    if |NewTemps(files, job.lo)| == 0 {
      forall p ensures Same(job.start, files, p) {
        if p.Temp? && p.id >= job.lo {
          assert p !in NewTemps(files, job.lo);
        } else if p in job.targets {
          var i :| 0 <= i < |job.targets| && job.targets[i] == p;
        } else {
          assert !Mine(job, p);
        }
      }
      SameEverywhere(job.start, files);
    }
  }
}
