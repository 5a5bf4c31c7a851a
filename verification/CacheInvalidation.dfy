/** Handles on the database and the cache keys they owe: inside a transaction deletions are recorded at
    one shared owner and happen after the commit. */
module CacheInvalidation {
  import opened Wrappers

  /** The cache server; deleted lists every key it was asked to delete, in order. */
  class Cache {
    var deleted: seq<string>

    constructor ()
      ensures deleted == []
    {
      deleted := [];
    }

    method Del(keys: seq<string>)
      modifies this
      ensures deleted == old(deleted) + keys
    {
      deleted := deleted + keys;
    }
  }

  /** The keys of the messages that have one. */
  function KeysOf(keys: seq<Option<string>>): seq<string> {
    if keys == [] then []
    else
      var before := KeysOf(keys[..|keys| - 1]);
      if keys[|keys| - 1].Some? then before + [keys[|keys| - 1].value] else before
  }

  predicate AllHaveKeys(keys: seq<Option<string>>) {
    forall i :: 0 <= i < |keys| ==> keys[i].Some?
  }

  class DB {
    const cache: Cache?
    const tx: bool
    const txOwner: DB?
    var pendingCacheDels: seq<string>

    constructor (cache: Cache?, tx: bool, txOwner: DB?)
      ensures this.cache == cache && this.tx == tx && this.txOwner == txOwner && pendingCacheDels == []
    {
      this.cache := cache;
      this.tx := tx;
      this.txOwner := txOwner;
      pendingCacheDels := [];
    }

    /** The handle a transaction's code is given: its own owner. */
    constructor Begin(cache: Cache?)
      ensures this.cache == cache && tx && txOwner == this && pendingCacheDels == []
    {
      this.cache := cache;
      this.tx := true;
      this.txOwner := this;
      pendingCacheDels := [];
    }

    /** Where a handle records its deletions. */
    function Owner(): DB
    {
      if txOwner != null then txOwner else this
    }

    /** A handle of the same transaction; it shares the owner, and a transaction handle without one
        becomes the owner of what it derives. */
    method WithContext() returns (d: DB)
      ensures fresh(d) && d.cache == cache && d.tx == tx && d.pendingCacheDels == []
      ensures d.txOwner == if tx && txOwner == null then this else txOwner
      ensures tx ==> d.Owner() == Owner()
    {
      var owner := txOwner;
      if tx && owner == null {
        owner := this;
      }
      d := new DB(cache, tx, owner);
    }

    /** Keys that are to go: recorded at the owner inside a transaction, deleted at once outside. */
    method Drop(keys: seq<string>)
      requires cache != null
      modifies Owner()`pendingCacheDels, cache
      ensures tx ==> Owner().pendingCacheDels == old(Owner().pendingCacheDels) + keys && cache.deleted == old(cache.deleted)
      ensures !tx ==> Owner().pendingCacheDels == old(Owner().pendingCacheDels) && cache.deleted == old(cache.deleted) + keys
    {
      if tx {
        var owner := Owner();
        owner.pendingCacheDels := owner.pendingCacheDels + keys;
      } else {
        cache.Del(keys);
      }
    }

    /** After a write: messages without a key take no part. */
    method InvalidateMessages(messages: seq<Option<string>>)
      modifies Owner()`pendingCacheDels, if cache == null then {} else {cache}
      ensures Dropped(old(Owner().pendingCacheDels), Owner().pendingCacheDels,
                      if cache == null then [] else old(cache.deleted), if cache == null then [] else cache.deleted,
                      if cache == null then [] else KeysOf(messages), tx)
    {
      if cache == null {
        return;
      }
      var keys: seq<string> := [];
      for i := 0 to |messages|
        invariant keys == KeysOf(messages[..i])
      {
        assert messages[..i + 1][..i] == messages[..i];
        if messages[i].Some? {
          keys := keys + [messages[i].value];
        }
      }
      assert messages[..|messages|] == messages;
      if keys == [] {
        return;
      }
      Drop(keys);
    }

    /** By hand: one message without a key and nothing is dropped. */
    method InvalidateCache(messages: seq<Option<string>>) returns (ok: bool)
      modifies Owner()`pendingCacheDels, if cache == null then {} else {cache}
      ensures ok <==> cache == null || AllHaveKeys(messages)
      ensures Dropped(old(Owner().pendingCacheDels), Owner().pendingCacheDels,
                      if cache == null then [] else old(cache.deleted), if cache == null then [] else cache.deleted,
                      if cache == null || !ok then [] else KeysOf(messages), tx)
    {
      if cache == null || messages == [] {
        return true;
      }
      var keys: seq<string> := [];
      for i := 0 to |messages|
        invariant AllHaveKeys(messages[..i]) && keys == KeysOf(messages[..i])
      {
        assert messages[..i + 1][..i] == messages[..i];
        if messages[i].None? {
          return false;
        }
        keys := keys + [messages[i].value];
      }
      assert messages[..|messages|] == messages;
      Drop(keys);
      ok := true;
    }
  }

  /** The keys went to the pending list inside a transaction, to the server outside. */
  predicate Dropped(pendingBefore: seq<string>, pending: seq<string>, deletedBefore: seq<string>, deleted: seq<string>,
                    keys: seq<string>, tx: bool)
  {
    && pending == (if tx then pendingBefore + keys else pendingBefore)
    && deleted == (if tx then deletedBefore else deletedBefore + keys)
  }

  // ---------------------------------------------------------------- one transaction

  /** What a transaction's code does with the handles it has: handle 0 is the one it was given, every
      Derive adds one; Outside is a write through the handle the transaction was started on. */
  datatype Action =
    | Derive(handle: nat)
    | Write(handle: nat, messages: seq<Option<string>>)
    | Manual(handle: nat, messages: seq<Option<string>>)
    | Outside(messages: seq<Option<string>>)

  function Handles(script: seq<Action>): nat {
    if script == [] then 1 else Handles(script[..|script| - 1]) + if script[|script| - 1].Derive? then 1 else 0
  }

  predicate InRange(a: Action, n: nat) {
    match a
    case Derive(h) => h < n
    case Write(h, _) => h < n
    case Manual(h, _) => h < n
    case Outside(_) => true
  }

  /** Every action uses a handle that exists by then. */
  ghost predicate WellFormed(script: seq<Action>) {
    forall i :: 0 <= i < |script| ==> InRange(script[i], Handles(script[..i]))
  }

  /** Keys recorded through any handle of the transaction, in order. */
  function Recorded(script: seq<Action>): seq<string> {
    if script == [] then []
    else
      Recorded(script[..|script| - 1]) +
      match script[|script| - 1]
      case Write(_, messages) => KeysOf(messages)
      case Manual(_, messages) => if AllHaveKeys(messages) then KeysOf(messages) else []
      case _ => []
  }

  /** Keys written outside the transaction meanwhile. */
  function Aside(script: seq<Action>): seq<string> {
    if script == [] then []
    else Aside(script[..|script| - 1]) + if script[|script| - 1].Outside? then KeysOf(script[|script| - 1].messages) else []
  }

  /** All handles of one transaction: they share the cache and the owner, which is the first of them. */
  ghost predicate OneTransaction(handles: seq<DB>, cache: Cache?)
  {
    && |handles| > 0 && handles[0].txOwner == handles[0]
    && forall i :: 0 <= i < |handles| ==> handles[i].tx && handles[i].cache == cache && handles[i].Owner() == handles[0]
  }

  lemma OneAction(a: Action)
    ensures Recorded([a]) ==
      match a
      case Write(_, messages) => KeysOf(messages)
      case Manual(_, messages) => if AllHaveKeys(messages) then KeysOf(messages) else []
      case _ => []
    ensures Aside([a]) == if a.Outside? then KeysOf(a.messages) else []
  {
    assert [a][..0] == [];
  }

  method Perform(root: DB, handles: seq<DB>, a: Action) returns (now: seq<DB>)
    requires OneTransaction(handles, root.cache) && InRange(a, |handles|) && !root.tx && root.txOwner == null && root !in handles
    modifies {handles[0]}`pendingCacheDels, root`pendingCacheDels, if root.cache == null then {} else {root.cache}
    ensures OneTransaction(now, root.cache) && now[0] == handles[0]
    ensures |now| == |handles| + if a.Derive? then 1 else 0
    ensures forall h :: h in now ==> h in handles || fresh(h)
    ensures root.pendingCacheDels == old(root.pendingCacheDels)
    ensures root.cache == null ==> handles[0].pendingCacheDels == old(handles[0].pendingCacheDels)
    ensures root.cache != null ==>
      && handles[0].pendingCacheDels == old(handles[0].pendingCacheDels) + Recorded([a])
      && root.cache.deleted == old(root.cache.deleted) + Aside([a])
  {
    hide Recorded, Aside, KeysOf;
    OneAction(a);
    now := handles;
    match a
    case Derive(h) =>
      var d := handles[h].WithContext();
      now := handles + [d];
    case Write(h, messages) =>
      handles[h].InvalidateMessages(messages);
    case Manual(h, messages) =>
      var _ := handles[h].InvalidateCache(messages);
    case Outside(messages) =>
      root.InvalidateMessages(messages);
  }

  /** Begin, run the code, then commit or roll back; only after a commit are the owner's keys deleted.
      begun, codeOk and committed say which of these steps succeed; a panic in the code is codeOk == false. */
  method RunInTransaction(p: DB, script: seq<Action>, begun: bool, codeOk: bool, committed: bool) returns (ok: bool)
    requires WellFormed(script) && (p.tx || p.txOwner == null)
    modifies p`pendingCacheDels, if p.cache == null then {} else {p.cache}
    ensures ok <==> !p.tx && begun && codeOk && committed
    ensures p.pendingCacheDels == old(p.pendingCacheDels)
    ensures p.cache != null && (p.tx || !begun) ==> p.cache.deleted == old(p.cache.deleted)
    ensures p.cache != null && !p.tx && begun ==>
      p.cache.deleted == old(p.cache.deleted) + Aside(script) + if ok then Recorded(script) else []
  {
    if p.tx || !begun {
      return false;
    }
    var txDB := new DB.Begin(p.cache);
    var handles := [txDB];
    for i := 0 to |script|
      invariant OneTransaction(handles, p.cache) && handles[0] == txDB && |handles| == Handles(script[..i])
      invariant forall h :: h in handles ==> fresh(h)
      invariant p.pendingCacheDels == old(p.pendingCacheDels)
      invariant p.cache == null ==> txDB.pendingCacheDels == []
      invariant p.cache != null ==> txDB.pendingCacheDels == Recorded(script[..i])
      invariant p.cache != null ==> p.cache.deleted == old(p.cache.deleted) + Aside(script[..i])
    {
      assert script[..i + 1] == script[..i] + [script[i]];
      OneMore(script[..i], script[i]);
      handles := Perform(p, handles, script[i]);
    }
    assert script[..|script|] == script;
    if !codeOk || !committed {
      return false;
    }
    var keys := txDB.Owner().pendingCacheDels;
    if p.cache != null && keys != [] {
      p.cache.Del(keys);
    }
    ok := true;
  }

  lemma OneMore(before: seq<Action>, a: Action)
    ensures Recorded(before + [a]) == Recorded(before) + Recorded([a])
    ensures Aside(before + [a]) == Aside(before) + Aside([a])
    ensures Handles(before + [a]) == Handles(before) + if a.Derive? then 1 else 0
  {
    assert (before + [a])[..|before|] == before;
    assert [a][..0] == [];
  }

  lemma {:induction false} KeysOfMeans(messages: seq<Option<string>>, k: string)
    ensures k in KeysOf(messages) <==> Some(k) in messages
  {
    if messages != [] {
      var n := |messages| - 1;
      KeysOfMeans(messages[..n], k);
      assert messages == messages[..n] + [messages[n]];
    }
  }

  /** A key is deleted at once exactly when some write outside the transaction had it. */
  lemma {:induction false} AsideMeans(script: seq<Action>, k: string)
    ensures k in Aside(script) <==> exists i :: 0 <= i < |script| && script[i].Outside? && Some(k) in script[i].messages
  {
    if script != [] {
      var n := |script| - 1;
      AsideMeans(script[..n], k);
      if script[n].Outside? {
        KeysOfMeans(script[n].messages, k);
      }
      assert forall i :: 0 <= i < n ==> script[..n][i] == script[i];
    }
  }

  /** The action records this key: a write of a message with that key, or a manual call all of whose
      messages have keys. */
  predicate Records(a: Action, k: string) {
    match a
    case Write(_, messages) => Some(k) in messages
    case Manual(_, messages) => AllHaveKeys(messages) && Some(k) in messages
    case _ => false
  }

  /** A key is deleted at the commit exactly when it was recorded through some handle, whichever handle
      of the tree that was. */
  lemma {:induction false} RecordedMeans(script: seq<Action>, k: string)
    ensures k in Recorded(script) <==> exists i :: 0 <= i < |script| && Records(script[i], k)
  {
    if script != [] {
      var n := |script| - 1;
      RecordedMeans(script[..n], k);
      match script[n] {
        case Write(_, messages) => KeysOfMeans(messages, k);
        case Manual(_, messages) => KeysOfMeans(messages, k);
        case _ =>
      }
      assert k in Recorded(script) <==> k in Recorded(script[..n]) || Records(script[n], k);
      if i :| 0 <= i < n && Records(script[i], k) {
        assert script[..n][i] == script[i];
      }
      if i :| 0 <= i < n && Records(script[..n][i], k) {
        assert Records(script[i], k);
      }
    }
  }
}
