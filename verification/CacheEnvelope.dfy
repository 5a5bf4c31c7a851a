/** Cache entries: a magic, a version, the writer's field numbers in ascending order as varints, and the
    serialized message. */
module CacheEnvelope {
  import opened Wrappers

  type byte = x: int | 0 <= x < 256

  const MAGIC: seq<byte> := [80, 50, 77, 67]      // "P2MC"
  const VERSION: byte := 1
  const MAX_FIELD_COUNT: nat := 65536
  const MAX_FIELD_NUMBER: nat := 536870911         // 2^29 - 1
  const TWO_64: nat := 0x1_0000_0000_0000_0000

  /** Field numbers are held as 32-bit integers. */
  type FieldNum = x: int | -0x8000_0000 <= x < 0x8000_0000

  datatype Entry = Entry(fields: set<FieldNum>, payload: seq<byte>)

  // ---------------------------------------------------------------- varints

  function PutUvarint(v: nat): (b: seq<byte>)
    ensures |b| >= 1
  {
    if v < 128 then [v] else [v % 128 + 128] + PutUvarint(v / 128)
  }

  /** Reads a varint whose first i bytes are behind us: the value and the bytes taken. None: the buffer
      ends inside it, or it does not fit 64 bits. */
  function GetUvarint(buf: seq<byte>, i: nat): (r: Option<(nat, nat)>)
    requires i <= 10
    ensures r.Some? ==> 1 <= r.value.1 <= |buf| && i + r.value.1 <= 10
  {
    if buf == [] || i == 10 then None
    else if buf[0] < 128 then
      if i == 9 && buf[0] > 1 then None else Some((buf[0], 1))
    else
      match GetUvarint(buf[1..], i + 1)
      case None => None
      case Some((rest, n)) => Some((buf[0] - 128 + 128 * rest, n + 1))
  }

  /** Seven bits a byte, least significant first. */
  function Value(b: seq<byte>): nat {
    if b == [] then 0 else b[0] % 128 + 128 * Value(b[1..])
  }

  /** The bytes other programs share: the value in groups of seven bits, the top bit of every byte telling
      whether another one follows, and no group more than needed. */
  lemma {:induction false} VarintLayout(v: nat)
    ensures var b := PutUvarint(v);
      && Value(b) == v
      && (forall i :: 0 <= i < |b| ==> (b[i] >= 128 <==> i < |b| - 1))
      && (|b| > 1 ==> b[|b| - 1] > 0)
  {
    var b := PutUvarint(v);
    if v >= 128 {
      VarintLayout(v / 128);
      assert b[1..] == PutUvarint(v / 128);
    } else {
      assert b[1..] == [];
    }
  }

  function Pow128(n: nat): nat {
    if n == 0 then 1 else 128 * Pow128(n - 1)
  }

  /** What can follow i bytes without leaving 64 bits. */
  function Room(i: nat): nat
    requires i <= 9
  {
    2 * Pow128(9 - i)
  }

  lemma RoomIs64()
    ensures Room(0) == TWO_64
  {
    assert Pow128(3) == 2097152;
    assert Pow128(6) == 2097152 * 2097152;
    assert Pow128(9) == 128 * (128 * (128 * Pow128(6)));
  }

  lemma {:induction false} PutThenGet(v: nat, i: nat, rest: seq<byte>)
    requires i <= 9 && v < Room(i)
    ensures GetUvarint(PutUvarint(v) + rest, i) == Some((v, |PutUvarint(v)|))
  {
    var whole := PutUvarint(v) + rest;
    if v < 128 {
      assert i == 9 ==> v < 2;
    } else {
      assert i < 9;
      PutThenGet(v / 128, i + 1, rest);
      assert whole[1..] == PutUvarint(v / 128) + rest;
    }
  }

  /** No more than 64 bits come out. */
  lemma {:induction false} GetIsBounded(buf: seq<byte>, i: nat)
    requires i <= 9 && GetUvarint(buf, i).Some?
    ensures GetUvarint(buf, i).value.0 < Room(i)
  {
    if buf[0] >= 128 {
      GetIsBounded(buf[1..], i + 1);
    } else {
      PowPositive(9 - i);
      assert i < 9 ==> Room(i) == 128 * (2 * Pow128(8 - i));
    }
  }

  lemma {:induction false} PowPositive(n: nat)
    ensures Pow128(n) >= 1
    ensures n >= 1 ==> Pow128(n - 1) >= 1
  {
    if n > 0 {
      PowPositive(n - 1);
    }
  }

  // ---------------------------------------------------------------- field numbers

  /** Conversion of a signed number to 64 bits without a sign. */
  function U64(x: FieldNum): (u: nat)
    ensures u < TWO_64
  {
    if x < 0 then x + TWO_64 else x
  }

  predicate ValidNumber(x: int) {
    1 <= x <= MAX_FIELD_NUMBER
  }

  predicate Ascending(nums: seq<int>) {
    forall i, j :: 0 <= i < j < |nums| ==> nums[i] < nums[j]
  }

  function Numbers(nums: seq<FieldNum>): seq<byte> {
    if nums == [] then [] else PutUvarint(U64(nums[0])) + Numbers(nums[1..])
  }

  function SetOf(nums: seq<FieldNum>): set<FieldNum> {
    set x | x in nums
  }

  ghost predicate IsListing(nums: seq<FieldNum>, fields: set<FieldNum>) {
    Ascending(nums) && SetOf(nums) == fields
  }

  /** The entry for fields listed in ascending order. */
  function EntryBytes(nums: seq<FieldNum>, payload: seq<byte>): seq<byte> {
    MAGIC + [VERSION] + PutUvarint(|nums|) + Numbers(nums) + payload
  }

  /** An entry starts with the letters P2MC and version 1. */
  lemma EntryLayout(nums: seq<FieldNum>, payload: seq<byte>)
    ensures var data := EntryBytes(nums, payload);
      && |data| > 5
      && data[0] == 'P' as int && data[1] == '2' as int && data[2] == 'M' as int && data[3] == 'C' as int && data[4] == 1
      && data[5..] == PutUvarint(|nums|) + Numbers(nums) + payload
  {
    hide PutUvarint, Numbers;
    assert EntryBytes(nums, payload) == (MAGIC + [VERSION]) + (PutUvarint(|nums|) + Numbers(nums) + payload);
  }

  /** The ascending list of the fields still to be read and what follows them. */
  function ReadNumbers(data: seq<byte>, count: nat, previous: nat): Option<(seq<FieldNum>, seq<byte>)>
    decreases count
  {
    if count == 0 then Some(([], data))
    else
      match GetUvarint(data, 0)
      case None => None
      case Some((num, n)) =>
        if num == 0 || num > MAX_FIELD_NUMBER || num <= previous then None
        else
          match ReadNumbers(data[n..], count - 1, num)
          case None => None
          case Some((rest, payload)) => Some(([num] + rest, payload))
  }

  function Decode(data: seq<byte>): Option<Entry> {
    if !(MAGIC <= data) || |data| <= 4 || data[4] != VERSION then None
    else
      match GetUvarint(data[5..], 0)
      case None => None
      case Some((count, n)) =>
        var rest := data[5 + n..];
        if count > MAX_FIELD_COUNT || count > |rest| then None
        else
          match ReadNumbers(rest, count, 0)
          case None => None
          case Some((nums, payload)) => Some(Entry(SetOf(nums), payload))
  }

  // ---------------------------------------------------------------- the loops

  /** After i continuation bytes worth x, the whole varint is x plus scale times what follows. */
  ghost predicate Progress(buf: seq<byte>, i: nat, x: nat, scale: nat)
    requires i <= |buf| && i <= 10
  {
    match GetUvarint(buf[i..], i)
    case None => GetUvarint(buf, 0).None?
    case Some((v, m)) => GetUvarint(buf, 0) == Some((x + scale * v, i + m))
  }

  lemma ContinueVarint(buf: seq<byte>, i: nat, x: nat, scale: nat)
    requires i < |buf| && i < 10 && buf[i] >= 128 && Progress(buf, i, x, scale)
    ensures Progress(buf, i + 1, x + scale * (buf[i] - 128), scale * 128)
  {
    assert buf[i..][1..] == buf[i + 1..];
    match GetUvarint(buf[i + 1..], i + 1)
    case None =>
    case Some((v, m)) =>
      Distribute(x, scale, buf[i] - 128, v);
      assert GetUvarint(buf[i..], i) == Some((buf[i] - 128 + 128 * v, m + 1));
  }

  lemma Distribute(x: nat, scale: nat, b: nat, v: nat)
    ensures x + scale * (b + 128 * v) == (x + scale * b) + (scale * 128) * v
  {
  }

  /** binary.Uvarint: n <= 0 reports a short buffer or an overflow. */
  method Uvarint(buf: seq<byte>) returns (x: nat, n: int)
    ensures GetUvarint(buf, 0).None? <==> n <= 0
    ensures n > 0 ==> GetUvarint(buf, 0) == Some((x, n)) && n <= |buf| && n <= 10 && x < TWO_64
  {
    x := 0;
    var scale: nat := 1;
    assert buf[0..] == buf;
    for i := 0 to |buf|
      invariant i <= 10 && Progress(buf, i, x, scale)
    {
      if i == 10 {
        return 0, -(i + 1);
      }
      if buf[i] < 128 {
        if i == 9 && buf[i] > 1 {
          return 0, -(i + 1);
        }
        x := x + scale * buf[i];
        GetIsBounded(buf, 0);
        RoomIs64();
        return x, i + 1;
      }
      ContinueVarint(buf, i, x, scale);
      x := x + scale * (buf[i] - 128);
      scale := scale * 128;
    }
    return 0, 0;
  }

  method AppendUvarint(out: seq<byte>, v: nat) returns (r: seq<byte>)
    ensures r == out + PutUvarint(v)
  {
    r := out;
    var rest := v;
    while rest >= 128
      invariant r + PutUvarint(rest) == out + PutUvarint(v)
    {
      ghost var before := r;
      r := r + [rest % 128 + 128];
      assert r + PutUvarint(rest / 128) == before + PutUvarint(rest);
      rest := rest / 128;
    }
    r := r + [rest];
  }

  method Least(s: set<FieldNum>) returns (least: FieldNum)
    requires s != {}
    ensures least in s && forall y :: y in s ==> least <= y
  {
    least :| least in s;
    var others := s - {least};
    while others != {}
      invariant others <= s && least in s
      invariant forall y :: y in s && y !in others ==> least <= y
    {
      var y :| y in others;
      others := others - {y};
      if y < least {
        least := y;
      }
    }
  }

  /** The set as an ascending list. */
  method Sorted(fields: set<FieldNum>) returns (nums: seq<FieldNum>)
    ensures IsListing(nums, fields) && |nums| == |fields|
  {
    hide IsListing;
    nums := [];
    var todo := fields;
    assert IsListing([], fields - todo) by { NoFields(fields); }
    while todo != {}
      invariant todo <= fields
      invariant IsListing(nums, fields - todo)
      invariant forall x, y :: x in nums && y in todo ==> x < y
    {
      var least := Least(todo);
      ListingGrows(nums, fields - todo, least);
      assert fields - (todo - {least}) == (fields - todo) + {least};
      todo := todo - {least};
      nums := nums + [least];
    }
    assert fields - todo == fields;
    ListingSize(nums, fields);
  }

  lemma NoFields(fields: set<FieldNum>)
    ensures IsListing([], fields - fields)
  {
    assert fields - fields == {};
  }

  lemma ListingGrows(nums: seq<FieldNum>, fields: set<FieldNum>, x: FieldNum)
    requires IsListing(nums, fields) && forall y :: y in nums ==> y < x
    ensures IsListing(nums + [x], fields + {x})
  {
    var longer := nums + [x];
    forall i, j | 0 <= i < j < |longer| ensures longer[i] < longer[j] {
      assert longer[i] in nums;
    }
    assert SetOf(longer) == SetOf(nums) + {x};
  }

  method EncodeCacheEntry(fields: set<FieldNum>, payload: seq<byte>) returns (out: seq<byte>)
    ensures exists nums :: IsListing(nums, fields) && |nums| == |fields| && out == EntryBytes(nums, payload)
  {
    var nums := Sorted(fields);
    out := AppendUvarint(MAGIC + [VERSION], |nums|);
    ghost var head := out;
    for i := 0 to |nums|
      invariant out == head + Numbers(nums[..i])
    {
      assert nums[..i + 1] == nums[..i] + [nums[i]];
      NumbersAppend(nums[..i], nums[i]);
      out := AppendUvarint(out, U64(nums[i]));
    }
    assert nums[..|nums|] == nums;
    out := out + payload;
  }

  lemma {:induction false} NumbersAppend(nums: seq<FieldNum>, x: FieldNum)
    ensures Numbers(nums + [x]) == Numbers(nums) + PutUvarint(U64(x))
  {
    if nums != [] {
      NumbersAppend(nums[1..], x);
      assert (nums + [x])[1..] == nums[1..] + [x];
    } else {
      assert (nums + [x])[1..] == [];
    }
  }

  /** The rest of the data yields the rest of the list. */
  ghost predicate Reading(whole: seq<byte>, count: nat, data: seq<byte>, left: nat, previous: nat, nums: seq<FieldNum>) {
    match ReadNumbers(data, left, previous)
    case None => ReadNumbers(whole, count, 0).None?
    case Some((rest, payload)) => ReadNumbers(whole, count, 0) == Some((nums + rest, payload))
  }

  lemma ReadingStarts(data: seq<byte>, count: nat)
    ensures Reading(data, count, data, count, 0, [])
  {
    if tail :| ReadNumbers(data, count, 0) == Some(tail) {
      assert [] + tail.0 == tail.0;
    }
  }

  lemma ReadingContinues(whole: seq<byte>, count: nat, data: seq<byte>, left: nat, previous: nat, nums: seq<FieldNum>, num: nat, n: nat)
    requires Reading(whole, count, data, left, previous, nums) && left > 0
    requires GetUvarint(data, 0) == Some((num, n)) && previous < num <= MAX_FIELD_NUMBER
    ensures Reading(whole, count, data[n..], left - 1, num, nums + [num])
  {
    if tail :| ReadNumbers(data[n..], left - 1, num) == Some(tail) {
      assert nums + ([num] + tail.0) == (nums + [num]) + tail.0;
    }
  }

  lemma ReadingFails(whole: seq<byte>, count: nat, data: seq<byte>, left: nat, previous: nat, nums: seq<FieldNum>)
    requires Reading(whole, count, data, left, previous, nums) && left > 0
    requires var next := GetUvarint(data, 0);
      next.None? || next.value.0 == 0 || next.value.0 > MAX_FIELD_NUMBER || next.value.0 <= previous
    ensures ReadNumbers(whole, count, 0).None?
  {
  }

  lemma ReadingEnds(whole: seq<byte>, count: nat, data: seq<byte>, previous: nat, nums: seq<FieldNum>)
    requires Reading(whole, count, data, 0, previous, nums)
    ensures ReadNumbers(whole, count, 0) == Some((nums, data))
  {
    assert nums + [] == nums;
  }

  /** The moving position never leaves the data, and the answer is exactly Decode's. */
  method DecodeCacheEntry(data: seq<byte>) returns (r: Option<Entry>)
    ensures r == Decode(data)
  {
    hide Reading, ReadNumbers, GetUvarint;
    if !(MAGIC <= data) {
      return None;
    }
    var pos := |MAGIC|;
    if pos >= |data| || data[pos] != VERSION {
      return None;
    }
    pos := pos + 1;
    var count, n := Uvarint(data[pos..]);
    if n <= 0 {
      return None;
    }
    pos := pos + n;
    if count > MAX_FIELD_COUNT || count > |data| - pos {
      return None;
    }
    var nums: seq<FieldNum> := [];
    var previous: nat := 0;
    ghost var rest := data[pos..];
    ReadingStarts(rest, count);
    var i := 0;
    while i < count
      invariant 0 <= i <= count && pos <= |data|
      invariant i == 0 ==> previous == 0
      invariant Reading(rest, count, data[pos..], count - i, previous, nums)
    {
      var num, m := Uvarint(data[pos..]);
      if m <= 0 {
        ReadingFails(rest, count, data[pos..], count - i, previous, nums);
        return None;
      }
      ghost var from := data[pos..];
      assert from[m..] == data[pos + m..];
      pos := pos + m;
      if num == 0 || num > MAX_FIELD_NUMBER || (i > 0 && num <= previous) {
        ReadingFails(rest, count, from, count - i, previous, nums);
        return None;
      }
      ReadingContinues(rest, count, from, count - i, previous, nums, num, m);
      nums := nums + [num];
      previous := num;
      i := i + 1;
    }
    ReadingEnds(rest, count, data[pos..], previous, nums);
    r := Some(Entry(SetOf(nums), data[pos..]));
  }

  /** What the reader knows and the writer did not, in ascending order. */
  method MissingFieldNumbers(have: set<FieldNum>, want: set<FieldNum>) returns (missing: seq<FieldNum>)
    ensures IsListing(missing, want - have)
    ensures missing == [] <==> want <= have
  {
    missing := Sorted(want - have);
    ghost var listed := SetOf(missing);
    assert listed == want - have;
    if missing != [] {
      assert missing[0] in listed;
    } else {
      assert forall x :: x in want ==> x in have || x in listed;
    }
  }

  // ---------------------------------------------------------------- round trip, exactly

  predicate AllValid(nums: seq<FieldNum>) {
    forall i :: 0 <= i < |nums| ==> ValidNumber(nums[i])
  }

  ghost predicate ValidFields(fields: set<FieldNum>) {
    forall x :: x in fields ==> ValidNumber(x)
  }

  lemma {:induction false} ReadBack(nums: seq<FieldNum>, previous: nat, payload: seq<byte>)
    requires Ascending(nums) && (nums != [] && ValidNumber(nums[0]) ==> previous < nums[0])
    ensures ReadNumbers(Numbers(nums) + payload, |nums|, previous) == if AllValid(nums) then Some((nums, payload)) else None
  {
    hide GetUvarint, PutUvarint, U64, AllValid, Numbers;
    if nums == [] {
      NoNumbers(payload);
    } else {
      var whole := Numbers(nums) + payload;
      FirstNumber(nums, payload);
      ValidTail(nums);
      var n := |PutUvarint(U64(nums[0]))|;
      if ValidNumber(nums[0]) {
        SmallNumber(nums[0]);
        ReadBack(nums[1..], nums[0], payload);
        assert whole[n..] == Numbers(nums[1..]) + payload;
        assert nums == [nums[0]] + nums[1..];
      } else {
        BadNumber(nums[0]);
      }
    }
  }

  lemma NoNumbers(payload: seq<byte>)
    ensures Numbers([]) + payload == payload && AllValid([])
  {
  }

  lemma SmallNumber(x: FieldNum)
    requires ValidNumber(x)
    ensures U64(x) == x
  {
  }

  lemma BadNumber(x: FieldNum)
    requires !ValidNumber(x)
    ensures U64(x) == 0 || U64(x) > MAX_FIELD_NUMBER
  {
  }

  lemma FirstNumber(nums: seq<FieldNum>, payload: seq<byte>)
    requires nums != []
    ensures var whole, n := Numbers(nums) + payload, |PutUvarint(U64(nums[0]))|;
      && n <= |whole| && GetUvarint(whole, 0) == Some((U64(nums[0]), n))
      && whole[n..] == Numbers(nums[1..]) + payload
  {
    hide GetUvarint, PutUvarint, U64, Numbers;
    NumbersSplit(nums);
    Regroup(PutUvarint(U64(nums[0])), Numbers(nums[1..]), payload);
    HeadIsRead(U64(nums[0]), Numbers(nums[1..]) + payload);
  }

  lemma Regroup(a: seq<byte>, b: seq<byte>, c: seq<byte>)
    ensures (a + b) + c == a + (b + c)
  {
  }

  lemma NumbersSplit(nums: seq<FieldNum>)
    requires nums != []
    ensures Numbers(nums) == PutUvarint(U64(nums[0])) + Numbers(nums[1..])
  {
  }

  lemma HeadIsRead(v: nat, tail: seq<byte>)
    requires v < TWO_64
    ensures var whole, n := PutUvarint(v) + tail, |PutUvarint(v)|;
      GetUvarint(whole, 0) == Some((v, n)) && whole[n..] == tail
  {
    hide GetUvarint, PutUvarint;
    RoomIs64();
    PutThenGet(v, 0, tail);
    var whole, n := PutUvarint(v) + tail, |PutUvarint(v)|;
    assert whole[n..] == tail;
  }

  lemma ValidTail(nums: seq<FieldNum>)
    requires nums != []
    ensures AllValid(nums) <==> ValidNumber(nums[0]) && AllValid(nums[1..])
  {
    assert forall i :: 0 < i < |nums| ==> nums[i] == nums[1..][i - 1];
  }

  lemma {:induction false} NumbersAreLong(nums: seq<FieldNum>)
    ensures |Numbers(nums)| >= |nums|
  {
    if nums != [] {
      NumbersAreLong(nums[1..]);
    }
  }

  lemma {:induction false} AscendingClimbs(nums: seq<FieldNum>)
    requires Ascending(nums) && nums != []
    ensures nums[|nums| - 1] >= nums[0] + |nums| - 1
  {
    if |nums| > 1 {
      AscendingClimbs(nums[..|nums| - 1]);
    }
  }

  lemma {:induction false} ListingSize(nums: seq<FieldNum>, fields: set<FieldNum>)
    requires IsListing(nums, fields)
    ensures |nums| == |fields|
  {
    if nums != [] {
      var n := |nums| - 1;
      var x := nums[n];
      assert nums == nums[..n] + [x];
      assert SetOf(nums[..n]) == fields - {x} by {
        assert forall i :: 0 <= i < n ==> nums[i] < x;
      }
      ListingSize(nums[..n], fields - {x});
    }
  }

  /** Decoding gives back exactly what was encoded, for every set of valid field numbers that is not too
      large; everything else is refused rather than misread. */
  lemma RoundTripIff(nums: seq<FieldNum>, fields: set<FieldNum>, payload: seq<byte>)
    requires IsListing(nums, fields)
    ensures Decode(EntryBytes(nums, payload)) ==
      if |fields| <= MAX_FIELD_COUNT && ValidFields(fields) then Some(Entry(fields, payload)) else None
  {
    hide GetUvarint, ReadNumbers, PutUvarint, Numbers;
    var data := EntryBytes(nums, payload);
    var rest := Numbers(nums) + payload;
    assert data[5..] == PutUvarint(|nums|) + rest;
    assert MAGIC == data[..4] && data[4] == VERSION;
    ListingSize(nums, fields);
    if nums != [] {
      AscendingClimbs(nums);
    }
    RoomIs64();
    PutThenGet(|nums|, 0, rest);
    assert data[5 + |PutUvarint(|nums|)|..] == rest;
    NumbersAreLong(nums);
    ReadBack(nums, 0, payload);
    assert AllValid(nums) <==> ValidFields(fields) by {
      if AllValid(nums) {
        forall x | x in fields ensures ValidNumber(x) {
          assert x in nums;
        }
      } else {
        var i :| 0 <= i < |nums| && !ValidNumber(nums[i]);
        assert nums[i] in fields;
      }
    }
  }

  // ---------------------------------------------------------------- arbitrary bytes

  lemma {:induction false} ReadIsSound(data: seq<byte>, count: nat, previous: nat)
    requires ReadNumbers(data, count, previous).Some?
    ensures var (nums, payload) := ReadNumbers(data, count, previous).value;
      && |nums| == count && Ascending(nums) && AllValid(nums)
      && (forall i :: 0 <= i < |nums| ==> nums[i] > previous)
      && count + |payload| <= |data| && payload == data[|data| - |payload|..]
  {
    if count > 0 {
      var (num, n) := GetUvarint(data, 0).value;
      ReadIsSound(data[n..], count - 1, num);
    }
  }

  /** The numbers an accepted entry holds, in the order they stand in the data. */
  function NumbersRead(data: seq<byte>): seq<FieldNum>
    requires Decode(data).Some?
  {
    var (count, n) := GetUvarint(data[5..], 0).value;
    ReadNumbers(data[5 + n..], count, 0).value.0
  }

  /** Whatever the bytes are: an accepted entry holds as many numbers as it announces, at most the
      maximal count, each valid and each larger than the one before, and they are its fields; its payload
      is the end of the data, behind at least one byte a field. */
  lemma DecodeIsSound(data: seq<byte>)
    requires Decode(data).Some?
    ensures var e := Decode(data).value;
      && IsListing(NumbersRead(data), e.fields) && |NumbersRead(data)| == GetUvarint(data[5..], 0).value.0
      && |e.fields| <= MAX_FIELD_COUNT && ValidFields(e.fields)
      && |MAGIC| + 2 + |e.fields| + |e.payload| <= |data|
      && MAGIC <= data && data[4] == 1 && e.payload == data[|data| - |e.payload|..]
      && Decode(EntryBytes(NumbersRead(data), e.payload)) == Some(e)
  {
    hide GetUvarint, ReadNumbers, PutUvarint, Numbers, EntryBytes;
    var (count, n) := GetUvarint(data[5..], 0).value;
    var rest := data[5 + n..];
    ReadIsSound(rest, count, 0);
    var (nums, payload) := ReadNumbers(rest, count, 0).value;
    var e := Decode(data).value;
    assert IsListing(nums, e.fields);
    ListingSize(nums, e.fields);
    RoundTripIff(nums, e.fields, e.payload);
  }
}
