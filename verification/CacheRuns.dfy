/** Processes of different versions share one cache: what a hit may hand to a reader. */
module CacheRuns {
  import opened Wrappers
  import opened CacheEnvelope

  /** Field contents by field number. */
  type Row = map<FieldNum, seq<byte>>

  /** A message of a version that knows these fields, read from this row. */
  function Restrict(row: Row, fields: set<FieldNum>): (m: Row)
    ensures m.Keys == row.Keys * fields
  {
    map f | f in row && f in fields :: row[f]
  }

  /** The serialization of messages. */
  datatype Codec = Codec(marshal: Row -> seq<byte>, unmarshal: seq<byte> -> Option<Row>)

  ghost predicate Lawful(codec: Codec) {
    forall m: Row :: codec.unmarshal(codec.marshal(m)) == Some(m)
  }

  /** What a reader that knows the wanted fields gets from the bytes it finds. */
  function Hit(codec: Codec, found: Option<seq<byte>>, wants: set<FieldNum>): Option<Row> {
    if found.None? || Decode(found.value).None? then None
    else
      var e := Decode(found.value).value;
      if !(wants <= e.fields) || codec.unmarshal(e.payload).None? then None
      else Some(Restrict(codec.unmarshal(e.payload).value, wants))
  }

  /** The lookup: no entry, no envelope, fields missing and an unreadable payload all count as a miss and
      leave the caller's message alone. */
  method CacheGetProto(codec: Codec, found: Option<seq<byte>>, wants: set<FieldNum>, message: Row) returns (hit: bool, now: Row)
    ensures hit == Hit(codec, found, wants).Some?
    ensures now == if hit then Hit(codec, found, wants).value else message
  {
    now := message;
    if found.None? {
      return false, message;
    }
    var entry := DecodeCacheEntry(found.value);
    if entry.None? {
      return false, message;
    }
    var missing := MissingFieldNumbers(entry.value.fields, wants);
    if |missing| > 0 {
      return false, message;
    }
    var scratch := codec.unmarshal(entry.value.payload);
    if scratch.None? {
      return false, message;
    }
    return true, Restrict(scratch.value, wants);
  }

  /** The bytes a writer that knows these fields may store for a row. */
  ghost predicate Stored(codec: Codec, fields: set<FieldNum>, row: Row, data: seq<byte>) {
    exists nums :: IsListing(nums, fields) && data == EntryBytes(nums, codec.marshal(Restrict(row, fields)))
  }

  method CacheSetProto(codec: Codec, fields: set<FieldNum>, row: Row) returns (data: seq<byte>)
    ensures Stored(codec, fields, row, data)
  {
    data := EncodeCacheEntry(fields, codec.marshal(Restrict(row, fields)));
  }

  // ---------------------------------------------------------------- runs

  /** What happens to the shared cache: a writer of some version stores the row it has read, keys are
      deleted or expire, and some other program stores bytes that are no entry. */
  datatype Event =
    | Fill(key: string, fields: set<FieldNum>, row: Row, data: seq<byte>)
    | Del(keys: set<string>)
    | Foreign(key: string, data: seq<byte>)

  ghost predicate Possible(codec: Codec, e: Event) {
    match e
    case Fill(_, fields, row, data) => Stored(codec, fields, row, data)
    case Del(_) => true
    case Foreign(_, data) => Decode(data).None?
  }

  function After(events: seq<Event>): map<string, seq<byte>> {
    if events == [] then map[]
    else
      var before := After(events[..|events| - 1]);
      match events[|events| - 1]
      case Fill(key, _, _, data) => before[key := data]
      case Del(keys) => before - keys
      case Foreign(key, data) => before[key := data]
  }

  function Found(cache: map<string, seq<byte>>, key: string): Option<seq<byte>> {
    if key in cache then Some(cache[key]) else None
  }

  /** Who filled the key last, unless it was deleted or overwritten since. */
  function LastFill(events: seq<Event>, key: string): Option<(set<FieldNum>, Row)> {
    if events == [] then None
    else
      var before := LastFill(events[..|events| - 1], key);
      match events[|events| - 1]
      case Fill(k, fields, row, _) => if k == key then Some((fields, row)) else before
      case Del(keys) => if key in keys then None else before
      case Foreign(k, _) => if k == key then None else before
  }

  lemma StoredIsRead(codec: Codec, fields: set<FieldNum>, row: Row, data: seq<byte>, wants: set<FieldNum>)
    requires Lawful(codec) && Stored(codec, fields, row, data)
    ensures Hit(codec, Some(data), wants) ==
      if |fields| <= MAX_FIELD_COUNT && ValidFields(fields) && wants <= fields then Some(Restrict(row, wants)) else None
  {
    hide Decode, EntryBytes, IsListing;
    var nums :| IsListing(nums, fields) && data == EntryBytes(nums, codec.marshal(Restrict(row, fields)));
    RoundTripIff(nums, fields, codec.marshal(Restrict(row, fields)));
    if wants <= fields {
      assert Restrict(Restrict(row, fields), wants) == Restrict(row, wants);
    }
  }

  /** Safe adoption, exactly: after any run of any versions a reader hits if and only if the last fill of
      the key still stands and its writer knew all the reader's fields; and then it gets, on all its
      fields, the row that writer had read. */
  lemma {:induction false} HitsAreWholeRows(codec: Codec, events: seq<Event>, key: string, wants: set<FieldNum>)
    requires Lawful(codec) && forall i :: 0 <= i < |events| ==> Possible(codec, events[i])
    ensures Hit(codec, Found(After(events), key), wants) ==
      match LastFill(events, key)
      case None => None
      case Some((fields, row)) =>
        if |fields| <= MAX_FIELD_COUNT && ValidFields(fields) && wants <= fields then Some(Restrict(row, wants)) else None
  {
    if events != [] {
      hide Hit, Lawful, Stored, Decode;
      var n := |events| - 1;
      HitsAreWholeRows(codec, events[..n], key, wants);
      match events[n]
      case Fill(k, fields, row, data) =>
        if k == key {
          StoredIsRead(codec, fields, row, data, wants);
        } else {
          assert Found(After(events), key) == Found(After(events[..n]), key);
        }
      case Del(keys) =>
        if key in keys {
          MissOnNothing(codec, wants);
        } else {
          assert Found(After(events), key) == Found(After(events[..n]), key);
        }
      case Foreign(k, data) =>
        if k == key {
          MissOnForeign(codec, data, wants);
        } else {
          assert Found(After(events), key) == Found(After(events[..n]), key);
        }
    } else {
      MissOnNothing(codec, wants);
    }
  }

  lemma MissOnNothing(codec: Codec, wants: set<FieldNum>)
    ensures Hit(codec, None, wants) == None
  {
  }

  lemma MissOnForeign(codec: Codec, data: seq<byte>, wants: set<FieldNum>)
    requires Decode(data).None?
    ensures Hit(codec, Some(data), wants) == None
  {
  }
}
