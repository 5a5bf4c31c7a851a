/** Cache keys: "pb:" and the escaped table name and primary-key values, joined by colons. */
module CacheKeys {

  /** One character inside a key part. */
  function Code(c: char): string {
    if c == '%' then "%25" else if c == ':' then "%3A" else [c]
  }

  function Escaped(s: string): string {
    if s == "" then "" else Code(s[0]) + Escaped(s[1..])
  }

  predicate NeedsEscape(s: string) {
    '%' in s || ':' in s
  }

  /** The values behind the table name. */
  function Tail(values: seq<string>): string {
    if values == [] then "" else ":" + Escaped(values[0]) + Tail(values[1..])
  }

  function KeyOf(table: string, values: seq<string>): string {
    "pb:" + Escaped(table) + Tail(values)
  }

  // ---------------------------------------------------------------- the loops

  lemma {:induction false} EscapedAppends(s: string, c: char)
    ensures Escaped(s + [c]) == Escaped(s) + Code(c)
  {
    if s != "" {
      EscapedAppends(s[1..], c);
      assert (s + [c])[1..] == s[1..] + [c];
    } else {
      assert (s + [c])[1..] == "";
    }
  }

  lemma {:induction false} TailAppends(values: seq<string>, v: string)
    ensures Tail(values + [v]) == Tail(values) + ":" + Escaped(v)
  {
    if values != [] {
      TailAppends(values[1..], v);
      assert (values + [v])[1..] == values[1..] + [v];
    } else {
      assert (values + [v])[1..] == [];
    }
  }

  /** Parts without the two special characters come back as they are; the others character by character. */
  method EscapeCacheKeyPart(s: string) returns (r: string)
    ensures r == Escaped(s)
  {
    if !NeedsEscape(s) {
      UnchangedIff(s);
      return s;
    }
    r := "";
    for i := 0 to |s|
      invariant r == Escaped(s[..i])
    {
      assert s[..i + 1] == s[..i] + [s[i]];
      EscapedAppends(s[..i], s[i]);
      if s[i] == '%' {
        r := r + "%25";
      } else if s[i] == ':' {
        r := r + "%3A";
      } else {
        r := r + [s[i]];
      }
    }
    assert s[..|s|] == s;
  }

  method CacheKeyFor(table: string, values: seq<string>) returns (key: string)
    ensures key == KeyOf(table, values)
  {
    var part := EscapeCacheKeyPart(table);
    key := "pb:" + part;
    for i := 0 to |values|
      invariant key == KeyOf(table, values[..i])
    {
      assert values[..i + 1] == values[..i] + [values[i]];
      TailAppends(values[..i], values[i]);
      part := EscapeCacheKeyPart(values[i]);
      key := key + ":" + part;
    }
    assert values[..|values|] == values;
  }

  // ---------------------------------------------------------------- the format other programs share

  function HexDigit(n: nat): char
    requires n < 16
  {
    "0123456789ABCDEF"[n]
  }

  /** The two special characters are percent-encoded: a percent sign and the code in hexadecimal. */
  lemma SpecialsArePercentEncoded(c: char)
    requires c == '%' || c == ':'
    ensures Code(c) == ['%', HexDigit(c as int / 16), HexDigit(c as int % 16)]
  {
  }

  function Joined(parts: seq<string>): string {
    if parts == [] then "" else if |parts| == 1 then parts[0] else parts[0] + ":" + Joined(parts[1..])
  }

  /** Without special characters a key is its parts joined by colons. */
  lemma {:induction false} PlainKeys(table: string, values: seq<string>)
    requires forall i :: 0 <= i < |values| ==> !NeedsEscape(values[i])
    requires !NeedsEscape(table)
    ensures KeyOf(table, values) == "pb:" + Joined([table] + values)
  {
    UnchangedIff(table);
    PlainTail(table, values);
    assert KeyOf(table, values) == "pb:" + (table + Tail(values));
  }

  lemma {:induction false} PlainTail(first: string, values: seq<string>)
    requires forall i :: 0 <= i < |values| ==> !NeedsEscape(values[i])
    ensures first + Tail(values) == Joined([first] + values)
    decreases |values|
  {
    hide Escaped, NeedsEscape;
    if values != [] {
      UnchangedIff(values[0]);
      PlainTail(values[0], values[1..]);
      assert [values[0]] + values[1..] == values;
      assert ([first] + values)[1..] == values;
      assert Tail(values) == ":" + (values[0] + Tail(values[1..]));
      assert first + Tail(values) == first + ":" + Joined(values);
    }
  }

  // ---------------------------------------------------------------- unchanged and injective

  /** A part is encoded as itself exactly when neither special character occurs in it. */
  lemma {:induction false} UnchangedIff(s: string)
    ensures Escaped(s) == s <==> !NeedsEscape(s)
    ensures |Escaped(s)| >= |s|
  {
    if s != "" {
      UnchangedIff(s[1..]);
      assert s == [s[0]] + s[1..];
      if s[0] != '%' && s[0] != ':' {
        assert Escaped(s)[1..] == Escaped(s[1..]);
        assert NeedsEscape(s) <==> NeedsEscape(s[1..]);
      }
    }
  }

  /** The separator does not occur in an encoded part. */
  lemma {:induction false} NoSeparatorInside(s: string)
    ensures ':' !in Escaped(s)
  {
    if s != "" {
      NoSeparatorInside(s[1..]);
    }
  }

  lemma {:induction false} EscapedIsInjective(a: string, b: string)
    requires Escaped(a) == Escaped(b)
    ensures a == b
  {
    if a != "" && b != "" {
      assert Escaped(a)[0] == Code(a[0])[0] && Escaped(b)[0] == Code(b[0])[0];
      if |Code(a[0])| == 3 {
        assert Escaped(a)[1] == Code(a[0])[1] && Escaped(b)[1] == Code(b[0])[1];
        assert Escaped(a)[2] == Code(a[0])[2] && Escaped(b)[2] == Code(b[0])[2];
      }
      assert Code(a[0]) == Code(b[0]) && a[0] == b[0];
      assert Escaped(a)[|Code(a[0])|..] == Escaped(a[1..]) && Escaped(b)[|Code(b[0])|..] == Escaped(b[1..]);
      EscapedIsInjective(a[1..], b[1..]);
      assert a == [a[0]] + a[1..] && b == [b[0]] + b[1..];
    }
  }

  /** A part ends where the next colon is, or at the end. */
  lemma FirstPartsAgree(a: string, x: seq<string>, b: string, y: seq<string>)
    requires Escaped(a) + Tail(x) == Escaped(b) + Tail(y)
    ensures Escaped(a) == Escaped(b) && Tail(x) == Tail(y)
  {
    NoSeparatorInside(a);
    NoSeparatorInside(b);
    var whole := Escaped(a) + Tail(x);
    var n, m := |Escaped(a)|, |Escaped(b)|;
    assert whole[..n] == Escaped(a) && whole[..m] == Escaped(b);
    assert forall i :: 0 <= i < n ==> whole[i] != ':';
    assert forall i :: 0 <= i < m ==> whole[i] != ':';
    assert n < |whole| ==> whole[n] == ':';
    assert m < |whole| ==> whole[m] == ':';
    assert whole[n..] == Tail(x) && whole[m..] == Tail(y);
  }

  lemma TailStarts(values: seq<string>)
    ensures values == [] <==> |Tail(values)| == 0
    ensures values != [] ==> Tail(values)[1..] == Escaped(values[0]) + Tail(values[1..])
  {
  }

  lemma {:induction false} PartsAreInjective(a: string, x: seq<string>, b: string, y: seq<string>)
    requires Escaped(a) + Tail(x) == Escaped(b) + Tail(y)
    ensures a == b && x == y
    decreases |x|
  {
    hide Escaped, Tail;
    FirstPartsAgree(a, x, b, y);
    EscapedIsInjective(a, b);
    TailStarts(x);
    TailStarts(y);
    if x != [] {
      PartsAreInjective(x[0], x[1..], y[0], y[1..]);
      assert x == [x[0]] + x[1..] && y == [y[0]] + y[1..];
    }
  }

  /** Distinct tables or distinct primary keys, of any arity, never share a cache key. */
  lemma KeysAreInjective(a: string, x: seq<string>, b: string, y: seq<string>)
    ensures KeyOf(a, x) == KeyOf(b, y) <==> a == b && x == y
  {
    hide Escaped, Tail;
    if KeyOf(a, x) == KeyOf(b, y) {
      assert KeyOf(a, x)[3..] == Escaped(a) + Tail(x);
      assert KeyOf(b, y)[3..] == Escaped(b) + Tail(y);
      PartsAreInjective(a, x, b, y);
    }
  }
}
