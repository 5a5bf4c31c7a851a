/** Names in byte order, and the smallest of a set of names. */
module NameOrder {

  /** Byte order of names. */
  predicate Before(a: string, b: string) {
    if b == [] then false
    else if a == [] then true
    else a[0] < b[0] || (a[0] == b[0] && Before(a[1..], b[1..]))
  }

  lemma {:induction false} BeforeIsTotal(a: string, b: string)
    ensures Before(a, b) || Before(b, a) || a == b
    ensures !(Before(a, b) && Before(b, a)) && !Before(a, a)
  {
    if a != [] && b != [] {
      BeforeIsTotal(a[1..], b[1..]);
      assert a == [a[0]] + a[1..] && b == [b[0]] + b[1..];
    }
    if a != [] {
      BeforeIsTotal(a[1..], a[1..]);
    }
  }

  lemma {:induction false} BeforeIsTransitive(a: string, b: string, c: string)
    requires Before(a, b) && Before(b, c)
    ensures Before(a, c)
  {
    if a != [] && a[0] == b[0] == c[0] {
      BeforeIsTransitive(a[1..], b[1..], c[1..]);
    }
  }

  predicate IsSmallest(x: string, s: set<string>) {
    x in s && forall y :: y in s ==> y == x || Before(x, y)
  }

  lemma SmallestIsUnique(x: string, y: string, s: set<string>)
    requires IsSmallest(x, s) && IsSmallest(y, s)
    ensures x == y
  {
    BeforeIsTotal(x, y);
  }

  lemma {:induction false} SmallestExists(s: set<string>)
    requires s != {}
    ensures exists x :: IsSmallest(x, s)
  {
    var z :| z in s;
    if s == {z} {
      assert IsSmallest(z, s);
    } else {
      SmallestExists(s - {z});
      var x :| IsSmallest(x, s - {z});
      BeforeIsTotal(x, z);
      if Before(z, x) {
        forall y | y in s && y != z ensures Before(z, y) {
          if y != x {
            BeforeIsTransitive(z, x, y);
          }
        }
        assert IsSmallest(z, s);
      } else {
        assert IsSmallest(x, s);
      }
    }
  }

  ghost function Smallest(s: set<string>): (x: string)
    requires s != {}
    ensures IsSmallest(x, s)
  {
    SmallestExists(s);
    var x :| IsSmallest(x, s);
    x
  }
}
