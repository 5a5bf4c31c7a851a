/** When both ALTER statements of a plan run, and that running them one after the other leaves the
    table a single ALTER would have left. */
module TwoStatements {
  import opened ColumnTypes
  import opened TableDef
  import opened ColumnPlanner
  import opened AlterTable
  import opened SchemaPlan
  import opened PlanLegality

  // ---------------------------------------------------------------- splitting a legal ALTER

  function Without(cs: seq<Clause>, p: nat): (r: seq<Clause>)
    requires p < |cs|
    ensures |r| == |cs| - 1
    ensures forall i :: 0 <= i < |r| ==> r[i] == cs[if i < p then i else i + 1]
  {
    cs[..p] + cs[p + 1..]
  }

  /** No other clause writes the name of the column that clause p redefines. */
  ghost predicate Free(cols: Columns, cs: seq<Clause>, p: nat)
    requires p < |cs|
  {
    forall n, k :: n in cols && Touches(cs[p], n) && 0 <= k < |cs| && k != p ==> Fold(cs[k].column) != Fold(n)
  }

  lemma WithoutHas(cs: seq<Clause>, p: nat, k: nat)
    requires p < |cs| && k < |cs| && k != p
    ensures exists i :: 0 <= i < |cs| - 1 && i == (if k < p then k else k - 1) && Without(cs, p)[i] == cs[k]
  {
    assert Without(cs, p)[if k < p then k else k - 1] == cs[k];
  }

  lemma TouchedWithout(cs: seq<Clause>, p: nat, n: string)
    requires p < |cs|
    ensures Touched(cs, n) <==> Touches(cs[p], n) || Touched(Without(cs, p), n)
  {
    if k :| 0 <= k < |cs| && k != p && Touches(cs[k], n) {
      WithoutHas(cs, p, k);
    }
  }

  /** Leaving clause p for later is legal exactly when the column it redefines is in nobody's way. */
  lemma FirstPartLegal(cols: Columns, cs: seq<Clause>, p: nat)
    requires FoldUnique(cols) && LegalAlter(cols, cs) && p < |cs|
    ensures LegalAlter(cols, Without(cs, p)) <==> Free(cols, cs, p)
  {
    hide Fold, Touches;
    var kept := Without(cs, p);
    if LegalAlter(cols, kept) {
      forall n, k | n in cols && Touches(cs[p], n) && 0 <= k < |cs| && k != p ensures Fold(cs[k].column) != Fold(n) {
        WithoutHas(cs, p, k);
        assert !Touched(kept, n);
      }
    }
    if Free(cols, cs, p) {
      forall i, n | 0 <= i < |kept| && n in cols && !Touched(kept, n) ensures Fold(n) != Fold(kept[i].column) {
        TouchedWithout(cs, p, n);
      }
    }
  }

  /** A column another clause wrote is not the one clause p redefines. */
  lemma WrittenIsNotTouched(cols: Columns, cs: seq<Clause>, p: nat, k: nat)
    requires LegalAlter(cols, cs) && p < |cs| && Free(cols, cs, p) && k < |cs| && k != p
    ensures !Touches(cs[p], cs[k].column)
  {
    hide Fold;
    ColumnsDistinct(cols, cs);
    assert !cs[p].Add? ==> exists n :: n in cols && Touches(cs[p], n);
  }

  lemma MiddleColumns(cols: Columns, cs: seq<Clause>, p: nat, n: string)
    requires FoldUnique(cols) && LegalAlter(cols, cs) && p < |cs| && Free(cols, cs, p)
    ensures var mid := AfterAlter(cols, Without(cs, p));
      && (n in cols && !Touched(Without(cs, p), n) ==> n in mid && mid[n] == cols[n])
      && (n in mid ==> (n in cols && !Touched(Without(cs, p), n)) || exists k :: 0 <= k < |cs| && k != p && cs[k].column == n)
  {
    hide Fold, LegalAlter, Touches;
    FirstPartLegal(cols, cs, p);
    var kept := Without(cs, p);
    ColumnsDistinct(cols, kept);
    WrittenLookup(kept);
    if n in cols && !Touched(kept, n) {
      UntouchedStays(cols, kept, n);
    }
    if n in WrittenColumns(kept) {
      var i :| 0 <= i < |kept| && kept[i].column == n;
      assert cs[if i < p then i else i + 1].column == n;
    }
  }

  lemma SecondPartLegal(cols: Columns, cs: seq<Clause>, p: nat)
    requires FoldUnique(cols) && LegalAlter(cols, cs) && p < |cs| && Free(cols, cs, p)
    ensures LegalAlter(AfterAlter(cols, Without(cs, p)), [cs[p]])
  {
    hide Fold, AfterAlter;
    var mid := AfterAlter(cols, Without(cs, p));
    if !cs[p].Add? {
      var n :| n in cols && Touches(cs[p], n);
      assert forall i :: 0 <= i < |Without(cs, p)| ==> !Touches(Without(cs, p)[i], n);
      MiddleColumns(cols, cs, p, n);
    }
    forall n | n in mid && !Touched([cs[p]], n) ensures Fold(n) != Fold(cs[p].column) {
      MiddleColumns(cols, cs, p, n);
      if n in cols && !Touched(Without(cs, p), n) {
        assert [cs[p]][0] == cs[p];
        TouchedWithout(cs, p, n);
      } else {
        ColumnsDistinct(cols, cs);
      }
    }
  }

  /** What a statement with distinct columns leaves under one name. */
  lemma AfterLookup(cols: Columns, cs: seq<Clause>, n: string)
    requires forall i, j :: 0 <= i < j < |cs| ==> Fold(cs[i].column) != Fold(cs[j].column)
    ensures forall k :: 0 <= k < |cs| && cs[k].column == n ==>
      n in AfterAlter(cols, cs) && AfterAlter(cols, cs)[n] == MetaOf(cs[k].def, cs[k].number)
    ensures (forall k :: 0 <= k < |cs| ==> cs[k].column != n) ==>
      (if n in cols && !Touched(cs, n) then n in AfterAlter(cols, cs) && AfterAlter(cols, cs)[n] == cols[n]
       else n !in AfterAlter(cols, cs))
  {
    hide Fold, Touched;
    WrittenLookup(cs);
  }

  /** Running clause p afterwards leaves the columns the whole statement would have left. */
  lemma SplitIsWhole(cols: Columns, cs: seq<Clause>, p: nat)
    requires FoldUnique(cols) && LegalAlter(cols, cs) && p < |cs| && Free(cols, cs, p)
    ensures AfterAlter(AfterAlter(cols, Without(cs, p)), [cs[p]]) == AfterAlter(cols, cs)
  {
    hide Fold, LegalAlter, Touches, AfterAlter;
    var mid := AfterAlter(cols, Without(cs, p));
    var split, whole := AfterAlter(mid, [cs[p]]), AfterAlter(cols, cs);
    forall n: string ensures (n in split <==> n in whole) && (n in split ==> split[n] == whole[n]) {
      SplitAt(cols, cs, p, n, mid);
    }
  }

  lemma SplitAt(cols: Columns, cs: seq<Clause>, p: nat, n: string, mid: Columns)
    requires FoldUnique(cols) && LegalAlter(cols, cs) && p < |cs| && Free(cols, cs, p) && mid == AfterAlter(cols, Without(cs, p))
    ensures var split, whole := AfterAlter(mid, [cs[p]]), AfterAlter(cols, cs);
      (n in split <==> n in whole) && (n in split ==> split[n] == whole[n])
  {
    hide Fold, LegalAlter, Touches, AfterAlter, Touched, FoldUnique;
    var kept := Without(cs, p);
    FirstPartLegal(cols, cs, p);
    ColumnsDistinct(cols, cs);
    ColumnsDistinct(cols, kept);
    AfterLookup(cols, kept, n);
    AfterLookup(mid, [cs[p]], n);
    AfterLookup(cols, cs, n);
    TouchedWithout(cs, p, n);
    TouchedOne(cs[p], n);
    if n == cs[p].column {
      assert [cs[p]][0].column == n;
    } else if k :| 0 <= k < |cs| && k != p && cs[k].column == n {
      WithoutHas(cs, p, k);
      WrittenIsNotTouched(cols, cs, p, k);
    }
  }

  lemma TouchedOne(c: Clause, n: string)
    ensures Touched([c], n) <==> Touches(c, n)
  {
    assert [c][0] == c;
  }
}
