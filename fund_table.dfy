/**
 * The in-memory fund table shared by the loader, the question interpreter and
 * the fund analyzer, with the column operations they apply to it: pandas'
 * `unique()` (distinct values in first-occurrence order), filtering by fund
 * and data set, "last row wins" selection (`.iloc[-1]`), and a model of
 * Python's insertion-ordered `dict`.
 */
module FundTable {
  import opened Wrappers

  /** One record of the source table: `Fund`, `Data set` and `Data` (the `Date` column is never read). */
  datatype Row = Row(fund: string, dataSet: string, value: real)

  /** The sentinel fund name of aggregate rows, excluded from per-fund analysis. */
  const Total: string := "Total"

  /** The data set holding a fund's net internal rate of return. */
  const NetIrr: string := "Net IRR"

  /** How a value is shown: `{v*100:.2f}%`, `{v:.2f}x`, `{v:,.2f}`, or the string 'N/A'. */
  datatype Display = Percent(ofValue: real) | Multiple(ofValue: real) | Thousands(ofValue: real) | NotAvailable

  predicate Distinct<T(==)>(s: seq<T>)
  {
    forall i, j :: 0 <= i < j < |s| ==> s[i] != s[j]
  }

  /** The `Fund` column. */
  function FundColumn(t: seq<Row>): (r: seq<string>)
    ensures |r| == |t|
    ensures forall i :: 0 <= i < |t| ==> r[i] == t[i].fund
  {
    seq(|t|, i requires 0 <= i < |t| => t[i].fund)
  }

  /** The `Data set` column. */
  function DataSetColumn(t: seq<Row>): (r: seq<string>)
    ensures |r| == |t|
    ensures forall i :: 0 <= i < |t| ==> r[i] == t[i].dataSet
  {
    seq(|t|, i requires 0 <= i < |t| => t[i].dataSet)
  }

  /** The index of the first occurrence of `x` in `s`. */
  function FirstIndex<T(==)>(s: seq<T>, x: T): (k: nat)
    requires x in s
    ensures k < |s| && s[k] == x && x !in s[..k]
  {
    if s[0] == x then 0 else 1 + FirstIndex(s[1..], x)
  }

  /** The elements of `r` all occur in `s`, and `r` lists them in the order of their first occurrence in `s`. */
  predicate InFirstOccurrenceOrder<T(==)>(r: seq<T>, s: seq<T>)
  {
    (forall i :: 0 <= i < |r| ==> r[i] in s)
    && forall i, j :: 0 <= i < j < |r| ==> FirstIndex(s, r[i]) < FirstIndex(s, r[j])
  }

  /** pandas `Series.unique()`: every distinct value once, kept at its first occurrence. */
  function Unique(s: seq<string>): (r: seq<string>)
    ensures Distinct(r)
    ensures forall x :: x in r <==> x in s
    ensures |r| <= |s|
  {
    if |s| == 0 then []
    else
      var u := Unique(s[..|s| - 1]);
      if s[|s| - 1] in u then u else u + [s[|s| - 1]]
  }

  /** Appending an element that already occurred does not move the first occurrence of anything. */
  lemma FirstIndexSnoc(s: seq<string>, y: string, x: string)
    requires x in s
    ensures x in s + [y] && FirstIndex(s + [y], x) == FirstIndex(s, x)
  {
    var k := FirstIndex(s, x);
    assert (s + [y])[k] == x;
    assert (s + [y])[..k] == s[..k];
  }

  /** `unique()` keeps its values in the order of their first occurrence. */
  lemma {:induction false} UniqueInFirstOccurrenceOrder(s: seq<string>)
    ensures InFirstOccurrenceOrder(Unique(s), s)
  {
    if |s| > 0 {
      var p, y := s[..|s| - 1], s[|s| - 1];
      assert s == p + [y];
      UniqueInFirstOccurrenceOrder(p);
      var u := Unique(p);
      forall i | 0 <= i < |u|
        ensures FirstIndex(s, u[i]) == FirstIndex(p, u[i])
      {
        FirstIndexSnoc(p, y, u[i]);
      }
      if y !in u {
        assert y !in p;
        assert FirstIndex(s, y) == |p| by {
          assert s[|p|] == y && y !in s[..|p|];
        }
        var r := u + [y];
        forall i, j | 0 <= i < j < |r|
          ensures FirstIndex(s, r[i]) < FirstIndex(s, r[j])
        {
          if j < |u| {
            assert r[i] == u[i] && r[j] == u[j];
          } else {
            assert r[i] == u[i] && r[j] == y;
            assert FirstIndex(p, u[i]) < |p|;
          }
        }
      }
    }
  }

  /** The number of distinct values is the size of the set of values. */
  lemma {:induction false} DistinctCardinality(s: seq<string>)
    requires Distinct(s)
    ensures |set x | x in s| == |s|
  {
    if |s| > 0 {
      var p := s[..|s| - 1];
      assert Distinct(p);
      DistinctCardinality(p);
      assert (set x | x in s) == (set x | x in p) + {s[|s| - 1]};
      assert s[|s| - 1] !in p;
    }
  }

  /** pandas `nunique()`: the length of `unique()` is the number of distinct values. */
  lemma UniqueCount(s: seq<string>)
    ensures |Unique(s)| == |set x | x in s|
  {
    DistinctCardinality(Unique(s));
    assert (set x | x in Unique(s)) == (set x | x in s);
  }

  /** The list comprehension `[f for f in fs if f != 'Total']`. */
  function NonTotal(fs: seq<string>): (r: seq<string>)
    ensures forall x :: x in r <==> x in fs && x != Total
    ensures |r| <= |fs|
  {
    if |fs| == 0 then []
    else
      var p := NonTotal(fs[..|fs| - 1]);
      if fs[|fs| - 1] != Total then p + [fs[|fs| - 1]] else p
  }

  /** Dropping "Total" keeps the remaining names distinct and in their order. */
  lemma {:induction false} NonTotalKeepsOrder(fs: seq<string>, s: seq<string>)
    requires Distinct(fs) && InFirstOccurrenceOrder(fs, s)
    ensures Distinct(NonTotal(fs)) && InFirstOccurrenceOrder(NonTotal(fs), s)
  {
    if |fs| > 0 {
      var p, y := fs[..|fs| - 1], fs[|fs| - 1];
      assert Distinct(p) && InFirstOccurrenceOrder(p, s);
      NonTotalKeepsOrder(p, s);
      var q := NonTotal(p);
      if y != Total {
        var r := q + [y];
        assert y !in p;
        forall i | 0 <= i < |q|
          ensures FirstIndex(s, q[i]) < FirstIndex(s, y)
        {
          assert q[i] in p;
          var k :| 0 <= k < |p| && p[k] == q[i];
          assert fs[k] == q[i] && fs[|fs| - 1] == y;
        }
        forall i, j | 0 <= i < j < |r|
          ensures r[i] != r[j] && FirstIndex(s, r[i]) < FirstIndex(s, r[j])
        {
          if j < |q| {
            assert r[i] == q[i] && r[j] == q[j];
          } else {
            assert r[i] == q[i] && r[j] == y;
          }
        }
      }
    }
  }

  /** The active funds of a table: `[f for f in df['Fund'].unique() if f != 'Total']`. */
  function ActiveFunds(t: seq<Row>): (r: seq<string>)
    ensures Distinct(r)
    ensures forall f :: f in r <==> f != Total && f in FundColumn(t)
    ensures InFirstOccurrenceOrder(r, FundColumn(t))
  {
    var u := Unique(FundColumn(t));
    UniqueInFirstOccurrenceOrder(FundColumn(t));
    NonTotalKeepsOrder(u, FundColumn(t));
    NonTotal(u)
  }

  /** A fund is active exactly when it is not "Total" and some row belongs to it. */
  lemma ActiveFundsMembership(t: seq<Row>, f: string)
    ensures f in ActiveFunds(t) <==> f != Total && exists i :: 0 <= i < |t| && t[i].fund == f
  {
    if f in FundColumn(t) {
      var i :| 0 <= i < |t| && FundColumn(t)[i] == f;
    }
  }

  /** `df[(df['Fund'] == f) & (df['Data set'] == ds)]` keeps this row. */
  predicate RowMatches(row: Row, f: string, ds: string)
  {
    row.fund == f && row.dataSet == ds
  }

  /** The filter of fund `f` and data set `ds` is non-empty. */
  predicate HasRow(t: seq<Row>, f: string, ds: string)
  {
    exists i :: 0 <= i < |t| && RowMatches(t[i], f, ds)
  }

  /** Row `i` is the last row of fund `f` and data set `ds`. */
  predicate IsLastMatch(t: seq<Row>, i: int, f: string, ds: string)
  {
    0 <= i < |t| && RowMatches(t[i], f, ds) && forall j :: i < j < |t| ==> !RowMatches(t[j], f, ds)
  }

  /**
   * The "latest" value of a (fund, data set) pair: `.iloc[-1]['Data']` of its
   * filter, i.e. the value of its last row in table order, or None when the
   * filter is empty.
   */
  function Latest(t: seq<Row>, f: string, ds: string): (r: Option<real>)
    ensures r.Some? <==> HasRow(t, f, ds)
    ensures r.Some? ==> exists i :: IsLastMatch(t, i, f, ds) && t[i].value == r.value
  {
    if |t| == 0 then None
    else if RowMatches(t[|t| - 1], f, ds) then Some(t[|t| - 1].value)
    else
      var r := Latest(t[..|t| - 1], f, ds);
      assert forall i :: 0 <= i < |t| - 1 ==> t[..|t| - 1][i] == t[i];
      if r.Some? then
        ghost var i :| IsLastMatch(t[..|t| - 1], i, f, ds) && t[..|t| - 1][i].value == r.value;
        assert IsLastMatch(t, i, f, ds);
        r
      else r
  }

  /** The last row of a (fund, data set) pair always carries its latest value. */
  lemma LatestIsLastRow(t: seq<Row>, f: string, ds: string, i: int)
    requires IsLastMatch(t, i, f, ds)
    ensures Latest(t, f, ds) == Some(t[i].value)
  {
    assert HasRow(t, f, ds);
    var v := Latest(t, f, ds).value;
    var j :| IsLastMatch(t, j, f, ds) && t[j].value == v;
    assert 0 <= j < |t|;
    assert RowMatches(t[i], f, ds) && RowMatches(t[j], f, ds);
  }

  /** `len(df[df['Fund'] == f])`: the number of rows of fund `f`. */
  function CountFund(t: seq<Row>, f: string): (n: nat)
    ensures n == |set i | 0 <= i < |t| && t[i].fund == f|
  {
    if |t| == 0 then 0
    else
      var n := CountFund(t[..|t| - 1], f);
      FundRowsSnoc(t, f);
      if t[|t| - 1].fund == f then n + 1 else n
  }

  /** The indices of the rows of fund `f`. */
  ghost function FundRows(t: seq<Row>, f: string): set<int>
  {
    set i | 0 <= i < |t| && t[i].fund == f
  }

  /** The rows of a fund in a longer table: those of the shorter one, and the new row if it is one. */
  lemma FundRowsSnoc(t: seq<Row>, f: string)
    requires |t| > 0
    ensures FundRows(t, f) == FundRows(t[..|t| - 1], f) + if t[|t| - 1].fund == f then {|t| - 1} else {}
  {
    var p := t[..|t| - 1];
    assert forall i :: 0 <= i < |p| ==> p[i] == t[i];
  }

  /**
   * A Python `dict` with string keys: a map together with the order in which
   * its keys were first inserted.
   */
  datatype Dict<V> = Dict(keys: seq<string>, entries: map<string, V>) {
    ghost predicate Valid()
    {
      Distinct(keys) && forall k :: k in entries <==> k in keys
    }

    /** `len(d)`. */
    function Size(): nat
    {
      |keys|
    }

    /** `d[k] = v`: a new key goes to the end, an existing key keeps its place and takes the new value. */
    function Insert(k: string, v: V): (d: Dict<V>)
      requires Valid()
      ensures d.Valid()
      ensures d.entries == entries[k := v]
      ensures d.keys == if k in entries then keys else keys + [k]
    {
      if k in entries then Dict(keys, entries[k := v]) else Dict(keys + [k], entries[k := v])
    }
  }

  /** The empty dict `{}`. */
  function EmptyDict<V>(): (d: Dict<V>)
    ensures d.Valid() && d.Size() == 0 && d.entries == map[]
  {
    Dict([], map[])
  }
}
