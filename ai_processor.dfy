/**
 * The question interpreter: a question is lowered, mapped to an intent by an
 * ordered list of substring rules, searched for fund names and one metric,
 * and answered by one of four aggregations over the cached fund table.
 */
module AiProcessor {
  import opened Wrappers
  import opened Text
  import opened FundTable
  import opened DataLoading

  // ---------------------------------------------------------------------------
  // Intent detection
  // ---------------------------------------------------------------------------

  datatype Intent = IrrAnalysis | PerformanceRanking | DistributionAnalysis | Comparison | GeneralAnalysis
  {
    /** The tag the interpreter reports. */
    function Name(): string
    {
      match this
      case IrrAnalysis => "irr_analysis"
      case PerformanceRanking => "performance_ranking"
      case DistributionAnalysis => "distribution_analysis"
      case Comparison => "comparison"
      case GeneralAnalysis => "general_analysis"
    }
  }

  /**
   * `_detect_intent` on the lowered question: the first rule that applies
   * wins, in the order "irr", "mejor"/"best", "distribu", "comparar".
   */
  function DetectIntent(q: string): (r: Intent)
    ensures r == IrrAnalysis <==> Contains(q, "irr")
    ensures r == PerformanceRanking <==> !Contains(q, "irr") && (Contains(q, "mejor") || Contains(q, "best"))
    ensures r == DistributionAnalysis <==>
      !Contains(q, "irr") && !Contains(q, "mejor") && !Contains(q, "best") && Contains(q, "distribu")
    ensures r == Comparison <==>
      !Contains(q, "irr") && !Contains(q, "mejor") && !Contains(q, "best") && !Contains(q, "distribu")
      && Contains(q, "comparar")
    ensures r == GeneralAnalysis <==>
      !Contains(q, "irr") && !Contains(q, "mejor") && !Contains(q, "best") && !Contains(q, "distribu")
      && !Contains(q, "comparar")
  {
    if Contains(q, "irr") then IrrAnalysis
    else if Contains(q, "mejor") || Contains(q, "best") then PerformanceRanking
    else if Contains(q, "distribu") then DistributionAnalysis
    else if Contains(q, "comparar") then Comparison
    else GeneralAnalysis
  }

  /** The questions of the interpreter's own tests get the intents those tests expect. */
  lemma DetectIntentIrrExample(q: string)
    requires q == "cuál es el irr del fund i"
    ensures DetectIntent(q) == IrrAnalysis
  {
    assert q[11..14] == "irr";
    ContainsAt(q, "irr", 11);
  }

  lemma DetectIntentRankingExample(q: string)
    requires q == "cuál es el mejor fund"
    ensures DetectIntent(q) == PerformanceRanking
  {
    NotContainsMissingChar(q, "irr", 'i');
    assert q[11..16] == "mejor";
    ContainsAt(q, "mejor", 11);
  }

  lemma DetectIntentGeneralExample(q: string)
    requires q == "hola como estas"
    ensures DetectIntent(q) == GeneralAnalysis
  {
    HolaHasNoKeyword(q);
  }

  lemma HolaHasNoKeyword(q: string)
    requires q == "hola como estas"
    ensures !Contains(q, "irr") && !Contains(q, "mejor") && !Contains(q, "best")
    ensures !Contains(q, "distribu") && !Contains(q, "comparar")
  {
    NotContainsMissingChar(q, "irr", 'i');
    NotContainsMissingChar(q, "mejor", 'j');
    NotContainsMissingChar(q, "best", 'b');
    NotContainsMissingChar(q, "distribu", 'd');
    NotContainsMissingChar(q, "comparar", 'p');
  }

  // ---------------------------------------------------------------------------
  // Entity extraction: re.findall(r'fund\s+([iv]+)', question)
  // ---------------------------------------------------------------------------

  /** A match of the fund pattern: "fund" at `start`, white space up to `letters`, roman letters up to `end`. */
  datatype FundMatch = FundMatch(start: nat, letters: nat, end: nat)

  predicate IsRomanLetter(c: char)
  {
    c == 'i' || c == 'v'
  }

  /** The literal "fund" at index `p`. */
  predicate FundAt(s: string, p: nat)
  {
    p + 4 <= |s| && s[p] == 'f' && s[p + 1] == 'u' && s[p + 2] == 'n' && s[p + 3] == 'd'
  }

  /**
   * `m` is what `fund\s+([iv]+)` matches when tried at `m.start`: the literal
   * "fund", one or more white-space characters, and the longest run of one or
   * more of 'i' and 'v' (the group is greedy, and white space and the two
   * letters are disjoint, so no backtracking changes the split).
   */
  predicate IsMatch(s: string, m: FundMatch)
  {
    m.start + 4 < m.letters < m.end <= |s|
    && FundAt(s, m.start)
    && (forall k :: m.start + 4 <= k < m.letters ==> IsSpace(s[k]))
    && (forall k :: m.letters <= k < m.end ==> IsRomanLetter(s[k]))
    && (m.end == |s| || !IsRomanLetter(s[m.end]))
  }

  /** The end of the run of white space starting at `p`. */
  function SpaceRunEnd(s: string, p: nat): (e: nat)
    requires p <= |s|
    ensures p <= e <= |s|
    ensures forall k :: p <= k < e ==> IsSpace(s[k])
    ensures e == |s| || !IsSpace(s[e])
    decreases |s| - p
  {
    if p < |s| && IsSpace(s[p]) then SpaceRunEnd(s, p + 1) else p
  }

  /** The end of the run of 'i' and 'v' starting at `p`. */
  function RomanRunEnd(s: string, p: nat): (e: nat)
    requires p <= |s|
    ensures p <= e <= |s|
    ensures forall k :: p <= k < e ==> IsRomanLetter(s[k])
    ensures e == |s| || !IsRomanLetter(s[e])
    decreases |s| - p
  {
    if p < |s| && IsRomanLetter(s[p]) then RomanRunEnd(s, p + 1) else p
  }

  /** Trying the pattern at index `p`: the match that starts there, or None. */
  function MatchAt(s: string, p: nat): (r: Option<FundMatch>)
    requires p <= |s|
    ensures r.Some? ==> IsMatch(s, r.value) && r.value.start == p
  {
    if !FundAt(s, p) then None
    else
      var a := SpaceRunEnd(s, p + 4);
      if a == p + 4 || a == |s| || !IsRomanLetter(s[a]) then None
      else Some(FundMatch(p, a, RomanRunEnd(s, a)))
  }

  /** No match of the pattern starts in [lo, hi). */
  ghost predicate NoMatchBetween(s: string, lo: int, hi: int)
  {
    forall m :: IsMatch(s, m) && lo <= m.start ==> hi <= m.start
  }

  /**
   * `re.findall` from index `p`: the leftmost match, then the leftmost match
   * from its end, and so on. The matches are genuine, do not overlap, come in
   * order, and no match starts before the first one or in a gap between two.
   */
  function FindAll(s: string, p: nat): (r: seq<FundMatch>)
    requires p <= |s|
    ensures forall i :: 0 <= i < |r| ==> IsMatch(s, r[i]) && p <= r[i].start
    ensures forall i :: 0 <= i < |r| - 1 ==> r[i].end <= r[i + 1].start
    decreases |s| - p
  {
    if p == |s| then []
    else
      match MatchAt(s, p)
      case Some(m) => [m] + FindAll(s, m.end)
      case None => FindAll(s, p + 1)
  }

  /** A match is found wherever it starts: trying the pattern at its start yields exactly it. */
  lemma MatchAtComplete(s: string, m: FundMatch)
    requires IsMatch(s, m)
    ensures MatchAt(s, m.start) == Some(m)
  {
    var a := SpaceRunEnd(s, m.start + 4);
    assert IsSpace(s[m.start + 4]);
    assert !IsSpace(s[m.letters]);
    assert a == m.letters;
  }

  /** When the pattern fails at `p`, no match starts at `p`. */
  lemma MatchAtNone(s: string, p: nat)
    requires p <= |s| && MatchAt(s, p).None?
    ensures forall m :: IsMatch(s, m) ==> m.start != p
  {
    forall m | IsMatch(s, m)
      ensures m.start != p
    {
      MatchAtComplete(s, m);
    }
  }

  /** Where the next match found from `p` starts, or the end of the string when there is none. */
  function NextStart(s: string, p: nat): nat
    requires p <= |s|
  {
    var r := FindAll(s, p);
    if |r| == 0 then |s| else r[0].start
  }

  /** `findall` takes the leftmost match: no match starts between `p` and the first match it reports. */
  lemma {:induction false} FindAllFirstIsLeftmost(s: string, p: nat)
    requires p <= |s|
    ensures NoMatchBetween(s, p, NextStart(s, p))
    decreases |s| - p
  {
    if p < |s| && MatchAt(s, p).None? {
      MatchAtNone(s, p);
      FindAllFirstIsLeftmost(s, p + 1);
      assert NextStart(s, p) == NextStart(s, p + 1);
    }
  }

  /** `findall` misses nothing after a match either: no match starts between the end of one reported match and the start of the next (or the end of the string). */
  lemma {:induction false} FindAllMissesNothing(s: string, p: nat, i: nat)
    requires p <= |s| && i < |FindAll(s, p)|
    ensures var r := FindAll(s, p);
      NoMatchBetween(s, r[i].end, if i + 1 < |r| then r[i + 1].start else |s|)
    decreases |s| - p
  {
    var r := FindAll(s, p);
    match MatchAt(s, p)
    case Some(m) =>
      var rest := FindAll(s, m.end);
      assert r == [m] + rest;
      if i == 0 {
        FindAllFirstIsLeftmost(s, m.end);
        assert r[0].end == m.end;
        assert (if 1 < |r| then r[1].start else |s|) == NextStart(s, m.end);
      } else {
        FindAllMissesNothing(s, m.end, i - 1);
        assert r[i] == rest[i - 1];
        if i + 1 < |r| {
          assert r[i + 1] == rest[i];
        }
      }
    case None =>
      FindAllMissesNothing(s, p + 1, i);
  }

  /** `str.upper()` on the letters a to z. */
  function UpperChar(c: char): char
  {
    if 'a' <= c <= 'z' then (c as int - 32) as char else c
  }

  function Upper(s: string): (r: string)
    ensures |r| == |s| && forall i :: 0 <= i < |s| ==> r[i] == UpperChar(s[i])
  {
    seq(|s|, i requires 0 <= i < |s| => UpperChar(s[i]))
  }

  /** The entity for a match: `f"Fund {f.upper()}"` of its captured letters. */
  function FundEntity(s: string, m: FundMatch): string
    requires m.letters <= m.end <= |s|
  {
    "Fund " + Upper(s[m.letters..m.end])
  }

  /** The entities found in a question: fund names in the order matched, and at most one metric. */
  datatype Entities = Entities(funds: seq<string>, metrics: seq<string>)

  /** The metric rule: "irr" before "nav" before "tvpi", at most one metric. */
  function ExtractMetrics(q: string): (r: seq<string>)
    ensures |r| <= 1
    ensures r == ["Net IRR"] <==> Contains(q, "irr")
    ensures r == ["NAV"] <==> !Contains(q, "irr") && Contains(q, "nav")
    ensures r == ["Net TVPI"] <==> !Contains(q, "irr") && !Contains(q, "nav") && Contains(q, "tvpi")
    ensures r == [] <==> !Contains(q, "irr") && !Contains(q, "nav") && !Contains(q, "tvpi")
  {
    if Contains(q, "irr") then ["Net IRR"]
    else if Contains(q, "nav") then ["NAV"]
    else if Contains(q, "tvpi") then ["Net TVPI"]
    else []
  }

  /** `_extract_entities` on the lowered question. */
  function ExtractEntities(q: string): (r: Entities)
    ensures |r.funds| == |FindAll(q, 0)|
    ensures forall i :: 0 <= i < |r.funds| ==> r.funds[i] == FundEntity(q, FindAll(q, 0)[i])
    ensures r.metrics == ExtractMetrics(q)
  {
    var ms := FindAll(q, 0);
    Entities(seq(|ms|, i requires 0 <= i < |ms| => FundEntity(q, ms[i])), ExtractMetrics(q))
  }

  /** Every fund entity is "Fund " followed by one or more of the letters I and V. */
  lemma FundEntityShape(q: string, i: int)
    requires 0 <= i < |ExtractEntities(q).funds|
    ensures var f := ExtractEntities(q).funds[i];
      |f| > 5 && f[..5] == "Fund " && forall k :: 5 <= k < |f| ==> f[k] == 'I' || f[k] == 'V'
  {
    var m := FindAll(q, 0)[i];
    var f := ExtractEntities(q).funds[i];
    assert f == "Fund " + Upper(q[m.letters..m.end]);
    forall k | 5 <= k < |f|
      ensures f[k] == 'I' || f[k] == 'V'
    {
      assert f[k] == UpperChar(q[m.letters + k - 5]);
    }
  }

  /** From `p` to `e` nothing can match (no "fund" starts there), so `findall` resumes at `e`. */
  lemma {:induction false} FindAllSkips(s: string, p: nat, e: nat)
    requires p <= e <= |s|
    requires forall k :: p <= k < e ==> !FundAt(s, k)
    ensures FindAll(s, p) == FindAll(s, e)
    decreases e - p
  {
    if p < e {
      assert !FundAt(s, p);
      assert MatchAt(s, p) == None;
      assert FindAll(s, p) == FindAll(s, p + 1);
      FindAllSkips(s, p + 1, e);
    }
  }

  /** In the question of the interpreter's entity test, the pattern matches once: "fund iii". */
  lemma FindAllExample(q: string)
    requires q == "cuál es el irr del fund iii"
    ensures FindAll(q, 0) == [FundMatch(19, 24, 27)]
  {
    var before := "cuál es el irr del ";
    assert q[..19] == before;
    assert 'f' !in before;
    forall k | 0 <= k < 19
      ensures !FundAt(q, k)
    {
      assert q[k] == before[k];
    }
    FindAllSkips(q, 0, 19);
    var m := FundMatch(19, 24, 27);
    assert |q| == 27 && q[19] == 'f' && q[20] == 'u' && q[21] == 'n' && q[22] == 'd';
    assert q[23] == ' ' && q[24] == 'i' && q[25] == 'i' && q[26] == 'i';
    assert IsMatch(q, m);
    MatchAtComplete(q, m);
    assert FindAll(q, 19) == [m] + FindAll(q, 27);
  }

  /** That question yields exactly the fund "Fund III" and the metric "Net IRR". */
  lemma ExtractEntitiesExample(q: string)
    requires q == "cuál es el irr del fund iii"
    ensures ExtractEntities(q) == Entities(["Fund III"], ["Net IRR"])
  {
    FindAllExample(q);
    var m := FundMatch(19, 24, 27);
    assert q[24..27] == "iii";
    var u := Upper(q[24..27]);
    assert |u| == 3 && u[0] == 'I' && u[1] == 'I' && u[2] == 'I';
    assert u == "III";
    assert FundEntity(q, m) == "Fund III";
    var r := ExtractEntities(q);
    assert r.funds == ["Fund III"];
    assert q[11..14] == "irr";
    ContainsAt(q, "irr", 11);
    assert r.metrics == ["Net IRR"];
  }

  // ---------------------------------------------------------------------------
  // Query results
  // ---------------------------------------------------------------------------

  /** One fund of the IRR analysis: `{'net_irr': ..., 'percentage': ...}`. */
  datatype IrrEntry = IrrEntry(netIrr: real, percentage: Display)

  /** One fund of the ranking, with its latest net IRR. */
  datatype Ranked = Ranked(fund: string, value: real)

  /** The value of `query_result`: an error, or the payload of one of the four analyses. */
  datatype QueryResult =
    | QueryError(message: string)
    | IrrReport(results: Dict<IrrEntry>, summary: string)
    | RankingReport(ranking: seq<Ranked>, bestPerformer: Option<string>, summary: string)
    | DistributionReport(counts: Dict<nat>, summary: string)
    | GeneralReport(totalRecords: nat, uniqueFunds: nat, availableMetrics: nat, summary: string)
  {
    /** The `analysis_type` label of a payload. */
    function AnalysisType(): string
      requires !QueryError?
    {
      match this
      case IrrReport(_, _) => "Análisis de IRR"
      case RankingReport(_, _, _) => "Ranking de Performance"
      case DistributionReport(_, _) => "Análisis de Distribuciones"
      case GeneralReport(_, _, _, _) => "Resumen General"
    }
  }

  // ---------------------------------------------------------------------------
  // IRR analysis
  // ---------------------------------------------------------------------------

  /** The percentage shown for an IRR: 'N/A' when the value is falsy, that is exactly 0. */
  function IrrPercentage(v: real): (d: Display)
    ensures d == NotAvailable <==> v == 0.0
    ensures d != NotAvailable ==> d == Percent(v)
  {
    if v != 0.0 then Percent(v) else NotAvailable
  }

  /** The funds asked about: the extracted ones, or else every active fund. */
  function IrrTargets(t: seq<Row>, e: Entities): seq<string>
  {
    if |e.funds| > 0 then e.funds else ActiveFunds(t)
  }

  /** The entry of a fund that has a Net IRR row: its latest Net IRR. */
  function IrrEntryOf(t: seq<Row>, f: string): IrrEntry
    requires HasRow(t, f, NetIrr)
  {
    var v := Latest(t, f, NetIrr).value;
    IrrEntry(v, IrrPercentage(v))
  }

  /**
   * The `results` dict once the loop has visited the funds `fs`: exactly the
   * visited funds with a Net IRR row, each with its entry.
   */
  function IrrResults(t: seq<Row>, fs: seq<string>): (d: Dict<IrrEntry>)
    ensures d.Valid()
    ensures forall f :: f in d.entries <==> f in fs && HasRow(t, f, NetIrr)
    ensures forall f :: f in d.entries ==> HasRow(t, f, NetIrr) && d.entries[f] == IrrEntryOf(t, f)
  {
    if |fs| == 0 then EmptyDict()
    else
      var p, f := fs[..|fs| - 1], fs[|fs| - 1];
      assert fs == p + [f];
      var d := IrrResults(t, p);
      if HasRow(t, f, NetIrr) then d.Insert(f, IrrEntryOf(t, f)) else d
  }

  /** The payload of `_analyze_irr`. */
  function IrrReportOf(t: seq<Row>, e: Entities): QueryResult
  {
    var d := IrrResults(t, IrrTargets(t, e));
    IrrReport(d, "IRR de " + NatToString(d.Size()) + " fondos")
  }

  /** `_analyze_irr`: the loop over the target funds that fills `results`. */
  method AnalyzeIrr(t: seq<Row>, e: Entities) returns (r: QueryResult)
    ensures r == IrrReportOf(t, e)
  {
    var funds := if |e.funds| > 0 then e.funds else ActiveFunds(t);
    var results: Dict<IrrEntry> := EmptyDict();
    var i := 0;
    while i < |funds|
      invariant 0 <= i <= |funds|
      invariant results == IrrResults(t, funds[..i])
    {
      var fund := funds[i];
      var latest := Latest(t, fund, NetIrr);
      if latest.Some? {
        results := results.Insert(fund, IrrEntry(latest.value, IrrPercentage(latest.value)));
      }
      assert funds[..i + 1][..i] == funds[..i];
      i := i + 1;
    }
    assert funds[..|funds|] == funds;
    r := IrrReport(results, "IRR de " + NatToString(results.Size()) + " fondos");
  }

  /** A dict's size is the number of its entries. */
  lemma DictSize<V>(d: Dict<V>)
    requires d.Valid()
    ensures d.Size() == |d.entries|
  {
    DistinctCardinality(d.keys);
    assert d.entries.Keys == set x | x in d.keys;
  }

  /**
   * What the IRR analysis reports: exactly the asked-about funds that have a
   * Net IRR row, each with the value of its last such row, shown as a
   * percentage unless it is 0, and a summary counting them.
   */
  lemma IrrReportSpec(t: seq<Row>, e: Entities)
    ensures var r := IrrReportOf(t, e);
      && r.IrrReport? && r.results.Valid()
      && (forall f :: f in r.results.entries <==> f in IrrTargets(t, e) && HasRow(t, f, NetIrr))
      && (forall f, i :: f in r.results.entries && IsLastMatch(t, i, f, NetIrr) ==> r.results.entries[f].netIrr == t[i].value)
      && (forall f :: f in r.results.entries ==>
            (r.results.entries[f].percentage == NotAvailable <==> r.results.entries[f].netIrr == 0.0))
      && r.summary == "IRR de " + NatToString(|r.results.entries|) + " fondos"
  {
    var r := IrrReportOf(t, e);
    forall f, i | f in r.results.entries && IsLastMatch(t, i, f, NetIrr)
      ensures r.results.entries[f].netIrr == t[i].value
    {
      LatestIsLastRow(t, f, NetIrr, i);
    }
    DictSize(r.results);
  }

  /** The scenario of two Net IRR rows for Fund I (0.12 then 0.15) and one for Fund II: asking about Fund I reports 0.15, shown as a percentage. */
  lemma IrrScenario(t: seq<Row>)
    requires t == [Row("Fund I", NetIrr, 0.12), Row("Fund I", NetIrr, 0.15), Row("Fund II", NetIrr, 0.10)]
    ensures IrrReportOf(t, Entities(["Fund I"], ["Net IRR"])).results
         == Dict(["Fund I"], map["Fund I" := IrrEntry(0.15, Percent(0.15))])
  {
    assert "Fund I" != "Fund II";
    assert IsLastMatch(t, 1, "Fund I", NetIrr);
    LatestIsLastRow(t, "Fund I", NetIrr, 1);
    var fs := ["Fund I"];
    assert fs[..0] == [];
    assert IrrResults(t, fs) == EmptyDict().Insert("Fund I", IrrEntryOf(t, "Fund I"));
  }

  // ---------------------------------------------------------------------------
  // Performance ranking
  // ---------------------------------------------------------------------------

  predicate SortedByValueDesc(s: seq<Ranked>)
  {
    forall i, j :: 0 <= i < j < |s| ==> s[i].value >= s[j].value
  }

  /** Insertion into a list sorted by non-increasing value: before the first element not above it. */
  function InsertByValue(x: Ranked, s: seq<Ranked>): seq<Ranked>
  {
    if |s| == 0 || x.value >= s[0].value then [x] + s
    else [s[0]] + InsertByValue(x, s[1..])
  }

  /** `sort_values(ascending=False)` as an insertion sort (ties in an unspecified order). */
  function SortByValueDesc(s: seq<Ranked>): seq<Ranked>
  {
    if |s| == 0 then [] else InsertByValue(s[0], SortByValueDesc(s[1..]))
  }

  /** Putting an element at least as large as every other in front keeps a list sorted. */
  lemma ConsSorted(a: Ranked, s: seq<Ranked>)
    requires SortedByValueDesc(s)
    requires forall k :: 0 <= k < |s| ==> s[k].value <= a.value
    ensures SortedByValueDesc([a] + s)
  {
    var r := [a] + s;
    forall i, j | 0 <= i < j < |r|
      ensures r[i].value >= r[j].value
    {
      assert r[j] == s[j - 1];
      if i > 0 {
        assert r[i] == s[i - 1];
      }
    }
  }

  /** Insertion keeps a list sorted and adds exactly the new element. */
  lemma {:induction false} InsertByValueSorted(x: Ranked, s: seq<Ranked>)
    requires SortedByValueDesc(s)
    ensures SortedByValueDesc(InsertByValue(x, s))
    ensures multiset(InsertByValue(x, s)) == multiset(s) + multiset{x}
  {
    if |s| == 0 || x.value >= s[0].value {
      assert InsertByValue(x, s) == [x] + s;
      ConsSorted(x, s);
    } else {
      var rest := InsertByValue(x, s[1..]);
      assert InsertByValue(x, s) == [s[0]] + rest;
      InsertByValueSorted(x, s[1..]);
      assert s == [s[0]] + s[1..];
      assert multiset(s) == multiset{s[0]} + multiset(s[1..]);
      forall k | 0 <= k < |rest|
        ensures rest[k].value <= s[0].value
      {
        assert rest[k] in multiset(rest);
        if rest[k] != x {
          assert rest[k] in multiset(s[1..]);
          var m :| 0 <= m < |s[1..]| && s[1..][m] == rest[k];
          assert s[1..][m] == s[m + 1];
        }
      }
      ConsSorted(s[0], rest);
    }
  }

  /** The insertion sort yields a permutation of its input, ordered by non-increasing value. */
  lemma {:induction false} SortByValueDescSorted(s: seq<Ranked>)
    ensures SortedByValueDesc(SortByValueDesc(s))
    ensures multiset(SortByValueDesc(s)) == multiset(s)
  {
    if |s| > 0 {
      SortByValueDescSorted(s[1..]);
      InsertByValueSorted(s[0], SortByValueDesc(s[1..]));
      assert s == [s[0]] + s[1..];
    }
  }

  /** The `Fund` values of the Net IRR rows, in table order: the group keys of `groupby('Fund')`. */
  function IrrRowFunds(t: seq<Row>): (r: seq<string>)
    ensures forall f :: f in r <==> HasRow(t, f, NetIrr)
  {
    if |t| == 0 then []
    else
      var p := IrrRowFunds(t[..|t| - 1]);
      assert forall i :: 0 <= i < |t| - 1 ==> t[..|t| - 1][i] == t[i];
      assert forall f :: HasRow(t, f, NetIrr) <==> HasRow(t[..|t| - 1], f, NetIrr) || RowMatches(t[|t| - 1], f, NetIrr);
      if t[|t| - 1].dataSet == NetIrr then p + [t[|t| - 1].fund] else p
  }

  /** The ranked funds: every group but "Total". */
  function RankedFunds(t: seq<Row>): (r: seq<string>)
    ensures Distinct(r)
    ensures forall f :: f in r <==> f != Total && HasRow(t, f, NetIrr)
  {
    var u := Unique(IrrRowFunds(t));
    UniqueInFirstOccurrenceOrder(IrrRowFunds(t));
    NonTotalKeepsOrder(u, IrrRowFunds(t));
    NonTotal(u)
  }

  /** `.last()` of each group: each fund with its latest Net IRR. */
  function LatestIrrs(t: seq<Row>, fs: seq<string>): (r: seq<Ranked>)
    requires forall f :: f in fs ==> HasRow(t, f, NetIrr)
    ensures |r| == |fs|
    ensures forall i :: 0 <= i < |fs| ==> r[i] == Ranked(fs[i], Latest(t, fs[i], NetIrr).value)
  {
    seq(|fs|, i requires 0 <= i < |fs| => Ranked(fs[i], Latest(t, fs[i], NetIrr).value))
  }

  /** The ranked rows: the latest Net IRR of each ranked fund, sorted. */
  function Ranking(t: seq<Row>): seq<Ranked>
  {
    SortByValueDesc(LatestIrrs(t, RankedFunds(t)))
  }

  /** The payload of `_rank_performance`. */
  function RankPerformance(t: seq<Row>): QueryResult
  {
    var ranking := Ranking(t);
    RankingReport(ranking, if |ranking| > 0 then Some(ranking[0].fund) else None,
                  "Ranking de " + NatToString(|ranking|) + " fondos")
  }

  lemma {:induction false} DistinctMultiplicity(s: seq<Ranked>, y: Ranked)
    requires Distinct(s)
    ensures multiset(s)[y] <= 1
  {
    if |s| > 0 {
      var p := s[..|s| - 1];
      assert s == p + [s[|s| - 1]];
      assert Distinct(p);
      DistinctMultiplicity(p, y);
      if y == s[|s| - 1] {
        assert y !in p;
      }
    }
  }

  lemma TwoOccurrences(s: seq<Ranked>, i: int, j: int)
    requires 0 <= i < j < |s| && s[i] == s[j]
    ensures multiset(s)[s[i]] >= 2
  {
    assert s == s[..j] + s[j..];
    assert s[..j][i] == s[i];
    assert s[j..][0] == s[j];
  }

  /** Sorting neither adds nor loses a row. */
  lemma RankingElements(t: seq<Row>)
    ensures forall y :: y in Ranking(t) <==> y in LatestIrrs(t, RankedFunds(t))
  {
    var s := LatestIrrs(t, RankedFunds(t));
    SortByValueDescSorted(s);
    forall y
      ensures y in Ranking(t) <==> y in s
    {
      assert y in Ranking(t) <==> y in multiset(Ranking(t));
      assert y in s <==> y in multiset(s);
    }
  }

  /** Every ranked row is a fund other than "Total" with its latest Net IRR. */
  lemma RankingSound(t: seq<Row>)
    ensures forall i :: 0 <= i < |Ranking(t)| ==>
      Ranking(t)[i].fund != Total && Latest(t, Ranking(t)[i].fund, NetIrr) == Some(Ranking(t)[i].value)
  {
    RankingElements(t);
    var fs := RankedFunds(t);
    var s := LatestIrrs(t, fs);
    forall i | 0 <= i < |Ranking(t)|
      ensures Ranking(t)[i].fund != Total && Latest(t, Ranking(t)[i].fund, NetIrr) == Some(Ranking(t)[i].value)
    {
      assert Ranking(t)[i] in s;
      var k :| 0 <= k < |s| && s[k] == Ranking(t)[i];
      assert fs[k] in fs;
    }
  }

  /** Every fund other than "Total" with a Net IRR row is ranked. */
  lemma RankingComplete(t: seq<Row>)
    ensures forall f :: f != Total && HasRow(t, f, NetIrr) ==>
      exists i :: 0 <= i < |Ranking(t)| && Ranking(t)[i].fund == f
  {
    RankingElements(t);
    var fs := RankedFunds(t);
    var s := LatestIrrs(t, fs);
    forall f | f != Total && HasRow(t, f, NetIrr)
      ensures exists i :: 0 <= i < |Ranking(t)| && Ranking(t)[i].fund == f
    {
      var k :| 0 <= k < |fs| && fs[k] == f;
      assert s[k] in s;
      var i :| 0 <= i < |Ranking(t)| && Ranking(t)[i] == s[k];
    }
  }

  /** No fund is ranked twice. */
  lemma RankingDistinct(t: seq<Row>)
    ensures forall i, j :: 0 <= i < j < |Ranking(t)| ==> Ranking(t)[i].fund != Ranking(t)[j].fund
  {
    RankingElements(t);
    var fs := RankedFunds(t);
    var s := LatestIrrs(t, fs);
    var r := Ranking(t);
    SortByValueDescSorted(s);
    assert Distinct(s) by {
      forall i, j | 0 <= i < j < |s|
        ensures s[i] != s[j]
      {
        assert s[i].fund == fs[i] && s[j].fund == fs[j];
      }
    }
    forall i, j | 0 <= i < j < |r|
      ensures r[i].fund != r[j].fund
    {
      assert r[i] in s && r[j] in s;
      var a :| 0 <= a < |s| && s[a] == r[i];
      var b :| 0 <= b < |s| && s[b] == r[j];
      if r[i].fund == r[j].fund {
        assert fs[a] == fs[b];
        assert r[i] == r[j];
        TwoOccurrences(r, i, j);
        DistinctMultiplicity(s, r[i]);
      }
    }
  }

  /**
   * What the ranking reports: every fund but "Total" that has a Net IRR row,
   * once, with its latest Net IRR, ordered by non-increasing value; the best
   * performer is the first of them (it has the highest value) or None when
   * there are none; and the summary counts them.
   */
  lemma RankPerformanceSpec(t: seq<Row>)
    ensures var r := RankPerformance(t);
      && r.RankingReport?
      && SortedByValueDesc(r.ranking)
      && (forall i :: 0 <= i < |r.ranking| ==>
            r.ranking[i].fund != Total && Latest(t, r.ranking[i].fund, NetIrr) == Some(r.ranking[i].value))
      && (forall f :: f != Total && HasRow(t, f, NetIrr) ==> exists i :: 0 <= i < |r.ranking| && r.ranking[i].fund == f)
      && (forall i, j :: 0 <= i < j < |r.ranking| ==> r.ranking[i].fund != r.ranking[j].fund)
      && (r.bestPerformer.None? <==> |r.ranking| == 0)
      && (r.bestPerformer.Some? ==> r.bestPerformer.value == r.ranking[0].fund)
      && (r.bestPerformer.Some? ==>
            forall i :: 0 <= i < |r.ranking| ==> r.ranking[i].value <= Latest(t, r.bestPerformer.value, NetIrr).value)
      && r.summary == "Ranking de " + NatToString(|r.ranking|) + " fondos"
  {
    SortByValueDescSorted(LatestIrrs(t, RankedFunds(t)));
    RankingSound(t);
    RankingComplete(t);
    RankingDistinct(t);
  }

  // ---------------------------------------------------------------------------
  // Distribution analysis
  // ---------------------------------------------------------------------------

  /** `str.contains('Distribution|DPI')`: the data sets about distributions. */
  predicate IsDistributionSet(ds: string)
  {
    Contains(ds, "Distribution") || Contains(ds, "DPI")
  }

  /** A row of fund `f` whose data set is about distributions. */
  predicate IsDistributionRow(row: Row, f: string)
  {
    row.fund == f && IsDistributionSet(row.dataSet)
  }

  /** The indices of the distribution rows of a fund. */
  ghost function DistributionRows(t: seq<Row>, f: string): set<int>
  {
    set i | 0 <= i < |t| && IsDistributionRow(t[i], f)
  }

  /** The distribution rows of a longer table: those of the shorter one, and the new row if it is one. */
  lemma DistributionRowsSnoc(t: seq<Row>, f: string)
    requires |t| > 0
    ensures DistributionRows(t, f) ==
      DistributionRows(t[..|t| - 1], f) + if IsDistributionRow(t[|t| - 1], f) then {|t| - 1} else {}
  {
    var p := t[..|t| - 1];
    assert forall i :: 0 <= i < |p| ==> p[i] == t[i];
  }

  /** The number of distribution rows of a fund. */
  function DistributionCount(t: seq<Row>, f: string): (n: nat)
    ensures n == |set i | 0 <= i < |t| && IsDistributionRow(t[i], f)|
  {
    if |t| == 0 then 0
    else
      var n := DistributionCount(t[..|t| - 1], f);
      DistributionRowsSnoc(t, f);
      if IsDistributionRow(t[|t| - 1], f) then n + 1 else n
  }

  /** A fund with a distribution row appears in the fund column. */
  lemma DistributionCountPositive(t: seq<Row>, f: string)
    requires DistributionCount(t, f) > 0
    ensures exists i :: 0 <= i < |t| && t[i].fund == f
  {
    var rows := set i | 0 <= i < |t| && IsDistributionRow(t[i], f);
    assert |rows| > 0;
    var i :| i in rows;
  }

  /**
   * The `results` dict once the loop has visited the funds `fs`: exactly the
   * visited funds with at least one distribution row, each with their number.
   */
  function DistributionCounts(t: seq<Row>, fs: seq<string>): (d: Dict<nat>)
    ensures d.Valid()
    ensures forall f :: f in d.entries <==> f in fs && DistributionCount(t, f) > 0
    ensures forall f :: f in d.entries ==> d.entries[f] == DistributionCount(t, f)
  {
    if |fs| == 0 then EmptyDict()
    else
      var p, f := fs[..|fs| - 1], fs[|fs| - 1];
      assert fs == p + [f];
      var d := DistributionCounts(t, p);
      if DistributionCount(t, f) > 0 then d.Insert(f, DistributionCount(t, f)) else d
  }

  /** The payload of `_analyze_distributions`. */
  function DistributionReportOf(t: seq<Row>): QueryResult
  {
    var d := DistributionCounts(t, ActiveFunds(t));
    DistributionReport(d, "Distribuciones de " + NatToString(d.Size()) + " fondos")
  }

  /** The loop step of the distribution analysis, over the unique funds of the table with "Total" skipped. */
  lemma DistributionStep(t: seq<Row>, u: seq<string>, i: nat)
    requires i < |u|
    ensures DistributionCounts(t, NonTotal(u[..i + 1])) ==
      if u[i] != Total && DistributionCount(t, u[i]) > 0
      then DistributionCounts(t, NonTotal(u[..i])).Insert(u[i], DistributionCount(t, u[i]))
      else DistributionCounts(t, NonTotal(u[..i]))
  {
    assert u[..i + 1][..i] == u[..i];
    var x := NonTotal(u[..i]);
    if u[i] != Total {
      assert NonTotal(u[..i + 1]) == x + [u[i]];
      assert (x + [u[i]])[..|x|] == x;
    } else {
      assert NonTotal(u[..i + 1]) == x;
    }
  }

  /** `_analyze_distributions`: the loop over `df['Fund'].unique()` that fills `results`. */
  method AnalyzeDistributions(t: seq<Row>) returns (r: QueryResult)
    ensures r == DistributionReportOf(t)
  {
    var funds := Unique(FundColumn(t));
    var results: Dict<nat> := EmptyDict();
    var i := 0;
    while i < |funds|
      invariant 0 <= i <= |funds|
      invariant results == DistributionCounts(t, NonTotal(funds[..i]))
    {
      var fund := funds[i];
      if fund != Total {
        var count := DistributionCount(t, fund);
        if count > 0 {
          results := results.Insert(fund, count);
        }
      }
      DistributionStep(t, funds, i);
      i := i + 1;
    }
    assert funds[..|funds|] == funds;
    r := DistributionReport(results, "Distribuciones de " + NatToString(results.Size()) + " fondos");
  }

  /**
   * What the distribution analysis reports: exactly the funds other than
   * "Total" that have a row whose data set mentions "Distribution" or "DPI",
   * each with the number of such rows, and a summary counting them.
   */
  lemma DistributionReportSpec(t: seq<Row>)
    ensures var r := DistributionReportOf(t);
      && r.DistributionReport? && r.counts.Valid()
      && (forall f :: f in r.counts.entries <==> f != Total && DistributionCount(t, f) > 0)
      && (forall f :: f in r.counts.entries ==>
            r.counts.entries[f] == |set i | 0 <= i < |t| && IsDistributionRow(t[i], f)|)
      && r.summary == "Distribuciones de " + NatToString(|r.counts.entries|) + " fondos"
  {
    DistributedFundsAreActive(t);
    DictSize(DistributionCounts(t, ActiveFunds(t)));
  }

  /** Every fund other than "Total" with a distribution row is an active fund. */
  lemma DistributedFundsAreActive(t: seq<Row>)
    ensures forall f :: f != Total && DistributionCount(t, f) > 0 ==> f in ActiveFunds(t)
  {
    forall f | f != Total && DistributionCount(t, f) > 0
      ensures f in ActiveFunds(t)
    {
      DistributionCountPositive(t, f);
      ActiveFundsMembership(t, f);
    }
  }

  // ---------------------------------------------------------------------------
  // General summary
  // ---------------------------------------------------------------------------

  /** The payload of `_general_summary`: the number of rows, of distinct funds and of distinct data sets. */
  function GeneralSummary(t: seq<Row>): QueryResult
  {
    GeneralReport(|t|, |Unique(FundColumn(t))|, |Unique(DataSetColumn(t))|, "Estadísticas del dataset")
  }

  /** `nunique` counts distinct values: the counts are the sizes of the sets of funds and of data sets. */
  lemma GeneralSummarySpec(t: seq<Row>)
    ensures var r := GeneralSummary(t);
      && r.totalRecords == |t|
      && r.uniqueFunds == |set row | row in t :: row.fund|
      && r.availableMetrics == |set row | row in t :: row.dataSet|
      && r.uniqueFunds <= r.totalRecords && r.availableMetrics <= r.totalRecords
  {
    UniqueCount(FundColumn(t));
    UniqueCount(DataSetColumn(t));
    assert (set x | x in FundColumn(t)) == (set row | row in t :: row.fund) by {
      forall x | x in FundColumn(t) ensures x in (set row | row in t :: row.fund) {
        var i :| 0 <= i < |t| && FundColumn(t)[i] == x;
        assert t[i] in t;
      }
      forall row | row in t ensures row.fund in FundColumn(t) {
        var i :| 0 <= i < |t| && t[i] == row;
        assert FundColumn(t)[i] == row.fund;
      }
    }
    assert (set x | x in DataSetColumn(t)) == (set row | row in t :: row.dataSet) by {
      forall x | x in DataSetColumn(t) ensures x in (set row | row in t :: row.dataSet) {
        var i :| 0 <= i < |t| && DataSetColumn(t)[i] == x;
        assert t[i] in t;
      }
      forall row | row in t ensures row.dataSet in DataSetColumn(t) {
        var i :| 0 <= i < |t| && t[i] == row;
        assert DataSetColumn(t)[i] == row.dataSet;
      }
    }
  }

  // ---------------------------------------------------------------------------
  // Query execution
  // ---------------------------------------------------------------------------

  const NotLoadedMessage: string := "Datos no cargados"
  const Confidence: real := 0.85

  /** The label an intent's payload carries; a comparison falls back to the general summary. */
  function ExpectedAnalysis(intent: Intent): string
  {
    match intent
    case IrrAnalysis => "Análisis de IRR"
    case PerformanceRanking => "Ranking de Performance"
    case DistributionAnalysis => "Análisis de Distribuciones"
    case _ => "Resumen General"
  }

  /**
   * `_execute_query` as a function of the loader's cache. Without a loaded
   * fund table every question yields the error "Datos no cargados"; with one,
   * never an error, and a payload of the analysis the intent selects (a
   * comparison gets the general summary).
   */
  function Answer(cache: map<string, seq<Row>>, intent: Intent, e: Entities): (r: QueryResult)
    ensures r.QueryError? <==> SourceFund !in cache
    ensures r.QueryError? ==> r.message == "Datos no cargados"
    ensures !r.QueryError? ==> r.AnalysisType() == ExpectedAnalysis(intent)
    ensures SourceFund in cache && intent == IrrAnalysis ==> r == IrrReportOf(cache[SourceFund], e)
    ensures SourceFund in cache && intent == PerformanceRanking ==> r == RankPerformance(cache[SourceFund])
    ensures SourceFund in cache && intent == DistributionAnalysis ==> r == DistributionReportOf(cache[SourceFund])
    ensures SourceFund in cache && intent == Comparison ==> r == GeneralSummary(cache[SourceFund])
    ensures SourceFund in cache && intent == GeneralAnalysis ==> r == GeneralSummary(cache[SourceFund])
  {
    if SourceFund !in cache then QueryError(NotLoadedMessage)
    else
      var df := cache[SourceFund];
      match intent
      case IrrAnalysis => IrrReportOf(df, e)
      case PerformanceRanking => RankPerformance(df)
      case DistributionAnalysis => DistributionReportOf(df)
      case _ => GeneralSummary(df)
  }

  /** The dict `process_question` returns. */
  datatype Response = Response(
    originalQuestion: string,
    intent: string,
    entities: Entities,
    queryResult: QueryResult,
    confidence: real)

  /** `AIQueryProcessor`: answers questions from the tables of its loader. */
  class QueryProcessor {
    const dataLoader: DataLoader

    constructor (loader: DataLoader)
      ensures dataLoader == loader
    {
      dataLoader := loader;
    }

    /** `_execute_query`: the routed analysis of the cached fund table, or the not-loaded error. */
    method ExecuteQuery(intent: Intent, e: Entities) returns (r: QueryResult)
      ensures r == Answer(dataLoader.dataCache, intent, e)
    {
      if !dataLoader.IsDataLoaded(SourceFund) {
        return QueryError(NotLoadedMessage);
      }
      var df := dataLoader.GetCachedData(SourceFund).value;
      match intent {
        case IrrAnalysis =>
          r := AnalyzeIrr(df, e);
        case PerformanceRanking =>
          r := RankPerformance(df);
        case DistributionAnalysis =>
          r := AnalyzeDistributions(df);
        case _ =>
          r := GeneralSummary(df);
      }
    }

    /**
     * `process_question`: intent and entities come from the lowered question,
     * the answer from the cache, and the original question is echoed back
     * with a fixed confidence of 0.85.
     */
    method ProcessQuestion(question: string) returns (resp: Response)
      ensures resp.originalQuestion == question
      ensures resp.intent == DetectIntent(Lower(question)).Name()
      ensures resp.entities == ExtractEntities(Lower(question))
      ensures resp.queryResult == Answer(dataLoader.dataCache, DetectIntent(Lower(question)), resp.entities)
      ensures resp.confidence == 0.85
    {
      var questionLower := Lower(question);
      var intent := DetectIntent(questionLower);
      var entities := ExtractEntities(questionLower);
      var queryResult := ExecuteQuery(intent, entities);
      resp := Response(question, intent.Name(), entities, queryResult, Confidence);
    }
  }

  /** The integration scenario: a fresh loader has nothing cached, so any question yields the not-loaded error. */
  method FreshProcessorAnswersNotLoaded(question: string) returns (resp: Response)
    ensures resp.originalQuestion == question
    ensures resp.queryResult == QueryError("Datos no cargados")
  {
    var loader := new DataLoader();
    var processor := new QueryProcessor(loader);
    resp := processor.ProcessQuestion(question);
  }
}
