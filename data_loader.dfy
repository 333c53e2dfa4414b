/**
 * The data loader: it turns the parsed pipe-delimited file into the cleaned
 * fund table and keeps the cleaned tables in a cache keyed by table name.
 * Reading the file (its existence, the CSV parse and the numeric coercion of
 * the `Data` column) is an input to the model: a `SourceFile` value.
 */
module DataLoading {
  import opened Wrappers
  import opened FundTable

  /** A parsed row after `pd.to_numeric(errors='coerce')`: `data` is None where the cell was not numeric. */
  datatype RawRow = RawRow(fund: string, dataSet: string, data: Option<real>)

  /** What the configured file yields: nothing (it does not exist), a read or parse error, or its rows in file order. */
  datatype SourceFile = Missing | Unreadable(reason: string) | Parsed(rows: seq<RawRow>)

  /** The error a failed load raises to its caller. */
  datatype LoadError = FileNotFound(message: string) | ReadError(message: string)

  /** The cache key of the fund table. */
  const SourceFund: string := "source_fund"

  /** `df.dropna(subset=['Data'])`: the rows whose value is present, in order. */
  function WithData(raw: seq<RawRow>): seq<Row>
  {
    if |raw| == 0 then []
    else
      var p := WithData(raw[..|raw| - 1]);
      var x := raw[|raw| - 1];
      if x.data.Some? then p + [Row(x.fund, x.dataSet, x.data.value)] else p
  }

  /** `df[df['Fund'] != '']`: the rows with a non-empty fund, in order. */
  function WithFund(rows: seq<Row>): seq<Row>
  {
    if |rows| == 0 then []
    else
      var p := WithFund(rows[..|rows| - 1]);
      if rows[|rows| - 1].fund != "" then p + [rows[|rows| - 1]] else p
  }

  /** The cleaned table: both filters, in the order the loader applies them. */
  function Cleaned(raw: seq<RawRow>): seq<Row>
  {
    WithFund(WithData(raw))
  }

  /** The first cleaning step, row by row. */
  method DropMissingData(raw: seq<RawRow>) returns (df: seq<Row>)
    ensures df == WithData(raw)
  {
    df := [];
    var i := 0;
    while i < |raw|
      invariant 0 <= i <= |raw|
      invariant df == WithData(raw[..i])
    {
      assert raw[..i + 1][..i] == raw[..i];
      if raw[i].data.Some? {
        df := df + [Row(raw[i].fund, raw[i].dataSet, raw[i].data.value)];
      }
      i := i + 1;
    }
    assert raw[..|raw|] == raw;
  }

  /** The second cleaning step, row by row. */
  method DropEmptyFunds(rows: seq<Row>) returns (df: seq<Row>)
    ensures df == WithFund(rows)
  {
    df := [];
    var i := 0;
    while i < |rows|
      invariant 0 <= i <= |rows|
      invariant df == WithFund(rows[..i])
    {
      assert rows[..i + 1][..i] == rows[..i];
      if rows[i].fund != "" {
        df := df + [rows[i]];
      }
      i := i + 1;
    }
    assert rows[..|rows|] == rows;
  }

  /** Filtering a concatenation filters each part: `dropna` neither drops nor reorders any other row. */
  lemma {:induction false} WithDataAppend(a: seq<RawRow>, b: seq<RawRow>)
    ensures WithData(a + b) == WithData(a) + WithData(b)
    decreases |b|
  {
    if |b| == 0 {
      assert a + b == a;
    } else {
      var b' := b[..|b| - 1];
      assert (a + b)[..|a + b| - 1] == a + b';
      assert (a + b)[|a + b| - 1] == b[|b| - 1];
      WithDataAppend(a, b');
    }
  }

  /** Filtering a concatenation filters each part: the fund filter neither drops nor reorders any other row. */
  lemma {:induction false} WithFundAppend(a: seq<Row>, b: seq<Row>)
    ensures WithFund(a + b) == WithFund(a) + WithFund(b)
    decreases |b|
  {
    if |b| == 0 {
      assert a + b == a;
    } else {
      var b' := b[..|b| - 1];
      assert (a + b)[..|a + b| - 1] == a + b';
      assert (a + b)[|a + b| - 1] == b[|b| - 1];
      WithFundAppend(a, b');
    }
  }

  /**
   * Cleaning keeps the relative order of the rows: cleaning a file in two
   * parts and concatenating gives the cleaned file, and a single row is
   * kept, converted, exactly when its value is present and its fund is not "".
   */
  lemma CleanedAppend(a: seq<RawRow>, b: seq<RawRow>)
    ensures Cleaned(a + b) == Cleaned(a) + Cleaned(b)
  {
    WithDataAppend(a, b);
    WithFundAppend(WithData(a), WithData(b));
  }

  lemma CleanedOne(x: RawRow)
    ensures Cleaned([x]) == if x.data.Some? && x.fund != "" then [Row(x.fund, x.dataSet, x.data.value)] else []
  {
    assert [x][..|[x]| - 1] == [];
    if x.data.Some? {
      var row := Row(x.fund, x.dataSet, x.data.value);
      assert WithData([x]) == [row];
      assert [row][..|[row]| - 1] == [];
      if x.fund != "" {
        assert WithFund([row]) == [row];
      } else {
        assert WithFund([row]) == [];
      }
    } else {
      assert WithData([x]) == [];
    }
  }

  /** Every retained row has a non-empty fund, and a row is retained exactly when it came from a row with a present value and a non-empty fund. */
  lemma {:induction false} CleanedRows(raw: seq<RawRow>, row: Row)
    ensures row in Cleaned(raw) <==> row.fund != "" && RawRow(row.fund, row.dataSet, Some(row.value)) in raw
  {
    if |raw| > 0 {
      var p, x := raw[..|raw| - 1], raw[|raw| - 1];
      assert raw == p + [x];
      CleanedRows(p, row);
      CleanedAppend(p, [x]);
      CleanedOne(x);
    }
  }

  /** The number of rows whose fund cell is "". */
  function EmptyFundCount(raw: seq<RawRow>): nat
  {
    if |raw| == 0 then 0 else EmptyFundCount(raw[..|raw| - 1]) + (if raw[|raw| - 1].fund == "" then 1 else 0)
  }

  /** When every `Data` cell is numeric, exactly the rows with an empty fund are dropped. */
  lemma {:induction false} CleanedCount(raw: seq<RawRow>)
    requires forall i :: 0 <= i < |raw| ==> raw[i].data.Some?
    ensures |Cleaned(raw)| == |raw| - EmptyFundCount(raw)
  {
    if |raw| > 0 {
      var p, x := raw[..|raw| - 1], raw[|raw| - 1];
      assert raw == p + [x];
      CleanedCount(p);
      CleanedAppend(p, [x]);
      CleanedOne(x);
    }
  }

  /** `DataLoader`: the cache `data_cache` of cleaned tables by table name. */
  class DataLoader {
    var dataCache: map<string, seq<Row>>

    /** A new loader starts with an empty cache. */
    constructor ()
      ensures dataCache == map[]
    {
      dataCache := map[];
    }

    /**
     * `load_source_fund`: a missing or unreadable file raises and leaves the
     * cache as it was; otherwise the cleaned table is stored under
     * "source_fund", replacing any earlier one, and returned.
     */
    method LoadSourceFund(path: string, file: SourceFile) returns (r: Result<seq<Row>, LoadError>)
      modifies this
      ensures file.Missing? ==> r == Failure(FileNotFound("Archivo no encontrado: " + path)) && dataCache == old(dataCache)
      ensures file.Unreadable? ==> r == Failure(ReadError(file.reason)) && dataCache == old(dataCache)
      ensures file.Parsed? ==> r == Success(Cleaned(file.rows)) && dataCache == old(dataCache)[SourceFund := Cleaned(file.rows)]
      ensures r.Success? ==> IsDataLoaded(SourceFund) && GetCachedData(SourceFund) == Some(r.value)
      ensures forall name :: name != SourceFund ==> GetCachedData(name) == old(GetCachedData(name))
    {
      match file {
        case Missing =>
          r := Failure(FileNotFound("Archivo no encontrado: " + path));
        case Unreadable(reason) =>
          r := Failure(ReadError(reason));
        case Parsed(rows) =>
          var df := DropMissingData(rows);
          df := DropEmptyFunds(df);
          dataCache := dataCache[SourceFund := df];
          r := Success(df);
      }
    }

    /** `get_cached_data`: the cached table, or None for a name never loaded. */
    function GetCachedData(name: string): (r: Option<seq<Row>>)
      reads this
      ensures r.Some? <==> IsDataLoaded(name)
      ensures r.Some? ==> r.value == dataCache[name]
    {
      if name in dataCache then Some(dataCache[name]) else None
    }

    /** `is_data_loaded`: whether a table of that name is in the cache. */
    predicate IsDataLoaded(name: string)
      reads this
    {
      name in dataCache
    }
  }
}
