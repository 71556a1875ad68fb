/**
 * `GET /api/admin/range/leaderboard`: per-gender rankings of the riders of a
 * date range, each list produced by `listBy`, behind `requirePIN`.
 *
 * The grouped rows come from a SQL query over the sessions table (one row
 * per rider name and gender); here they are the result of a `query`
 * function of the range, and the route's own logic is modelled around it.
 */
module RangeLeaderboard {
  import opened JsValues
  import opened Ranking
  import Boards
  import Pins

  /** One grouped row: the rider, the best values of the range, and the ids of the sessions that hold them. */
  datatype RangeRow = RangeRow(
    name: string, gender: string,
    bestWh60: Option<real>, peakW: Option<real>,
    idBestWh60: Option<int>, idPeakW: Option<int>)

  /** An output entry of `listBy`. */
  datatype Entry = Entry(id: Option<int>, name: string, gender: string, bestWh60: Option<real>, peakW: Option<real>)

  /** The `metricKey` argument of `listBy`. */
  datatype MetricKey = BestWh60Key | PeakWKey

  /** The `idKey` argument of `listBy`. */
  datatype IdKey = IdBestWh60Key | IdPeakWKey

  /** The `limit` argument of `listBy`: `undefined`, `"all"`, or a number. */
  datatype Limit = NoLimit | AllRows | Count(n: JsNumber)

  /** `Number(r[metricKey]) || 0` */
  function MetricValue(r: RangeRow, k: MetricKey): real {
    var v := if k == BestWh60Key then r.bestWh60 else r.peakW;
    if v.Some? then v.value else 0.0
  }

  function RangeKey(k: MetricKey): RangeRow -> real {
    (r: RangeRow) => MetricValue(r, k)
  }

  /** The mapped object `{ id: r[idKey], name, gender, best_wh60, peak_w }`. */
  function Project(r: RangeRow, idKey: IdKey): Entry {
    Entry(if idKey == IdBestWh60Key then r.idBestWh60 else r.idPeakW, r.name, r.gender, r.bestWh60, r.peakW)
  }

  function ProjectAll(rows: seq<RangeRow>, idKey: IdKey): (r: seq<Entry>)
    ensures |r| == |rows|
    ensures forall i | 0 <= i < |rows| :: r[i] == Project(rows[i], idKey)
  {
    if rows == [] then [] else [Project(rows[0], idKey)] + ProjectAll(rows[1..], idKey)
  }

  /** ToIntegerOrInfinity on a finite number: truncation toward zero. */
  function Trunc(v: real): (t: int)
    ensures v >= 0.0 ==> 0.0 <= t as real <= v < t as real + 1.0
    ensures v < 0.0 ==> t as real - 1.0 < v <= t as real && t <= 0
  {
    if v >= 0.0 then v.Floor else -((-v).Floor)
  }

  /**
   * The `slice` bound `listBy` applies, or `None` when it returns the whole
   * sorted list: for `undefined`, `"all"`, `0`, NaN and the infinities.
   */
  function TakeBound(limit: Limit): Option<int> {
    match limit
    case NoLimit => None
    case AllRows => None
    case Count(n) => if n.Truthy() && n.IsFinite() then Some(Trunc(n.v)) else None
  }

  /** How many entries of a sorted list of length `len` the limit keeps. */
  function TakeEnd(limit: Limit, len: nat): (e: nat)
    ensures e <= len
  {
    if TakeBound(limit).None? then len else SliceEnd(TakeBound(limit).value, len)
  }

  /** `listBy(arr, metricKey, idKey, limit)` */
  function ListBy(arr: seq<RangeRow>, metric: MetricKey, idKey: IdKey, limit: Limit): seq<Entry> {
    var sorted := SortDesc(arr, RangeKey(metric));
    var take := if TakeBound(limit).None? then sorted else Slice(sorted, TakeBound(limit).value);
    ProjectAll(take, idKey)
  }

  /** `!limitParam || limitParam === "all" ? "all" : Number(limitParam)` */
  function ParseLimit(param: Option<string>): Limit {
    if param.None? || param.value == "" || param.value == "all" then AllRows
    else Count(StringToNumber(param.value))
  }

  /** The response of the route. */
  datatype RangeResponse =
    | RangeBoard(from: string, to: string,
                 menWh60: seq<Entry>, menPeakW: seq<Entry>,
                 womenWh60: seq<Entry>, womenPeakW: seq<Entry>)
    | RangeError(status: int, message: string)

  function OfGender(g: string): RangeRow -> bool {
    (r: RangeRow) => r.gender == g
  }

  /**
   * `GET(req)`: the PIN guard, then the `from`/`to` check, then the query;
   * a thrown error answers with its `status`, or 500 when it has none.
   */
  function RangeHandler(adminPin: string, pinParam: Option<string>,
                        from: Option<string>, to: Option<string>, limitParam: Option<string>,
                        query: (string, string) -> Boards.DbResult<seq<RangeRow>>): RangeResponse
  {
    var guard := Pins.RequirePin(adminPin, pinParam);
    var limit := ParseLimit(limitParam);
    if guard.Reject? then RangeError(guard.status, guard.message)
    else if from.None? || from.value == "" || to.None? || to.value == "" then RangeError(400, "from/to required")
    else
      match query(from.value, to.value)
      case DbError(msg) => RangeError(500, msg)
      case Rows(rows) =>
        var men, women := Filter(rows, OfGender("M")), Filter(rows, OfGender("F"));
        RangeBoard(from.value, to.value,
                   ListBy(men, BestWh60Key, IdBestWh60Key, limit), ListBy(men, PeakWKey, IdPeakWKey, limit),
                   ListBy(women, BestWh60Key, IdBestWh60Key, limit), ListBy(women, PeakWKey, IdPeakWKey, limit))
  }

  // ---------------------------------------------------------------------------
  // listBy

  /** The value an entry shows for the column it was ranked by, with NULL as 0. */
  function EntryValue(e: Entry, k: MetricKey): real {
    var v := if k == BestWh60Key then e.bestWh60 else e.peakW;
    if v.Some? then v.value else 0.0
  }

  /**
   * `listBy` returns the whole list when the limit is absent, "all", 0, NaN
   * or infinite, and otherwise `slice(0, trunc(limit))` of it: at most
   * `limit` entries for a positive limit, all but `-limit` for a negative one,
   * and none for a limit between -1 and 1.
   */
  lemma {:induction false} ListByLength(arr: seq<RangeRow>, metric: MetricKey, idKey: IdKey, limit: Limit)
    ensures TakeBound(limit).None? ==> |ListBy(arr, metric, idKey, limit)| == |arr|
    ensures TakeBound(limit).Some? ==>
              |ListBy(arr, metric, idKey, limit)| == SliceEnd(TakeBound(limit).value, |arr|)
    ensures limit.Count? && limit.n.Finite? && 0.0 < limit.n.v < 1.0 ==> ListBy(arr, metric, idKey, limit) == []
    ensures limit.Count? && limit.n.Finite? && limit.n.v >= 1.0 ==>
              |ListBy(arr, metric, idKey, limit)| as real <= limit.n.v
  {
  }

  /** The entries of `listBy` are the projections, in order, of a prefix of the sort. */
  lemma {:induction false} ListByIsPrefix(arr: seq<RangeRow>, metric: MetricKey, idKey: IdKey, limit: Limit)
    ensures var sorted := SortDesc(arr, RangeKey(metric));
            ListBy(arr, metric, idKey, limit) == ProjectAll(sorted[..TakeEnd(limit, |sorted|)], idKey)
  {
    var sorted := SortDesc(arr, RangeKey(metric));
    assert sorted[..|sorted|] == sorted;
  }

  /**
   * `listBy` does not depend on how the sort is carried out: any ordering of
   * `arr` that is best first and keeps rows with equal values in their input
   * order yields the same entries.
   */
  lemma {:induction false} ListByAnyStableSort(arr: seq<RangeRow>, metric: MetricKey, idKey: IdKey, limit: Limit, t: seq<RangeRow>)
    requires SortedDesc(t, RangeKey(metric))
    requires forall v :: KeyRun(t, RangeKey(metric), v) == KeyRun(arr, RangeKey(metric), v)
    ensures ListBy(arr, metric, idKey, limit) == ProjectAll(t[..TakeEnd(limit, |t|)], idKey)
  {
    SortDescUnique(arr, t, RangeKey(metric));
    ListByIsPrefix(arr, metric, idKey, limit);
  }

  /** No row whose entry `listBy` leaves out has a larger value in the ranked column than an entry it keeps. */
  lemma {:induction false} ListByDominates(arr: seq<RangeRow>, metric: MetricKey, idKey: IdKey, limit: Limit)
    ensures forall x, e | x in arr && Project(x, idKey) !in ListBy(arr, metric, idKey, limit)
                          && e in ListBy(arr, metric, idKey, limit) ::
              EntryValue(e, metric) >= MetricValue(x, metric)
  {
    forall x, e | x in arr && Project(x, idKey) !in ListBy(arr, metric, idKey, limit)
                  && e in ListBy(arr, metric, idKey, limit)
      ensures EntryValue(e, metric) >= MetricValue(x, metric)
    {
      var i :| 0 <= i < |ListBy(arr, metric, idKey, limit)| && ListBy(arr, metric, idKey, limit)[i] == e;
      ListByDominatesAt(arr, metric, idKey, limit, x, i);
    }
  }

  lemma {:induction false} ListByDominatesAt(arr: seq<RangeRow>, metric: MetricKey, idKey: IdKey, limit: Limit,
                                             x: RangeRow, i: nat)
    requires x in arr && Project(x, idKey) !in ListBy(arr, metric, idKey, limit)
    requires i < |ListBy(arr, metric, idKey, limit)|
    ensures EntryValue(ListBy(arr, metric, idKey, limit)[i], metric) >= MetricValue(x, metric)
  {
    var sorted := SortDesc(arr, RangeKey(metric));
    ListByIsPrefix(arr, metric, idKey, limit);
    SortDescSorted(arr, RangeKey(metric));
    assert x in multiset(sorted) by {
      assert x in multiset(arr);
    }
    PrefixEntryDominates(sorted, TakeEnd(limit, |sorted|), metric, idKey, x, i);
  }

  /** In a best-first list, a row whose entry is not among the first `e` has no larger value than any of them. */
  lemma {:induction false} PrefixEntryDominates(sorted: seq<RangeRow>, e: nat, metric: MetricKey, idKey: IdKey,
                                                x: RangeRow, i: nat)
    requires SortedDesc(sorted, RangeKey(metric)) && i < e <= |sorted|
    requires x in multiset(sorted) && Project(x, idKey) !in ProjectAll(sorted[..e], idKey)
    ensures EntryValue(ProjectAll(sorted[..e], idKey)[i], metric) >= MetricValue(x, metric)
  {
    var kept := sorted[..e];
    var r := ProjectAll(kept, idKey);
    ProjectKeepsValue(kept[i], metric, idKey);
    forall k | 0 <= k < |kept| ensures kept[k] != x {
      assert r[k] == Project(kept[k], idKey);
    }
    assert x in multiset(sorted[e..]) by {
      assert sorted == kept + sorted[e..];
      assert multiset(sorted) == multiset(kept) + multiset(sorted[e..]);
      assert x !in multiset(kept);
    }
    SplitDominates(sorted, e, RangeKey(metric), x, kept[i]);
  }

  /** The entries of `listBy` come best first by the ranked column. */
  lemma {:induction false} ListByRanked(arr: seq<RangeRow>, metric: MetricKey, idKey: IdKey, limit: Limit)
    ensures var r := ListBy(arr, metric, idKey, limit);
            forall i, j | 0 <= i < j < |r| :: EntryValue(r[i], metric) >= EntryValue(r[j], metric)
  {
    var key := RangeKey(metric);
    var sorted := SortDesc(arr, key);
    SortDescSorted(arr, key);
    ListByIsPrefix(arr, metric, idKey, limit);
    var take := sorted[..TakeEnd(limit, |sorted|)];
    var r := ListBy(arr, metric, idKey, limit);
    forall i, j | 0 <= i < j < |r| ensures EntryValue(r[i], metric) >= EntryValue(r[j], metric) {
      ProjectKeepsValue(take[i], metric, idKey);
      ProjectKeepsValue(take[j], metric, idKey);
      assert key(sorted[i]) >= key(sorted[j]);
    }
  }

  lemma {:induction false} ProjectKeepsValue(r: RangeRow, metric: MetricKey, idKey: IdKey)
    ensures EntryValue(Project(r, idKey), metric) == RangeKey(metric)(r)
  {
  }

  /** Every entry copies one input row's name, gender and both values, with the id from `idKey`. */
  lemma {:induction false} ListByFields(arr: seq<RangeRow>, metric: MetricKey, idKey: IdKey, limit: Limit)
    ensures forall e | e in ListBy(arr, metric, idKey, limit) ::
              exists r | r in arr :: e == Entry(if idKey == IdBestWh60Key then r.idBestWh60 else r.idPeakW,
                                                 r.name, r.gender, r.bestWh60, r.peakW)
  {
    var sorted := SortDesc(arr, RangeKey(metric));
    var take := if TakeBound(limit).None? then sorted else Slice(sorted, TakeBound(limit).value);
    forall e | e in ListBy(arr, metric, idKey, limit)
      ensures exists r | r in arr :: e == Entry(if idKey == IdBestWh60Key then r.idBestWh60 else r.idPeakW,
                                                 r.name, r.gender, r.bestWh60, r.peakW)
    {
      var i :| 0 <= i < |take| && ProjectAll(take, idKey)[i] == e;
      assert take[i] in multiset(sorted);
      assert take[i] in multiset(arr);
      assert take[i] in arr;
    }
  }

  // ---------------------------------------------------------------------------
  // The limit parameter

  /** "all", an empty or absent parameter, "0" and a non-number all give the whole list. */
  lemma {:induction false} LimitWholeList(arr: seq<RangeRow>, metric: MetricKey, idKey: IdKey)
    ensures ParseLimit(None) == AllRows && ParseLimit(Some("")) == AllRows && ParseLimit(Some("all")) == AllRows
    ensures |ListBy(arr, metric, idKey, ParseLimit(Some("0")))| == |arr|
    ensures |ListBy(arr, metric, idKey, ParseLimit(Some("ten")))| == |arr|
    ensures |ListBy(arr, metric, idKey, ParseLimit(Some("Infinity")))| == |arr|
  {
    ZeroLimitParses();
    WordLimitParses();
    ListByLength(arr, metric, idKey, Count(Finite(0.0)));
    ListByLength(arr, metric, idKey, Count(NaN));
    ListByLength(arr, metric, idKey, Count(PosInf));
  }

  lemma {:induction false} ZeroLimitParses()
    ensures ParseLimit(Some("0")) == Count(Finite(0.0))
  {
    IntDecimalRoundTrip(0);
    assert IntToDecimal(0) == "0";
  }

  lemma {:induction false} WordLimitParses()
    ensures ParseLimit(Some("ten")) == Count(NaN)
    ensures ParseLimit(Some("Infinity")) == Count(PosInf)
  {
    assert "ten" != "Infinity" && "ten" != "all";
    assert DotIndex("ten") == 3 by {
      assert DotIndex("n") == 1 by { assert "n"[1..] == ""; }
      assert "ten"[1..] == "en" && "en"[1..] == "n";
    }
    assert "ten"[..3] == "ten" && !IsDigit("ten"[0]);
  }

  /** A limit written in decimal digits, such as "100", keeps the best `min(limit, n)` entries. */
  lemma {:induction false} DecimalLimit(arr: seq<RangeRow>, metric: MetricKey, idKey: IdKey, k: nat)
    requires k > 0
    ensures |ListBy(arr, metric, idKey, ParseLimit(Some(IntToDecimal(k))))| == if k < |arr| then k else |arr|
  {
    IntDecimalRoundTrip(k);
    var s := IntToDecimal(k);
    assert s != "" && s != "all" by {
      assert IsDigit(s[0]);
    }
    assert ParseLimit(Some(s)) == Count(Finite(k as real));
    ListByLength(arr, metric, idKey, Count(Finite(k as real)));
  }

  /** A fractional limit below one gives no entries although zero gives all: "0.5" truncates to 0 but is truthy. */
  lemma {:induction false} FractionalLimit(arr: seq<RangeRow>, metric: MetricKey, idKey: IdKey)
    ensures ListBy(arr, metric, idKey, Count(Finite(0.5))) == []
    ensures |ListBy(arr, metric, idKey, Count(Finite(0.0)))| == |arr|
    ensures |ListBy(arr, metric, idKey, Count(Finite(-1.0)))| == if |arr| == 0 then 0 else |arr| - 1
  {
    ListByLength(arr, metric, idKey, Count(Finite(0.5)));
    ListByLength(arr, metric, idKey, Count(Finite(0.0)));
    ListByLength(arr, metric, idKey, Count(Finite(-1.0)));
  }

  // ---------------------------------------------------------------------------
  // The route

  /** A wrong or missing PIN answers 401 before anything else is looked at. */
  lemma {:induction false} PinFailureIs401(adminPin: string, pinParam: Option<string>,
                                           from: Option<string>, to: Option<string>, limitParam: Option<string>,
                                           query: (string, string) -> Boards.DbResult<seq<RangeRow>>)
    requires Pins.RequirePin(adminPin, pinParam).Reject?
    ensures RangeHandler(adminPin, pinParam, from, to, limitParam, query) == RangeError(401, "Unauthorized")
  {
  }

  /** With the right PIN, a missing or empty `from` or `to` answers 400 without querying. */
  lemma {:induction false} MissingRangeIs400(adminPin: string, from: Option<string>, to: Option<string>,
                                             limitParam: Option<string>,
                                             query: (string, string) -> Boards.DbResult<seq<RangeRow>>)
    requires adminPin != ""
    requires from.None? || from == Some("") || to.None? || to == Some("")
    ensures RangeHandler(adminPin, Some(adminPin), from, to, limitParam, query) == RangeError(400, "from/to required")
  {
  }

  /** A failing query answers 500 with the error's message. */
  lemma {:induction false} QueryErrorIs500(adminPin: string, from: string, to: string, limitParam: Option<string>,
                                           query: (string, string) -> Boards.DbResult<seq<RangeRow>>)
    requires adminPin != "" && from != "" && to != ""
    requires query(from, to).DbError?
    ensures RangeHandler(adminPin, Some(adminPin), Some(from), Some(to), limitParam, query)
            == RangeError(500, query(from, to).message)
  {
  }

  /**
   * On success the men lists are ranked men's rows and the women lists
   * ranked women's rows; together the men's and the women's rows are the
   * rows of gender M or F.
   */
  lemma {:induction false} RangeBoardPartition(adminPin: string, from: string, to: string, limitParam: Option<string>,
                                               query: (string, string) -> Boards.DbResult<seq<RangeRow>>)
    requires adminPin != "" && from != "" && to != ""
    requires query(from, to).Rows?
    ensures var r := RangeHandler(adminPin, Some(adminPin), Some(from), Some(to), limitParam, query);
            && r.RangeBoard? && r.from == from && r.to == to
            && (forall e | e in r.menWh60 + r.menPeakW :: e.gender == "M")
            && (forall e | e in r.womenWh60 + r.womenPeakW :: e.gender == "F")
    ensures var rows := query(from, to).rows;
            multiset(Filter(rows, OfGender("M"))) + multiset(Filter(rows, OfGender("F")))
            == multiset(Filter(rows, (r: RangeRow) => r.gender == "M" || r.gender == "F"))
  {
    var rows := query(from, to).rows;
    var men, women := Filter(rows, OfGender("M")), Filter(rows, OfGender("F"));
    var r := RangeHandler(adminPin, Some(adminPin), Some(from), Some(to), limitParam, query);
    EntriesOfGender(rows, "M", BestWh60Key, IdBestWh60Key, ParseLimit(limitParam));
    EntriesOfGender(rows, "M", PeakWKey, IdPeakWKey, ParseLimit(limitParam));
    EntriesOfGender(rows, "F", BestWh60Key, IdBestWh60Key, ParseLimit(limitParam));
    EntriesOfGender(rows, "F", PeakWKey, IdPeakWKey, ParseLimit(limitParam));
    FilterPartition(rows, OfGender("M"), OfGender("F"), (r: RangeRow) => r.gender == "M" || r.gender == "F");
  }

  lemma {:induction false} EntriesOfGender(rows: seq<RangeRow>, g: string, metric: MetricKey, idKey: IdKey, limit: Limit)
    ensures forall e | e in ListBy(Filter(rows, OfGender(g)), metric, idKey, limit) :: e.gender == g
  {
    var part := Filter(rows, OfGender(g));
    ListByFields(part, metric, idKey, limit);
    FilterMembers(rows, OfGender(g));
    forall e | e in ListBy(part, metric, idKey, limit) ensures e.gender == g {
      var r :| r in part && e == Entry(if idKey == IdBestWh60Key then r.idBestWh60 else r.idPeakW,
                                       r.name, r.gender, r.bestWh60, r.peakW);
      var k :| 0 <= k < |part| && part[k] == r;
    }
  }
}
