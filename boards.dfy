/**
 * The per-gender top-5 leaderboards shared by the all-time route of the web
 * app and the today route of the bridge: finished sessions are split into
 * men (`gender === "M"`) and women (`gender === "F"`), and each half is ranked
 * by best 60-second energy and by peak power, keeping the first five.
 */
module Boards {
  import opened JsValues
  import opened Ranking

  /** A finished session as the leaderboard query returns it; a NULL column is `None`. */
  datatype BoardRow = BoardRow(
    id: int, name: string, gender: string,
    peakW: Option<real>, bestWh60: Option<real>, totalWh: Option<real>)

  /** The result of a database call: its rows, or the message of the error it threw. */
  datatype DbResult<T> = Rows(rows: T) | DbError(message: string)

  /** The two columns a leaderboard ranks by. */
  datatype Metric = BestWh60 | PeakW

  /** The entries a leaderboard keeps per list (`n = 5`). */
  const BoardSize: int := 5

  /** `Number(r[key]) || 0`: a NULL column counts as 0. */
  function MetricOf(r: BoardRow, m: Metric): real {
    var v := if m == BestWh60 then r.bestWh60 else r.peakW;
    if v.Some? then v.value else 0.0
  }

  /** The filter `r => r.gender === g`. */
  function OfGender(g: string): BoardRow -> bool {
    (r: BoardRow) => r.gender == g
  }

  predicate IsRanked(r: BoardRow) { r.gender == "M" || r.gender == "F" }

  /** The comparator key of `top(arr, key)` for the column `m`. */
  function KeyOf(m: Metric): BoardRow -> real {
    (r: BoardRow) => MetricOf(r, m)
  }

  /** `top(arr, key, n)`: the first `n` rows of a stable descending sort of a copy by `key`. */
  function TopBy(arr: seq<BoardRow>, m: Metric, n: int): seq<BoardRow> {
    Top(arr, KeyOf(m), n)
  }

  /** The four lists of a leaderboard and the date label it carries. */
  datatype Board = Board(
    date: string,
    menWh60: seq<BoardRow>, menPeakW: seq<BoardRow>,
    womenWh60: seq<BoardRow>, womenPeakW: seq<BoardRow>)

  function Men(rows: seq<BoardRow>): seq<BoardRow> { Filter(rows, OfGender("M")) }
  function Women(rows: seq<BoardRow>): seq<BoardRow> { Filter(rows, OfGender("F")) }

  function BuildBoard(date: string, rows: seq<BoardRow>): Board {
    var men, women := Men(rows), Women(rows);
    Board(date,
          TopBy(men, BestWh60, BoardSize), TopBy(men, PeakW, BoardSize),
          TopBy(women, BestWh60, BoardSize), TopBy(women, PeakW, BoardSize))
  }

  /** One list of a board: at most five rows of one gender, best first, the top of the stable sort of that gender's rows. */
  predicate ListOf(list: seq<BoardRow>, rows: seq<BoardRow>, g: string, m: Metric) {
    && |list| <= BoardSize
    && |list| == (if |rows| < BoardSize then |rows| else BoardSize)
    && (forall i | 0 <= i < |list| :: list[i].gender == g && list[i] in rows)
    && (forall i, j | 0 <= i < j < |list| :: MetricOf(list[i], m) >= MetricOf(list[j], m))
    && (forall x, y | x in multiset(rows) - multiset(list) && y in list :: MetricOf(y, m) >= MetricOf(x, m))
  }

  /** Every list of `top` over one gender's rows keeps its promises. */
  lemma {:induction false} TopOfGender(all: seq<BoardRow>, g: string, m: Metric)
    ensures ListOf(TopBy(Filter(all, OfGender(g)), m, BoardSize), Filter(all, OfGender(g)), g, m)
  {
    var rows := Filter(all, OfGender(g));
    var list := TopBy(rows, m, BoardSize);
    TopLength(rows, KeyOf(m), BoardSize);
    TopByRanked(rows, m, BoardSize);
    TopRowsOfGender(all, g, list);
  }

  /** `TopBy` in terms of the column: best first, nothing left out beats anything kept, and a part of its input. */
  lemma {:induction false} TopByRanked(rows: seq<BoardRow>, m: Metric, n: int)
    ensures forall i, j | 0 <= i < j < |TopBy(rows, m, n)| :: MetricOf(TopBy(rows, m, n)[i], m) >= MetricOf(TopBy(rows, m, n)[j], m)
    ensures forall x, y | x in multiset(rows) - multiset(TopBy(rows, m, n)) && y in TopBy(rows, m, n) :: MetricOf(y, m) >= MetricOf(x, m)
    ensures multiset(TopBy(rows, m, n)) <= multiset(rows)
  {
    TopIsBestPrefix(rows, KeyOf(m), n);
  }

  /** A sub-multiset of the rows of gender `g` holds only rows of gender `g`. */
  lemma {:induction false} TopRowsOfGender(all: seq<BoardRow>, g: string, list: seq<BoardRow>)
    requires multiset(list) <= multiset(Filter(all, OfGender(g)))
    ensures forall i | 0 <= i < |list| :: list[i].gender == g && list[i] in Filter(all, OfGender(g))
  {
    var rows := Filter(all, OfGender(g));
    FilterMembers(all, OfGender(g));
    forall i | 0 <= i < |list| ensures list[i].gender == g && list[i] in rows {
      assert list[i] in multiset(list);
      assert list[i] in multiset(rows);
      var k :| 0 <= k < |rows| && rows[k] == list[i];
    }
  }

  /**
   * A leaderboard's men lists hold only men's rows and its women lists only
   * women's, each ranked and cut to five; the men's and the women's rows
   * split between them the rows of gender M or F, and rows of any other
   * gender are on no list.
   */
  lemma {:induction false} BoardProperties(date: string, rows: seq<BoardRow>)
    ensures BuildBoard(date, rows).date == date
    ensures ListOf(BuildBoard(date, rows).menWh60, Men(rows), "M", BestWh60)
    ensures ListOf(BuildBoard(date, rows).menPeakW, Men(rows), "M", PeakW)
    ensures ListOf(BuildBoard(date, rows).womenWh60, Women(rows), "F", BestWh60)
    ensures ListOf(BuildBoard(date, rows).womenPeakW, Women(rows), "F", PeakW)
    ensures multiset(Men(rows)) + multiset(Women(rows)) == multiset(Filter(rows, IsRanked))
  {
    TopOfGender(rows, "M", BestWh60);
    TopOfGender(rows, "M", PeakW);
    TopOfGender(rows, "F", BestWh60);
    TopOfGender(rows, "F", PeakW);
    FilterPartition(rows, OfGender("M"), OfGender("F"), IsRanked);
  }

  /** A copy is sorted: the rows handed to a board are left as they were, and each list is a reordering of a part of them. */
  lemma {:induction false} BoardListsComeFromRows(date: string, rows: seq<BoardRow>, m: Metric)
    ensures multiset(TopBy(Men(rows), m, BoardSize)) <= multiset(rows)
    ensures multiset(TopBy(Women(rows), m, BoardSize)) <= multiset(rows)
  {
    var key := KeyOf(m);
    TopIsBestPrefix(Men(rows), key, BoardSize);
    TopIsBestPrefix(Women(rows), key, BoardSize);
    FilterSubMultiset(rows, OfGender("M"));
    FilterSubMultiset(rows, OfGender("F"));
  }

  lemma {:induction false} FilterSubMultiset(s: seq<BoardRow>, p: BoardRow -> bool)
    ensures multiset(Filter(s, p)) <= multiset(s)
  {
    if s != [] {
      FilterSubMultiset(s[1..], p);
      assert s == [s[0]] + s[1..];
    }
  }

  /** The all-time leaderboard response: the board labelled "ALL", or status 500 with the error's message. */
  datatype AllResponse = AllBoard(board: Board) | AllError(status: int, message: string)

  /** `GET /api/leaderboard/all`: every finished session, ranked; any error is a 500. */
  function AllLeaderboard(query: DbResult<seq<BoardRow>>): (r: AllResponse)
    ensures query.DbError? ==> r == AllError(500, query.message)
    ensures query.Rows? ==> r.AllBoard? && r.board.date == "ALL"
  {
    match query
    case DbError(msg) => AllError(500, msg)
    case Rows(rows) => AllBoard(BuildBoard("ALL", rows))
  }
}
