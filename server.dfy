/** The backend: the `sessions` table with its autoincrement id, the POST that
    validates a record and inserts it, and the per-day totals query. */
module Server {
  import opened Sessions
  import opened Totals

  /** The `seconds` field of a request body: a JSON number, or anything else
      (missing, a string, null, ...). */
  datatype SecondsField = Number(value: int) | NotNumber

  /** A request body, with a missing or empty string field written as "". */
  datatype Body = Body(seconds: SecondsField, kind: string, date: string, localDay: string)

  /** The answer to a POST: the new row's id, or status 400 with `{error: 'invalid'}`. */
  datatype Reply = Created(id: int) | Invalid

  /** The only check made: `seconds` is a number and `kind` and `date` are truthy.
      The sign of `seconds` is not looked at. */
  predicate ValidBody(b: Body) {
    b.seconds.Number? && b.kind != "" && b.date != ""
  }

  /** The row a valid body is inserted as; a missing `local_day` is stored as
      NULL, written "" here like everywhere else. */
  function RowOf(id: int, b: Body): (s: Session)
    requires ValidBody(b)
    ensures s.id == id && !s.synced
    ensures s.entry == Entry(b.seconds.value, b.kind, b.date, b.localDay)
  {
    Session(id, Entry(b.seconds.value, b.kind, b.date, b.localDay), false)
  }

  class SessionTable {
    /** The rows, in insertion order. */
    var rows: seq<Session>
    /** The largest id handed out so far (SQLite's `sqlite_sequence` entry). */
    var lastId: int

    /** Ids are positive, increase along the table and never pass the counter;
        every row passed the POST check. */
    predicate Valid()
      reads this
    {
      lastId >= 0
      && (forall i :: 0 <= i < |rows| ==> 1 <= rows[i].id <= lastId)
      && (forall i, j :: 0 <= i < j < |rows| ==> rows[i].id < rows[j].id)
      && (forall i :: 0 <= i < |rows| ==> rows[i].entry.kind != "" && rows[i].entry.date != "" && !rows[i].synced)
    }

    constructor ()
      ensures Valid() && rows == [] && lastId == 0
    {
      rows, lastId := [], 0;
    }

    /** `POST /api/session`. */
    method Post(b: Body) returns (reply: Reply)
      requires Valid()
      modifies this
      ensures Valid()
      ensures !ValidBody(b) ==> reply == Invalid && rows == old(rows) && lastId == old(lastId)
      ensures ValidBody(b) ==>
                reply == Created(old(lastId) + 1) && lastId == old(lastId) + 1
                && rows == old(rows) + [RowOf(lastId, b)]
      ensures reply.Created? ==> forall i :: 0 <= i < |old(rows)| ==> old(rows)[i].id < reply.id
    {
      if !ValidBody(b) {
        return Invalid;
      }
      lastId := lastId + 1;
      rows := rows + [RowOf(lastId, b)];
      reply := Created(lastId);
    }
  }

  /** The row filter of `GET /api/totals/:day` as written (backend/server.js:51):
      a row matches when its local day equals the day, or when the first ten
      characters of its instant do.  A NULL local day never equals the day, and
      the date test applies to every row, not only to those without a local day. */
  predicate MatchesAsWritten(s: Session, day: string) {
    (s.entry.localDay != "" && s.entry.localDay == day) || DatePrefix(s.entry.date) == day
  }

  /** The rows the query selects as written, in table order. */
  function RowsForDayAsWritten(rows: seq<Session>, day: string): (kept: seq<Session>)
    ensures forall s :: s in kept <==> s in rows && MatchesAsWritten(s, day)
  {
    if rows == [] then []
    else
      var last := rows[|rows| - 1];
      RowsForDayAsWritten(rows[..|rows| - 1], day) + (if MatchesAsWritten(last, day) then [last] else [])
  }

  /** The answer as written: the matched rows and their per-kind aggregate. */
  function TotalsForDayAsWritten(rows: seq<Session>, day: string): (r: DayTotals)
    ensures r.day == day
    ensures forall s :: s in r.sessions <==> s in rows && MatchesAsWritten(s, day)
    ensures forall k :: k in r.totals <==> OfKind(r.sessions, k) != []
    ensures forall k :: k in r.totals ==> r.totals[k] == Bucket(SumSeconds(OfKind(r.sessions, k)), OfKind(r.sessions, k))
    ensures MapTotal(r.totals) == SumSeconds(r.sessions)
  {
    var kept := RowsForDayAsWritten(rows, day);
    AllBuckets(kept);
    AggregateConserves(kept);
    DayTotals(day, Aggregate(kept), kept)
  }

  /** Every row the client's rule puts on a day is also matched by the query. */
  lemma AsWrittenIncludesClientRule(rows: seq<Session>, day: string, s: Session)
    requires s in ForDay(rows, day)
    ensures s in RowsForDayAsWritten(rows, day)
  {
  }

  /** A record finished at 00:30 local time two hours east of UTC has local day
      2024-01-02 but an instant dated 2024-01-01; the query as written counts it
      on both days. */
  lemma CountedOnTwoDays()
    ensures var s := Session(1, Entry(1500, "break", "2024-01-01T22:30:00.000Z", "2024-01-02"), false);
            s in TotalsForDayAsWritten([s], "2024-01-01").sessions
            && s in TotalsForDayAsWritten([s], "2024-01-02").sessions
  {
    var s := Session(1, Entry(1500, "break", "2024-01-01T22:30:00.000Z", "2024-01-02"), false);
    assert DatePrefix(s.entry.date) == "2024-01-01";
  }

  /** `GET /api/totals/:day` with the match the legacy fallback is meant to
      have: a row's own local day, and the date of its instant only for rows
      without one (the client's rule).  The response echoes the day, lists the
      matched rows in table order and aggregates them per kind. */
  function TotalsForDay(rows: seq<Session>, day: string): (r: DayTotals)
    ensures r.day == day
    ensures forall s :: s in r.sessions <==> s in rows && KeptForDay(s, day)
    ensures forall k :: k in r.totals <==> OfKind(r.sessions, k) != []
    ensures forall k :: k in r.totals ==> r.totals[k] == Bucket(SumSeconds(OfKind(r.sessions, k)), OfKind(r.sessions, k))
    ensures MapTotal(r.totals) == SumSeconds(r.sessions)
  {
    var kept := ForDay(rows, day);
    AllBuckets(kept);
    AggregateConserves(kept);
    DayTotals(day, Aggregate(kept), kept)
  }

  /** With the intended match a row is counted on one day only. */
  lemma CountedOnOneDay(rows: seq<Session>, s: Session, day1: string, day2: string)
    requires s in TotalsForDay(rows, day1).sessions && s in TotalsForDay(rows, day2).sessions
    ensures day1 == day2
  {
    KeptForOneDay(s, day1, day2);
  }

  /** The example day: a 1500-second flow and a 300-second break on 2024-01-01
      and a 100-second flow on 2024-01-02 give, for 2024-01-01, those two totals
      and leave the other day's flow out. */
  lemma ExampleDay()
    ensures var r := TotalsForDay([ExampleA(), ExampleB(), ExampleC()], "2024-01-01");
            r.sessions == [ExampleA(), ExampleB()]
            && r.totals == map["flow" := Bucket(1500, [ExampleA()]), "break" := Bucket(300, [ExampleB()])]
  {
    ExampleRows();
    ExampleBuckets();
  }

  function ExampleA(): Session { Session(1, Entry(1500, "flow", "2024-01-01T09:00:00.000Z", "2024-01-01"), false) }
  function ExampleB(): Session { Session(2, Entry(300, "break", "2024-01-01T09:30:00.000Z", "2024-01-01"), false) }
  function ExampleC(): Session { Session(3, Entry(100, "flow", "2024-01-02T09:00:00.000Z", "2024-01-02"), false) }

  lemma ExampleRows()
    ensures ForDay([ExampleA(), ExampleB(), ExampleC()], "2024-01-01") == [ExampleA(), ExampleB()]
  {
    var a, b, c, day := ExampleA(), ExampleB(), ExampleC(), "2024-01-01";
    assert [a, b, c][..2] == [a, b] && [a, b][..1] == [a] && [a][..0] == [];
    assert c.entry.localDay[9] != day[9];
    assert ForDay([a], day) == [a];
    assert ForDay([a, b], day) == [a, b];
  }

  lemma ExampleBuckets()
    ensures Aggregate([ExampleA(), ExampleB()]) == map["flow" := Bucket(1500, [ExampleA()]), "break" := Bucket(300, [ExampleB()])]
  {
    var a, b := ExampleA(), ExampleB();
    assert [a, b][..1] == [a] && [a][..0] == [];
    assert Aggregate([a][..0]) == map[];
    assert KindKey(a.entry) == "flow";
    assert Aggregate([a]) == Add(map[], a) == map["flow" := Bucket(0 + 1500, [] + [a])];
    assert KindKey(b.entry) == "break" && "break" != "flow";
    assert "break" !in Aggregate([a]);
    assert Aggregate([a, b]) == Add(Aggregate([a]), b)
        == Aggregate([a])["break" := Bucket(0 + 300, [] + [b])];
    assert [] + [b] == [b] && [] + [a] == [a];
    assert Aggregate([a])["break" := Bucket(300, [b])] == map["flow" := Bucket(1500, [a]), "break" := Bucket(300, [b])];
  }
}
