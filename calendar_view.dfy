/** The tracking view: one day's records, from the backend when it answers and
    otherwise from the stored history, shown as three columns (flows, breaks,
    big breaks) with their totals, plus the number of records still unsynced. */
module CalendarView {
  import opened Wrappers
  import opened Text
  import opened Sessions
  import opened Totals
  import opened Format
  import Server

  /** What the view holds for the chosen day: the per-kind totals and the raw records. */
  datatype DayView = DayView(totals: ByKind, sessions: seq<Session>)

  /** `loadForDay`: the backend's answer (`api`) when there is one; otherwise the
      stored history filtered by the client's day rule and aggregated per kind. */
  function LoadForDay(api: Option<DayTotals>, stored: seq<Session>, day: string): (v: DayView)
    ensures api.Some? ==> v == DayView(api.value.totals, api.value.sessions)
    ensures api.None? ==> forall s :: s in v.sessions <==> s in stored && KeptForDay(s, day)
    ensures api.None? ==> forall k :: k in v.totals <==> OfKind(v.sessions, k) != []
    ensures api.None? ==>
              forall k :: k in v.totals ==> v.totals[k] == Bucket(SumSeconds(OfKind(v.sessions, k)), OfKind(v.sessions, k))
    ensures api.None? ==> MapTotal(v.totals) == SumSeconds(v.sessions)
  {
    match api
    case Some(j) => DayView(j.totals, j.sessions)
    case None =>
      var filtered := ForDay(stored, day);
      AllBuckets(filtered);
      AggregateConserves(filtered);
      DayView(Aggregate(filtered), filtered)
  }

  /** The kinds that get a column, in display order. */
  const ShownKinds: seq<string> := ["flow", "break", "big_break"]

  /** A column's bucket: the kind's entry in the totals, or an empty bucket with
      a zero total when the day has no record of that kind. */
  function Column(totals: ByKind, kind: string): (b: Bucket)
    ensures kind in totals ==> b == totals[kind]
    ensures kind !in totals ==> b.totalSeconds == 0 && b.sessions == []
  {
    if kind in totals then totals[kind] else Bucket(0, [])
  }

  /** On the local path every column, present or not, holds exactly the day's
      records of its kind in order, and shows the sum of their seconds. */
  lemma FallbackColumn(stored: seq<Session>, day: string, kind: string)
    ensures var v := LoadForDay(None, stored, day);
            Column(v.totals, kind) == Bucket(SumSeconds(OfKind(v.sessions, kind)), OfKind(v.sessions, kind))
  {
    var v := LoadForDay(None, stored, day);
    if kind !in v.totals {
      assert OfKind(v.sessions, kind) == [];
    }
  }

  /** Focus intervals are stored under the name of the button that ended them,
      `stop` or `skip`; such a record is in no shown column, whichever path
      produced the aggregate. */
  lemma FocusRecordsNotShown(rs: seq<Session>, r: Session, i: nat)
    requires r.entry.kind == "stop" || r.entry.kind == "skip"
    requires i < |ShownKinds|
    ensures r !in Column(Aggregate(rs), ShownKinds[i]).sessions
  {
    var kind := ShownKinds[i];
    AggregateBucket(rs, kind);
    assert KindKey(r.entry) != kind;
  }

  /** With the corrected backend, whose table holds the stored records, the
      calendar shows the same view for a day whether the backend answers or the
      view falls back to the stored records itself. */
  lemma CorrectedBackendSameView(stored: seq<Session>, day: string)
    ensures LoadForDay(Some(Server.TotalsForDay(stored, day)), stored, day) == LoadForDay(None, stored, day)
  {
  }

  /** With the backend as written, every record the fallback would show is also
      in the backend's answer. */
  lemma AsWrittenBackendShowsFallback(stored: seq<Session>, day: string, s: Session)
    requires s in LoadForDay(None, stored, day).sessions
    ensures s in LoadForDay(Some(Server.TotalsForDayAsWritten(stored, day)), stored, day).sessions
  {
    Server.AsWrittenIncludesClientRule(stored, day, s);
  }

  /** But not the other way round: the record finished at 00:30 local time two
      hours east of UTC shows on 2024-01-01 when the backend as written answers,
      and not when the view falls back to the stored history. */
  lemma AsWrittenBackendDiffers()
    ensures var s := Session(1, Entry(1500, "break", "2024-01-01T22:30:00.000Z", "2024-01-02"), false);
            LoadForDay(Some(Server.TotalsForDayAsWritten([s], "2024-01-01")), [s], "2024-01-01")
            != LoadForDay(None, [s], "2024-01-01")
  {
    var s := Session(1, Entry(1500, "break", "2024-01-01T22:30:00.000Z", "2024-01-02"), false);
    Server.CountedOnTwoDays();
    assert s.entry.localDay[9] != "2024-01-01"[9];
    assert !KeptForDay(s, "2024-01-01");
  }

  /** `humanTime`: the compact duration of the column totals, computed on its own;
      for whole seconds it is the timer's `formatDuration`. */
  function HumanTime(s: int): (r: string)
    ensures r == FormatDuration(s)
  {
    var secs := if s < 0 then 0 else s;
    if secs >= 3600 then Decimal(secs / 3600) + "h " + Decimal((secs % 3600) / 60) + "m"
    else if secs >= 60 then Decimal(secs / 60) + "m " + Decimal(secs % 60) + "s"
    else Decimal(secs) + "s"
  }
}
