/** The per-kind aggregation that the calendar's local fallback
    (src/components/CalendarView.jsx:38-44) and the backend's per-day totals
    (backend/server.js:54-60) both run over a day's records: in order, each record
    is filed under its kind, its seconds are added to that kind's total and the
    record is appended to that kind's list. */
module Totals {
  import opened Sessions

  /** One kind's entry in the result: its summed seconds and its records. */
  datatype Bucket = Bucket(totalSeconds: int, sessions: seq<Session>)

  type ByKind = map<string, Bucket>

  /** A day's answer, as the backend sends it and the calendar falls back to:
      `{ day, totals, sessions }`. */
  datatype DayTotals = DayTotals(day: string, totals: ByKind, sessions: seq<Session>)

  /** The bucket a record is filed under: its kind, or `flow` when the kind is missing or empty. */
  function KindKey(e: Entry): (k: string)
    ensures k != ""
    ensures e.kind != "" ==> k == e.kind
    ensures e.kind == "" ==> k == "flow"
  {
    if e.kind == "" then "flow" else e.kind
  }

  /** One step of the reduce: file `r` under its kind, creating the bucket on first use. */
  function Add(acc: ByKind, r: Session): (m: ByKind)
    ensures KindKey(r.entry) in m
    ensures var k := KindKey(r.entry);
            var b := if k in acc then acc[k] else Bucket(0, []);
            m[k].totalSeconds == b.totalSeconds + r.entry.seconds && m[k].sessions == b.sessions + [r]
    ensures forall k :: k != KindKey(r.entry) ==> (k in m <==> k in acc)
    ensures forall k :: k != KindKey(r.entry) && k in acc ==> m[k] == acc[k]
  {
    var k := KindKey(r.entry);
    var b := if k in acc then acc[k] else Bucket(0, []);
    acc[k := Bucket(b.totalSeconds + r.entry.seconds, b.sessions + [r])]
  }

  /** The reduce over the records in order. */
  function Aggregate(rs: seq<Session>): (m: ByKind)
    ensures m == map[] <==> rs == []
    ensures forall k :: k in m ==> k != ""
    decreases |rs|
  {
    if rs == [] then map[] else Add(Aggregate(rs[..|rs| - 1]), rs[|rs| - 1])
  }

  /** The records filed under kind `k`, in their original order. */
  function OfKind(rs: seq<Session>, k: string): (sub: seq<Session>)
    ensures forall r :: r in sub <==> r in rs && KindKey(r.entry) == k
    decreases |rs|
  {
    if rs == [] then []
    else
      var init, last := rs[..|rs| - 1], rs[|rs| - 1];
      assert forall r :: r in rs <==> r in init || r == last;
      OfKind(init, k) + (if KindKey(last.entry) == k then [last] else [])
  }

  /** Filing a list is filing its two halves: the filter keeps the original
      order of the records, together with `OfKindOne` below. */
  lemma {:induction false} OfKindAppend(a: seq<Session>, b: seq<Session>, k: string)
    ensures OfKind(a + b, k) == OfKind(a, k) + OfKind(b, k)
    decreases |b|
  {
    if b == [] {
      assert a + b == a;
    } else {
      var init, last := b[..|b| - 1], b[|b| - 1];
      assert (a + b)[..|a + b| - 1] == a + init;
      assert (a + b)[|a + b| - 1] == last;
      OfKindAppend(a, init, k);
    }
  }

  /** A single record is kept exactly when it is of kind `k`. */
  lemma OfKindOne(r: Session, k: string)
    ensures OfKind([r], k) == if KindKey(r.entry) == k then [r] else []
  {
    assert [r][..0] == [];
  }

  /** Each record of kind `k` is kept as often as it occurs, and no other is. */
  lemma {:induction false} OfKindCount(rs: seq<Session>, k: string, r: Session)
    ensures multiset(OfKind(rs, k))[r] == if KindKey(r.entry) == k then multiset(rs)[r] else 0
    decreases |rs|
  {
    if rs != [] {
      var init, last := rs[..|rs| - 1], rs[|rs| - 1];
      assert rs == init + [last];
      OfKindCount(init, k, r);
    }
  }

  /** The seconds of a list of records, added up. */
  function SumSeconds(rs: seq<Session>): (total: int)
    ensures (forall i :: 0 <= i < |rs| ==> rs[i].entry.seconds >= 0) ==> total >= 0
    decreases |rs|
  {
    if rs == [] then 0 else SumSeconds(rs[..|rs| - 1]) + rs[|rs| - 1].entry.seconds
  }

  lemma SumSecondsAppend(rs: seq<Session>, r: Session)
    ensures SumSeconds(rs + [r]) == SumSeconds(rs) + r.entry.seconds
  {
    assert (rs + [r])[..|rs|] == rs;
  }

  /** There is a bucket for a kind exactly when some record has that kind; every
      bucket holds exactly the records of its kind, in their original order, and
      its total is the sum of their seconds. */
  lemma {:induction false} AggregateBucket(rs: seq<Session>, k: string)
    ensures k in Aggregate(rs) <==> OfKind(rs, k) != []
    ensures k in Aggregate(rs) ==> Aggregate(rs)[k] == Bucket(SumSeconds(OfKind(rs, k)), OfKind(rs, k))
    decreases |rs|
  {
    if rs != [] {
      var init, last := rs[..|rs| - 1], rs[|rs| - 1];
      var acc, sub := Aggregate(init), OfKind(init, k);
      AggregateBucket(init, k);
      assert Aggregate(rs) == Add(acc, last);
      if KindKey(last.entry) == k {
        assert OfKind(rs, k) == sub + [last];
        SumSecondsAppend(sub, last);
      } else {
        assert OfKind(rs, k) == sub;
      }
    }
  }

  /** `AggregateBucket` for every kind at once. */
  lemma AllBuckets(rs: seq<Session>)
    ensures forall k :: k in Aggregate(rs) <==> OfKind(rs, k) != []
    ensures forall k :: k in Aggregate(rs) ==> Aggregate(rs)[k] == Bucket(SumSeconds(OfKind(rs, k)), OfKind(rs, k))
  {
    forall k {
      AggregateBucket(rs, k);
    }
  }

  /** A record lands in exactly one bucket: the one of its own kind. */
  lemma OneBucketPerRecord(rs: seq<Session>, r: Session, k: string)
    requires r in rs && k in Aggregate(rs)
    ensures r in Aggregate(rs)[k].sessions <==> KindKey(r.entry) == k
  {
    AggregateBucket(rs, k);
  }

  /** The sum of `totalSeconds` over all buckets of a result. */
  ghost function MapTotal(m: ByKind): (total: int)
    decreases |m|
  {
    if m == map[] then 0
    else
      var k :| k in m;
      m[k].totalSeconds + MapTotal(m - {k})
  }

  lemma {:induction false} MapTotalRemove(m: ByKind, k: string)
    requires k in m
    ensures MapTotal(m) == m[k].totalSeconds + MapTotal(m - {k})
    decreases |m|
  {
    var j :| j in m && MapTotal(m) == m[j].totalSeconds + MapTotal(m - {j});
    if j != k {
      MapTotalRemove(m - {j}, k);
      MapTotalRemove(m - {k}, j);
      assert m - {j} - {k} == m - {k} - {j};
    }
  }

  lemma MapTotalUpdate(m: ByKind, k: string, b: Bucket)
    ensures MapTotal(m[k := b]) == MapTotal(m) - (if k in m then m[k].totalSeconds else 0) + b.totalSeconds
  {
    MapTotalRemove(m[k := b], k);
    assert m[k := b] - {k} == m - {k};
    if k in m {
      MapTotalRemove(m, k);
    } else {
      assert m - {k} == m;
    }
  }

  /** No seconds are lost or counted twice: the buckets' totals add up to the
      total of the records aggregated. */
  lemma {:induction false} AggregateConserves(rs: seq<Session>)
    ensures MapTotal(Aggregate(rs)) == SumSeconds(rs)
    decreases |rs|
  {
    if rs != [] {
      var init, last := rs[..|rs| - 1], rs[|rs| - 1];
      AggregateConserves(init);
      var acc, k := Aggregate(init), KindKey(last.entry);
      var b := if k in acc then acc[k] else Bucket(0, []);
      var b' := Bucket(b.totalSeconds + last.entry.seconds, b.sessions + [last]);
      assert Aggregate(rs) == acc[k := b'];
      MapTotalUpdate(acc, k, b');
    }
  }
}
