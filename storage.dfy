/** The client's global session history (the `flowmodoro_sessions_v1` key of
    local storage), held here as an in-memory list of records: the append done
    after every finished interval, and the background pass that re-sends the
    records the backend has not acknowledged. */
module Storage {
  import opened Sessions

  /** The record a persist call keeps: with the backend's id and marked synced when
      the POST was accepted, otherwise with the provisional id and marked unsynced. */
  function Saved(e: Entry, outcome: PostOutcome, provisionalId: int): (s: Session)
    ensures s.entry == e
    ensures s.synced <==> outcome.Accepted?
    ensures outcome.Accepted? ==> s.id == outcome.id
    ensures outcome.Failed? ==> s.id == provisionalId
  {
    match outcome
    case Accepted(id) => Session(id, e, true)
    case Failed => Session(provisionalId, e, false)
  }

  /** What one re-send does to an unsynced record: on success it takes the
      backend's id and is marked synced; on failure it stays as it was. */
  function Confirmed(s: Session, outcome: PostOutcome): (t: Session)
    ensures t.entry == s.entry
    ensures outcome.Accepted? ==> t.synced && t.id == outcome.id
    ensures outcome.Failed? ==> t == s
  {
    if outcome.Accepted? then s.(id := outcome.id, synced := true) else s
  }

  /** The sync pass over the whole history: records already synced are skipped, and
      each unsynced one, in order, consumes the next POST outcome. */
  function SyncAll(es: seq<Session>, outcomes: seq<PostOutcome>): (r: seq<Session>)
    requires |outcomes| == Pending(es)
    decreases |es|
  {
    if es == [] then []
    else if es[0].synced then [es[0]] + SyncAll(es[1..], outcomes)
    else [Confirmed(es[0], outcomes[0])] + SyncAll(es[1..], outcomes[1..])
  }

  /** The pass keeps the history's length and order; the i-th record is unchanged
      if it was synced, and otherwise gets the outcome of its own POST, the one
      numbered by how many unsynced records come before it, whatever happened to
      the others. */
  lemma {:induction false} SyncAt(es: seq<Session>, outcomes: seq<PostOutcome>, i: nat)
    requires |outcomes| == Pending(es)
    requires i < |es|
    ensures |SyncAll(es, outcomes)| == |es|
    ensures es[i].synced ==> SyncAll(es, outcomes)[i] == es[i]
    ensures !es[i].synced ==>
              Pending(es[..i]) < |outcomes| && SyncAll(es, outcomes)[i] == Confirmed(es[i], outcomes[Pending(es[..i])])
    decreases |es|
  {
    var rest := if es[0].synced then outcomes else outcomes[1..];
    SyncLength(es[1..], rest);
    if i > 0 {
      SyncAt(es[1..], rest, i - 1);
      assert es[..i][1..] == es[1..][..i - 1];
    }
  }

  /** One step of the pass: with the records before `i` already settled, settling
      record `i` (consuming the next outcome if it is unsynced) leaves the same
      overall result. */
  lemma SyncStep(es: seq<Session>, outcomes: seq<PostOutcome>, prefix: seq<Session>, i: nat, j: nat)
    requires i < |es| && j + Pending(es[i..]) == |outcomes| && |outcomes| == Pending(es)
    requires prefix + SyncAll(es[i..], outcomes[j..]) == SyncAll(es, outcomes)
    ensures !es[i].synced ==> j < |outcomes|
    ensures var j' := if es[i].synced then j else j + 1;
            var done := if es[i].synced then es[i] else Confirmed(es[i], outcomes[j]);
            j' + Pending(es[i + 1..]) == |outcomes|
            && (prefix + [done]) + SyncAll(es[i + 1..], outcomes[j'..]) == SyncAll(es, outcomes)
  {
    var rest := es[i..];
    assert rest[0] == es[i] && rest[1..] == es[i + 1..];
    if !es[i].synced {
      assert outcomes[j..][0] == outcomes[j] && outcomes[j..][1..] == outcomes[j + 1..];
    }
  }

  /** The pass keeps the history's length. */
  lemma {:induction false} SyncLength(es: seq<Session>, outcomes: seq<PostOutcome>)
    requires |outcomes| == Pending(es)
    ensures |SyncAll(es, outcomes)| == |es|
    decreases |es|
  {
    if es != [] {
      SyncLength(es[1..], if es[0].synced then outcomes else outcomes[1..]);
    }
  }

  /** The number of POST outcomes that were failures. */
  function Failures(outcomes: seq<PostOutcome>): (n: nat)
    ensures n <= |outcomes|
  {
    if outcomes == [] then 0 else (if outcomes[0].Failed? then 1 else 0) + Failures(outcomes[1..])
  }

  /** After a pass, the number of records still pending is the number of failed
      re-sends (which records they are is `SyncAt`'s statement); in particular,
      when every re-send succeeds nothing is left to sync. */
  lemma {:induction false} SyncLeavesFailures(es: seq<Session>, outcomes: seq<PostOutcome>)
    requires |outcomes| == Pending(es)
    ensures Pending(SyncAll(es, outcomes)) == Failures(outcomes)
    decreases |es|
  {
    if es != [] {
      var s := SyncAll(es, outcomes);
      if es[0].synced {
        SyncLeavesFailures(es[1..], outcomes);
        assert s[1..] == SyncAll(es[1..], outcomes);
      } else {
        SyncLeavesFailures(es[1..], outcomes[1..]);
        assert s[1..] == SyncAll(es[1..], outcomes[1..]);
      }
    }
  }

  /** When the backend is unreachable throughout, the pass changes nothing. */
  lemma {:induction false} SyncAllFailed(es: seq<Session>, outcomes: seq<PostOutcome>)
    requires |outcomes| == Pending(es)
    requires forall j :: 0 <= j < |outcomes| ==> outcomes[j].Failed?
    ensures SyncAll(es, outcomes) == es
    decreases |es|
  {
    if es != [] {
      SyncAllFailed(es[1..], if es[0].synced then outcomes else outcomes[1..]);
    }
  }

  lemma PrefixGrows(p: seq<Session>, prefix: seq<Session>, i: nat)
    requires i < |p| && prefix == p[..i]
    ensures p[..i + 1] == prefix + [p[i]]
  {
  }

  class LocalStore {
    /** The stored history, oldest first. */
    var entries: seq<Session>

    constructor (initial: seq<Session>)
      ensures entries == initial
    {
      entries := initial;
    }

    /** The tail of `recordSession` and `recordBreak`: append the finished record to
        the history, whatever the backend answered. */
    method Persist(e: Entry, outcome: PostOutcome, provisionalId: int) returns (saved: Session)
      modifies this
      ensures saved == Saved(e, outcome, provisionalId)
      ensures entries == old(entries) + [saved]
    {
      saved := Saved(e, outcome, provisionalId);
      entries := entries + [saved];
    }

    /** The background pass started on load: POST every unsynced record in turn,
        marking it synced with the backend's id when the POST succeeds and going
        on with the next record either way, then write the history back.
        `outcomes` holds the answers to those POSTs, one per unsynced record. */
    method SyncPass(outcomes: seq<PostOutcome>)
      requires |outcomes| == Pending(entries)
      modifies this
      ensures entries == SyncAll(old(entries), outcomes)
    {
      var es := entries;
      var parsed := es;
      var i, j := 0, 0;
      assert es[0..] == es && outcomes[0..] == outcomes;
      while i < |parsed|
        invariant |parsed| == |es| && i <= |parsed|
        invariant forall k :: i <= k < |es| ==> parsed[k] == es[k]
        invariant j + Pending(es[i..]) == |outcomes|
        invariant parsed[..i] + SyncAll(es[i..], outcomes[j..]) == SyncAll(es, outcomes)
      {
        var u := parsed[i];
        ghost var prefix := parsed[..i];
        SyncStep(es, outcomes, prefix, i, j);
        if !u.synced {
          var res := outcomes[j];
          if res.Accepted? {
            parsed := parsed[i := u.(synced := true, id := res.id)];
          }
          j := j + 1;
        }
        PrefixGrows(parsed, prefix, i);
        i := i + 1;
      }
      assert parsed[..i] == parsed;
      entries := parsed;
    }
  }
}
