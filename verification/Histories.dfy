/** Whole histories of runs, failed ones included: what every run keeps, and when the next
    successful run brings the index back to the from-scratch build. */
module Histories {
  import opened Models
  import opened MemoryIndexes
  import opened DocStores
  import opened RunPlans
  import opened PlanFacts
  import opened Ingestion

  // The content a listing fingerprint stands for: equal fingerprints of a URI mean equal content.
  type Bodies = (Uri, string) -> string

  predicate Honest(body: Bodies, e: RunEvent) {
    ValidSnapshot(e.snapshot) && forall d :: d in e.snapshot ==> d.content == body(d.uri, d.fingerprint)
  }

  // Stored listing fingerprints belong to the content stored beside them.
  predicate Justified(body: Bodies, known: map<Uri, DocEntry>) {
    forall uri :: uri in known && known[uri].listing.Some? ==>
                    known[uri].content == Sha256(body(uri, known[uri].listing.value))
  }

  // The point is one of the chunks of the content its hash tags, embedded and enriched accordingly.
  predicate IsChunkOfItsContent(p: Pipeline, point: Point) {
    var items := ItemsOf(p, point.chunk.uri, point.hash.preimage);
    exists i :: 0 <= i < |items| && point == PointOf(p, items[i])
  }

  predicate Authentic(p: Pipeline, points: Points) {
    forall id :: id in points && points[id].source == p.sourceId ==> IsChunkOfItsContent(p, points[id])
  }

  predicate Safe(p: Pipeline, body: Bodies, w: World) {
    WellFormed(w.points) && Authentic(p, w.points) && Justified(body, KnownIn(p, w))
  }

  lemma AuthenticHasNoLeftover(p: Pipeline, points: Points, docs: seq<Doc>)
    requires WellFormed(points) && Authentic(p, points)
    ensures NoLeftover(p, points, docs)
  {
    forall d, id | d in docs && id in points && points[id].source == p.sourceId
                   && points[id].chunk.uri == d.uri && points[id].hash == ContentHash(d)
      ensures id in PointsOf(p, d.uri, d.content)
    {
      var items := ItemsOf(p, d.uri, d.content);
      assert IsChunkOfItsContent(p, points[id]);
      var i :| 0 <= i < |items| && points[id] == PointOf(p, items[i]);
      UpsertedIn(p, items, i);
    }
  }

  lemma HonestEntriesHold(p: Pipeline, body: Bodies, w: World, e: RunEvent)
    requires Justified(body, KnownIn(p, w)) && Honest(body, e)
    ensures forall d :: d in e.snapshot ==> EntryHolds(KnownIn(p, w), e.listing, d)
    ensures forall d :: d in e.snapshot && Skips(KnownIn(p, w), e.listing, d) ==>
              KnownIn(p, w)[d.uri].content == ContentHash(d)
  {
  }

  lemma {:induction false} PendingFrom(p: Pipeline, docs: seq<Doc>, i: nat) returns (d: Doc, j: nat)
    requires i < |AllItems(p, docs)|
    ensures d in docs && j < |ItemsOf(p, d.uri, d.content)|
    ensures AllItems(p, docs)[i] == ItemsOf(p, d.uri, d.content)[j]
  {
    var last := |docs| - 1;
    var before := AllItems(p, docs[..last]);
    if i < |before| {
      d, j := PendingFrom(p, docs[..last], i);
    } else {
      d, j := docs[last], i - |before|;
    }
  }

  // Upserting any prefix of a plan's pending chunks keeps the index well formed and authentic.
  lemma UpsertsStaySafe(p: Pipeline, points: Points, docs: seq<Doc>, done: nat)
    requires WellFormed(points) && Authentic(p, points) && ValidSnapshot(docs)
    requires done <= |AllItems(p, docs)|
    ensures WellFormed(UpsertAll(p, points, AllItems(p, docs)[..done]))
    ensures Authentic(p, UpsertAll(p, points, AllItems(p, docs)[..done]))
  {
    var items := AllItems(p, docs)[..done];
    var after := UpsertAll(p, points, items);
    UpsertsOverlay(p, points, items);
    forall id | id in after
      ensures id == IdOf(after[id].chunk) && OneLine(after[id].chunk.uri)
      ensures after[id].source == p.sourceId ==> IsChunkOfItsContent(p, after[id])
    {
      if id in UpsertAll(p, map[], items) {
        var i := UpsertedFrom(p, items, id);
        var d, j := PendingFrom(p, docs, i);
        assert after[id] == PointOf(p, ItemsOf(p, d.uri, d.content)[j]);
      }
    }
  }

  // The plan of an honest run processes the changed documents and nothing else.
  lemma HonestPending(p: Pipeline, body: Bodies, w: World, e: RunEvent)
    requires Justified(body, KnownIn(p, w)) && Honest(body, e)
    ensures PlanIn(p, w, e).pending == AllItems(p, Changed(KnownIn(p, w), e.listing, e.snapshot))
    ensures ValidSnapshot(Changed(KnownIn(p, w), e.listing, e.snapshot))
    ensures PlanIn(p, w, e).current.Keys == Uris(e.snapshot)
    ensures forall d :: d in e.snapshot ==>
              d.uri in Uris(e.snapshot) && PlanIn(p, w, e).current[d.uri] == ContentHash(d)
  {
    HonestEntriesHold(p, body, w, e);
    PlanClosedForm(p, KnownIn(p, w), e.listing, e.snapshot);
    ChangedMembers(KnownIn(p, w), e.listing, e.snapshot);
  }

  lemma CommittedEntriesJustified(p: Pipeline, body: Bodies, w: World, e: RunEvent)
    requires Justified(body, KnownIn(p, w)) && Honest(body, e)
    ensures Justified(body, PlanIn(p, w, e).entries)
  {
    HonestEntriesHold(p, body, w, e);
    PlanClosedForm(p, KnownIn(p, w), e.listing, e.snapshot);
    var entries := PlanIn(p, w, e).entries;
    forall uri | uri in entries && entries[uri].listing.Some?
      ensures entries[uri].content == Sha256(body(uri, entries[uri].listing.value))
    {
      var d :| d in e.snapshot && d.uri == uri;
      assert entries[uri] == EntryAfter(KnownIn(p, w), e.listing, d);
    }
  }

  predicate WroteIndex(fault: Fault) {
    fault.InUpsert? || fault.InReconcile? || fault.InCommit?
  }

  // Wherever a run stops, it has upserted some prefix of its pending chunks, and perhaps pruned.
  lemma StoppedShape(p: Pipeline, points: Points, plan: Plan, fault: Fault) returns (done: nat)
    ensures done <= |plan.pending|
    ensures var upserted := UpsertAll(p, points, plan.pending[..done]);
            StoppedPoints(p, points, plan, fault) == upserted
            || StoppedPoints(p, points, plan, fault) == Pruned(upserted, p.sourceId, plan.current)
  {
    var n := |plan.pending|;
    assert plan.pending[..n] == plan.pending;
    done := if fault.InUpsert? && fault.done <= n then fault.done else if WroteIndex(fault) then n else 0;
  }

  lemma StepShape(p: Pipeline, w: World, e: RunEvent) returns (done: nat)
    ensures done <= |PlanIn(p, w, e).pending|
    ensures var plan := PlanIn(p, w, e);
            var upserted := UpsertAll(p, w.points, plan.pending[..done]);
            Step(p, w, e).points == upserted || Step(p, w, e).points == Pruned(upserted, p.sourceId, plan.current)
  {
    var plan := PlanIn(p, w, e);
    if Succeeds(p, w, e) {
      done := |plan.pending|;
      assert plan.pending[..done] == plan.pending;
    } else {
      done := StoppedShape(p, w.points, plan, e.fault);
    }
  }

  lemma PruningStaysSafe(p: Pipeline, points: Points, current: map<Uri, Digest>)
    requires WellFormed(points) && Authentic(p, points)
    ensures WellFormed(Pruned(points, p.sourceId, current)) && Authentic(p, Pruned(points, p.sourceId, current))
  {
  }

  lemma StepPointsStaySafe(p: Pipeline, body: Bodies, w: World, e: RunEvent)
    requires Safe(p, body, w) && Honest(body, e)
    ensures WellFormed(Step(p, w, e).points) && Authentic(p, Step(p, w, e).points)
  {
    var done := StepShape(p, w, e);
    var plan := PlanIn(p, w, e);
    HonestPending(p, body, w, e);
    UpsertsStaySafe(p, w.points, Changed(KnownIn(p, w), e.listing, e.snapshot), done);
    PruningStaysSafe(p, UpsertAll(p, w.points, plan.pending[..done]), plan.current);
  }

  lemma StepStaysJustified(p: Pipeline, body: Bodies, w: World, e: RunEvent)
    requires Justified(body, KnownIn(p, w)) && Honest(body, e)
    ensures Justified(body, KnownIn(p, Step(p, w, e)))
  {
    CommittedEntriesJustified(p, body, w, e);
    if Succeeds(p, w, e) {
      assert KnownIn(p, Step(p, w, e)) == PlanIn(p, w, e).entries;
    } else {
      assert KnownIn(p, Step(p, w, e)) == KnownIn(p, w);
    }
  }

  // Safety of every run, wherever it stops.
  lemma StepStaysSafe(p: Pipeline, body: Bodies, w: World, e: RunEvent)
    requires Safe(p, body, w) && Honest(body, e)
    ensures Safe(p, body, Step(p, w, e))
  {
    StepPointsStaySafe(p, body, w, e);
    StepStaysJustified(p, body, w, e);
  }

  function Replay(p: Pipeline, w: World, events: seq<RunEvent>): World
    decreases |events|
  {
    if events == [] then w else Replay(p, Step(p, w, events[0]), events[1..])
  }

  // In every reachable state each point of the source is a chunk of the content its hash tags.
  lemma {:induction false} EveryStateIsSafe(p: Pipeline, body: Bodies, w: World, events: seq<RunEvent>)
    requires Safe(p, body, w)
    requires forall i :: 0 <= i < |events| ==> Honest(body, events[i])
    ensures Safe(p, body, Replay(p, w, events))
    decreases |events|
  {
    if events == [] {
    } else {
      StepStaysSafe(p, body, w, events[0]);
      EveryStateIsSafe(p, body, Step(p, w, events[0]), events[1..]);
    }
  }

  // Every run that got past its reconcile, committed or not, leaves the source only points of listed documents,
  // under their current hashes.
  lemma NothingOutsideCurrent(p: Pipeline, body: Bodies, w: World, e: RunEvent, id: string)
    requires Safe(p, body, w) && Honest(body, e) && (Succeeds(p, w, e) || e.fault.InCommit?)
    requires id in Step(p, w, e).points && Step(p, w, e).points[id].source == p.sourceId
    ensures exists d :: d in e.snapshot && d.uri == Step(p, w, e).points[id].chunk.uri
                        && Step(p, w, e).points[id].hash == ContentHash(d)
  {
    HonestPending(p, body, w, e);
    var d :| d in e.snapshot && d.uri == Step(p, w, e).points[id].chunk.uri;
  }

  /* Crash recovery. `dirty` collects the stored documents whose points an uncommitted run may have touched. */

  // Every stored document outside `dirty` still has all its points.
  predicate Clean(p: Pipeline, w: World, dirty: set<Uri>) {
    forall uri :: uri in KnownIn(p, w) && uri !in dirty ==>
                    Intact(p, w.points, uri, KnownIn(p, w)[uri].content.preimage)
  }

  // Stored documents a run saw changed, or did not see at all.
  function SeenChangedOrMissing(p: Pipeline, w: World, e: RunEvent): set<Uri> {
    KnownIn(p, w).Keys - Uris(Skipped(KnownIn(p, w), e.listing, e.snapshot))
  }

  function DirtyAfter(p: Pipeline, w: World, e: RunEvent, dirty: set<Uri>): set<Uri> {
    if Succeeds(p, w, e) then {}
    else if WroteIndex(e.fault) then dirty + SeenChangedOrMissing(p, w, e)
    else dirty
  }

  // A successful run does not skip a document that an uncommitted run saw changed or missing.
  predicate NoReturn(p: Pipeline, w: World, e: RunEvent, dirty: set<Uri>) {
    Succeeds(p, w, e) ==> forall d :: d in e.snapshot && Skips(KnownIn(p, w), e.listing, d) ==> d.uri !in dirty
  }

  predicate NeverReturns(p: Pipeline, w: World, events: seq<RunEvent>, dirty: set<Uri>)
    decreases |events|
  {
    events == []
    || (NoReturn(p, w, events[0], dirty)
        && NeverReturns(p, Step(p, w, events[0]), events[1..], DirtyAfter(p, w, events[0], dirty)))
  }

  predicate LastSucceeds(p: Pipeline, w: World, events: seq<RunEvent>)
    requires events != []
    decreases |events|
  {
    if |events| == 1 then Succeeds(p, w, events[0]) else LastSucceeds(p, Step(p, w, events[0]), events[1..])
  }

  lemma {:induction false} ReplayMore(p: Pipeline, w: World, events: seq<RunEvent>, last: RunEvent)
    ensures Replay(p, w, events + [last]) == Step(p, Replay(p, w, events), last)
    decreases |events|
  {
    if events == [] {
      assert events + [last] == [last] && [last][1..] == [];
    } else {
      ReplayMore(p, Step(p, w, events[0]), events[1..], last);
      assert (events + [last])[1..] == events[1..] + [last];
    }
  }

  lemma {:induction false} SucceedsLast(p: Pipeline, w: World, events: seq<RunEvent>, last: RunEvent)
    ensures LastSucceeds(p, w, events + [last]) <==> Succeeds(p, Replay(p, w, events), last)
    decreases |events|
  {
    if events == [] {
      assert events + [last] == [last];
    } else {
      SucceedsLast(p, Step(p, w, events[0]), events[1..], last);
      assert (events + [last])[1..] == events[1..] + [last];
    }
  }

  lemma SuccessRestores(p: Pipeline, body: Bodies, w: World, e: RunEvent, dirty: set<Uri>)
    requires Safe(p, body, w) && Honest(body, e) && Clean(p, w, dirty)
    requires Succeeds(p, w, e) && NoReturn(p, w, e, dirty)
    ensures SourcePoints(Step(p, w, e).points, p.sourceId) == Scratch(p, e.snapshot)
    ensures Clean(p, Step(p, w, e), {})
  {
    HonestEntriesHold(p, body, w, e);
    AuthenticHasNoLeftover(p, w.points, e.snapshot);
    RunRestoresScratchIff(p, w, e);
    PlanClosedForm(p, KnownIn(p, w), e.listing, e.snapshot);
    var after := Step(p, w, e);
    forall uri | uri in KnownIn(p, after)
      ensures Intact(p, after.points, uri, KnownIn(p, after)[uri].content.preimage)
    {
      var d :| d in e.snapshot && d.uri == uri;
      forall id | id in PointsOf(p, d.uri, d.content)
        ensures id in after.points && after.points[id] == PointsOf(p, d.uri, d.content)[id]
      {
        ScratchPoint(p, e.snapshot, id);
        assert id in SourcePoints(after.points, p.sourceId);
      }
    }
  }

  // A failed run leaves alone the points of every document it skipped.
  lemma FailureKeepsSkipped(p: Pipeline, body: Bodies, w: World, e: RunEvent, d: Doc)
    requires Safe(p, body, w) && Honest(body, e)
    requires d in e.snapshot && Skips(KnownIn(p, w), e.listing, d) && Intact(p, w.points, d.uri, d.content)
    ensures Intact(p, Step(p, w, e).points, d.uri, d.content)
  {
    var done := StepShape(p, w, e);
    HonestPending(p, body, w, e);
    forall id | id in PointsOf(p, d.uri, d.content)
      ensures id in Step(p, w, e).points && Step(p, w, e).points[id] == PointsOf(p, d.uri, d.content)[id]
    {
      PointsOfFacts(p, d.uri, d.content, id);
      UpsertsMissSkipped(p, body, w, e, d, done, id);
    }
  }

  lemma UpsertsMissSkipped(p: Pipeline, body: Bodies, w: World, e: RunEvent, d: Doc, done: nat, id: string)
    requires Justified(body, KnownIn(p, w)) && Honest(body, e)
    requires done <= |PlanIn(p, w, e).pending|
    requires d in e.snapshot && Skips(KnownIn(p, w), e.listing, d) && id in PointsOf(p, d.uri, d.content)
    requires id in w.points
    ensures id in UpsertAll(p, w.points, PlanIn(p, w, e).pending[..done])
    ensures UpsertAll(p, w.points, PlanIn(p, w, e).pending[..done])[id] == w.points[id]
  {
    var changed, items := Changed(KnownIn(p, w), e.listing, e.snapshot), PlanIn(p, w, e).pending[..done];
    HonestPending(p, body, w, e);
    ChangedMembers(KnownIn(p, w), e.listing, e.snapshot);
    UpsertsOverlay(p, w.points, items);
    if id in UpsertAll(p, map[], items) {
      var i := UpsertedFrom(p, items, id);
      var other, j := PendingFrom(p, changed, i);
      PointsOfFacts(p, d.uri, d.content, id);
      OneLineUrisNeverShareIds(d.uri, other.uri, PointsOf(p, d.uri, d.content)[id].chunk.text, items[i].chunk.text);
      assert false;
    }
  }

  lemma FailureTracksDirty(p: Pipeline, body: Bodies, w: World, e: RunEvent, dirty: set<Uri>)
    requires Safe(p, body, w) && Honest(body, e) && Clean(p, w, dirty) && !Succeeds(p, w, e)
    ensures Clean(p, Step(p, w, e), DirtyAfter(p, w, e, dirty))
  {
    var known := KnownIn(p, w);
    HonestEntriesHold(p, body, w, e);
    ChangedMembers(known, e.listing, e.snapshot);
    if WroteIndex(e.fault) {
      forall uri | uri in known && uri !in DirtyAfter(p, w, e, dirty)
        ensures Intact(p, Step(p, w, e).points, uri, known[uri].content.preimage)
      {
        var d :| d in Skipped(known, e.listing, e.snapshot) && d.uri == uri;
        FailureKeepsSkipped(p, body, w, e, d);
      }
    }
  }

  lemma StepTracksDirty(p: Pipeline, body: Bodies, w: World, e: RunEvent, dirty: set<Uri>)
    requires Safe(p, body, w) && Honest(body, e) && Clean(p, w, dirty) && NoReturn(p, w, e, dirty)
    ensures Safe(p, body, Step(p, w, e)) && Clean(p, Step(p, w, e), DirtyAfter(p, w, e, dirty))
    ensures Succeeds(p, w, e) ==> SourcePoints(Step(p, w, e).points, p.sourceId) == Scratch(p, e.snapshot)
  {
    StepStaysSafe(p, body, w, e);
    if Succeeds(p, w, e) {
      SuccessRestores(p, body, w, e, dirty);
    } else {
      FailureTracksDirty(p, body, w, e, dirty);
    }
  }

  // Crash recovery: after any number of failed and successful runs, a successful run restores the
  // from-scratch index of the latest snapshot, as long as no document returns to its stored
  // fingerprint after an uncommitted run saw it changed or missing.
  lemma {:induction false} RecoveryAfterCrashes(p: Pipeline, body: Bodies, w: World, events: seq<RunEvent>,
                                                dirty: set<Uri>)
    requires Safe(p, body, w) && Clean(p, w, dirty)
    requires forall i :: 0 <= i < |events| ==> Honest(body, events[i])
    requires events != [] && NeverReturns(p, w, events, dirty) && LastSucceeds(p, w, events)
    ensures SourcePoints(Replay(p, w, events).points, p.sourceId) == Scratch(p, events[|events| - 1].snapshot)
    decreases |events|
  {
    var e, rest := events[0], events[1..];
    assert rest != [] ==> rest[|rest| - 1] == events[|events| - 1];
    StepTracksDirty(p, body, w, e, dirty);
    var after, marked := Step(p, w, e), DirtyAfter(p, w, e, dirty);
    assert Replay(p, w, events) == Replay(p, after, rest);
    if rest == [] {
    } else {
      RecoveryAfterCrashes(p, body, after, rest, marked);
    }
  }

  predicate AllSucceed(p: Pipeline, w: World, events: seq<RunEvent>)
    decreases |events|
  {
    events == [] || (Succeeds(p, w, events[0]) && AllSucceed(p, Step(p, w, events[0]), events[1..]))
  }

  lemma {:induction false} SuccessesNeverReturn(p: Pipeline, w: World, events: seq<RunEvent>)
    requires AllSucceed(p, w, events)
    ensures NeverReturns(p, w, events, {})
    ensures events != [] ==> LastSucceeds(p, w, events)
    decreases |events|
  {
    if events == [] {
    } else {
      SuccessesNeverReturn(p, Step(p, w, events[0]), events[1..]);
    }
  }

  // Incremental refines full: starting from a source nothing is known about, any sequence of
  // successful incremental runs ends with the points a from-scratch run on the last snapshot builds.
  lemma IncrementalRefinesFull(p: Pipeline, body: Bodies, w: World, events: seq<RunEvent>)
    requires WellFormed(w.points) && SourcePoints(w.points, p.sourceId) == map[] && KnownIn(p, w) == map[]
    requires forall i :: 0 <= i < |events| ==> Honest(body, events[i])
    requires events != [] && AllSucceed(p, w, events)
    ensures SourcePoints(Replay(p, w, events).points, p.sourceId) == Scratch(p, events[|events| - 1].snapshot)
  {
    assert forall id :: id in w.points && w.points[id].source == p.sourceId ==>
      id in SourcePoints(w.points, p.sourceId);
    SuccessesNeverReturn(p, w, events);
    RecoveryAfterCrashes(p, body, w, events, {});
  }

  // In any safe state, reached through failures or not, the exact condition for a successful run to
  // restore the from-scratch index: each document it skips has kept all its points.
  lemma RecoversIffSkippedIntact(p: Pipeline, body: Bodies, w: World, e: RunEvent)
    requires Safe(p, body, w) && Honest(body, e) && Succeeds(p, w, e)
    ensures SourcePoints(Step(p, w, e).points, p.sourceId) == Scratch(p, e.snapshot)
            <==> forall d :: d in e.snapshot && Skips(KnownIn(p, w), e.listing, d)
                             ==> Intact(p, w.points, d.uri, d.content)
  {
    HonestEntriesHold(p, body, w, e);
    AuthenticHasNoLeftover(p, w.points, e.snapshot);
    RunRestoresScratchIff(p, w, e);
  }
}
