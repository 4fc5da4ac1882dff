/** Any number of pipelines with disjoint listings sharing one index: however their histories interleave, failed runs
    included, each ends with the points it would have alone, and recovers exactly when it would alone. */
module SharedIndexes {
  import opened Models
  import opened MemoryIndexes
  import opened RunPlans
  import opened PlanFacts
  import opened Ingestion
  import opened Histories
  import opened Recovery
  import opened Leftovers
  import opened Limits
  import opened Isolation

  // Whatever the pipeline lists belongs to its source.
  predicate OwnListing(owner: Owner, p: Pipeline, e: RunEvent) {
    forall d :: d in e.snapshot ==> owner(d.uri) == p.sourceId
  }

  predicate OwnHistory(owner: Owner, p: Pipeline, body: Bodies, events: seq<RunEvent>) {
    forall i :: 0 <= i < |events| ==> Honest(body, events[i]) && OwnListing(owner, p, events[i])
  }

  predicate AllRespect(owner: Owner, trace: seq<Action>) {
    forall i :: 0 <= i < |trace| ==> Respects(owner, trace[i])
  }

  // The runs of several pipelines, each history taking its steps in order, mixed in any way.
  predicate Interleaves(ps: seq<Pipeline>, w: World, histories: seq<seq<RunEvent>>, trace: seq<Action>)
    requires |ps| == |histories|
  {
    && (forall m :: 0 <= m < |ps| ==> By(ps[m].sourceId, trace) == HistoryActions(ps[m], w, histories[m]))
    && (forall i :: 0 <= i < |trace| ==> exists m :: 0 <= m < |ps| && trace[i].Actor() == ps[m].sourceId)
  }

  lemma WritesRespect(owner: Owner, p: Pipeline, docs: seq<Doc>, done: nat)
    requires ValidSnapshot(docs) && done <= |AllItems(p, docs)|
    requires forall d :: d in docs ==> owner(d.uri) == p.sourceId
    ensures AllRespect(owner, Writes(p, AllItems(p, docs)[..done]))
  {
    var items := AllItems(p, docs);
    forall i | 0 <= i < done ensures Respects(owner, Write(PointOf(p, items[i]))) {
      var d, j := PendingFrom(p, docs, i);
    }
  }

  // An honest run over its own listing writes only what belongs to its source, wherever it stops.
  lemma StepRespects(owner: Owner, p: Pipeline, body: Bodies, w: World, e: RunEvent)
    requires Justified(body, KnownIn(p, w)) && Honest(body, e) && OwnListing(owner, p, e)
    ensures AllRespect(owner, StepActions(p, w, e))
  {
    var changed := Changed(KnownIn(p, w), e.listing, e.snapshot);
    var done := StepActionsShape(p, w, e);
    HonestPending(p, body, w, e);
    ChangedMembers(KnownIn(p, w), e.listing, e.snapshot);
    WritesRespect(owner, p, changed, done);
  }

  lemma {:induction false} HistoryRespects(owner: Owner, p: Pipeline, body: Bodies, w: World, events: seq<RunEvent>)
    requires Justified(body, KnownIn(p, w)) && OwnHistory(owner, p, body, events)
    ensures AllRespect(owner, HistoryActions(p, w, events))
    decreases |events|
  {
    if events == [] {
    } else {
      StepRespects(owner, p, body, w, events[0]);
      StepStaysJustified(p, body, w, events[0]);
      HistoryRespects(owner, p, body, Step(p, w, events[0]), events[1..]);
    }
  }

  lemma {:induction false} ByHolds(source: string, trace: seq<Action>, i: nat)
    requires i < |trace| && trace[i].Actor() == source
    ensures trace[i] in By(source, trace)
  {
    if i == |trace| - 1 {
    } else {
      ByHolds(source, trace[..|trace| - 1], i);
    }
  }

  lemma InterleavingRespects(owner: Owner, ps: seq<Pipeline>, body: Bodies, w: World, histories: seq<seq<RunEvent>>,
                             trace: seq<Action>)
    requires |ps| == |histories| && Interleaves(ps, w, histories, trace)
    requires forall m :: 0 <= m < |ps| ==>
               Justified(body, KnownIn(ps[m], w)) && OwnHistory(owner, ps[m], body, histories[m])
    ensures AllRespect(owner, trace)
  {
    forall i | 0 <= i < |trace| ensures Respects(owner, trace[i]) {
      var m :| 0 <= m < |ps| && trace[i].Actor() == ps[m].sourceId;
      ByHolds(ps[m].sourceId, trace, i);
      HistoryRespects(owner, ps[m], body, w, histories[m]);
    }
  }

  // Pipelines whose listings are disjoint leave each other's points alone: however their histories interleave,
  // each ends with the points its own history leaves.
  lemma PipelinesLikeAlone(owner: Owner, ps: seq<Pipeline>, body: Bodies, w: World, histories: seq<seq<RunEvent>>,
                           trace: seq<Action>, k: nat)
    requires |ps| == |histories| && Interleaves(ps, w, histories, trace) && Owned(owner, w.points) && k < |ps|
    requires forall m :: 0 <= m < |ps| ==>
               Justified(body, KnownIn(ps[m], w)) && OwnHistory(owner, ps[m], body, histories[m])
    ensures SourcePoints(Execute(w.points, trace), ps[k].sourceId)
         == SourcePoints(Replay(ps[k], w, histories[k]).points, ps[k].sourceId)
  {
    InterleavingRespects(owner, ps, body, w, histories, trace);
    OwnersNeverTake(owner, w.points, trace, ps[k].sourceId);
    InterleavedHistoryLikeAlone(ps[k], w, histories[k], trace);
  }

  // So the recovery of each is exact among the others: after a last success its points are the from-scratch
  // build if and only if tracking its own history leaves nothing lost.
  lemma PipelinesRecoverIff(owner: Owner, ps: seq<Pipeline>, body: Bodies, w: World, histories: seq<seq<RunEvent>>,
                            trace: seq<Action>, k: nat)
    requires |ps| == |histories| && Interleaves(ps, w, histories, trace) && Owned(owner, w.points) && k < |ps|
    requires forall m :: 0 <= m < |ps| ==>
               Justified(body, KnownIn(ps[m], w)) && OwnHistory(owner, ps[m], body, histories[m])
    requires Authentic(ps[k], w.points) && histories[k] != [] && LastSucceeds(ps[k], w, histories[k])
    ensures SourcePoints(Execute(w.points, trace), ps[k].sourceId)
            == Scratch(ps[k], histories[k][|histories[k]| - 1].snapshot)
            <==> LostOver(ps[k], w, histories[k], Lost(ps[k], w)) == {}
  {
    PipelinesLikeAlone(owner, ps, body, w, histories, trace, k);
    RecoversIffNothingLost(ps[k], body, w, histories[k]);
  }

  // Nor do the others hinder the plain rule: no document returned after an uncommitted run saw it changed or missing.
  lemma PipelinesRecover(owner: Owner, ps: seq<Pipeline>, body: Bodies, w: World, histories: seq<seq<RunEvent>>,
                         trace: seq<Action>, k: nat, dirty: set<Uri>)
    requires |ps| == |histories| && Interleaves(ps, w, histories, trace) && Owned(owner, w.points) && k < |ps|
    requires forall m :: 0 <= m < |ps| ==>
               Justified(body, KnownIn(ps[m], w)) && OwnHistory(owner, ps[m], body, histories[m])
    requires Authentic(ps[k], w.points) && Clean(ps[k], w, dirty) && NeverReturns(ps[k], w, histories[k], dirty)
    requires histories[k] != [] && LastSucceeds(ps[k], w, histories[k])
    ensures SourcePoints(Execute(w.points, trace), ps[k].sourceId)
         == Scratch(ps[k], histories[k][|histories[k]| - 1].snapshot)
  {
    PipelinesLikeAlone(owner, ps, body, w, histories, trace, k);
    RecoveryAfterCrashes(ps[k], body, w, histories[k], dirty);
  }

  // Pipelines that start from nothing and only succeed end with everyone's from-scratch points.
  lemma PipelinesRefineFull(owner: Owner, ps: seq<Pipeline>, body: Bodies, w: World, histories: seq<seq<RunEvent>>,
                            trace: seq<Action>, k: nat)
    requires |ps| == |histories| && Interleaves(ps, w, histories, trace) && Owned(owner, w.points) && k < |ps|
    requires forall m :: 0 <= m < |ps| ==>
               KnownIn(ps[m], w) == map[] && OwnHistory(owner, ps[m], body, histories[m])
    requires SourcePoints(w.points, ps[k].sourceId) == map[]
    requires histories[k] != [] && AllSucceed(ps[k], w, histories[k])
    ensures SourcePoints(Execute(w.points, trace), ps[k].sourceId)
         == Scratch(ps[k], histories[k][|histories[k]| - 1].snapshot)
  {
    PipelinesLikeAlone(owner, ps, body, w, histories, trace, k);
    IncrementalRefinesFull(ps[k], body, w, histories[k]);
  }

  // What a pipeline knows is its own: the runs of other sources do not change it.
  lemma OthersKeepKnown(p: Pipeline, q: Pipeline, w: World, e: RunEvent)
    requires p.sourceId != q.sourceId
    ensures KnownIn(p, Step(q, w, e)) == KnownIn(p, w)
  {
  }

  /* Two pipelines that list the same document. */

  // The second source writes a chunk the first one holds. The first finds its document unchanged, skips it, and
  // ends its next successful run without the from-scratch points, whatever the sources are called.
  lemma SharedDocumentDisturbs(p: Pipeline, q: Pipeline, body: Bodies, w: World, theirs: RunEvent, mine: RunEvent,
                               taken: Doc, skipped: Doc, id: string)
    requires p.sourceId != q.sourceId && WellFormed(w.points)
    requires Justified(body, KnownIn(p, w)) && Justified(body, KnownIn(q, w)) && Honest(body, theirs)
             && Honest(body, mine)
    requires Succeeds(q, w, theirs) && Succeeds(p, Step(q, w, theirs), mine)
    requires taken in theirs.snapshot && !Skips(KnownIn(q, w), theirs.listing, taken)
    requires skipped in mine.snapshot && Skips(KnownIn(p, w), mine.listing, skipped)
    requires id in PointsOf(q, taken.uri, taken.content) && id in PointsOf(p, skipped.uri, skipped.content)
    ensures SourcePoints(Step(p, Step(q, w, theirs), mine).points, p.sourceId) != Scratch(p, mine.snapshot)
  {
    var after := Step(q, w, theirs);
    OthersKeepKnown(p, q, w, theirs);
    StepStaysWellFormed(q, body, w, theirs);
    ChangedIsRepaired(q, body, w, theirs, taken, id);
    PointsOfFacts(q, taken.uri, taken.content, id);
    PointsOfFacts(p, skipped.uri, skipped.content, id);
    assert !Intact(p, after.points, skipped.uri, skipped.content);
    HonestEntriesHold(p, body, after, mine);
    RunRestoresScratchIff(p, after, mine);
  }

  // The pipeline of the settled source, under another source id.
  function Second(): Pipeline {
    OneText("t", "sig", "x")
  }

  lemma SecondKnowsNothing()
    ensures KnownIn(Second(), Settled()) == map[] && Justified(Body(), KnownIn(Second(), Settled()))
    ensures !Skips(KnownIn(Second(), Settled()), true, Version("1"))
    ensures Skips(KnownIn(OneChunk(), Settled()), true, Version("1"))
  {
    SettledIsSound();
  }

  lemma BothSucceed()
    ensures Succeeds(Second(), Settled(), NEXT_RUN_EVENT)
    ensures Succeeds(OneChunk(), Step(Second(), Settled(), NEXT_RUN_EVENT), NEXT_RUN_EVENT)
    ensures Honest(Body(), NEXT_RUN_EVENT) && Version("1") in NEXT_RUN_EVENT.snapshot
    ensures NEXT_RUN_EVENT.snapshot == [Version("1")] && NEXT_RUN_EVENT.listing
  {
    WitnessIsHonest();
    NoFaultSucceeds(Second(), Settled(), NEXT_RUN_EVENT);
    NoFaultSucceeds(OneChunk(), Step(Second(), Settled(), NEXT_RUN_EVENT), NEXT_RUN_EVENT);
    assert Version("1") == NEXT_RUN_EVENT.snapshot[0];
  }

  // A witness: both list version 1 of one document and cut it alike; both runs succeed, and the first source has
  // lost its point.
  lemma SharedDocumentWitness()
    ensures SourcePoints(Settled().points, "s") == Scratch(OneChunk(), [Version("1")])
    ensures var after := Step(Second(), Settled(), NEXT_RUN_EVENT);
            && Succeeds(Second(), Settled(), NEXT_RUN_EVENT) && Succeeds(OneChunk(), after, NEXT_RUN_EVENT)
            && SourcePoints(Step(OneChunk(), after, NEXT_RUN_EVENT).points, "s") != Scratch(OneChunk(), [Version("1")])
  {
    SettledIsSound();
    SettledIsScratch();
    SecondKnowsNothing();
    BothSucceed();
    OneTextPoints("s", "sig", "x", "1");
    OneTextPoints("t", "sig", "x", "1");
    SharedDocumentDisturbs(OneChunk(), Second(), Body(), Settled(), NEXT_RUN_EVENT, NEXT_RUN_EVENT,
                           Version("1"), Version("1"), PointId("a", "x"));
  }
}
