/** Recovery from any state, other settings before it included: the index may then hold points of the source that
    are no chunks of their content under the present settings, so `Safe` does not hold; an exact condition does. */
module Leftovers {
  import opened Models
  import opened MemoryIndexes
  import opened RunPlans
  import opened PlanFacts
  import opened Ingestion
  import opened Histories
  import opened Recovery

  // The points of the source whose text is none of the chunks of the content they are tagged with.
  function Foreign(p: Pipeline, points: Points): Points {
    map id | id in points && points[id].source == p.sourceId
             && id !in PointsOf(p, points[id].chunk.uri, points[id].hash.preimage) :: points[id]
  }

  predicate ReachesPrune(p: Pipeline, w: World, e: RunEvent) {
    Succeeds(p, w, e) || e.fault.InCommit?
  }

  // The points a run writes before it stops.
  function Added(p: Pipeline, w: World, e: RunEvent): Points {
    var plan := PlanIn(p, w, e);
    UpsertAll(p, map[], plan.pending[..if Succeeds(p, w, e) then |plan.pending| else Written(plan, e.fault)])
  }

  // The foreign points after one more run: written over, pruned, or as before. Nothing here looks at the index.
  function ForeignAfter(p: Pipeline, w: World, e: RunEvent, foreign: Points): Points {
    map id | id in foreign && id !in Added(p, w, e)
             && (ReachesPrune(p, w, e) ==> !IsStale(foreign[id], p.sourceId, PlanIn(p, w, e).current)) :: foreign[id]
  }

  lemma StepWrites(p: Pipeline, w: World, e: RunEvent)
    ensures var both := w.points + Added(p, w, e);
            Step(p, w, e).points
            == if ReachesPrune(p, w, e) then Pruned(both, p.sourceId, PlanIn(p, w, e).current) else both
  {
    var plan := PlanIn(p, w, e);
    if Succeeds(p, w, e) {
      assert plan.pending[..|plan.pending|] == plan.pending;
      UpsertsOverlay(p, w.points, plan.pending);
    } else {
      StoppedWrites(p, w.points, plan, e.fault);
    }
  }

  // Whatever an honest run writes is a chunk of a listed document, tagged with its content.
  lemma AddedIsOwn(p: Pipeline, body: Bodies, w: World, e: RunEvent, id: string) returns (d: Doc)
    requires Justified(body, KnownIn(p, w)) && Honest(body, e) && id in Added(p, w, e)
    ensures d in e.snapshot && id in PointsOf(p, d.uri, d.content)
    ensures Added(p, w, e)[id].chunk.uri == d.uri && Added(p, w, e)[id].hash == ContentHash(d)
    ensures id == IdOf(Added(p, w, e)[id].chunk)
  {
    var plan, changed := PlanIn(p, w, e), Changed(KnownIn(p, w), e.listing, e.snapshot);
    var n := if Succeeds(p, w, e) then |plan.pending| else Written(plan, e.fault);
    HonestPending(p, body, w, e);
    ChangedMembers(KnownIn(p, w), e.listing, e.snapshot);
    var i := UpsertedFrom(p, plan.pending[..n], id);
    var j;
    d, j := PendingFrom(p, changed, i);
    UpsertedIn(p, ItemsOf(p, d.uri, d.content), j);
  }

  lemma OneForeignAfter(p: Pipeline, body: Bodies, w: World, e: RunEvent, id: string)
    requires Justified(body, KnownIn(p, w)) && Honest(body, e)
    ensures var after, tracked := Foreign(p, Step(p, w, e).points), ForeignAfter(p, w, e, Foreign(p, w.points));
            (id in after <==> id in tracked) && (id in after ==> after[id] == tracked[id])
  {
    StepWrites(p, w, e);
    if id in Added(p, w, e) {
      var d := AddedIsOwn(p, body, w, e, id);
    }
  }

  lemma StepTracksForeign(p: Pipeline, body: Bodies, w: World, e: RunEvent)
    requires Justified(body, KnownIn(p, w)) && Honest(body, e)
    ensures Foreign(p, Step(p, w, e).points) == ForeignAfter(p, w, e, Foreign(p, w.points))
  {
    forall id {
      OneForeignAfter(p, body, w, e, id);
    }
  }

  lemma StepStaysWellFormed(p: Pipeline, body: Bodies, w: World, e: RunEvent)
    requires WellFormed(w.points) && Justified(body, KnownIn(p, w)) && Honest(body, e)
    ensures WellFormed(Step(p, w, e).points)
  {
    var after := Step(p, w, e).points;
    StepWrites(p, w, e);
    forall id | id in after
      ensures id == IdOf(after[id].chunk) && OneLine(after[id].chunk.uri)
    {
      if id in Added(p, w, e) {
        var d := AddedIsOwn(p, body, w, e, id);
      }
    }
  }

  function ForeignOver(p: Pipeline, w: World, events: seq<RunEvent>, foreign: Points): Points
    decreases |events|
  {
    if events == [] then foreign
    else ForeignOver(p, Step(p, w, events[0]), events[1..], ForeignAfter(p, w, events[0], foreign))
  }

  lemma {:induction false} ForeignIgnoresPoints(p: Pipeline, v: World, w: World, events: seq<RunEvent>, foreign: Points)
    requires v.sources == w.sources
    ensures ForeignOver(p, v, events, foreign) == ForeignOver(p, w, events, foreign)
    decreases |events|
  {
    if events == [] {
    } else {
      var e := events[0];
      assert ForeignAfter(p, v, e, foreign) == ForeignAfter(p, w, e, foreign);
      ForeignIgnoresPoints(p, Step(p, v, e), Step(p, w, e), events[1..], ForeignAfter(p, w, e, foreign));
    }
  }

  // A point that stands under a listed document's URI is overwritten only by a chunk of that document.
  lemma AddedUnderUri(p: Pipeline, body: Bodies, w: World, e: RunEvent, d: Doc, id: string)
    requires WellFormed(w.points) && Justified(body, KnownIn(p, w)) && Honest(body, e)
    requires d in e.snapshot && id in w.points && w.points[id].chunk.uri == d.uri && id in Added(p, w, e)
    ensures id in PointsOf(p, d.uri, d.content)
  {
    var other := AddedIsOwn(p, body, w, e, id);
    PointsOfFacts(p, other.uri, other.content, id);
    SameUri(p, w.points, id, other.uri, PointsOf(p, other.uri, other.content)[id].chunk.text);
    assert other == d;
  }

  // A leftover of a listed document under its current hash survives its run.
  predicate IsLeftover(p: Pipeline, points: Points, d: Doc, id: string) {
    && id in points && points[id].source == p.sourceId
    && points[id].chunk.uri == d.uri && points[id].hash == ContentHash(d)
    && id !in PointsOf(p, d.uri, d.content)
  }

  lemma LeftoverSurvives(p: Pipeline, body: Bodies, w: World, e: RunEvent, d: Doc, id: string)
    requires WellFormed(w.points) && Justified(body, KnownIn(p, w)) && Honest(body, e)
    requires d in e.snapshot && IsLeftover(p, w.points, d, id)
    ensures id in ForeignAfter(p, w, e, Foreign(p, w.points))
  {
    HonestPending(p, body, w, e);
    if id in Added(p, w, e) {
      AddedUnderUri(p, body, w, e, d, id);
      assert false;
    }
  }

  // A success leaves no foreign point exactly when there was no leftover of a listed document under its hash.
  lemma NoForeignIffNoLeftover(p: Pipeline, body: Bodies, w: World, e: RunEvent)
    requires WellFormed(w.points) && Justified(body, KnownIn(p, w)) && Honest(body, e) && Succeeds(p, w, e)
    ensures Foreign(p, Step(p, w, e).points) == map[] <==> NoLeftover(p, w.points, e.snapshot)
  {
    var before, after := Foreign(p, w.points), Foreign(p, Step(p, w, e).points);
    StepTracksForeign(p, body, w, e);
    if after == map[] {
      forall d, id | d in e.snapshot && id in w.points && w.points[id].source == p.sourceId
                     && w.points[id].chunk.uri == d.uri && w.points[id].hash == ContentHash(d)
        ensures id in PointsOf(p, d.uri, d.content)
      {
        if IsLeftover(p, w.points, d, id) {
          LeftoverSurvives(p, body, w, e, d, id);
          assert false;
        }
      }
    } else {
      HonestPending(p, body, w, e);
      var id :| id in after;
      var d :| d in e.snapshot && d.uri == before[id].chunk.uri;
      assert before[id].hash == ContentHash(d);
      assert IsLeftover(p, w.points, d, id);
    }
  }

  // A success from any well-formed state restores the from-scratch index exactly when it leaves nothing lost
  // and nothing foreign.
  lemma SuccessRestoresAnywayIff(p: Pipeline, body: Bodies, w: World, e: RunEvent)
    requires WellFormed(w.points) && Justified(body, KnownIn(p, w)) && Honest(body, e) && Succeeds(p, w, e)
    ensures SourcePoints(Step(p, w, e).points, p.sourceId) == Scratch(p, e.snapshot)
            <==> Lost(p, Step(p, w, e)) == {} && Foreign(p, Step(p, w, e).points) == map[]
  {
    HonestEntriesHold(p, body, w, e);
    RunRestoresScratchIff(p, w, e);
    NothingLostIffSkippedIntact(p, body, w, e);
    NoForeignIffNoLeftover(p, body, w, e);
  }

  // Exact recovery from any state, changed settings included: after any history of failed and successful runs
  // that ends with a success, the index is the from-scratch build if and only if tracking leaves nothing lost
  // and nothing foreign.
  lemma {:induction false} RestoredIffNothingLostOrForeign(p: Pipeline, body: Bodies, w: World, events: seq<RunEvent>)
    requires WellFormed(w.points) && Justified(body, KnownIn(p, w))
    requires forall i :: 0 <= i < |events| ==> Honest(body, events[i])
    requires events != [] && LastSucceeds(p, w, events)
    ensures SourcePoints(Replay(p, w, events).points, p.sourceId) == Scratch(p, events[|events| - 1].snapshot)
            <==> LostOver(p, w, events, Lost(p, w)) == {} && ForeignOver(p, w, events, Foreign(p, w.points)) == map[]
    decreases |events|
  {
    var e, rest := events[0], events[1..];
    StepTracksLost(p, body, w, e);
    StepTracksForeign(p, body, w, e);
    assert Replay(p, w, events) == Replay(p, Step(p, w, e), rest);
    if rest == [] {
      SuccessRestoresAnywayIff(p, body, w, e);
    } else {
      assert rest[|rest| - 1] == events[|events| - 1];
      StepStaysJustified(p, body, w, e);
      StepStaysWellFormed(p, body, w, e);
      RestoredIffNothingLostOrForeign(p, body, Step(p, w, e), rest);
    }
  }
}
