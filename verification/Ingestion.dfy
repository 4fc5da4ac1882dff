/** Incremental ingestion against the from-scratch build it promises to equal: what one run restores,
    and what any history of successful and failed runs leaves behind. */
module Ingestion {
  import opened Models
  import opened MemoryIndexes
  import opened RunPlans
  import opened PlanFacts

  // The source's points after one run that starts from nothing.
  function Scratch(p: Pipeline, docs: seq<Doc>): Points {
    SourcePoints(Step(p, World(map[], map[]), RunEvent(docs, false, NoFault)).points, p.sourceId)
  }

  // Every point sits under its own id and names a one-line URI.
  predicate WellFormed(points: Points) {
    forall id :: id in points ==> id == IdOf(points[id].chunk) && OneLine(points[id].chunk.uri)
  }

  // The index still holds every point this body produces.
  predicate Intact(p: Pipeline, points: Points, uri: Uri, content: string) {
    forall id :: id in PointsOf(p, uri, content) ==> id in points && points[id] == PointsOf(p, uri, content)[id]
  }

  // No point tagged with a listed document's current hash has a text that document does not produce.
  predicate NoLeftover(p: Pipeline, points: Points, docs: seq<Doc>) {
    forall d, id :: d in docs && id in points && points[id].source == p.sourceId
                    && points[id].chunk.uri == d.uri && points[id].hash == ContentHash(d)
                    ==> id in PointsOf(p, d.uri, d.content)
  }

  lemma {:induction false} NothingKnown(listing: bool, docs: seq<Doc>)
    ensures Changed(map[], listing, docs) == docs
  {
    if docs == [] {
    } else {
      NothingKnown(listing, docs[..|docs| - 1]);
    }
  }

  // The state a successful run leaves in the index, point by point.
  lemma FinishedPoint(p: Pipeline, w: World, e: RunEvent, id: string)
    requires ValidSnapshot(e.snapshot) && Succeeds(p, w, e)
    requires forall d :: d in e.snapshot ==> EntryHolds(KnownIn(p, w), e.listing, d)
    ensures var added := UpsertAll(p, map[], AllItems(p, Changed(KnownIn(p, w), e.listing, e.snapshot)));
            var both := w.points + added;
            (id in Step(p, w, e).points
             <==> id in both
                  && (both[id].source == p.sourceId ==>
                        exists d :: d in e.snapshot && d.uri == both[id].chunk.uri && both[id].hash == ContentHash(d)))
            && (id in Step(p, w, e).points ==> Step(p, w, e).points[id] == both[id])
  {
    var known := KnownIn(p, w);
    var plan := PlanIn(p, w, e);
    PlanClosedForm(p, known, e.listing, e.snapshot);
    UpsertsOverlay(p, w.points, plan.pending);
    var both := w.points + UpsertAll(p, map[], plan.pending);
    if id in both && both[id].source == p.sourceId && both[id].chunk.uri in Uris(e.snapshot) {
      var d :| d in e.snapshot && d.uri == both[id].chunk.uri;
      assert plan.current[d.uri] == ContentHash(d);
    }
  }

  lemma ScratchPoint(p: Pipeline, docs: seq<Doc>, id: string)
    requires ValidSnapshot(docs)
    ensures id in Scratch(p, docs) <==> exists d :: d in docs && id in PointsOf(p, d.uri, d.content)
    ensures forall d :: d in docs && id in PointsOf(p, d.uri, d.content) ==>
              id in Scratch(p, docs) && Scratch(p, docs)[id] == PointsOf(p, d.uri, d.content)[id]
  {
    var w, e := World(map[], map[]), RunEvent(docs, false, NoFault);
    FinishedPoint(p, w, e, id);
    NothingKnown(false, docs);
    var added := UpsertAll(p, map[], AllItems(p, docs));
    assert w.points + added == added;
    if id in added {
      var d := AllItemsOrigin(p, docs, id);
      PointsOfFacts(p, d.uri, d.content, id);
    }
    forall d | d in docs && id in PointsOf(p, d.uri, d.content)
      ensures id in Scratch(p, docs) && Scratch(p, docs)[id] == PointsOf(p, d.uri, d.content)[id]
    {
      AllItemsHave(p, docs, d, id);
      PointsOfFacts(p, d.uri, d.content, id);
    }
  }

  // Exactly when one successful run restores the from-scratch index: every document it skips must
  // still have all its points, and no listed document may have leftover points under its current hash.
  lemma RunRestoresScratchIff(p: Pipeline, w: World, e: RunEvent)
    requires ValidSnapshot(e.snapshot) && WellFormed(w.points) && Succeeds(p, w, e)
    requires forall d :: d in e.snapshot ==> EntryHolds(KnownIn(p, w), e.listing, d)
    ensures SourcePoints(Step(p, w, e).points, p.sourceId) == Scratch(p, e.snapshot)
            <==> (forall d :: d in e.snapshot && Skips(KnownIn(p, w), e.listing, d)
                              ==> Intact(p, w.points, d.uri, d.content))
                 && NoLeftover(p, w.points, e.snapshot)
  {
    if (forall d :: d in e.snapshot && Skips(KnownIn(p, w), e.listing, d) ==> Intact(p, w.points, d.uri, d.content))
       && NoLeftover(p, w.points, e.snapshot)
    {
      forall id { RestoredPoint(p, w, e, id); }
      assert SourcePoints(Step(p, w, e).points, p.sourceId) == Scratch(p, e.snapshot);
    }
    if SourcePoints(Step(p, w, e).points, p.sourceId) == Scratch(p, e.snapshot) {
      forall d | d in e.snapshot && Skips(KnownIn(p, w), e.listing, d)
        ensures Intact(p, w.points, d.uri, d.content)
      {
        RestoredSkipsWereIntact(p, w, e, d);
      }
      RestoredHadNoLeftover(p, w, e);
    }
  }

  lemma RestoredPoint(p: Pipeline, w: World, e: RunEvent, id: string)
    requires ValidSnapshot(e.snapshot) && WellFormed(w.points) && Succeeds(p, w, e)
    requires forall d :: d in e.snapshot ==> EntryHolds(KnownIn(p, w), e.listing, d)
    requires forall d :: d in e.snapshot && Skips(KnownIn(p, w), e.listing, d) ==> Intact(p, w.points, d.uri, d.content)
    requires NoLeftover(p, w.points, e.snapshot)
    ensures id in SourcePoints(Step(p, w, e).points, p.sourceId) <==> id in Scratch(p, e.snapshot)
    ensures id in Scratch(p, e.snapshot) ==>
              SourcePoints(Step(p, w, e).points, p.sourceId)[id] == Scratch(p, e.snapshot)[id]
  {
    var known := KnownIn(p, w);
    var changed := Changed(known, e.listing, e.snapshot);
    var added := UpsertAll(p, map[], AllItems(p, changed));
    var both := w.points + added;
    FinishedPoint(p, w, e, id);
    ScratchPoint(p, e.snapshot, id);
    ChangedMembers(known, e.listing, e.snapshot);
    if id in added {
      var d := AllItemsOrigin(p, changed, id);
      PointsOfFacts(p, d.uri, d.content, id);
      assert d in e.snapshot && both[id] == PointsOf(p, d.uri, d.content)[id];
    } else if id in Scratch(p, e.snapshot) {
      var d :| d in e.snapshot && id in PointsOf(p, d.uri, d.content);
      if d in changed {
        AllItemsHave(p, changed, d, id);
      }
      PointsOfFacts(p, d.uri, d.content, id);
      assert Intact(p, w.points, d.uri, d.content);
    }
  }

  lemma RestoredSkipsWereIntact(p: Pipeline, w: World, e: RunEvent, d: Doc)
    requires ValidSnapshot(e.snapshot) && WellFormed(w.points) && Succeeds(p, w, e)
    requires forall d :: d in e.snapshot ==> EntryHolds(KnownIn(p, w), e.listing, d)
    requires SourcePoints(Step(p, w, e).points, p.sourceId) == Scratch(p, e.snapshot)
    requires d in e.snapshot && Skips(KnownIn(p, w), e.listing, d)
    ensures Intact(p, w.points, d.uri, d.content)
  {
    var changed := Changed(KnownIn(p, w), e.listing, e.snapshot);
    ChangedMembers(KnownIn(p, w), e.listing, e.snapshot);
    forall id | id in PointsOf(p, d.uri, d.content)
      ensures id in w.points && w.points[id] == PointsOf(p, d.uri, d.content)[id]
    {
      FinishedPoint(p, w, e, id);
      ScratchPoint(p, e.snapshot, id);
      if id in UpsertAll(p, map[], AllItems(p, changed)) {
        var other := AllItemsOrigin(p, changed, id);
        ApartPoints(p, d.uri, d.content, other.uri, other.content, id);
        assert false;
      }
    }
  }

  lemma RestoredHadNoLeftover(p: Pipeline, w: World, e: RunEvent)
    requires ValidSnapshot(e.snapshot) && WellFormed(w.points) && Succeeds(p, w, e)
    requires forall d :: d in e.snapshot ==> EntryHolds(KnownIn(p, w), e.listing, d)
    requires SourcePoints(Step(p, w, e).points, p.sourceId) == Scratch(p, e.snapshot)
    ensures NoLeftover(p, w.points, e.snapshot)
  {
    var changed := Changed(KnownIn(p, w), e.listing, e.snapshot);
    var added := UpsertAll(p, map[], AllItems(p, changed));
    ChangedMembers(KnownIn(p, w), e.listing, e.snapshot);
    forall d, id | d in e.snapshot && id in w.points && w.points[id].source == p.sourceId
                   && w.points[id].chunk.uri == d.uri && w.points[id].hash == ContentHash(d)
      ensures id in PointsOf(p, d.uri, d.content)
    {
      FinishedPoint(p, w, e, id);
      ScratchPoint(p, e.snapshot, id);
      if id in added {
        var origin := AllItemsOrigin(p, changed, id);
        PointsOfFacts(p, origin.uri, origin.content, id);
        SameUri(p, w.points, id, origin.uri, PointsOf(p, origin.uri, origin.content)[id].chunk.text);
        assert origin == d;
      } else {
        assert id in Scratch(p, e.snapshot);
        var origin :| origin in e.snapshot && id in PointsOf(p, origin.uri, origin.content);
        PointsOfFacts(p, origin.uri, origin.content, id);
        SameUri(p, w.points, id, origin.uri, PointsOf(p, origin.uri, origin.content)[id].chunk.text);
        assert origin == d;
      }
    }
  }

  lemma SameUri(p: Pipeline, points: Points, id: string, uri: Uri, text: string)
    requires WellFormed(points) && id in points && OneLine(uri) && id == PointId(uri, text)
    ensures points[id].chunk.uri == uri
  {
    OneLineUrisNeverShareIds(points[id].chunk.uri, uri, points[id].chunk.text, text);
  }
}
