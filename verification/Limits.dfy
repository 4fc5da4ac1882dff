/** Where the promises of incremental ingestion stop: changed chunk settings, and documents that
    return to their stored fingerprint after a failed run. */
module Limits {
  import opened Wrappers
  import opened Models
  import opened MemoryIndexes
  import opened DocStores
  import opened RunPlans
  import opened PlanFacts
  import opened Ingestion
  import opened Histories
  import opened Recovery
  import opened Leftovers

  // The document is listed with the content it had before.
  predicate Unchanged(before: seq<Doc>, d: Doc) {
    exists b :: b in before && b.uri == d.uri && b.content == d.content
  }

  // Of the unchanged documents, every chunk text under the old settings is also one under the new.
  predicate OldTextsRemain(p: Pipeline, q: Pipeline, before: seq<Doc>, docs: seq<Doc>) {
    forall d, id :: d in docs && Unchanged(before, d) && id in PointsOf(p, d.uri, d.content)
                    ==> id in PointsOf(q, d.uri, d.content)
  }

  lemma NoLeftoverKeepsTexts(p: Pipeline, q: Pipeline, points: Points, before: seq<Doc>, docs: seq<Doc>)
    requires p.sourceId == q.sourceId && ValidSnapshot(before)
    requires SourcePoints(points, p.sourceId) == Scratch(p, before) && NoLeftover(q, points, docs)
    ensures OldTextsRemain(p, q, before, docs)
  {
    forall d, id | d in docs && Unchanged(before, d) && id in PointsOf(p, d.uri, d.content)
      ensures id in PointsOf(q, d.uri, d.content)
    {
      ScratchPoint(p, before, id);
      PointsOfFacts(p, d.uri, d.content, id);
      assert id in SourcePoints(points, p.sourceId) && points[id] == SourcePoints(points, p.sourceId)[id];
    }
  }

  lemma KeptTextsLeaveNoLeftover(p: Pipeline, q: Pipeline, points: Points, before: seq<Doc>, docs: seq<Doc>)
    requires p.sourceId == q.sourceId && ValidSnapshot(before)
    requires SourcePoints(points, p.sourceId) == Scratch(p, before) && OldTextsRemain(p, q, before, docs)
    ensures NoLeftover(q, points, docs)
  {
    forall d, id | d in docs && id in points && points[id].source == q.sourceId
                   && points[id].chunk.uri == d.uri && points[id].hash == ContentHash(d)
      ensures id in PointsOf(q, d.uri, d.content)
    {
      ScratchPoint(p, before, id);
      assert id in SourcePoints(points, p.sourceId);
      var origin :| origin in before && id in PointsOf(p, origin.uri, origin.content);
      PointsOfFacts(p, origin.uri, origin.content, id);
      assert origin.uri == d.uri && origin.content == d.content;
    }
  }

  // After a settings change (a new signature) the whole source is reprocessed, whatever changed with the
  // settings. Yet the index equals a from-scratch build exactly when every old chunk text of an unchanged
  // document is also one of its new ones: reconcile compares content hashes, so its other old chunks survive.
  lemma RechunkedIffOldTextsRemain(p: Pipeline, q: Pipeline, w: World, e: RunEvent, before: seq<Doc>)
    requires p.sourceId == q.sourceId && KnownIn(q, w) == map[]
    requires ValidSnapshot(before) && ValidSnapshot(e.snapshot) && WellFormed(w.points) && Succeeds(q, w, e)
    requires SourcePoints(w.points, p.sourceId) == Scratch(p, before)
    ensures SourcePoints(Step(q, w, e).points, q.sourceId) == Scratch(q, e.snapshot)
            <==> OldTextsRemain(p, q, before, e.snapshot)
  {
    RunRestoresScratchIff(q, w, e);
    if NoLeftover(q, w.points, e.snapshot) {
      NoLeftoverKeepsTexts(p, q, w.points, before, e.snapshot);
    }
    if OldTextsRemain(p, q, before, e.snapshot) {
      KeptTextsLeaveNoLeftover(p, q, w.points, before, e.snapshot);
    }
  }

  /* The same after any number of successful runs under the new settings. */

  // The document was listed with this content in the previous listing and in every run since.
  predicate Kept(before: seq<Doc>, events: seq<RunEvent>, d: Doc) {
    Unchanged(before, d) && forall i :: 0 <= i < |events| ==> Unchanged(events[i].snapshot, d)
  }

  // The point's document is listed, with the content the point is tagged with.
  predicate Listed(docs: seq<Doc>, point: Point) {
    exists d :: d in docs && d.uri == point.chunk.uri && ContentHash(d) == point.hash
  }

  predicate ListedThrough(events: seq<RunEvent>, point: Point) {
    forall i :: 0 <= i < |events| ==> Listed(events[i].snapshot, point)
  }

  // Points that stand under their ids and are no chunks of their content for this pipeline.
  predicate AllForeign(q: Pipeline, foreign: Points) {
    forall id :: id in foreign ==>
      && foreign[id].source == q.sourceId && id == IdOf(foreign[id].chunk) && OneLine(foreign[id].chunk.uri)
      && id !in PointsOf(q, foreign[id].chunk.uri, foreign[id].hash.preimage)
  }

  // One success keeps exactly the foreign points whose documents it lists unchanged.
  lemma ForeignAfterSuccess(q: Pipeline, body: Bodies, w: World, e: RunEvent, foreign: Points, id: string)
    requires Justified(body, KnownIn(q, w)) && Honest(body, e) && Succeeds(q, w, e) && AllForeign(q, foreign)
    ensures id in ForeignAfter(q, w, e, foreign) <==> id in foreign && Listed(e.snapshot, foreign[id])
  {
    HonestPending(q, body, w, e);
    if id in foreign {
      var point := foreign[id];
      if point.chunk.uri in Uris(e.snapshot) {
        var d :| d in e.snapshot && d.uri == point.chunk.uri;
      }
      if Listed(e.snapshot, point) && id in Added(q, w, e) {
        var d :| d in e.snapshot && d.uri == point.chunk.uri && ContentHash(d) == point.hash;
        var other := AddedIsOwn(q, body, w, e, id);
        OneLineUrisNeverShareIds(other.uri, d.uri, Added(q, w, e)[id].chunk.text, point.chunk.text);
        assert false;
      }
    }
  }

  lemma ListedThroughMore(events: seq<RunEvent>, point: Point)
    requires events != []
    ensures ListedThrough(events, point) <==> Listed(events[0].snapshot, point) && ListedThrough(events[1..], point)
  {
    assert forall i :: 1 <= i < |events| ==> events[i] == events[1..][i - 1];
    assert forall i :: 0 <= i < |events[1..]| ==> events[1..][i] == events[i + 1];
  }

  lemma {:induction false} ForeignOverSuccesses(q: Pipeline, body: Bodies, w: World, events: seq<RunEvent>,
                                                foreign: Points, id: string)
    requires Justified(body, KnownIn(q, w)) && forall i :: 0 <= i < |events| ==> Honest(body, events[i])
    requires AllSucceed(q, w, events) && AllForeign(q, foreign)
    ensures id in ForeignOver(q, w, events, foreign) <==> id in foreign && ListedThrough(events, foreign[id])
    decreases |events|
  {
    if events == [] {
    } else {
      var e, rest := events[0], events[1..];
      var after := ForeignAfter(q, w, e, foreign);
      ForeignAfterSuccess(q, body, w, e, foreign, id);
      StepStaysJustified(q, body, w, e);
      ForeignOverSuccesses(q, body, Step(q, w, e), rest, after, id);
      if id in foreign {
        ListedThroughMore(events, foreign[id]);
      }
    }
  }

  lemma {:induction false} NothingGetsLost(q: Pipeline, w: World, events: seq<RunEvent>)
    requires AllSucceed(q, w, events)
    ensures LostOver(q, w, events, {}) == {}
    decreases |events|
  {
    if events == [] {
    } else {
      assert LostAfter(q, w, events[0], {}) == {};
      NothingGetsLost(q, Step(q, w, events[0]), events[1..]);
    }
  }

  // What is foreign right after the settings changed: the old chunk texts that are no new ones.
  lemma ForeignAtChange(p: Pipeline, q: Pipeline, points: Points, before: seq<Doc>, id: string)
    requires p.sourceId == q.sourceId && ValidSnapshot(before) && WellFormed(points)
    requires SourcePoints(points, p.sourceId) == Scratch(p, before)
    ensures AllForeign(q, Foreign(q, points))
    ensures id in Foreign(q, points)
            <==> exists b :: b in before && id in PointsOf(p, b.uri, b.content) && id !in PointsOf(q, b.uri, b.content)
    ensures forall b :: b in before && id in PointsOf(p, b.uri, b.content) && id in Foreign(q, points) ==>
              Foreign(q, points)[id].chunk.uri == b.uri && Foreign(q, points)[id].hash == ContentHash(b)
  {
    ScratchPoint(p, before, id);
    assert id in SourcePoints(points, p.sourceId) <==> id in points && points[id].source == p.sourceId;
    forall b | b in before && id in PointsOf(p, b.uri, b.content)
      ensures points[id] == PointsOf(p, b.uri, b.content)[id]
      ensures points[id].chunk.uri == b.uri && points[id].hash == ContentHash(b) && points[id].source == q.sourceId
    {
      PointsOfFacts(p, b.uri, b.content, id);
      assert points[id] == SourcePoints(points, p.sourceId)[id];
    }
  }

  // Of the documents kept through all these runs, every chunk text under the old settings is also one now.
  predicate OldTextsRemainThrough(p: Pipeline, q: Pipeline, before: seq<Doc>, events: seq<RunEvent>)
    requires events != []
  {
    forall d, id :: d in events[|events| - 1].snapshot && Kept(before, events, d) && id in PointsOf(p, d.uri, d.content)
                    ==> id in PointsOf(q, d.uri, d.content)
  }

  lemma ForeignIffTextsGone(p: Pipeline, q: Pipeline, body: Bodies, w: World, events: seq<RunEvent>, before: seq<Doc>)
    requires p.sourceId == q.sourceId && KnownIn(q, w) == map[] && ValidSnapshot(before) && WellFormed(w.points)
    requires SourcePoints(w.points, p.sourceId) == Scratch(p, before)
    requires events != [] && AllSucceed(q, w, events) && forall i :: 0 <= i < |events| ==> Honest(body, events[i])
    ensures ForeignOver(q, w, events, Foreign(q, w.points)) == map[] <==> OldTextsRemainThrough(p, q, before, events)
  {
    var foreign, last := Foreign(q, w.points), events[|events| - 1].snapshot;
    ForeignAtChange(p, q, w.points, before, "");
    if ForeignOver(q, w, events, foreign) == map[] {
      forall d, id | d in last && Kept(before, events, d) && id in PointsOf(p, d.uri, d.content)
        ensures id in PointsOf(q, d.uri, d.content)
      {
        ForeignAtChange(p, q, w.points, before, id);
        ForeignOverSuccesses(q, body, w, events, foreign, id);
        var b :| b in before && b.uri == d.uri && b.content == d.content;
        KeptIsListedThrough(before, events, d);
      }
    } else {
      var id :| id in ForeignOver(q, w, events, foreign);
      ForeignAtChange(p, q, w.points, before, id);
      ForeignOverSuccesses(q, body, w, events, foreign, id);
      var b :| b in before && id in PointsOf(p, b.uri, b.content) && id !in PointsOf(q, b.uri, b.content);
      var d := ListedThroughIsKept(before, events, b, foreign[id]);
      assert !(id in PointsOf(q, d.uri, d.content));
    }
  }

  lemma KeptIsListedThrough(before: seq<Doc>, events: seq<RunEvent>, d: Doc)
    requires Kept(before, events, d)
    ensures forall point: Point :: point.chunk.uri == d.uri && point.hash == ContentHash(d) ==>
              ListedThrough(events, point)
  {
    forall point: Point, i | point.chunk.uri == d.uri && point.hash == ContentHash(d) && 0 <= i < |events|
      ensures Listed(events[i].snapshot, point)
    {
      assert Unchanged(events[i].snapshot, d);
      var b :| b in events[i].snapshot && b.uri == d.uri && b.content == d.content;
      assert ContentHash(b) == point.hash;
    }
  }

  lemma ListedThroughIsKept(before: seq<Doc>, events: seq<RunEvent>, b: Doc, point: Point) returns (d: Doc)
    requires events != [] && ListedThrough(events, point) && b in before
    requires point.chunk.uri == b.uri && point.hash == ContentHash(b)
    ensures d in events[|events| - 1].snapshot && Kept(before, events, d) && d.uri == b.uri && d.content == b.content
  {
    var last := |events| - 1;
    assert Listed(events[last].snapshot, point);
    d :| d in events[last].snapshot && d.uri == point.chunk.uri && ContentHash(d) == point.hash;
    forall i | 0 <= i < |events| ensures Unchanged(events[i].snapshot, d) {
      assert Listed(events[i].snapshot, point);
      var c :| c in events[i].snapshot && c.uri == point.chunk.uri && ContentHash(c) == point.hash;
      assert c.content == d.content;
    }
  }

  // After a settings change and any number of successful runs, the index equals a from-scratch build exactly
  // when every old chunk text of a document that kept its content through all of them is also one of its new ones.
  lemma RechunkedAfterRunsIff(p: Pipeline, q: Pipeline, body: Bodies, w: World, events: seq<RunEvent>, before: seq<Doc>)
    requires p.sourceId == q.sourceId && KnownIn(q, w) == map[] && ValidSnapshot(before) && WellFormed(w.points)
    requires SourcePoints(w.points, p.sourceId) == Scratch(p, before)
    requires events != [] && AllSucceed(q, w, events) && forall i :: 0 <= i < |events| ==> Honest(body, events[i])
    ensures SourcePoints(Replay(q, w, events).points, q.sourceId) == Scratch(q, events[|events| - 1].snapshot)
            <==> OldTextsRemainThrough(p, q, before, events)
  {
    assert Lost(q, w) == {};
    SuccessesNeverReturn(q, w, events);
    NothingGetsLost(q, w, events);
    ForeignIffTextsGone(p, q, body, w, events, before);
    RestoredIffNothingLostOrForeign(q, body, w, events);
  }

  // A run that fails after retagging a shared chunk, followed by a run that finds the document back at its
  // stored fingerprint: the document is skipped and the index misses the from-scratch build.
  lemma ReturningDocumentLosesSharedChunks(p: Pipeline, body: Bodies, w: World, failed: RunEvent, next: RunEvent,
                                           seen: Doc, back: Doc, id: string)
    requires Safe(p, body, w) && Honest(body, failed) && Honest(body, next)
    requires failed.fault.InReconcile? && seen in failed.snapshot && !Skips(KnownIn(p, w), failed.listing, seen)
    requires var after := Step(p, w, failed);
             Succeeds(p, after, next) && back in next.snapshot && Skips(KnownIn(p, after), next.listing, back)
    requires back.uri == seen.uri && back.content != seen.content
    requires id in PointsOf(p, seen.uri, seen.content) && id in PointsOf(p, back.uri, back.content)
    ensures SourcePoints(Step(p, Step(p, w, failed), next).points, p.sourceId) != Scratch(p, next.snapshot)
  {
    var after, changed := Step(p, w, failed), Changed(KnownIn(p, w), failed.listing, failed.snapshot);
    StepStaysSafe(p, body, w, failed);
    HonestPending(p, body, w, failed);
    ChangedMembers(KnownIn(p, w), failed.listing, failed.snapshot);
    AllItemsHave(p, changed, seen, id);
    UpsertsOverlay(p, w.points, PlanIn(p, w, failed).pending);
    assert after.points[id] == PointsOf(p, seen.uri, seen.content)[id];
    PointsOfFacts(p, seen.uri, seen.content, id);
    PointsOfFacts(p, back.uri, back.content, id);
    assert !Intact(p, after.points, back.uri, back.content);
    RecoversIffSkippedIntact(p, body, after, next);
  }

  // A pipeline that turns every body into one chunk with this text.
  function OneText(source: string, signature: string, text: string): Pipeline {
    Pipeline(source, signature, (uri, content) => map[], (uri, content) => [Piece(text, map[])], text => [])
  }

  function OneChunk(): Pipeline {
    OneText("s", "sig", "x")
  }

  function Body(): Bodies {
    (uri, fingerprint) => fingerprint
  }

  // A document "a" whose body and fingerprint are both `content`.
  function Version(content: string): Doc {
    Doc("a", content, content)
  }

  function TextPoint(source: string, text: string, content: string): Point {
    Point(source, Sha256(content), Chunk(text, "a", map[]), [])
  }

  function XPoint(content: string): Point {
    TextPoint("s", "x", content)
  }

  // What a first successful run leaves of version "1".
  function Settled(): World {
    World(map[PointId("a", "x") := XPoint("1")],
          map["s" := SourceState("sig", map["a" := DocEntry(Sha256("1"), Some("1"))])])
  }

  lemma OneTextPoints(source: string, signature: string, text: string, content: string)
    ensures PointsOf(OneText(source, signature, text), "a", content)
         == map[PointId("a", text) := TextPoint(source, text, content)]
    ensures IsChunkOfItsContent(OneText(source, signature, text), TextPoint(source, text, content))
  {
    var p := OneText(source, signature, text);
    var items := ItemsOf(p, "a", content);
    assert items == [Item(Chunk(text, "a", map[]), Sha256(content))];
    assert PointOf(p, items[0]) == TextPoint(source, text, content);
    assert UpsertAll(p, map[], items[..0]) == map[];
    assert UpsertAll(p, map[], items) == map[PointId("a", text) := TextPoint(source, text, content)];
  }

  lemma SettledIsSound()
    ensures Safe(OneChunk(), Body(), Settled()) && Clean(OneChunk(), Settled(), {})
    ensures KnownIn(OneChunk(), Settled()) == map["a" := DocEntry(Sha256("1"), Some("1"))]
  {
    OneTextPoints("s", "sig", "x", "1");
    assert Intact(OneChunk(), Settled().points, "a", "1");
  }

  const FAILED_RUN_EVENT := RunEvent([Version("2")], true, InReconcile)
  const NEXT_RUN_EVENT := RunEvent([Version("1")], true, NoFault)

  lemma ReconcileFaultStops(p: Pipeline, w: World, e: RunEvent)
    requires e.fault.InReconcile?
    ensures !Succeeds(p, w, e) && KnownIn(p, Step(p, w, e)) == KnownIn(p, w)
  {
  }

  lemma NoFaultSucceeds(p: Pipeline, w: World, e: RunEvent)
    requires e.fault.NoFault?
    ensures Succeeds(p, w, e)
  {
  }

  lemma WitnessIsHonest()
    ensures Honest(Body(), FAILED_RUN_EVENT) && Honest(Body(), NEXT_RUN_EVENT)
  {
  }

  lemma WitnessRuns()
    ensures !Succeeds(OneChunk(), Settled(), FAILED_RUN_EVENT)
    ensures Succeeds(OneChunk(), Step(OneChunk(), Settled(), FAILED_RUN_EVENT), NEXT_RUN_EVENT)
    ensures KnownIn(OneChunk(), Step(OneChunk(), Settled(), FAILED_RUN_EVENT)) == KnownIn(OneChunk(), Settled())
  {
    ReconcileFaultStops(OneChunk(), Settled(), FAILED_RUN_EVENT);
    NoFaultSucceeds(OneChunk(), Step(OneChunk(), Settled(), FAILED_RUN_EVENT), NEXT_RUN_EVENT);
  }

  // A witness: the run that sees version 2 fails after its upserts, the document returns to version 1, and
  // the next run succeeds without restoring it.
  lemma ReturningDocumentWitness()
    ensures !Succeeds(OneChunk(), Settled(), FAILED_RUN_EVENT)
    ensures var after := Step(OneChunk(), Settled(), FAILED_RUN_EVENT);
            && Succeeds(OneChunk(), after, NEXT_RUN_EVENT)
            && SourcePoints(Step(OneChunk(), after, NEXT_RUN_EVENT).points, "s") != Scratch(OneChunk(), [Version("1")])
  {
    SettledIsSound();
    WitnessIsHonest();
    WitnessRuns();
    OneTextPoints("s", "sig", "x", "1");
    OneTextPoints("s", "sig", "x", "2");
    assert Version("1") in NEXT_RUN_EVENT.snapshot && Version("2") in FAILED_RUN_EVENT.snapshot;
    ReturningDocumentLosesSharedChunks(OneChunk(), Body(), Settled(), FAILED_RUN_EVENT, NEXT_RUN_EVENT,
                                       Version("2"), Version("1"), PointId("a", "x"));
  }

  // The same source after its settings changed: another signature, and every body cut to "y".
  function Rechunked(): Pipeline {
    OneText("s", "sig2", "y")
  }

  lemma ScratchOfOne(p: Pipeline, d: Doc)
    requires OneLine(d.uri)
    ensures Scratch(p, [d]) == PointsOf(p, d.uri, d.content)
  {
    assert d in [d];
    forall id ensures id in Scratch(p, [d]) <==> id in PointsOf(p, d.uri, d.content) {
      ScratchPoint(p, [d], id);
    }
    forall id | id in Scratch(p, [d]) ensures Scratch(p, [d])[id] == PointsOf(p, d.uri, d.content)[id] {
      ScratchPoint(p, [d], id);
    }
  }

  lemma SettledIsScratch()
    ensures SourcePoints(Settled().points, "s") == Scratch(OneChunk(), [Version("1")])
  {
    OneTextPoints("s", "sig", "x", "1");
    ScratchOfOne(OneChunk(), Version("1"));
    assert SourcePoints(Settled().points, "s") == Settled().points;
  }

  lemma RechunkedTextsDiffer()
    ensures !OldTextsRemain(OneChunk(), Rechunked(), [Version("1")], [Version("1")])
  {
    var docs, id := [Version("1")], PointId("a", "x");
    OneTextPoints("s", "sig", "x", "1");
    OneTextPoints("s", "sig2", "y", "1");
    assert docs[0] in docs && Unchanged(docs, docs[0]);
    assert id != PointId("a", "y") by {
      assert id[2] == 'x';
    }
    assert id in PointsOf(OneChunk(), "a", "1") && id !in PointsOf(Rechunked(), "a", "1");
  }

  lemma RechunkedSetting()
    ensures KnownIn(Rechunked(), Settled()) == map[] && WellFormed(Settled().points)
    ensures ValidSnapshot(NEXT_RUN_EVENT.snapshot) && NEXT_RUN_EVENT.snapshot == [Version("1")]
  {
    SettledIsSound();
  }

  lemma TextsLost(p: Pipeline, q: Pipeline, w: World, e: RunEvent, before: seq<Doc>)
    requires p.sourceId == q.sourceId && KnownIn(q, w) == map[] && e.fault.NoFault?
    requires ValidSnapshot(before) && ValidSnapshot(e.snapshot) && WellFormed(w.points)
    requires SourcePoints(w.points, p.sourceId) == Scratch(p, before) && !OldTextsRemain(p, q, before, e.snapshot)
    ensures Succeeds(q, w, e) && SourcePoints(Step(q, w, e).points, q.sourceId) != Scratch(q, e.snapshot)
  {
    NoFaultSucceeds(q, w, e);
    RechunkedIffOldTextsRemain(p, q, w, e, before);
  }

  // A witness: nothing but the settings changed, the run succeeds, and the old chunk is still there.
  lemma RechunkedWitness()
    ensures Succeeds(Rechunked(), Settled(), NEXT_RUN_EVENT)
    ensures SourcePoints(Step(Rechunked(), Settled(), NEXT_RUN_EVENT).points, "s")
         != Scratch(Rechunked(), [Version("1")])
  {
    RechunkedSetting();
    SettledIsScratch();
    RechunkedTextsDiffer();
    TextsLost(OneChunk(), Rechunked(), Settled(), NEXT_RUN_EVENT, [Version("1")]);
  }

  // Tracking those two runs, without looking at the index, tells that a chunk is lost.
  lemma TrackedWitness()
    ensures LostOver(OneChunk(), Settled(), [FAILED_RUN_EVENT, NEXT_RUN_EVENT], Lost(OneChunk(), Settled())) != {}
  {
    SettledIsSound();
    WitnessIsHonest();
    ReturningDocumentWitness();
    TwoRuns(OneChunk(), Body(), Settled(), FAILED_RUN_EVENT, NEXT_RUN_EVENT);
  }

  lemma LostOverTwo(p: Pipeline, w: World, first: RunEvent, second: RunEvent, lost: set<Debt>)
    ensures LostOver(p, w, [first, second], lost)
         == LostAfter(p, Step(p, w, first), second, LostAfter(p, w, first, lost))
  {
    var events, after := [first, second], Step(p, w, first);
    assert events[1..] == [second] && [second][1..] == [];
    assert LostOver(p, after, [second], LostAfter(p, w, first, lost))
        == LostOver(p, Step(p, after, second), [], LostAfter(p, after, second, LostAfter(p, w, first, lost)));
  }

  lemma TwoRuns(p: Pipeline, body: Bodies, w: World, first: RunEvent, second: RunEvent)
    requires Safe(p, body, w) && Honest(body, first) && Honest(body, second) && Succeeds(p, Step(p, w, first), second)
    ensures SourcePoints(Step(p, Step(p, w, first), second).points, p.sourceId) == Scratch(p, second.snapshot)
            <==> LostOver(p, w, [first, second], Lost(p, w)) == {}
  {
    StepStaysSafe(p, body, w, first);
    StepTracksLost(p, body, w, first);
    StepTracksLost(p, body, Step(p, w, first), second);
    SuccessRestoresIff(p, body, Step(p, w, first), second);
    LostOverTwo(p, w, first, second, Lost(p, w));
  }
}
