/** Exact crash recovery: which chunks every run of a history loses or repairs, decided from the stored entries
    and the listings alone, and the exact condition for the index to be the from-scratch build again. */
module Recovery {
  import opened Models
  import opened MemoryIndexes
  import opened DocStores
  import opened RunPlans
  import opened PlanFacts
  import opened Ingestion
  import opened Histories

  // A chunk the stored entries stand for: the URI of its document and its point id.
  type Debt = (Uri, string)

  function Owed(p: Pipeline, known: map<Uri, DocEntry>): set<Debt> {
    set uri, id | uri in known && id in PointsOf(p, uri, known[uri].content.preimage) :: (uri, id)
  }

  function Expected(p: Pipeline, known: map<Uri, DocEntry>, d: Debt): Point
    requires d in Owed(p, known)
  {
    PointsOf(p, d.0, known[d.0].content.preimage)[d.1]
  }

  // The owed chunks whose points are missing from the index, or stand there with another document state.
  function Lost(p: Pipeline, w: World): set<Debt> {
    var known := KnownIn(p, w);
    set d | d in Owed(p, known) && !(d.1 in w.points && w.points[d.1] == Expected(p, known, d))
  }

  // How many chunks a failing run has written.
  function Written(plan: Plan, fault: Fault): (n: nat)
    ensures n <= |plan.pending|
  {
    match fault
    case InUpsert(done) => if done <= |plan.pending| then done else |plan.pending|
    case InReconcile => |plan.pending|
    case InCommit => |plan.pending|
    case _ => 0
  }

  // What becomes of an owed chunk in a run that fails: written over, pruned, or as before.
  predicate LostInFailure(p: Pipeline, known: map<Uri, DocEntry>, plan: Plan, fault: Fault, lost: set<Debt>, d: Debt)
    requires d in Owed(p, known)
  {
    var added := UpsertAll(p, map[], plan.pending[..Written(plan, fault)]);
    if d.1 in added then added[d.1] != Expected(p, known, d)
    else d in lost || (fault.InCommit? && (d.0 !in plan.current || plan.current[d.0] != known[d.0].content))
  }

  // The lost chunks after one more run. A success repairs all but those of the documents it skips. Nothing here
  // looks at the index.
  function LostAfter(p: Pipeline, w: World, e: RunEvent, lost: set<Debt>): set<Debt> {
    var known := KnownIn(p, w);
    if Succeeds(p, w, e) then set d | d in lost && d.0 in Uris(Skipped(known, e.listing, e.snapshot))
    else set d | d in Owed(p, known) && LostInFailure(p, known, PlanIn(p, w, e), e.fault, lost, d)
  }

  lemma ExpectedFacts(p: Pipeline, known: map<Uri, DocEntry>, d: Debt)
    requires d in Owed(p, known)
    ensures var point := Expected(p, known, d);
            point.source == p.sourceId && point.hash == known[d.0].content && point.chunk.uri == d.0
  {
    PointsOfFacts(p, d.0, known[d.0].content.preimage, d.1);
  }

  // The index after a failing run: the written chunks over the old points, pruned if the run got that far.
  lemma StoppedWrites(p: Pipeline, points: Points, plan: Plan, fault: Fault)
    ensures var both := points + UpsertAll(p, map[], plan.pending[..Written(plan, fault)]);
            StoppedPoints(p, points, plan, fault)
            == if fault.InCommit? then Pruned(both, p.sourceId, plan.current) else both
  {
    UpsertsOverlay(p, points, plan.pending[..Written(plan, fault)]);
    assert plan.pending[..|plan.pending|] == plan.pending;
    assert UpsertAll(p, map[], plan.pending[..0]) == map[];
    assert points + map[] == points;
  }

  // A chunk an honest run has written is current, so its own prune leaves it.
  lemma WrittenIsCurrent(p: Pipeline, body: Bodies, w: World, e: RunEvent, n: nat, id: string)
    requires Justified(body, KnownIn(p, w)) && Honest(body, e) && n <= |PlanIn(p, w, e).pending|
    requires id in UpsertAll(p, map[], PlanIn(p, w, e).pending[..n])
    ensures !IsStale(UpsertAll(p, map[], PlanIn(p, w, e).pending[..n])[id], p.sourceId, PlanIn(p, w, e).current)
  {
    var changed := Changed(KnownIn(p, w), e.listing, e.snapshot);
    HonestPending(p, body, w, e);
    ChangedMembers(KnownIn(p, w), e.listing, e.snapshot);
    var i := UpsertedFrom(p, PlanIn(p, w, e).pending[..n], id);
    var d, j := PendingFrom(p, changed, i);
  }

  lemma OneDebtAfterFailure(p: Pipeline, body: Bodies, w: World, e: RunEvent, d: Debt)
    requires Justified(body, KnownIn(p, w)) && Honest(body, e) && !Succeeds(p, w, e) && d in Owed(p, KnownIn(p, w))
    ensures d in Lost(p, Step(p, w, e)) <==> LostInFailure(p, KnownIn(p, w), PlanIn(p, w, e), e.fault, Lost(p, w), d)
  {
    var known, plan := KnownIn(p, w), PlanIn(p, w, e);
    var n := Written(plan, e.fault);
    assert KnownIn(p, Step(p, w, e)) == known;
    StoppedWrites(p, w.points, plan, e.fault);
    ExpectedFacts(p, known, d);
    if d.1 in UpsertAll(p, map[], plan.pending[..n]) {
      WrittenIsCurrent(p, body, w, e, n, d.1);
    }
  }

  lemma FailureTracksLost(p: Pipeline, body: Bodies, w: World, e: RunEvent)
    requires Justified(body, KnownIn(p, w)) && Honest(body, e) && !Succeeds(p, w, e)
    ensures Lost(p, Step(p, w, e)) == LostAfter(p, w, e, Lost(p, w))
  {
    var known := KnownIn(p, w);
    assert KnownIn(p, Step(p, w, e)) == known;
    forall d ensures d in Lost(p, Step(p, w, e)) <==> d in LostAfter(p, w, e, Lost(p, w)) {
      if d in Owed(p, known) {
        OneDebtAfterFailure(p, body, w, e, d);
      }
    }
  }

  // A changed document has all its points after a success.
  lemma ChangedIsRepaired(p: Pipeline, body: Bodies, w: World, e: RunEvent, doc: Doc, id: string)
    requires Justified(body, KnownIn(p, w)) && Honest(body, e) && Succeeds(p, w, e)
    requires doc in e.snapshot && !Skips(KnownIn(p, w), e.listing, doc) && id in PointsOf(p, doc.uri, doc.content)
    ensures id in Step(p, w, e).points && Step(p, w, e).points[id] == PointsOf(p, doc.uri, doc.content)[id]
  {
    HonestEntriesHold(p, body, w, e);
    ChangedMembers(KnownIn(p, w), e.listing, e.snapshot);
    AllItemsHave(p, Changed(KnownIn(p, w), e.listing, e.snapshot), doc, id);
    FinishedPoint(p, w, e, id);
    PointsOfFacts(p, doc.uri, doc.content, id);
  }

  // A skipped document has exactly the points after a success that it had before.
  lemma SkippedStaysAsItWas(p: Pipeline, body: Bodies, w: World, e: RunEvent, doc: Doc, id: string)
    requires Justified(body, KnownIn(p, w)) && Honest(body, e) && Succeeds(p, w, e)
    requires doc in e.snapshot && Skips(KnownIn(p, w), e.listing, doc) && id in PointsOf(p, doc.uri, doc.content)
    ensures (id in Step(p, w, e).points && Step(p, w, e).points[id] == PointsOf(p, doc.uri, doc.content)[id])
            <==> (id in w.points && w.points[id] == PointsOf(p, doc.uri, doc.content)[id])
  {
    var changed := Changed(KnownIn(p, w), e.listing, e.snapshot);
    HonestEntriesHold(p, body, w, e);
    ChangedMembers(KnownIn(p, w), e.listing, e.snapshot);
    FinishedPoint(p, w, e, id);
    PointsOfFacts(p, doc.uri, doc.content, id);
    if id in UpsertAll(p, map[], AllItems(p, changed)) {
      var other := AllItemsOrigin(p, changed, id);
      ApartPoints(p, doc.uri, doc.content, other.uri, other.content, id);
      assert false;
    }
  }

  // What is stored after a success, and what that makes the source owe.
  lemma StoredAfterSuccess(p: Pipeline, body: Bodies, w: World, e: RunEvent)
    requires Justified(body, KnownIn(p, w)) && Honest(body, e) && Succeeds(p, w, e)
    ensures KnownIn(p, Step(p, w, e)).Keys == Uris(e.snapshot)
    ensures forall doc :: doc in e.snapshot ==>
              doc.uri in KnownIn(p, Step(p, w, e)) && KnownIn(p, Step(p, w, e))[doc.uri].content == ContentHash(doc)
  {
    HonestEntriesHold(p, body, w, e);
    PlanClosedForm(p, KnownIn(p, w), e.listing, e.snapshot);
    forall doc | doc in e.snapshot ensures doc.uri in KnownIn(p, Step(p, w, e)) {
      assert doc.uri in Uris(e.snapshot);
    }
  }

  lemma SkippedByUri(known: map<Uri, DocEntry>, listing: bool, docs: seq<Doc>, doc: Doc)
    requires UniqueUris(docs) && doc in docs
    ensures doc.uri in Uris(Skipped(known, listing, docs)) <==> Skips(known, listing, doc)
  {
    ChangedMembers(known, listing, docs);
    if Skips(known, listing, doc) {
      assert doc in Skipped(known, listing, docs);
    }
  }

  lemma ListedDebtAfterSuccess(p: Pipeline, body: Bodies, w: World, e: RunEvent, doc: Doc, id: string)
    requires Justified(body, KnownIn(p, w)) && Honest(body, e) && Succeeds(p, w, e) && doc in e.snapshot
    ensures (doc.uri, id) in Lost(p, Step(p, w, e))
            <==> (doc.uri, id) in Lost(p, w) && Skips(KnownIn(p, w), e.listing, doc)
  {
    StoredAfterSuccess(p, body, w, e);
    HonestEntriesHold(p, body, w, e);
    if id in PointsOf(p, doc.uri, doc.content) {
      if Skips(KnownIn(p, w), e.listing, doc) {
        SkippedStaysAsItWas(p, body, w, e, doc, id);
      } else {
        ChangedIsRepaired(p, body, w, e, doc, id);
      }
    }
  }

  lemma OneDebtAfterSuccess(p: Pipeline, body: Bodies, w: World, e: RunEvent, d: Debt)
    requires Justified(body, KnownIn(p, w)) && Honest(body, e) && Succeeds(p, w, e)
    ensures d in Lost(p, Step(p, w, e))
            <==> d in Lost(p, w) && d.0 in Uris(Skipped(KnownIn(p, w), e.listing, e.snapshot))
  {
    var known := KnownIn(p, w);
    if d.0 in Uris(e.snapshot) {
      var doc :| doc in e.snapshot && doc.uri == d.0;
      SkippedByUri(known, e.listing, e.snapshot, doc);
      ListedDebtAfterSuccess(p, body, w, e, doc, d.1);
    } else {
      StoredAfterSuccess(p, body, w, e);
      ChangedMembers(known, e.listing, e.snapshot);
    }
  }

  // One run, failed or not, changes what is lost exactly as tracked.
  lemma StepTracksLost(p: Pipeline, body: Bodies, w: World, e: RunEvent)
    requires Justified(body, KnownIn(p, w)) && Honest(body, e)
    ensures Lost(p, Step(p, w, e)) == LostAfter(p, w, e, Lost(p, w))
  {
    if Succeeds(p, w, e) {
      forall d ensures d in Lost(p, Step(p, w, e)) <==> d in LostAfter(p, w, e, Lost(p, w)) {
        OneDebtAfterSuccess(p, body, w, e, d);
      }
    } else {
      FailureTracksLost(p, body, w, e);
    }
  }

  function LostOver(p: Pipeline, w: World, events: seq<RunEvent>, lost: set<Debt>): set<Debt>
    decreases |events|
  {
    if events == [] then lost else LostOver(p, Step(p, w, events[0]), events[1..], LostAfter(p, w, events[0], lost))
  }

  // Tracking never looks at the index: it comes out the same whatever points the index holds.
  lemma {:induction false} TrackingIgnoresPoints(p: Pipeline, v: World, w: World, events: seq<RunEvent>,
                                                 lost: set<Debt>)
    requires v.sources == w.sources
    ensures LostOver(p, v, events, lost) == LostOver(p, w, events, lost)
    decreases |events|
  {
    if events == [] {
    } else {
      var e := events[0];
      TrackingIgnoresPoints(p, Step(p, v, e), Step(p, w, e), events[1..], LostAfter(p, w, e, lost));
    }
  }

  // After any history exactly the tracked chunks are lost.
  lemma {:induction false} HistoryTracksLost(p: Pipeline, body: Bodies, w: World, events: seq<RunEvent>)
    requires Justified(body, KnownIn(p, w)) && forall i :: 0 <= i < |events| ==> Honest(body, events[i])
    ensures Lost(p, Replay(p, w, events)) == LostOver(p, w, events, Lost(p, w))
    decreases |events|
  {
    if events == [] {
    } else {
      StepTracksLost(p, body, w, events[0]);
      StepStaysJustified(p, body, w, events[0]);
      HistoryTracksLost(p, body, Step(p, w, events[0]), events[1..]);
    }
  }

  // A success leaves nothing lost exactly when each document it skipped had kept all its points.
  lemma NothingLostIffSkippedIntact(p: Pipeline, body: Bodies, w: World, e: RunEvent)
    requires Justified(body, KnownIn(p, w)) && Honest(body, e) && Succeeds(p, w, e)
    ensures Lost(p, Step(p, w, e)) == {}
            <==> forall d :: d in e.snapshot && Skips(KnownIn(p, w), e.listing, d) ==>
                   Intact(p, w.points, d.uri, d.content)
  {
    var known := KnownIn(p, w);
    StepTracksLost(p, body, w, e);
    HonestEntriesHold(p, body, w, e);
    ChangedMembers(known, e.listing, e.snapshot);
    if Lost(p, Step(p, w, e)) == {} {
      forall doc | doc in e.snapshot && Skips(known, e.listing, doc)
        ensures Intact(p, w.points, doc.uri, doc.content)
      {
        forall id | id in PointsOf(p, doc.uri, doc.content)
          ensures id in w.points && w.points[id] == PointsOf(p, doc.uri, doc.content)[id]
        {
          assert doc in Skipped(known, e.listing, e.snapshot);
          assert (doc.uri, id) in Owed(p, known) && (doc.uri, id) !in LostAfter(p, w, e, Lost(p, w));
        }
      }
    } else {
      var d :| d in Lost(p, Step(p, w, e));
      var doc :| doc in Skipped(known, e.listing, e.snapshot) && doc.uri == d.0;
      assert !Intact(p, w.points, doc.uri, doc.content);
    }
  }

  // A success restores the from-scratch index exactly when it leaves nothing lost.
  lemma SuccessRestoresIff(p: Pipeline, body: Bodies, w: World, e: RunEvent)
    requires Safe(p, body, w) && Honest(body, e) && Succeeds(p, w, e)
    ensures SourcePoints(Step(p, w, e).points, p.sourceId) == Scratch(p, e.snapshot) <==> Lost(p, Step(p, w, e)) == {}
  {
    RecoversIffSkippedIntact(p, body, w, e);
    NothingLostIffSkippedIntact(p, body, w, e);
  }

  // Exact recovery: after any history of failed and successful runs that ends with a success, the index is the
  // from-scratch build of the last snapshot if and only if tracking the history leaves no chunk lost.
  lemma RecoversIffNothingLost(p: Pipeline, body: Bodies, w: World, events: seq<RunEvent>)
    requires Safe(p, body, w) && forall i :: 0 <= i < |events| ==> Honest(body, events[i])
    requires events != [] && LastSucceeds(p, w, events)
    ensures SourcePoints(Replay(p, w, events).points, p.sourceId) == Scratch(p, events[|events| - 1].snapshot)
            <==> LostOver(p, w, events, Lost(p, w)) == {}
  {
    var earlier, last := events[..|events| - 1], events[|events| - 1];
    HistoryTracksLost(p, body, w, events);
    assert events == earlier + [last];
    ReplayMore(p, w, earlier, last);
    SucceedsLast(p, w, earlier, last);
    EveryStateIsSafe(p, body, w, earlier);
    SuccessRestoresIff(p, body, Replay(p, w, earlier), last);
  }

  // A source nothing is stored about has nothing to lose, so its tracking starts with nothing lost.
  lemma RecoversFromNothingIff(p: Pipeline, body: Bodies, w: World, events: seq<RunEvent>)
    requires WellFormed(w.points) && Authentic(p, w.points) && KnownIn(p, w) == map[]
    requires forall i :: 0 <= i < |events| ==> Honest(body, events[i])
    requires events != [] && LastSucceeds(p, w, events)
    ensures SourcePoints(Replay(p, w, events).points, p.sourceId) == Scratch(p, events[|events| - 1].snapshot)
            <==> LostOver(p, w, events, {}) == {}
  {
    assert Lost(p, w) == {};
    RecoversIffNothingLost(p, body, w, events);
  }
}
