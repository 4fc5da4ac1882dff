/** Several pipelines writing one index: when their writes and prunes leave each other's points alone, and what
    whole interleaved histories of runs, failed ones included, come to. */
module Isolation {
  import opened Models
  import opened MemoryIndexes
  import opened RunPlans
  import opened Ingestion
  import opened Histories
  import opened Recovery

  // One atomic change of the index, by one source.
  datatype Action =
    | Write(point: Point)
    | Prune(source: string, current: map<Uri, Digest>)
  {
    function Actor(): string {
      if Write? then point.source else source
    }
  }

  function Apply(points: Points, a: Action): Points {
    match a
    case Write(point) => points[IdOf(point.chunk) := point]
    case Prune(source, current) => Pruned(points, source, current)
  }

  function Execute(points: Points, trace: seq<Action>): Points {
    if trace == [] then points else Apply(Execute(points, trace[..|trace| - 1]), trace[|trace| - 1])
  }

  // The actions of one source, in order.
  function By(source: string, trace: seq<Action>): seq<Action> {
    if trace == [] then []
    else
      var rest, last := By(source, trace[..|trace| - 1]), trace[|trace| - 1];
      if last.Actor() == source then rest + [last] else rest
  }

  // The index after the first k actions.
  function At(points: Points, trace: seq<Action>, k: nat): Points
    requires k <= |trace|
  {
    Execute(points, trace[..k])
  }

  // The source's own points if only its own actions among the first k had happened.
  function Alone(points: Points, trace: seq<Action>, source: string, k: nat): Points
    requires k <= |trace|
  {
    Execute(SourcePoints(points, source), By(source, trace[..k]))
  }

  // Another source writes over a point that this one holds: same URI and same text.
  predicate Takes(points: Points, a: Action, source: string) {
    && a.Write? && a.point.source != source
    && IdOf(a.point.chunk) in points && points[IdOf(a.point.chunk)].source == source
  }

  predicate Untaken(points: Points, trace: seq<Action>, source: string) {
    forall k :: 0 <= k < |trace| ==> !Takes(At(points, trace, k), trace[k], source)
  }

  // At every moment the source has exactly the points it would have alone.
  predicate Undisturbed(points: Points, trace: seq<Action>, source: string) {
    forall k :: 0 <= k <= |trace| ==> SourcePoints(At(points, trace, k), source) == Alone(points, trace, source, k)
  }

  lemma WriteIsLocalIff(points: Points, point: Point, source: string)
    ensures SourcePoints(points[IdOf(point.chunk) := point], source)
            == (if point.source == source then SourcePoints(points, source)[IdOf(point.chunk) := point]
                else SourcePoints(points, source))
            <==> !Takes(points, Write(point), source)
  {
    var id, before := IdOf(point.chunk), SourcePoints(points, source);
    var after := SourcePoints(points[id := point], source);
    if Takes(points, Write(point), source) {
      assert id in before && id !in after;
    }
  }

  lemma PruneIsLocal(points: Points, actor: string, current: map<Uri, Digest>, source: string)
    ensures SourcePoints(Pruned(points, actor, current), source)
         == if actor == source then Pruned(SourcePoints(points, source), actor, current)
            else SourcePoints(points, source)
  {
    if actor == source {
      assert SourcePoints(Pruned(points, source, current), source)
          == Pruned(SourcePoints(points, source), source, current);
    } else {
      assert SourcePoints(Pruned(points, actor, current), source) == SourcePoints(points, source);
    }
  }

  // Exactly when an action affects a source's points just as far as it is the source's own.
  lemma ActionIsLocalIff(points: Points, a: Action, source: string)
    ensures SourcePoints(Apply(points, a), source)
            == (if a.Actor() == source then Apply(SourcePoints(points, source), a) else SourcePoints(points, source))
            <==> !Takes(points, a, source)
  {
    match a
    case Write(point) => WriteIsLocalIff(points, point, source);
    case Prune(actor, current) => PruneIsLocal(points, actor, current, source);
  }

  // One more action: as alone before, it is as alone after exactly when the action takes nothing.
  lemma NextIsAloneIff(points: Points, trace: seq<Action>, source: string, k: nat)
    requires k < |trace| && SourcePoints(At(points, trace, k), source) == Alone(points, trace, source, k)
    ensures SourcePoints(At(points, trace, k + 1), source) == Alone(points, trace, source, k + 1)
            <==> !Takes(At(points, trace, k), trace[k], source)
  {
    var mine := By(source, trace[..k]);
    assert trace[..k + 1][..k] == trace[..k];
    assert (mine + [trace[k]])[..|mine|] == mine;
    ActionIsLocalIff(At(points, trace, k), trace[k], source);
  }

  lemma {:induction false} UntakenIsAlone(points: Points, trace: seq<Action>, source: string, k: nat)
    requires Untaken(points, trace, source) && k <= |trace|
    ensures SourcePoints(At(points, trace, k), source) == Alone(points, trace, source, k)
  {
    if k == 0 {
    } else {
      UntakenIsAlone(points, trace, source, k - 1);
      NextIsAloneIff(points, trace, source, k - 1);
    }
  }

  // Exactly when an interleaving is invisible to a source at every moment: when no other source ever writes
  // over one of its points.
  lemma InterleavingIsInvisibleIff(points: Points, trace: seq<Action>, source: string)
    ensures Undisturbed(points, trace, source) <==> Untaken(points, trace, source)
  {
    if Untaken(points, trace, source) {
      forall k | 0 <= k <= |trace|
        ensures SourcePoints(At(points, trace, k), source) == Alone(points, trace, source, k)
      {
        UntakenIsAlone(points, trace, source, k);
      }
    }
    if Undisturbed(points, trace, source) {
      forall k | 0 <= k < |trace| ensures !Takes(At(points, trace, k), trace[k], source) {
        assert SourcePoints(At(points, trace, k + 1), source) == Alone(points, trace, source, k + 1);
        NextIsAloneIff(points, trace, source, k);
      }
    }
  }

  lemma InterleavingIsInvisible(points: Points, trace: seq<Action>, source: string)
    requires Untaken(points, trace, source)
    ensures SourcePoints(Execute(points, trace), source) == Execute(SourcePoints(points, source), By(source, trace))
  {
    UntakenIsAlone(points, trace, source, |trace|);
    assert trace[..|trace|] == trace;
  }

  /* Sources whose URIs are disjoint never take each other's points. */

  // Each URI belongs to one source; all URIs are single lines.
  type Owner = Uri -> string

  predicate Owned(owner: Owner, points: Points) {
    WellFormed(points) && forall id :: id in points ==> owner(points[id].chunk.uri) == points[id].source
  }

  predicate Respects(owner: Owner, a: Action) {
    a.Write? ==> OneLine(a.point.chunk.uri) && owner(a.point.chunk.uri) == a.point.source
  }

  lemma ActionStaysOwned(owner: Owner, points: Points, a: Action)
    requires Owned(owner, points) && Respects(owner, a)
    ensures Owned(owner, Apply(points, a))
  {
  }

  lemma {:induction false} ExecuteStaysOwned(owner: Owner, points: Points, trace: seq<Action>)
    requires Owned(owner, points) && forall i :: 0 <= i < |trace| ==> Respects(owner, trace[i])
    ensures Owned(owner, Execute(points, trace))
  {
    if trace == [] {
    } else {
      ExecuteStaysOwned(owner, points, trace[..|trace| - 1]);
      ActionStaysOwned(owner, Execute(points, trace[..|trace| - 1]), trace[|trace| - 1]);
    }
  }

  lemma OwnersNeverTake(owner: Owner, points: Points, trace: seq<Action>, source: string)
    requires Owned(owner, points) && forall i :: 0 <= i < |trace| ==> Respects(owner, trace[i])
    ensures Untaken(points, trace, source)
  {
    forall k | 0 <= k < |trace| ensures !Takes(At(points, trace, k), trace[k], source) {
      var now := At(points, trace, k);
      ExecuteStaysOwned(owner, points, trace[..k]);
      if trace[k].Write? && IdOf(trace[k].point.chunk) in now {
        var held, written := now[IdOf(trace[k].point.chunk)].chunk, trace[k].point.chunk;
        OneLineUrisNeverShareIds(held.uri, written.uri, held.text, written.text);
      }
    }
  }

  /* Two sources that list the same document. */

  function Held(source: string): Point {
    Point(source, Sha256("body"), Chunk("text", "uri", map[]), [])
  }

  // Distinct source identities do not keep two sources apart: the second writes the chunk the first one holds,
  // later prunes it, and the first source's point is gone though it did nothing.
  lemma DistinctSourcesDisturb(first: string, second: string)
    requires first != second
    ensures var points, trace :=
              map[IdOf(Held(first).chunk) := Held(first)], [Write(Held(second)), Prune(second, map[])];
            && By(first, trace) == [] && SourcePoints(points, first) == points
            && Execute(points, trace) == map[]
  {
    var id := IdOf(Held(first).chunk);
    var points, trace := map[id := Held(first)], [Write(Held(second)), Prune(second, map[])];
    assert trace[..1] == [Write(Held(second))] && trace[..1][..0] == [];
    assert Execute(points, trace[..1][..0]) == points;
    assert Execute(points, trace[..1]) == map[id := Held(second)];
    assert Execute(points, trace) == Pruned(map[id := Held(second)], second, map[]);
    assert By(first, trace[..1]) == By(first, []) == [];
  }

  /* Runs as actions. */

  function Writes(p: Pipeline, items: seq<Item>): (writes: seq<Action>)
    ensures |writes| == |items|
  {
    seq(|items|, i requires 0 <= i < |items| => Write(PointOf(p, items[i])))
  }

  // The actions of one run that reaches its end: its upserts in order, then its reconcile.
  function RunActions(p: Pipeline, plan: Plan): seq<Action> {
    Writes(p, plan.pending) + [Prune(p.sourceId, plan.current)]
  }

  // What a run does to the index, wherever it stops.
  function StepActions(p: Pipeline, w: World, e: RunEvent): seq<Action> {
    var plan := PlanIn(p, w, e);
    if Succeeds(p, w, e) then RunActions(p, plan)
    else match e.fault
      case InUpsert(done) => Writes(p, if done <= |plan.pending| then plan.pending[..done] else plan.pending)
      case InReconcile => Writes(p, plan.pending)
      case InCommit => RunActions(p, plan)
      case _ => []
  }

  function HistoryActions(p: Pipeline, w: World, events: seq<RunEvent>): seq<Action>
    decreases |events|
  {
    if events == [] then []
    else StepActions(p, w, events[0]) + HistoryActions(p, Step(p, w, events[0]), events[1..])
  }

  lemma {:induction false} WritesAreUpserts(p: Pipeline, points: Points, items: seq<Item>)
    ensures Execute(points, Writes(p, items)) == UpsertAll(p, points, items)
  {
    if items == [] {
    } else {
      WritesAreUpserts(p, points, items[..|items| - 1]);
      assert Writes(p, items)[..|items| - 1] == Writes(p, items[..|items| - 1]);
    }
  }

  lemma RunActionsAreTheRun(p: Pipeline, points: Points, plan: Plan)
    ensures Execute(points, RunActions(p, plan)) == FinishedPoints(p, points, plan)
  {
    var actions := RunActions(p, plan);
    WritesAreUpserts(p, points, plan.pending);
    assert actions[..|actions| - 1] == Writes(p, plan.pending);
  }

  lemma StepActionsAreTheStep(p: Pipeline, w: World, e: RunEvent)
    ensures Execute(w.points, StepActions(p, w, e)) == Step(p, w, e).points
  {
    var plan := PlanIn(p, w, e);
    RunActionsAreTheRun(p, w.points, plan);
    WritesAreUpserts(p, w.points, plan.pending);
    if e.fault.InUpsert? && e.fault.done <= |plan.pending| {
      WritesAreUpserts(p, w.points, plan.pending[..e.fault.done]);
    }
  }

  lemma {:induction false} ExecuteConcat(points: Points, a: seq<Action>, b: seq<Action>)
    ensures Execute(points, a + b) == Execute(Execute(points, a), b)
  {
    if b == [] {
      assert a + b == a;
    } else {
      ExecuteConcat(points, a, b[..|b| - 1]);
      assert (a + b)[..|a + b| - 1] == a + b[..|b| - 1];
    }
  }

  lemma {:induction false} HistoryActionsAreTheReplay(p: Pipeline, w: World, events: seq<RunEvent>)
    ensures Execute(w.points, HistoryActions(p, w, events)) == Replay(p, w, events).points
    decreases |events|
  {
    if events == [] {
    } else {
      var after := Step(p, w, events[0]);
      StepActionsAreTheStep(p, w, events[0]);
      HistoryActionsAreTheReplay(p, after, events[1..]);
      ExecuteConcat(w.points, StepActions(p, w, events[0]), HistoryActions(p, after, events[1..]));
    }
  }

  predicate AllBy(source: string, trace: seq<Action>) {
    forall i :: 0 <= i < |trace| ==> trace[i].Actor() == source
  }

  // A run is a prefix of its writes, and perhaps its prune.
  lemma StepActionsShape(p: Pipeline, w: World, e: RunEvent) returns (done: nat)
    ensures done <= |PlanIn(p, w, e).pending|
    ensures var plan := PlanIn(p, w, e);
            var writes := Writes(p, plan.pending[..done]);
            StepActions(p, w, e) == writes || StepActions(p, w, e) == writes + [Prune(p.sourceId, plan.current)]
  {
    var plan := PlanIn(p, w, e);
    done := if Succeeds(p, w, e) then |plan.pending| else Written(plan, e.fault);
    assert plan.pending[..|plan.pending|] == plan.pending;
  }

  lemma StepActionsAreOwn(p: Pipeline, w: World, e: RunEvent)
    ensures AllBy(p.sourceId, StepActions(p, w, e))
  {
    var done := StepActionsShape(p, w, e);
    assert AllBy(p.sourceId, Writes(p, PlanIn(p, w, e).pending[..done]));
  }

  lemma {:induction false} HistoryActionsAreOwn(p: Pipeline, w: World, events: seq<RunEvent>)
    ensures AllBy(p.sourceId, HistoryActions(p, w, events))
    decreases |events|
  {
    if events == [] {
    } else {
      StepActionsAreOwn(p, w, events[0]);
      HistoryActionsAreOwn(p, Step(p, w, events[0]), events[1..]);
    }
  }

  lemma {:induction false} ActionsBySource(source: string, trace: seq<Action>)
    requires AllBy(source, trace)
    ensures By(source, trace) == trace
  {
    if trace == [] {
    } else {
      ActionsBySource(source, trace[..|trace| - 1]);
    }
  }

  // A source acting alone on the whole index changes its own points as if nothing else were there.
  lemma OwnActionsAlone(points: Points, trace: seq<Action>, source: string)
    requires AllBy(source, trace)
    ensures SourcePoints(Execute(points, trace), source) == Execute(SourcePoints(points, source), trace)
  {
    ActionsBySource(source, trace);
    InterleavingIsInvisible(points, trace, source);
  }

  // Whatever else happens to the index in between, the source's own actions, in order, have the effect of
  // its run alone.
  lemma InterleavedLikeAlone(p: Pipeline, points: Points, plan: Plan, trace: seq<Action>)
    requires Untaken(points, trace, p.sourceId) && By(p.sourceId, trace) == RunActions(p, plan)
    ensures SourcePoints(Execute(points, trace), p.sourceId)
         == SourcePoints(FinishedPoints(p, points, plan), p.sourceId)
  {
    InterleavingIsInvisible(points, trace, p.sourceId);
    OwnActionsAlone(points, RunActions(p, plan), p.sourceId);
    RunActionsAreTheRun(p, points, plan);
  }

  // A pipeline that runs to success while other sources act on the same index ends with its from-scratch
  // points, exactly as if it had run alone.
  lemma ConcurrentRunRestoresScratch(p: Pipeline, body: Bodies, w: World, e: RunEvent, trace: seq<Action>)
    requires Untaken(w.points, trace, p.sourceId) && By(p.sourceId, trace) == RunActions(p, PlanIn(p, w, e))
    requires Safe(p, body, w) && Honest(body, e) && Succeeds(p, w, e) && Clean(p, w, {})
    ensures SourcePoints(Execute(w.points, trace), p.sourceId) == SourcePoints(Step(p, w, e).points, p.sourceId)
    ensures SourcePoints(Execute(w.points, trace), p.sourceId) == Scratch(p, e.snapshot)
  {
    InterleavedLikeAlone(p, w.points, PlanIn(p, w, e), trace);
    SuccessRestores(p, body, w, e, {});
  }

  // A whole history of runs, crashed ones included, interleaved in any way with the actions of other sources,
  // leaves the source the points its history alone would leave.
  lemma InterleavedHistoryLikeAlone(p: Pipeline, w: World, events: seq<RunEvent>, trace: seq<Action>)
    requires Untaken(w.points, trace, p.sourceId) && By(p.sourceId, trace) == HistoryActions(p, w, events)
    ensures SourcePoints(Execute(w.points, trace), p.sourceId) == SourcePoints(Replay(p, w, events).points, p.sourceId)
  {
    InterleavingIsInvisible(w.points, trace, p.sourceId);
    HistoryActionsAreOwn(p, w, events);
    OwnActionsAlone(w.points, HistoryActions(p, w, events), p.sourceId);
    HistoryActionsAreTheReplay(p, w, events);
  }

  // So crash recovery is exact among other sources too.
  lemma InterleavedHistoryRecoversIff(p: Pipeline, body: Bodies, w: World, events: seq<RunEvent>, trace: seq<Action>)
    requires Untaken(w.points, trace, p.sourceId) && By(p.sourceId, trace) == HistoryActions(p, w, events)
    requires Safe(p, body, w) && forall i :: 0 <= i < |events| ==> Honest(body, events[i])
    requires events != [] && LastSucceeds(p, w, events)
    ensures SourcePoints(Execute(w.points, trace), p.sourceId) == Scratch(p, events[|events| - 1].snapshot)
            <==> LostOver(p, w, events, Lost(p, w)) == {}
  {
    InterleavedHistoryLikeAlone(p, w, events, trace);
    RecoversIffNothingLost(p, body, w, events);
  }
}
