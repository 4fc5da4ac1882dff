/** Bounded fan-out as a step system: tasks that take and return a shared permit around one call each
    (src/alvis/_concurrency.py). */
module FanOut {
  import opened Wrappers

  // A task has not started its call, is inside it, or has finished it with some outcome.
  datatype Task<R> = Waiting | Running | Done(outcome: Result<R, string>)

  // The tasks, the semaphore's free permits, and how often each item has been called.
  datatype Pool<R> = Pool(tasks: seq<Task<R>>, permits: int, calls: seq<nat>)

  // A task enters its call, or leaves it; any task that can move may be the next to do so.
  datatype Move = Start(task: nat) | Finish(task: nat)

  // What the call on each item comes to.
  type Call<R> = nat -> Result<R, string>

  function Initial<R>(n: nat, maxConcurrency: nat): Pool<R> {
    Pool(seq(n, _ => Waiting), maxConcurrency, seq(n, _ => 0))
  }

  predicate Enabled<R>(p: Pool<R>, m: Move) {
    m.task < |p.tasks| && |p.calls| == |p.tasks|
    && match m
       case Start(i) => p.tasks[i].Waiting? && p.permits > 0
       case Finish(i) => p.tasks[i].Running?
  }

  function Next<R>(p: Pool<R>, m: Move, call: Call<R>): Pool<R>
    requires Enabled(p, m)
  {
    match m
    case Start(i) => Pool(p.tasks[i := Running], p.permits - 1, p.calls[i := p.calls[i] + 1])
    case Finish(i) => Pool(p.tasks[i := Done(call(i))], p.permits + 1, p.calls)
  }

  // The pools a run goes through, from the initial one.
  ghost predicate IsRun<R>(pools: seq<Pool<R>>, moves: seq<Move>, n: nat, maxConcurrency: nat, call: Call<R>) {
    |pools| == |moves| + 1 && pools[0] == Initial(n, maxConcurrency)
    && forall s :: 0 <= s < |moves| ==> Enabled(pools[s], moves[s]) && pools[s + 1] == Next(pools[s], moves[s], call)
  }

  function CountRunning<R>(tasks: seq<Task<R>>): nat {
    if tasks == [] then 0 else CountRunning(tasks[..|tasks| - 1]) + if tasks[|tasks| - 1].Running? then 1 else 0
  }

  // Moves still to come: two for a waiting task, one for a running one.
  function MovesLeft<R>(tasks: seq<Task<R>>): nat {
    if tasks == [] then 0
    else MovesLeft(tasks[..|tasks| - 1])
         + match tasks[|tasks| - 1] case Waiting => 2 case Running => 1 case Done(_) => 0
  }

  function Weight<R>(t: Task<R>): nat {
    match t case Waiting => 2 case Running => 1 case Done(_) => 0
  }

  lemma {:induction false} CountsUpdate<R>(tasks: seq<Task<R>>, i: nat, t: Task<R>)
    requires i < |tasks|
    ensures CountRunning(tasks[i := t])
         == CountRunning(tasks) - (if tasks[i].Running? then 1 else 0) + (if t.Running? then 1 else 0)
    ensures MovesLeft(tasks[i := t]) == MovesLeft(tasks) - Weight(tasks[i]) + Weight(t)
  {
    var last := |tasks| - 1;
    if i < last {
      CountsUpdate(tasks[..last], i, t);
      assert tasks[i := t][..last] == tasks[..last][i := t];
    } else {
      assert tasks[i := t][..last] == tasks[..last];
    }
  }

  // Permits and calls in flight always add up, and each item has been called once as soon as it started.
  ghost predicate Balanced<R>(p: Pool<R>, n: nat, maxConcurrency: nat, call: Call<R>) {
    && |p.tasks| == |p.calls| == n
    && p.permits >= 0 && p.permits + CountRunning(p.tasks) == maxConcurrency
    && (forall i :: 0 <= i < n ==> p.calls[i] == if p.tasks[i].Waiting? then 0 else 1)
    && (forall i :: 0 <= i < n && p.tasks[i].Done? ==> p.tasks[i] == Done(call(i)))
  }

  lemma {:induction false} InitialCounts<R>(tasks: seq<Task<R>>)
    requires forall i :: 0 <= i < |tasks| ==> tasks[i].Waiting?
    ensures CountRunning(tasks) == 0 && MovesLeft(tasks) == 2 * |tasks|
  {
    if tasks == [] {
    } else {
      InitialCounts(tasks[..|tasks| - 1]);
    }
  }

  lemma NextStaysBalanced<R>(p: Pool<R>, m: Move, n: nat, maxConcurrency: nat, call: Call<R>)
    requires Balanced(p, n, maxConcurrency, call) && Enabled(p, m)
    ensures Balanced(Next(p, m, call), n, maxConcurrency, call)
    ensures MovesLeft(Next(p, m, call).tasks) == MovesLeft(p.tasks) - 1
  {
    CountsUpdate(p.tasks, m.task, Next(p, m, call).tasks[m.task]);
  }

  lemma {:induction false} RunStaysBalanced<R>(pools: seq<Pool<R>>, moves: seq<Move>, n: nat, maxConcurrency: nat,
                                               call: Call<R>, s: nat)
    requires IsRun(pools, moves, n, maxConcurrency, call) && s <= |moves|
    ensures Balanced(pools[s], n, maxConcurrency, call) && MovesLeft(pools[s].tasks) == 2 * n - s
  {
    if s == 0 {
      InitialCounts(pools[0].tasks);
    } else {
      RunStaysBalanced(pools, moves, n, maxConcurrency, call, s - 1);
      NextStaysBalanced(pools[s - 1], moves[s - 1], n, maxConcurrency, call);
    }
  }

  // Never more than max_concurrency calls in flight, in any interleaving, at any moment; and never more
  // than one call per item.
  lemma InFlightIsBounded<R>(pools: seq<Pool<R>>, moves: seq<Move>, n: nat, maxConcurrency: nat, call: Call<R>, s: nat)
    requires IsRun(pools, moves, n, maxConcurrency, call) && s <= |moves|
    ensures CountRunning(pools[s].tasks) <= maxConcurrency
    ensures |pools[s].calls| == n && forall i :: 0 <= i < n ==> pools[s].calls[i] <= 1
  {
    RunStaysBalanced(pools, moves, n, maxConcurrency, call, s);
  }

  predicate AllDone<R>(p: Pool<R>) {
    forall i :: 0 <= i < |p.tasks| ==> p.tasks[i].Done?
  }

  lemma {:induction false} NoneRunning<R>(tasks: seq<Task<R>>)
    ensures CountRunning(tasks) == 0 <==> forall i :: 0 <= i < |tasks| ==> !tasks[i].Running?
    ensures MovesLeft(tasks) == 0 <==> forall i :: 0 <= i < |tasks| ==> tasks[i].Done?
  {
    if tasks == [] {
    } else {
      NoneRunning(tasks[..|tasks| - 1]);
    }
  }

  // No deadlock: until every task is done, some task can move.
  lemma SomeTaskCanMove<R>(p: Pool<R>, n: nat, maxConcurrency: nat, call: Call<R>) returns (m: Move)
    requires Balanced(p, n, maxConcurrency, call) && maxConcurrency >= 1 && !AllDone(p)
    ensures Enabled(p, m)
  {
    if i :| 0 <= i < n && p.tasks[i].Running? {
      m := Finish(i);
    } else {
      NoneRunning(p.tasks);
      var i :| 0 <= i < n && !p.tasks[i].Done?;
      m := Start(i);
    }
  }

  // Every run that can go on does finish: a run is complete exactly after two moves per item, and then
  // each item has been called exactly once.
  lemma RunEndsAfterTwoMovesEach<R>(pools: seq<Pool<R>>, moves: seq<Move>, n: nat, maxConcurrency: nat, call: Call<R>)
    requires IsRun(pools, moves, n, maxConcurrency, call)
    ensures |moves| <= 2 * n
    ensures AllDone(pools[|moves|]) <==> |moves| == 2 * n
    ensures maxConcurrency >= 1 && (forall m :: !Enabled(pools[|moves|], m)) ==> |moves| == 2 * n
    ensures AllDone(pools[|moves|]) ==>
              |pools[|moves|].calls| == n && forall i :: 0 <= i < n ==> pools[|moves|].calls[i] == 1
  {
    RunStaysBalanced(pools, moves, n, maxConcurrency, call, |moves|);
    NoneRunning(pools[|moves|].tasks);
    if maxConcurrency >= 1 && !AllDone(pools[|moves|]) {
      var m := SomeTaskCanMove(pools[|moves|], n, maxConcurrency, call);
    }
  }

  // What gather returns once every task is done: all results in input order, or an error.
  function Gathered<R>(p: Pool<R>): Result<seq<R>, string>
    requires AllDone(p)
  {
    if exists i :: 0 <= i < |p.tasks| && p.tasks[i].outcome.Err? then Err("call failed")
    else Ok(seq(|p.tasks|, i requires 0 <= i < |p.tasks| => p.tasks[i].outcome.value))
  }

  // The values of n successful calls, in order.
  function Values<R>(n: nat, call: Call<R>): seq<R>
    requires forall i :: 0 <= i < n ==> call(i).Ok?
  {
    seq(n, i requires 0 <= i < n => call(i).value)
  }

  // The outcome does not depend on the interleaving: it is the list of results in input order when every
  // call succeeds, and an error exactly when some call fails.
  lemma GatherKeepsInputOrder<R>(pools: seq<Pool<R>>, moves: seq<Move>, n: nat, maxConcurrency: nat, call: Call<R>)
    requires IsRun(pools, moves, n, maxConcurrency, call) && AllDone(pools[|moves|])
    ensures Gathered(pools[|moves|]).Err? <==> exists i :: 0 <= i < n && call(i).Err?
    ensures (forall i :: 0 <= i < n ==> call(i).Ok?) ==> Gathered(pools[|moves|]) == Ok(Values(n, call))
  {
    RunStaysBalanced(pools, moves, n, maxConcurrency, call, |moves|);
    var p := pools[|moves|];
    forall i | 0 <= i < n ensures p.tasks[i].outcome == call(i) {
      assert p.tasks[i] == Done(call(i));
    }
    if forall i :: 0 <= i < n ==> call(i).Ok? {
      assert Gathered(p).value == Values(n, call);
    }
  }

  /* When the first failure surfaces. */

  // The first failing call of a run ends with this move.
  predicate FirstFailure<R>(moves: seq<Move>, s: nat, call: Call<R>)
    requires s < |moves|
  {
    && moves[s].Finish? && call(moves[s].task).Err?
    && forall r :: 0 <= r < s && moves[r].Finish? ==> call(moves[r].task).Ok?
  }

  // In every run, when the first call fails no other call is in flight any more.
  ghost predicate FailsAlone<R(!new)>(n: nat, maxConcurrency: nat, call: Call<R>) {
    forall pools: seq<Pool<R>>, moves: seq<Move>, s: nat ::
      IsRun(pools, moves, n, maxConcurrency, call) && s < |moves| && FirstFailure(moves, s, call)
      ==> CountRunning(pools[s + 1].tasks) == 0
  }

  lemma {:induction false} RunningAtMostOne<R>(tasks: seq<Task<R>>)
    requires |tasks| <= 1 && forall i :: 0 <= i < |tasks| ==> !tasks[i].Running?
    ensures CountRunning(tasks) == 0
  {
    NoneRunning(tasks);
  }

  lemma FinishLeavesNone<R>(pools: seq<Pool<R>>, moves: seq<Move>, n: nat, maxConcurrency: nat, call: Call<R>, s: nat)
    requires IsRun(pools, moves, n, maxConcurrency, call) && s < |moves| && moves[s].Finish?
    requires n <= 1 || maxConcurrency <= 1
    ensures CountRunning(pools[s + 1].tasks) == 0
  {
    var i := moves[s].task;
    RunStaysBalanced(pools, moves, n, maxConcurrency, call, s);
    RunStaysBalanced(pools, moves, n, maxConcurrency, call, s + 1);
    assert pools[s + 1] == Next(pools[s], moves[s], call);
    if n <= 1 {
      RunningAtMostOne(pools[s + 1].tasks);
    } else {
      CountsUpdate(pools[s].tasks, i, Done(call(i)));
    }
  }

  // Two calls start and the first one fails while the second is in flight.
  lemma FailureAmidstOthers<R>(n: nat, maxConcurrency: nat, call: Call<R>, i: nat, j: nat)
    returns (pools: seq<Pool<R>>, moves: seq<Move>)
    requires i < n && j < n && i != j && maxConcurrency >= 2 && call(i).Err?
    ensures IsRun(pools, moves, n, maxConcurrency, call) && |moves| == 3
    ensures FirstFailure(moves, 2, call) && |pools[3].tasks| == n && pools[3].tasks[j].Running?
            && CountRunning(pools[3].tasks) > 0
  {
    var start := Initial<R>(n, maxConcurrency);
    var one := Next(start, Start(i), call);
    var two := Next(one, Start(j), call);
    var three := Next(two, Finish(i), call);
    pools, moves := [start, one, two, three], [Start(i), Start(j), Finish(i)];
    NoneRunning(three.tasks);
  }

  // Exactly when a failure is only ever seen after the others in flight have finished: when no two calls can be
  // in flight together, or no call fails.
  lemma FailsAloneIff<R(!new)>(n: nat, maxConcurrency: nat, call: Call<R>)
    ensures FailsAlone(n, maxConcurrency, call)
            <==> n <= 1 || maxConcurrency <= 1 || forall i :: 0 <= i < n ==> call(i).Ok?
  {
    if n <= 1 || maxConcurrency <= 1 {
      forall pools: seq<Pool<R>>, moves: seq<Move>, s: nat
        | IsRun(pools, moves, n, maxConcurrency, call) && s < |moves| && FirstFailure(moves, s, call)
        ensures CountRunning(pools[s + 1].tasks) == 0
      {
        FinishLeavesNone(pools, moves, n, maxConcurrency, call, s);
      }
    } else if i :| 0 <= i < n && call(i).Err? {
      var pools, moves := FailureAmidstOthers(n, maxConcurrency, call, i, if i == 0 then 1 else 0);
      assert FirstFailure(moves, 2, call);
    } else {
      forall pools: seq<Pool<R>>, moves: seq<Move>, s: nat
        | IsRun(pools, moves, n, maxConcurrency, call) && s < |moves|
        ensures !FirstFailure(moves, s, call)
      {
        RunStaysBalanced(pools, moves, n, maxConcurrency, call, s);
        assert Enabled(pools[s], moves[s]);
      }
    }
  }
}
