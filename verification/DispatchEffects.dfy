/**
 * What each callback of the dispatcher does, told by the queues and the workers' fields alone, for every
 * state a run can reach: who is served, who goes, who comes, and how many processes are forked.
 */
module DispatchEffects {
  import opened Seqs
  import opened DispatchModel
  import opened DispatchSafety
  import opened DispatchRuns
  import opened DispatchTheorems

  // ----- how many processes are forked -----

  /** The `n`-th fork that `forks` foretells succeeds. */
  predicate Forks(forks: seq<int>, n: nat) {
    n < |forks| && forks[n] > 0
  }

  /**
   * Processes are made up for: `b` has the pids of `n` forks behind the pending ones of `a`, none if the
   * minimum was reached before, and afterwards it is reached, or another fork is not possible: the pending
   * queue is full, too many processes came late, or fork() fails.
   */
  ghost predicate MadeUp(c: Config, a: App, forks: seq<int>, b: App) {
    exists n :: 0 <= n <= |forks| && ForkedUp(c, a, forks, n, b)
  }

  ghost predicate ForkedUp(c: Config, a: App, forks: seq<int>, n: nat, b: App)
    requires n <= |forks|
  {
    && b.pending == a.pending + forks[..n] && (forall i :: 0 <= i < n ==> Forks(forks, i))
    && (n > 0 ==> |a.pending| + |a.workers| + n <= a.conf.min && |b.pending| <= c.maxPending && a.timeouts < c.addTrials)
    && (|b.pending| + |a.workers| >= a.conf.min
        || |b.pending| >= c.maxPending || a.timeouts >= c.addTrials || !Forks(forks, n))
  }

  lemma {:induction false} FillMakesUp(c: Config, a: App, forks: seq<int>)
    ensures var b := Fill(c, a, forks); MadeUp(c, a, forks, b) && b == a.(pending := b.pending)
    decreases |forks|
  {
    if Total(a) < a.conf.min && Spawn(c, a, forks).1 {
      var d, t := Spawn(c, a, forks).0, forks[1..];
      FillMakesUp(c, d, t);
      var b := Fill(c, a, forks);
      var n :| 0 <= n <= |t| && ForkedUp(c, d, t, n, b);
      assert forks[..n + 1] == [forks[0]] + t[..n];
      forall i | 0 <= i < n + 1 ensures Forks(forks, i) {
        if i > 0 { assert Forks(t, i - 1); }
      }
      assert ForkedUp(c, a, forks, n + 1, b);
    } else {
      assert a.pending == a.pending + forks[..0];
      assert ForkedUp(c, a, forks, 0, a);
    }
  }

  /** The pool of `a` has been balanced: made up for, and a restart is over once the minimum is registered. */
  ghost predicate Balanced(c: Config, a: App, forks: seq<int>, b: App) {
    && MadeUp(c, a, forks, b)
    && b == if a.phase == Restart && |a.workers| >= a.conf.min
            then a.(pending := b.pending, phase := Serving, next := None) else a.(pending := b.pending)
  }

  lemma BalanceEffect(c: Config, a: App, forks: seq<int>)
    ensures Balanced(c, a, forks, Balance(c, a, forks))
  {
    hide ForkedUp, Fill;
    FillMakesUp(c, a, forks);
    var f, b := Fill(c, a, forks), Balance(c, a, forks);
    var n :| 0 <= n <= |forks| && ForkedUp(c, a, forks, n, f);
    SamePending(c, a, forks, n, f, b);
  }

  lemma SamePending(c: Config, a: App, forks: seq<int>, n: nat, b: App, d: App)
    requires n <= |forks| && ForkedUp(c, a, forks, n, b) && d.pending == b.pending
    ensures ForkedUp(c, a, forks, n, d)
  {}

  /** A new application has no workers yet, and its minimum is forked. */
  lemma InitialEffect(c: Config, conf: Limits, forks: seq<int>)
    ensures var a := App([], [], [], [], map[], New, conf, None, 0, [], [], [], {}, {});
      Balanced(c, a, forks, Initial(c, conf, forks))
  {
    BalanceEffect(c, App([], [], [], [], map[], New, conf, None, 0, [], [], [], {}, {}), forks);
  }

  // ----- requests -----

  /**
   * A completely received request is refused if and only if the queue is full; else it goes to the worker
   * that has been idle for longest, or waits behind all others if none is idle.
   */
  lemma CompleteEffect(c: Config, a: App, r: ReqId)
    requires Inv(c, a) && Enabled(c, a, Complete(r))
    ensures Step(c, a, Complete(r)) ==
      if |a.messages| == c.maxMessages then a.(refused := a.refused + {r})
      else if a.idle == [] then a.(messages := a.messages + [r], admitted := a.admitted + [r])
      else a.(idle := a.idle[1..], admitted := a.admitted + [r], started := a.started + [r],
              wkr := a.wkr[a.idle[0] := Wkr(Active, Some(r), TrialsOf(a, a.idle[0]), PidOf(a, a.idle[0]))])
  {
    hide Inv;
    AdmissionFacts(c, a);
  }

  lemma AdmissionFacts(c: Config, a: App)
    requires Inv(c, a)
    ensures |a.messages| <= c.maxMessages
    ensures a.idle != [] ==>
      a.messages == [] && a.idle[0] in a.wkr && a.wkr[a.idle[0]].state == Inactive && a.wkr[a.idle[0]].req == None
  {
    if a.idle != [] { FirstIdle(c, a); }
  }

  function TrialsOf(a: App, w: WkrId): nat {
    if w in a.wkr then a.wkr[w].trials else 0
  }

  function PidOf(a: App, w: WkrId): int {
    if w in a.wkr then a.wkr[w].pid else 0
  }

  /**
   * Worker `w` of `a` is free for the next request: it takes the oldest one that waits, or becomes idle,
   * behind those that are idle already.
   */
  ghost predicate TakesNext(a: App, w: WkrId, b: App)
    requires w in a.wkr
  {
    b == if a.messages == [] then a.(idle := a.idle + [w], wkr := a.wkr[w := a.wkr[w].(state := Inactive, req := None)])
         else a.(messages := a.messages[1..], started := a.started + [a.messages[0]],
                 wkr := a.wkr[w := a.wkr[w].(state := Active, req := Some(a.messages[0]))])
  }

  /** Worker `w` of `a` has left the pool, and nothing else has changed in it. */
  ghost predicate Leaves(a: App, w: WkrId, b: App) {
    && b == a.(workers := b.workers, idle := b.idle, wkr := a.wkr - {w})
    && b.workers == Without(a.workers, w) && b.idle == Without(a.idle, w)
  }

  /** The response of a busy worker is complete: its request is served, and it takes the next or leaves. */
  lemma RespondEffect(c: Config, a: App, w: WkrId)
    requires Inv(c, a) && Enabled(c, a, Respond(w))
    ensures a.wkr[w].req.Some?
    ensures var done := a.(finished := a.finished + [(a.wkr[w].req.value, Served)]);
      if a.wkr[w].state == Expired then Leaves(done, w, Step(c, a, Respond(w)))
      else TakesNext(done, w, Step(c, a, Respond(w)))
  {
    hide Inv, Released, Allocate, FreeWkr, RespondStep;
    InvWorker(c, a, w);
    RespondIs(c, a, w);
    ReleasedIs(a, w);
    IdleHasRoomFor(c, a, w);
    var b := Released(a, w);
    if a.wkr[w].state == Expired {
      FreeFails(b, w);
      assert b.wkr - {w} == a.wkr - {w};
      assert b.finished + [] == b.finished;
    } else {
      AllocateEffect(c, b.(wkr := b.wkr[w := b.wkr[w].(state := Inactive)]), w);
    }
  }

  lemma ReleasedIs(a: App, w: WkrId)
    requires w in a.wkr && a.wkr[w].req.Some?
    ensures Released(a, w) == a.(finished := a.finished + [(a.wkr[w].req.value, Served)],
                                 wkr := a.wkr[w := a.wkr[w].(req := None)])
  {
    assert Outcomes(ReqOf(a.wkr, w), Served) == [(a.wkr[w].req.value, Served)];
  }

  lemma IdleHasRoomFor(c: Config, a: App, w: WkrId)
    requires Inv(c, a) && w in a.wkr && w !in a.idle
    ensures |a.idle| < c.maxWorkers + 1
  {
    DistinctSubsetLength(a.idle + [w], a.workers);
  }

  // ----- workers -----

  /** Worker `w` has left the pool; the request it had, if any, has been answered with an error. */
  ghost predicate Fails(a: App, w: WkrId, b: App)
    requires w in a.wkr
  {
    Leaves(a.(finished := a.finished + match a.wkr[w].req case Some(r) => [(r, Failed)] case None => []), w, b)
  }

  lemma FreeFails(a: App, w: WkrId)
    requires w in a.wkr
    ensures Fails(a, w, FreeWkr(a, w))
  {
    var rs := ReqOf(a.wkr, w);
    assert Outcomes(rs, Failed) == match a.wkr[w].req case Some(r) => [(r, Failed)] case None => [];
  }

  lemma BrokenEffect(c: Config, a: App, w: WkrId)
    requires Enabled(c, a, Broken(w))
    ensures Fails(a, w, Step(c, a, Broken(w)))
  {
    FreeFails(a, w);
  }

  /** A worker that goes is replaced if the application is running and the minimum asks for it. */
  lemma GoneEffect(c: Config, a: App, w: WkrId, forks: seq<int>)
    requires Enabled(c, a, Gone(w, forks))
    ensures var b := Step(c, a, Gone(w, forks));
      if a.phase == Serving then exists d :: Fails(a, w, d) && Balanced(c, d, forks, b) else Fails(a, w, b)
  {
    hide Balanced;
    FreeFails(a, w);
    BalanceEffect(c, FreeWkr(a, w), forks);
  }

  /** A sign of progress: the worker keeps its request, is active again and has the whole budget of pings. */
  lemma ProgressEffect(c: Config, a: App, w: WkrId)
    requires Inv(c, a) && Enabled(c, a, Progress(w))
    ensures a.wkr[w].req.Some? && InService(a.wkr[w].state)
    ensures Step(c, a, Progress(w)) ==
      a.(wkr := a.wkr[w := a.wkr[w].(trials := 0, state := if a.wkr[w].state == Pinging then Active else a.wkr[w].state)])
  {
    hide Inv;
    InvWorker(c, a, w);
  }

  /**
   * The wait timer: a busy worker is pinged as long as the budget lasts and given up and replaced after
   * that; one that has expired goes; an idle one is left alone.
   */
  lemma PingTimerEffect(c: Config, a: App, w: WkrId, forks: seq<int>)
    requires Inv(c, a) && Enabled(c, a, PingTimer(w, forks))
    ensures var b := Step(c, a, PingTimer(w, forks));
      if w in a.idle then b == a
      else if a.wkr[w].state == Expired then Fails(a, w, b)
      else if a.wkr[w].trials < c.pingTrials then
        b == a.(wkr := a.wkr[w := a.wkr[w].(state := Pinging, trials := a.wkr[w].trials + 1)])
      else exists d :: Fails(a, w, d) && Balanced(c, d, forks, b)
  {
    hide Balanced, Fails, FreeWkr;
    InvWorker(c, a, w);
    FreeFails(a, w);
    BalanceEffect(c, FreeWkr(a, w), forks);
  }

  /** A ping reply makes the worker active again and costs or restores none of its budget. */
  lemma PingReplyEffect(c: Config, a: App, w: WkrId)
    requires Inv(c, a) && Enabled(c, a, PingReply(w))
    ensures Step(c, a, PingReply(w)) ==
      if a.wkr[w].state == Pinging then a.(wkr := a.wkr[w := a.wkr[w].(state := Active)]) else a
  {
    InvWorker(c, a, w);
  }

  // ----- the application -----

  lemma AddTimerEffect(c: Config, a: App, forks: seq<int>)
    requires Enabled(c, a, AddTimer(forks))
    ensures Step(c, a, AddTimer(forks)) ==
      if |a.pending| + |a.workers| < a.conf.max && |a.pending| < c.maxPending && a.timeouts < c.addTrials && Forks(forks, 0)
      then a.(pending := a.pending + [forks[0]]) else a
  {}

  /** A reload takes the new limits down, forgets the pending processes and forks one. */
  lemma ReloadEffect(c: Config, a: App, limits: Limits, forks: seq<int>)
    requires Enabled(c, a, Reload(limits, forks))
    ensures Step(c, a, Reload(limits, forks)) == a.(phase := Restart, next := Some(limits), timeouts := 0,
      pending := if 0 < c.maxPending && 0 < c.addTrials && Forks(forks, 0) then [forks[0]] else [])
  {}

  /** All is over: every request that was open has failed. */
  ghost predicate Destroyed(a: App, b: App) {
    && b.phase == Phase.Destroyed && b.messages == [] && b.workers == [] && b.pending == [] && b.wkr == map[]
    && OnlyFailures(a.finished, b.finished) && multiset(a.admitted) == multiset(Names(b.finished))
    && b.admitted == a.admitted && b.started == a.started
  }

  /** One occurrence of `pid` is taken out, if there is one. */
  ghost predicate OneLess(s: seq<int>, pid: int, t: seq<int>) {
    multiset(t) == multiset(s) - multiset{pid} && (pid !in s ==> t == s)
  }

  /** A worker that failed to start: a restart is called off, a new application is over, else its pid is forgotten. */
  lemma AddErrorEffect(c: Config, a: App, pid: int)
    requires Inv(c, a) && Enabled(c, a, AddError(pid))
    ensures var b := Step(c, a, AddError(pid));
      if a.phase == Restart then b == a.(phase := Serving, next := None, timeouts := 0)
      else if a.phase == New then Destroyed(a, b)
      else b == a.(timeouts := 0, pending := b.pending) && OneLess(a.pending, pid, b.pending)
  {
    hide Inv, OnlyFailures, Names, Taken;
    if a.phase == New {
      ForgetKeeps(c, a, a.(timeouts := 0));
      DestroyEffect(c, a.(timeouts := 0));
    } else if pid in a.pending {
      TakenIsPermutation(a.pending, pid);
    }
  }

  lemma ForgetKeeps(c: Config, a: App, b: App)
    requires Inv(c, a) && b == a.(pending := b.pending, timeouts := b.timeouts) && |b.pending| <= |a.pending|
    ensures Inv(c, b)
  {
    ControlKeeps(c, a, b);
  }

  lemma FreeAllLeaves(a: App)
    requires a.wkr.Keys <= Elems(a.workers)
    ensures var b := FreeAll(a);
      b.wkr == map[] && b.admitted == a.admitted && b.started == a.started && b.phase == a.phase
    decreases |a.workers|
  {
    if a.workers != [] {
      var v := a.workers[0];
      assert Elems(a.workers) == {v} + Elems(a.workers[1..]);
      FreeAllLeaves(FreeWkr(a, v));
    }
  }

  lemma DestroyEffect(c: Config, a: App)
    requires Inv(c, a)
    ensures Destroyed(a, Destroy(a))
  {
    hide Inv, OnlyFailures, Names;
    InvFacts(c, a);
    DestroyKeeps(c, a);
    FreeAllLeaves(a.(phase := Phase.Destroyed, next := None));
  }

  lemma RemoveAppEffect(c: Config, a: App)
    requires Inv(c, a) && Enabled(c, a, RemoveApp)
    ensures Destroyed(a, Step(c, a, RemoveApp))
  {
    DestroyEffect(c, a);
  }

  /** The pending pids once the `t`-th late process in a row has been noticed: the oldest goes, at last all go. */
  function StillPending(c: Config, a: App, t: nat): seq<int> {
    if t == c.addTrials || |a.pending| <= 1 then [] else a.pending[1..]
  }

  /**
   * A process is late. After add_trials of them in a row all pending ones are killed and nothing is forked
   * until the next one, which starts the count anew; before that the oldest one is killed. A restart is
   * called off by the first one, a new application is over when none is left, and else the pool is made up.
   */
  lemma AddTimeoutEffect(c: Config, a: App, forks: seq<int>)
    requires Inv(c, a) && Enabled(c, a, AddTimeout(forks))
    ensures var b := Step(c, a, AddTimeout(forks)); var t := a.timeouts + 1;
      if t > c.addTrials then b == a.(timeouts := 0)
      else
        var d := a.(pending := StillPending(c, a, t), timeouts := if t == c.addTrials then t + 1 else t);
        if a.phase == Restart then b == d.(phase := Serving, next := None, timeouts := 0)
        else if a.phase == New then if d.pending == [] then Destroyed(a, b) else b == d
        else Balanced(c, d, forks, b) && (t == c.addTrials ==> b.pending == [])
  {
    hide Inv, OnlyFailures, Names;
    var t := a.timeouts + 1;
    if t <= c.addTrials {
      var d := a.(pending := StillPending(c, a, t), timeouts := if t == c.addTrials then t + 1 else t);
      BalanceEffect(c, d, forks);
      if a.phase == New && d.pending == [] {
        ForgetKeeps(c, a, d.(timeouts := 0));
        DestroyEffect(c, d.(timeouts := 0));
      }
    }
  }

  /**
   * Little load: if the pool is above its minimum, a worker with the reported pid goes, an idle one if there
   * is one; a busy one first finishes its request.
   */
  lemma RemoveTimerEffect(c: Config, a: App, pid: int)
    requires Inv(c, a) && Enabled(c, a, RemoveTimer(Some(pid)))
    ensures var b := Step(c, a, RemoveTimer(Some(pid)));
      if |a.workers| <= a.conf.min || forall w :: w in a.wkr ==> a.wkr[w].pid != pid then b == a
      else if exists w :: w in a.idle && w in a.wkr && a.wkr[w].pid == pid then
        exists w :: w in a.idle && w in a.wkr && a.wkr[w].pid == pid && Leaves(a, w, b)
      else
        exists w :: w in a.wkr && a.wkr[w].pid == pid && b == a.(wkr := a.wkr[w := a.wkr[w].(state := Expired)])
  {
    hide Inv;
    IdleHoldNothing(c, a);
    InvFacts(c, a);
    var i := WithPid(a.idle, a.wkr, pid);
    if i.Some? {
      FreeFails(a, i.value);
      assert a.finished + [] == a.finished;
    }
  }

  // ----- registration -----

  /** `t` is `s` turned to just past its first `pid`, which is taken out. */
  ghost predicate TurnedPast(s: seq<int>, pid: int, t: seq<int>) {
    exists k :: 0 <= k < |s| && s[k] == pid && pid !in s[..k] && t == s[k + 1..] + s[..k]
  }

  /**
   * The pid is accepted. The first one after a reload puts the new limits in force: the idle workers go, and
   * the others expire.
   */
  ghost predicate Accepted(a: App, pid: int, b: App) {
    && TurnedPast(a.pending, pid, b.pending)
    && if a.phase == Restart then Renewed(a.(pending := b.pending, timeouts := 0), b)
       else b == a.(pending := b.pending, timeouts := 0, phase := if a.phase == New then Serving else a.phase)
  }

  ghost predicate Renewed(a: App, b: App) {
    && a.next.Some?
    && b == a.(phase := Restarting, conf := a.next.value, next := None, idle := [], workers := b.workers, wkr := b.wkr)
    && b.wkr.Keys == a.wkr.Keys - Elems(a.idle) == Elems(b.workers)
    && (forall w :: w in b.wkr ==> b.wkr[w] == a.wkr[w].(state := Expired))
    && |b.workers| == |a.workers| - |a.idle|
  }

  lemma {:induction false} FreeIdleEffect(a: App)
    requires Distinct(a.idle) && Distinct(a.workers) && Elems(a.workers) == a.wkr.Keys
    requires forall w :: w in a.idle ==> w in a.wkr && a.wkr[w].req == None
    ensures var b := FreeIdle(a);
      && b == a.(idle := [], workers := b.workers, wkr := a.wkr - Elems(a.idle))
      && |b.workers| == |a.workers| - |a.idle| && Elems(b.workers) == b.wkr.Keys
    decreases |a.idle|
  {
    hide Distinct, FreeWkr;
    if a.idle != [] {
      var w := a.idle[0];
      assert w in Elems(a.workers);
      FreeFirstIdle(a);
      FreeIdleEffect(FreeWkr(a, w));
      assert Elems(a.idle) == {w} + Elems(a.idle[1..]);
      assert a.wkr - {w} - Elems(a.idle[1..]) == a.wkr - Elems(a.idle);
    } else {
      assert a.wkr - {} == a.wkr;
    }
  }

  lemma FreeFirstIdle(a: App)
    requires Distinct(a.idle) && Distinct(a.workers) && Elems(a.workers) == a.wkr.Keys
    requires a.idle != [] && a.idle[0] in a.wkr && a.wkr[a.idle[0]].req == None
    ensures var w := a.idle[0]; var b := FreeWkr(a, w);
      && b == a.(idle := a.idle[1..], workers := b.workers, wkr := a.wkr - {w})
      && |b.workers| == |a.workers| - 1 && Elems(b.workers) == b.wkr.Keys
      && Distinct(b.idle) && Distinct(b.workers) && w !in b.idle
  {
    hide Distinct;
    var w := a.idle[0];
    FreeFails(a, w);
    assert w in Elems(a.workers);
    assert a.finished + [] == a.finished;
    FreeMembers(a.workers, w);
    WithoutDistinct(a.workers, w);
    WithoutDistinct(a.idle, w);
  }

  lemma RenewEffect(c: Config, a: App)
    requires Inv(c, a) && a.next.Some?
    ensures Renewed(a, Renew(a))
  {
    hide Inv, Distinct;
    IdleHoldNothing(c, a);
    InvFacts(c, a);
    FreeIdleEffect(a.(conf := a.next.value, next := None));
  }

  lemma AcceptEffect(c: Config, a: App, pid: int)
    requires Inv(c, a) && pid in a.pending && a.phase != Phase.Destroyed
    ensures a.phase == Restart <==> a.next.Some?
    ensures Accepted(a, pid, Accept(a, pid))
  {
    hide Inv, Renew, Renewed;
    InvFacts(c, a);
    var k := FirstIndex(a.pending, pid);
    assert TurnedPast(a.pending, pid, Taken(a.pending, pid));
    if a.phase == Restart {
      TakenKeeps(c, a, pid);
      RenewEffect(c, a.(pending := Taken(a.pending, pid), timeouts := 0));
      RenewedPending(a.(pending := Taken(a.pending, pid), timeouts := 0));
    }
  }

  lemma RenewedPending(a: App)
    requires a.next.Some? && Renewed(a, Renew(a))
    ensures Renew(a).pending == a.pending
  {}

  /** The newcomer has joined the worker queue, free for its first request. */
  function Joined(a: App, w: WkrId, pid: int): App {
    a.(workers := a.workers + [w], wkr := a.wkr[w := Wkr(Inactive, None, 0, pid)])
  }

  lemma AllocateEffect(c: Config, a: App, w: WkrId)
    requires w in a.wkr && a.wkr[w].state == Inactive && a.wkr[w].req == None && |a.idle| < c.maxWorkers + 1
    ensures TakesNext(a, w, Allocate(c, a, w))
  {
    assert a.wkr[w := a.wkr[w]] == a.wkr;
  }

  /**
   * A worker registers. It is turned away unless its pid is pending and the pool is below its maximum or a
   * restart is under way; else the pid is accepted, and if the worker can be reached and there is room for it,
   * it joins the pool, takes the oldest request that waits or becomes idle, and the pool is balanced.
   */
  lemma RegisterEffect(c: Config, a: App, w: WkrId, pid: int, connected: bool, forks: seq<int>)
    requires Inv(c, a) && Enabled(c, a, Register(w, pid, connected, forks))
    ensures var b := Step(c, a, Register(w, pid, connected, forks));
      if pid in a.pending && (a.phase == Restart || |a.workers| < a.conf.max) then
        exists d :: Accepted(a, pid, d) && ComesIn(c, d, w, pid, connected, forks, b)
      else b == a
  {
    hide Inv, Accepted, Accept, ComesIn;
    if Wanted(a, pid) {
      AcceptEffect(c, a, pid);
      AcceptKeeps(c, a, pid);
      EnrolEffect(c, Accept(a, pid), w, pid, connected, forks);
    }
  }

  ghost predicate ComesIn(c: Config, a: App, w: WkrId, pid: int, connected: bool, forks: seq<int>, b: App) {
    if connected && |a.workers| <= c.maxWorkers then
      exists d :: TakesNext(Joined(a, w, pid), w, d) && Balanced(c, d, forks, b)
    else b == a
  }

  lemma EnrolEffect(c: Config, a: App, w: WkrId, pid: int, connected: bool, forks: seq<int>)
    requires Inv(c, a) && w !in a.wkr
    ensures ComesIn(c, a, w, pid, connected, forks, if connected then Enrol(c, a, w, pid, forks) else a)
  {
    hide Inv, Balanced, TakesNext, Allocate, Balance;
    if connected && |a.workers| <= c.maxWorkers {
      var j := Joined(a, w, pid);
      RoomForNewcomer(c, a);
      AllocateEffect(c, j, w);
      BalanceEffect(c, Allocate(c, j, w), forks);
    }
  }

  lemma RoomForNewcomer(c: Config, a: App)
    requires Inv(c, a)
    ensures |a.idle| <= |a.workers|
  {
    DistinctSubsetLength(a.idle, a.workers);
  }

  /**
   * Exactly the wanted newcomers are registered: those that can be reached, whose pid is pending, and that
   * find the pool below its maximum, or a restart under way and room beside the workers that are busy.
   */
  lemma RegisteredExactly(c: Config, a: App, w: WkrId, pid: int, connected: bool, forks: seq<int>)
    requires Inv(c, a) && Enabled(c, a, Register(w, pid, connected, forks))
    ensures var b := Step(c, a, Register(w, pid, connected, forks));
      && (w in b.wkr <==>
            connected && pid in a.pending
            && if a.phase == Restart then |a.workers| - |a.idle| <= c.maxWorkers else |a.workers| < a.conf.max)
      && (w in b.wkr ==> b.wkr[w] == if a.messages == [] then Wkr(Inactive, None, 0, pid)
                                     else Wkr(Active, Some(a.messages[0]), 0, pid))
  {
    hide Inv, Step, MadeUp, TurnedPast;
    RegisterEffect(c, a, w, pid, connected, forks);
    MaxFits(c, a);
  }

  lemma MaxFits(c: Config, a: App)
    requires Inv(c, a)
    ensures a.conf.max <= c.maxWorkers
  {}

  lemma NoPidEffect(c: Config, a: App)
    requires Enabled(c, a, RemoveTimer(None))
    ensures Step(c, a, RemoveTimer(None)) == a
  {}

  // ----- how long a worker that makes progress is tolerated -----

  /** Besides its wait timer, what takes a worker out of the pool or bars it from another request. */
  predicate TakesAway(a: App, e: Event, w: WkrId) {
    match e
    case Respond(v) => v == w
    case Broken(v) => v == w
    case Gone(v, _) => v == w
    case RemoveApp => true
    case Register(v, _, _, _) => v == w || a.phase == Restart
    case RemoveTimer(pid) => w in a.wkr && pid == Some(a.wkr[w].pid)
    case AddError(_) => a.phase == New
    case AddTimeout(_) => a.phase == New
    case _ => false
  }

  /** The number of pings in a row that were not followed by progress, `t` of them so far. */
  function Tick(e: Event, w: WkrId, t: nat): nat {
    if e.PingTimer? && e.w == w then t + 1 else if e.Progress? && e.w == w then 0 else t
  }

  function Unanswered(es: seq<Event>, w: WkrId, t: nat): nat
    decreases |es|
  {
    if es == [] then t else Unanswered(es[1..], w, Tick(es[0], w, t))
  }

  /** At no time is their number above `max`. */
  predicate Patient(es: seq<Event>, w: WkrId, t: nat, max: nat)
    decreases |es|
  {
    t <= max && (es == [] || Patient(es[1..], w, Tick(es[0], w, t), max))
  }

  ghost predicate LeftToTimer(c: Config, a: App, es: seq<Event>, w: WkrId)
    requires Feasible(c, a, es)
    decreases |es|
  {
    es == [] || (!TakesAway(a, es[0], w) && LeftToTimer(c, Step(c, a, es[0]), es[1..], w))
  }

  /** Worker `w` serves request `r` and may go on to the next one. */
  ghost predicate Serves(a: App, w: WkrId, r: ReqId) {
    w in a.wkr && a.wkr[w].req == Some(r) && (a.wkr[w].state == Active || a.wkr[w].state == Pinging)
  }

  /** What concerns other workers, requests or the application does not touch worker `w`. */
  lemma OthersUntouched(c: Config, a: App, e: Event, w: WkrId, r: ReqId)
    requires Inv(c, a) && Enabled(c, a, e) && !TakesAway(a, e, w) && Serves(a, w, r)
    requires !((e.PingTimer? || e.Progress? || e.PingReply?) && e.w == w)
    ensures w in Step(c, a, e).wkr && Step(c, a, e).wkr[w] == a.wkr[w]
  {
    hide Inv, Step, ForkedUp, TurnedPast;
    InvWorker(c, a, w);
    match e
    case Complete(q) => CompleteEffect(c, a, q);
    case Abort(q) => AbortEffect(c, a, q);
    case Progress(v) => ProgressEffect(c, a, v);
    case Respond(v) => RespondEffect(c, a, v);
    case Broken(v) => BrokenEffect(c, a, v);
    case PingTimer(v, forks) => PingTimerEffect(c, a, v, forks);
    case PingReply(v) => PingReplyEffect(c, a, v);
    case Gone(v, forks) => GoneEffect(c, a, v, forks);
    case Register(v, pid, connected, forks) => RegisterEffect(c, a, v, pid, connected, forks);
    case AddError(pid) => AddErrorEffect(c, a, pid);
    case AddTimer(forks) => AddTimerEffect(c, a, forks);
    case AddTimeout(forks) => AddTimeoutEffect(c, a, forks);
    case RemoveTimer(pid) => if pid.Some? { RemoveTimerEffect(c, a, pid.value); } else { NoPidEffect(c, a); }
    case Reload(limits, forks) => ReloadEffect(c, a, limits, forks);
  }

  lemma AbortEffect(c: Config, a: App, r: ReqId)
    requires Inv(c, a) && Enabled(c, a, Abort(r))
    ensures var b := Step(c, a, Abort(r));
      && b == a.(messages := b.messages, finished := a.finished + [(r, Failed)], withdrawn := b.withdrawn)
      && r !in b.messages && multiset(a.messages) == multiset(b.messages) + multiset{r}
  {
    AbortKeeps(c, a, r);
  }

  /** One event: the budget is counted down by the timer, restored by progress, and left alone otherwise. */
  lemma BudgetStep(c: Config, a: App, e: Event, w: WkrId, r: ReqId)
    requires Inv(c, a) && Enabled(c, a, e) && !TakesAway(a, e, w) && Serves(a, w, r)
    ensures var b := Step(c, a, e); var t := Tick(e, w, a.wkr[w].trials);
      if t <= c.pingTrials then Serves(b, w, r) && b.wkr[w].trials == t else GivenUp(b, w, r)
  {
    hide Inv, Step, Balanced;
    InvWorker(c, a, w);
    match e
    case Progress(v) =>
      if v == w { ProgressEffect(c, a, w); } else { OthersUntouched(c, a, e, w, r); }
    case PingReply(v) =>
      if v == w { PingReplyEffect(c, a, w); } else { OthersUntouched(c, a, e, w, r); }
    case PingTimer(v, forks) =>
      if v == w { TimerStep(c, a, w, r, forks); } else { OthersUntouched(c, a, e, w, r); }
    case _ => OthersUntouched(c, a, e, w, r);
  }

  lemma TimerStep(c: Config, a: App, w: WkrId, r: ReqId, forks: seq<int>)
    requires Inv(c, a) && Enabled(c, a, PingTimer(w, forks)) && Serves(a, w, r)
    ensures var b := Step(c, a, PingTimer(w, forks)); var t := a.wkr[w].trials + 1;
      if t <= c.pingTrials then Serves(b, w, r) && b.wkr[w].trials == t else GivenUp(b, w, r)
  {
    hide Inv, Step, MadeUp;
    InvWorker(c, a, w);
    PingTimerEffect(c, a, w, forks);
    var b := Step(c, a, PingTimer(w, forks));
    if a.wkr[w].trials >= c.pingTrials {
      var d :| Fails(a, w, d) && Balanced(c, d, forks, b);
      assert d.finished[|a.finished|] == (r, Failed);
    }
  }

  lemma {:induction false} GoneStays(c: Config, a: App, es: seq<Event>, w: WkrId, r: ReqId)
    requires Feasible(c, a, es) && LeftToTimer(c, a, es, w) && GivenUp(a, w, r)
    ensures GivenUp(Run(c, a, es), w, r)
    decreases |es|
  {
    hide Step;
    if es != [] {
      assert !Sign(es[0], w);
      GivenUpStep(c, a, es[0], w, r);
      GoneStays(c, Step(c, a, es[0]), es[1..], w, r);
    }
  }

  /**
   * As long as nothing but its timer takes a worker away, it is given up if and only if the timer fires more
   * often than ping_trials without progress in between, whatever happens to the rest of the application;
   * otherwise it still serves its request and the timer has so many firings left.
   */
  lemma {:induction false} TimerDecides(c: Config, a: App, es: seq<Event>, w: WkrId, r: ReqId)
    requires Inv(c, a) && Feasible(c, a, es) && LeftToTimer(c, a, es, w) && Serves(a, w, r)
    ensures var b := Run(c, a, es); var t := a.wkr[w].trials;
      if Patient(es, w, t, c.pingTrials) then Serves(b, w, r) && b.wkr[w].trials == Unanswered(es, w, t)
      else GivenUp(b, w, r)
    decreases |es|
  {
    hide Inv, Step, Enabled, TakesAway, Tick;
    ThePool(c, a);
    BudgetHolds(c, a, w);
    if es != [] {
      var b := Step(c, a, es[0]);
      BudgetStep(c, a, es[0], w, r);
      StepKeeps(c, a, es[0]);
      if Tick(es[0], w, a.wkr[w].trials) <= c.pingTrials {
        TimerDecides(c, b, es[1..], w, r);
      } else {
        assert !Patient(es[1..], w, Tick(es[0], w, a.wkr[w].trials), c.pingTrials);
        GoneStays(c, b, es[1..], w, r);
      }
    }
  }

  lemma {:induction false} FewFirings(es: seq<Event>, w: WkrId, t: nat, max: nat)
    requires t + Firings(es, w) <= max
    ensures Patient(es, w, t, max)
    decreases |es|
  {
    if es != [] { FewFirings(es[1..], w, Tick(es[0], w, t), max); }
  }

  /** After a sign of progress the timer may fire ping_trials times before the worker is given up. */
  lemma ProgressIsRewarded(c: Config, a: App, es: seq<Event>, w: WkrId, r: ReqId)
    requires Inv(c, a) && Serves(a, w, r) && Feasible(c, a, [Progress(w)] + es)
    requires LeftToTimer(c, a, [Progress(w)] + es, w) && Firings(es, w) <= c.pingTrials
    ensures Serves(Run(c, a, [Progress(w)] + es), w, r)
  {
    ThePool(c, a);
    BudgetHolds(c, a, w);
    assert ([Progress(w)] + es)[1..] == es;
    FewFirings(es, w, 0, c.pingTrials);
    TimerDecides(c, a, [Progress(w)] + es, w, r);
  }

  // ----- who is served -----

  /** The requests that were served, in order. */
  ghost function ServedOnes(fs: seq<(ReqId, Outcome)>): seq<ReqId> {
    if fs == [] then [] else ServedOnes(fs[..|fs| - 1]) + if fs[|fs| - 1].1 == Served then [fs[|fs| - 1].0] else []
  }

  /** The requests whose responses were completed in a run, in order. */
  ghost function Answers(c: Config, a: App, es: seq<Event>): seq<ReqId>
    requires Feasible(c, a, es)
    decreases |es|
  {
    if es == [] then []
    else
      (if es[0].Respond? && a.wkr[es[0].w].req.Some? then [a.wkr[es[0].w].req.value] else [])
      + Answers(c, Step(c, a, es[0]), es[1..])
  }

  lemma {:induction false} FailuresServeNobody(s: seq<(ReqId, Outcome)>, t: seq<(ReqId, Outcome)>)
    requires OnlyFailures(s, t)
    ensures ServedOnes(t) == ServedOnes(s)
    decreases |t|
  {
    if |s| < |t| {
      var u := t[..|t| - 1];
      assert u[..|s|] == s;
      FailuresServeNobody(s, u);
    } else {
      assert t == s;
    }
  }

  lemma OneFailure(fs: seq<(ReqId, Outcome)>, r: Option<ReqId>)
    ensures OnlyFailures(fs, fs + match r case Some(q) => [(q, Failed)] case None => [])
  {}

  lemma OthersFail(c: Config, a: App, e: Event)
    requires Inv(c, a) && Enabled(c, a, e) && !e.Respond?
    ensures OnlyFailures(a.finished, Step(c, a, e).finished)
  {
    hide Inv, Step, MadeUp, TurnedPast, OnlyFailures;
    OneFailure(a.finished, None);
    assert a.finished + [] == a.finished;
    match e
    case Complete(q) => CompleteEffect(c, a, q);
    case Abort(q) => AbortEffect(c, a, q); OneFailure(a.finished, Some(q));
    case Progress(v) => ProgressEffect(c, a, v);
    case Broken(v) => BrokenEffect(c, a, v); OneFailure(a.finished, a.wkr[v].req);
    case PingTimer(v, forks) => PingTimerEffect(c, a, v, forks); OneFailure(a.finished, a.wkr[v].req);
    case PingReply(v) => PingReplyEffect(c, a, v);
    case Gone(v, forks) => GoneEffect(c, a, v, forks); OneFailure(a.finished, a.wkr[v].req);
    case Register(v, pid, connected, forks) => RegisterEffect(c, a, v, pid, connected, forks);
    case AddError(pid) => AddErrorEffect(c, a, pid);
    case AddTimer(forks) => AddTimerEffect(c, a, forks);
    case AddTimeout(forks) => AddTimeoutEffect(c, a, forks);
    case RemoveTimer(pid) => if pid.Some? { RemoveTimerEffect(c, a, pid.value); } else { NoPidEffect(c, a); }
    case Reload(limits, forks) => ReloadEffect(c, a, limits, forks);
    case RemoveApp => RemoveAppEffect(c, a);
  }

  lemma ServedStep(c: Config, a: App, e: Event)
    requires Inv(c, a) && Enabled(c, a, e)
    ensures ServedOnes(Step(c, a, e).finished)
      == ServedOnes(a.finished) + if e.Respond? && a.wkr[e.w].req.Some? then [a.wkr[e.w].req.value] else []
  {
    hide Inv, Step;
    if e.Respond? {
      RespondEffect(c, a, e.w);
      var f := a.finished + [(a.wkr[e.w].req.value, Served)];
      assert f[..|f| - 1] == a.finished;
    } else {
      OthersFail(c, a, e);
      FailuresServeNobody(a.finished, Step(c, a, e).finished);
      assert ServedOnes(a.finished) + [] == ServedOnes(a.finished);
    }
  }

  /** Exactly the requests whose responses are completed count as served, each once and in that order. */
  lemma {:induction false} ServedExactly(c: Config, a: App, es: seq<Event>)
    requires Inv(c, a) && Feasible(c, a, es)
    ensures ServedOnes(Run(c, a, es).finished) == ServedOnes(a.finished) + Answers(c, a, es)
    decreases |es|
  {
    hide Inv, Step, Enabled, ServedOnes;
    if es != [] {
      ServedStep(c, a, es[0]);
      StepKeeps(c, a, es[0]);
      ServedExactly(c, Step(c, a, es[0]), es[1..]);
    }
  }
}
