/** The dispatcher's promises, stated over every run from the moment the application is added. */
module DispatchTheorems {
  import opened Seqs
  import opened DispatchModel
  import opened DispatchSafety
  import opened DispatchRuns

  /** The environment can go through `es`, starting when the application is added. */
  ghost predicate Possible(c: Config, conf: Limits, forks: seq<int>, es: seq<Event>) {
    LimitsOk(c, conf) && Feasible(c, Initial(c, conf, forks), es)
  }

  ghost function After(c: Config, conf: Limits, forks: seq<int>, es: seq<Event>): (a: App)
    requires Possible(c, conf, forks, es)
  {
    Run(c, Initial(c, conf, forks), es)
  }

  /** The invariant holds after every possible run. */
  lemma AlwaysInv(c: Config, conf: Limits, forks: seq<int>, es: seq<Event>)
    requires Possible(c, conf, forks, es)
    ensures Inv(c, After(c, conf, forks, es))
  {
    InitialInv(c, conf, forks);
    RunKeeps(c, Initial(c, conf, forks), es);
  }

  // ----- workers and requests -----

  /** Every registered worker is idle and queued once, or serves exactly one request. */
  lemma EveryWorkerIdleOrBusy(c: Config, conf: Limits, forks: seq<int>, es: seq<Event>)
    requires Possible(c, conf, forks, es)
    ensures var a := After(c, conf, forks, es);
      && Distinct(a.idle) && Distinct(a.workers)
      && a.wkr.Keys == Elems(a.workers)
      && (forall w :: w in a.idle ==> w in a.workers)
      && (forall w :: w in a.workers ==>
            a.wkr[w].trials <= c.pingTrials
            && if w in a.idle then a.wkr[w].state == Inactive && a.wkr[w].req == None
               else InService(a.wkr[w].state) && a.wkr[w].req.Some?)
  {
    AlwaysInv(c, conf, forks, es);
    var a := After(c, conf, forks, es);
    forall w | w in a.workers
      ensures a.wkr[w].trials <= c.pingTrials
      ensures if w in a.idle then a.wkr[w].state == Inactive && a.wkr[w].req == None
              else InService(a.wkr[w].state) && a.wkr[w].req.Some?
    {
      InvWorker(c, a, w);
    }
  }

  /** No queue overflows: the free queue always has room for a worker that is not in it. */
  lemma QueuesNeverOverflow(c: Config, conf: Limits, forks: seq<int>, es: seq<Event>)
    requires Possible(c, conf, forks, es)
    ensures var a := After(c, conf, forks, es);
      && |a.messages| <= c.maxMessages && |a.pending| <= c.maxPending
      && |a.idle| <= |a.workers| <= c.maxWorkers + 1
      && forall w :: w in a.workers && w !in a.idle ==> |a.idle| < c.maxWorkers + 1
  {
    AlwaysInv(c, conf, forks, es);
    var a := After(c, conf, forks, es);
    DistinctSubsetLength(a.idle, a.workers);
    forall w | w in a.workers && w !in a.idle ensures |a.idle| < c.maxWorkers + 1 {
      DistinctSubsetLength(a.idle + [w], a.workers);
    }
  }

  /** No two workers hold the same request, and what a worker holds is neither waiting nor finished. */
  lemma RequestsAreNotShared(c: Config, conf: Limits, forks: seq<int>, es: seq<Event>)
    requires Possible(c, conf, forks, es)
    ensures var a := After(c, conf, forks, es);
      && (forall v, w :: v in a.wkr && w in a.wkr && v != w && a.wkr[v].req.Some? ==>
            a.wkr[v].req != a.wkr[w].req)
      && (forall w :: w in a.wkr && a.wkr[w].req.Some? ==>
            var r := a.wkr[w].req.value; r in a.admitted && r !in a.messages && r !in Names(a.finished))
  {
    AlwaysInv(c, conf, forks, es);
    var a := After(c, conf, forks, es);
    forall w | w in a.wkr && a.wkr[w].req.Some?
      ensures var r := a.wkr[w].req.value; r in a.admitted && r !in a.messages && r !in Names(a.finished)
      ensures forall v :: v in a.wkr && v != w ==> a.wkr[v].req != a.wkr[w].req
    {
      var r := a.wkr[w].req.value;
      assert w in a.workers;
      OnceEach(a.admitted, r);
      HeldWithout(a.workers, a.wkr, w);
      WithoutDistinct(a.workers, w);
      assert Everywhere(a)[r] == multiset(a.admitted)[r];
      forall v | v in a.wkr && v != w ensures a.wkr[v].req != Some(r) {
        assert v in a.workers;
        HeldWithout(Without(a.workers, w), a.wkr, v);
      }
    }
  }

  lemma OnceEach(s: seq<ReqId>, r: ReqId)
    requires Distinct(s)
    ensures multiset(s)[r] == if r in s then 1 else 0
  {
    if s != [] {
      OnceEach(s[1..], r);
      assert s == [s[0]] + s[1..];
    }
  }

  /** Lossless: admitted = waiting + in service + finished, and nothing finishes twice. */
  lemma NothingIsLost(c: Config, conf: Limits, forks: seq<int>, es: seq<Event>)
    requires Possible(c, conf, forks, es)
    ensures var a := After(c, conf, forks, es);
      && multiset(a.admitted) == multiset(a.messages) + Held(a.workers, a.wkr) + multiset(Names(a.finished))
      && Distinct(a.admitted) && Distinct(Names(a.finished))
      && (a.phase == Destroyed ==> multiset(a.admitted) == multiset(Names(a.finished)))
  {
    hide Inv, Everywhere, Held;
    AlwaysInv(c, conf, forks, es);
    var a := After(c, conf, forks, es);
    Accounts(c, a);
    OncePerElement(a.admitted, Names(a.finished));
  }

  /** The invariant's ledger, spelled out. */
  lemma Accounts(c: Config, a: App)
    requires Inv(c, a)
    ensures multiset(a.admitted) == multiset(a.messages) + Held(a.workers, a.wkr) + multiset(Names(a.finished))
    ensures Distinct(a.admitted)
    ensures a.phase == Destroyed ==> multiset(a.admitted) == multiset(Names(a.finished))
  {}

  lemma OncePerElement(s: seq<ReqId>, n: seq<ReqId>)
    requires Distinct(s) && multiset(n) <= multiset(s)
    ensures Distinct(n)
  {
    forall i, j | 0 <= i < j < |n| ensures n[i] != n[j] {
      OnceEach(s, n[i]);
      assert n == n[..j] + [n[j]] + n[j + 1..];
      assert n[..j][i] == n[i];
      assert multiset(n[..j])[n[i]] >= 1;
    }
  }

  /** First in, first out: whatever was not withdrawn while waiting starts in admission order. */
  lemma ServedInOrder(c: Config, conf: Limits, forks: seq<int>, es: seq<Event>)
    requires Possible(c, conf, forks, es)
    ensures var a := After(c, conf, forks, es);
      && a.started + a.messages == Keep(a.admitted, a.withdrawn)
      && (forall r :: r in a.withdrawn ==> r in Names(a.finished) && r !in a.started)
      && (forall r :: r in a.started ==> r in Held(a.workers, a.wkr) || r in Names(a.finished))
  {
    AlwaysInv(c, conf, forks, es);
    var a := After(c, conf, forks, es);
    KeepMembers(a.admitted, a.withdrawn);
    DistinctParts(a.started, a.messages);
    forall r | r in a.started
      ensures r !in a.withdrawn
      ensures r in Held(a.workers, a.wkr) || r in Names(a.finished)
    {
      var i :| 0 <= i < |a.started| && a.started[i] == r;
      assert (a.started + a.messages)[i] == r;
      assert r in Keep(a.admitted, a.withdrawn);
      assert r in multiset(a.admitted);
      assert r in Everywhere(a);
    }
  }

  /** At rest no request waits while a worker is idle; waiting requests mean every worker is busy. */
  lemma NeverIdleWhileWaiting(c: Config, conf: Limits, forks: seq<int>, es: seq<Event>)
    requires Possible(c, conf, forks, es)
    ensures var a := After(c, conf, forks, es);
      a.messages != [] ==> forall w :: w in a.wkr ==> a.wkr[w].req.Some?
  {
    AlwaysInv(c, conf, forks, es);
    EveryWorkerIdleOrBusy(c, conf, forks, es);
  }

  // ----- how many workers -----

  predicate Spawns(c: Config, e: Event) {
    e.Reload? && c.maxPending > 0 && c.addTrials > 0 && e.forks != [] && e.forks[0] > 0
  }

  /** The workers that hold a request, as the two queue lengths tell. */
  function InUse(a: App): int {
    |a.workers| - |a.idle|
  }

  /** A newcomer that connects is enrolled if this many workers leave room for it. */
  function Newcomer(c: Config, connected: bool, workers: int): int {
    if connected && workers < c.maxWorkers + 1 then 1 else 0
  }

  /**
   * The steps after which there are more processes than the limit in force allows: a reload that finds
   * the pool full and forks, and the first registration after a reload if it installs a limit that the
   * busy workers, the other pending ones and the newcomer do not fit.
   */
  predicate Exceeding(c: Config, a: App, e: Event) {
    match e
    case Reload(_, _) => |a.workers| == a.conf.max && Spawns(c, e)
    case Register(_, pid, connected, _) =>
      && a.phase == Restart && a.next.Some? && pid in a.pending
      && |a.pending| - 1 + InUse(a) + Newcomer(c, connected, InUse(a)) > a.next.value.max
    case _ => false
  }

  /** `b` is `a` a step later: within the same limits, and no restart has been asked for. */
  ghost predicate Stays(a: App, b: App) {
    Total(b) <= b.conf.max && b.conf == a.conf && (b.phase == Restart ==> a.phase == Restart)
  }

  /** From a state within the limit, exactly these steps lead out of it. */
  lemma ExceedsExactly(c: Config, a: App, e: Event)
    requires Inv(c, a) && Enabled(c, a, e) && Total(a) <= a.conf.max
    ensures var b := Step(c, a, e);
      && (Total(b) > b.conf.max <==> Exceeding(c, a, e))
      && (!e.Reload? && a.phase != Restart ==> Stays(a, b))
  {
    if WorkerEvent(e) {
      WorkerEventTotal(c, a, e);
    } else {
      AppEventTotal(c, a, e);
    }
  }

  lemma AppEventTotal(c: Config, a: App, e: Event)
    requires Inv(c, a) && Enabled(c, a, e) && Total(a) <= a.conf.max && !WorkerEvent(e)
    ensures var b := Step(c, a, e);
      && (Total(b) > b.conf.max <==> Exceeding(c, a, e))
      && (!e.Reload? && a.phase != Restart ==> Stays(a, b))
  {
    hide Inv, Balance, FreeWkr, Drain, FreeAll, Accept, Renew;
    assert Bounds(c, a) by { TheBounds(c, a); }
    match e
    case Register(w, pid, connected, forks) =>
      if a.phase == Restart {
        RestartTotal(c, a, w, pid, connected, forks);
      } else {
        RegisterTotal(c, a, w, pid, connected, forks);
      }
    case AddTimeout(forks) => AddTimeoutTotal(c, a, forks);
    case AddError(pid) =>
      if pid in a.pending { TakenIsPermutation(a.pending, pid); }
      DestroyTotal(a.(timeouts := 0));
    case RemoveTimer(pid) => RemoveTimerTotal(a, pid);
    case RemoveApp => DestroyTotal(a);
    case Abort(r) =>
    case Complete(r) =>
    case AddTimer(forks) =>
    case Reload(limits, forks) =>
  }

  lemma TheBounds(c: Config, a: App)
    requires Inv(c, a)
    ensures Bounds(c, a)
  {}

  lemma WorkerEventTotal(c: Config, a: App, e: Event)
    requires Enabled(c, a, e) && Total(a) <= a.conf.max && a.conf.min <= a.conf.max && WorkerEvent(e)
    ensures Stays(a, Step(c, a, e))
  {
    hide Balance, FreeWkr, Allocate, StateMachine, ProgressStep, RespondStep;
    match e
    case Respond(w) => RespondTotal(c, a, w);
    case Gone(w, forks) =>
      ActionTotal(c, a, w, ToRemove, []);
      BalanceTotal(c, StateMachine(c, a, w, ToRemove, []), forks);
    case PingTimer(w, forks) => ActionTotal(c, a, w, ToPingTimeout, forks);
    case Broken(w) => ActionTotal(c, a, w, ToError, []);
    case Progress(w) => ProgressTotal(c, a, w);
    case PingReply(w) => ActionTotal(c, a, w, ToPingReply, []);
  }

  lemma ActionTotal(c: Config, a: App, w: WkrId, action: Action, forks: seq<int>)
    requires w in a.wkr && Total(a) <= a.conf.max && a.conf.min <= a.conf.max
    ensures Stays(a, StateMachine(c, a, w, action, forks))
  {
    hide Balance, FreeWkr, Allocate;
    FreeTotal(a, w);
    BalanceTotal(c, FreeWkr(a, w), forks);
    AllocateTotal(c, a.(wkr := a.wkr[w := a.wkr[w].(state := Inactive)]), w);
  }

  lemma AllocateTotal(c: Config, a: App, w: WkrId)
    requires w in a.wkr
    ensures var b := Allocate(c, a, w); Total(b) == Total(a) && b.conf == a.conf && b.phase == a.phase
  {}

  lemma RespondTotal(c: Config, a: App, w: WkrId)
    requires w in a.wkr && Total(a) <= a.conf.max && a.conf.min <= a.conf.max
    ensures Stays(a, RespondStep(c, a, w))
  {
    hide StateMachine;
    var b := a.(wkr := a.wkr[w := a.wkr[w].(req := None)],
                finished := a.finished + Outcomes(ReqOf(a.wkr, w), Served));
    ActionTotal(c, b, w, ToProcessed, []);
  }

  lemma ProgressTotal(c: Config, a: App, w: WkrId)
    requires w in a.wkr && Total(a) <= a.conf.max && a.conf.min <= a.conf.max
    ensures Stays(a, ProgressStep(c, a, w))
  {
    hide StateMachine;
    ActionTotal(c, a, w, ToProcess, []);
  }

  lemma RegisterTotal(c: Config, a: App, w: WkrId, pid: int, connected: bool, forks: seq<int>)
    requires Total(a) <= a.conf.max && a.phase != Restart && a.conf.min <= a.conf.max
    ensures Stays(a, RegisterStep(c, a, w, pid, connected, forks))
  {
    if Wanted(a, pid) {
      TakenIsPermutation(a.pending, pid);
      var d := Accept(a, pid);
      var b := d.(workers := d.workers + [w], wkr := d.wkr[w := Wkr(Inactive, None, 0, pid)]);
      BalanceTotal(c, Allocate(c, b, w), forks);
    }
  }

  /** The first registration after a reload: who is left, and under which limit. */
  lemma RestartTotal(c: Config, a: App, w: WkrId, pid: int, connected: bool, forks: seq<int>)
    requires Inv(c, a) && Total(a) <= a.conf.max && a.phase == Restart && w !in a.wkr
    ensures var b := RegisterStep(c, a, w, pid, connected, forks);
      Total(b) > b.conf.max <==> Exceeding(c, a, Register(w, pid, connected, forks))
  {
    hide Allocate, Balance, Accept, Inv;
    TheBounds(c, a);
    if Wanted(a, pid) {
      TakenIsPermutation(a.pending, pid);
      var d := Accept(a, pid);
      AcceptRestart(c, a, pid);
      if connected && |d.workers| < c.maxWorkers + 1 {
        var b := d.(workers := d.workers + [w], wkr := d.wkr[w := Wkr(Inactive, None, 0, pid)]);
        AllocateTotal(c, b, w);
        BalanceTotal(c, Allocate(c, b, w), forks);
      }
    }
  }

  lemma AcceptRestart(c: Config, a: App, pid: int)
    requires Inv(c, a) && a.phase == Restart && pid in a.pending
    ensures var d := Accept(a, pid);
      && |d.workers| == InUse(a) && d.pending == Taken(a.pending, pid)
      && d.conf == a.next.value && d.phase == Restarting
  {
    AcceptPending(a, pid);
    FreeIdleCount(a.(pending := Taken(a.pending, pid), timeouts := 0, conf := a.next.value, next := None));
  }

  lemma FreeIdleCount(a: App)
    requires Distinct(a.workers) && Distinct(a.idle) && forall v :: v in a.idle ==> v in a.workers
    ensures |FreeIdle(a).workers| == InUse(a) && FreeIdle(a).conf == a.conf
    decreases |a.idle|
  {
    if a.idle != [] {
      WithoutDistinct(a.workers, a.idle[0]);
      WithoutDistinct(a.idle, a.idle[0]);
      FreeIdleCount(FreeWkr(a, a.idle[0]));
    }
  }

  lemma AddTimeoutTotal(c: Config, a: App, forks: seq<int>)
    requires Total(a) <= a.conf.max && a.phase != Destroyed && a.conf.min <= a.conf.max
    ensures Stays(a, AddTimeoutStep(c, a, forks))
  {
    var t := a.timeouts + 1;
    var b := a.(timeouts := if t == c.addTrials then t + 1 else t, pending := KillPending(c, t, a.pending));
    BalanceTotal(c, b, forks);
    DestroyTotal(b.(timeouts := 0));
  }

  lemma RemoveTimerTotal(a: App, pid: Option<int>)
    requires Total(a) <= a.conf.max
    ensures Stays(a, RemoveTimerStep(a, pid))
  {
    if pid.Some? && WithPid(a.idle, a.wkr, pid.value).Some? {
      FreeTotal(a, WithPid(a.idle, a.wkr, pid.value).value);
    }
  }

  lemma FreeTotal(a: App, w: WkrId)
    ensures var b := FreeWkr(a, w); Total(b) <= Total(a) && b.conf == a.conf && b.phase == a.phase
  {
    WithoutShorter(a.workers, w);
  }

  lemma BalanceTotal(c: Config, a: App, forks: seq<int>)
    requires a.conf.min <= a.conf.max
    ensures var b := Balance(c, a, forks);
      && (Total(a) <= a.conf.max <==> Total(b) <= a.conf.max)
      && (b.phase == a.phase || (a.phase == Restart && b.phase == Serving)) && b.conf == a.conf
  {
    FillFrame(c, a, forks);
    FillGrows(c, a, forks);
  }

  lemma {:induction false} FillGrows(c: Config, a: App, forks: seq<int>)
    ensures Total(a) <= Total(Fill(c, a, forks))
    decreases |forks|
  {
    if Total(a) < a.conf.min && Spawn(c, a, forks).1 {
      FillGrows(c, Spawn(c, a, forks).0, forks[1..]);
    }
  }

  lemma DestroyTotal(a: App)
    ensures Total(Destroy(a)) == 0 && Destroy(a).conf == a.conf && Destroy(a).phase == Destroyed
  {
    FreeAllFrame(a.(phase := Destroyed, next := None));
  }

  lemma FreeAllFrame(a: App)
    ensures var b := FreeAll(a); b.workers == [] && b.conf == a.conf && b.phase == a.phase
    decreases |a.workers|
  {
    if a.workers != [] { FreeAllFrame(FreeWkr(a, a.workers[0])); }
  }

  /** Every state of the run is within the limit in force in that state. */
  ghost predicate Within(c: Config, a: App, es: seq<Event>)
    requires Feasible(c, a, es)
    decreases |es|
  {
    Total(a) <= a.conf.max && (es == [] || Within(c, Step(c, a, es[0]), es[1..]))
  }

  /** No step of the run is an exceeding one. */
  ghost predicate Moderate(c: Config, a: App, es: seq<Event>)
    requires Feasible(c, a, es)
    decreases |es|
  {
    es == [] || (!Exceeding(c, a, es[0]) && Moderate(c, Step(c, a, es[0]), es[1..]))
  }

  /** A run of a new application stays within the limits if and only if none of its steps is exceeding. */
  lemma WithinExactly(c: Config, conf: Limits, forks: seq<int>, es: seq<Event>)
    requires Possible(c, conf, forks, es)
    ensures var a := Initial(c, conf, forks); Within(c, a, es) <==> Moderate(c, a, es)
  {
    InitialInv(c, conf, forks);
    StartsWithin(c, conf, forks);
    WithinFrom(c, Initial(c, conf, forks), es);
  }

  lemma StartsWithin(c: Config, conf: Limits, forks: seq<int>)
    requires LimitsOk(c, conf)
    ensures var a := Initial(c, conf, forks); Total(a) <= a.conf.max && a.conf == conf && a.phase == New
  {
    BalanceTotal(c, App([], [], [], [], map[], New, conf, None, 0, [], [], [], {}, {}), forks);
  }

  lemma {:induction false} WithinFrom(c: Config, a: App, es: seq<Event>)
    requires Inv(c, a) && Feasible(c, a, es) && Total(a) <= a.conf.max
    ensures Within(c, a, es) <==> Moderate(c, a, es)
    decreases |es|
  {
    if es != [] {
      hide Inv, Step, Exceeding, Enabled;
      var b := Step(c, a, es[0]);
      ExceedsExactly(c, a, es[0]);
      StepKeeps(c, a, es[0]);
      if Total(b) <= b.conf.max { WithinFrom(c, b, es[1..]); }
    }
  }

  lemma TwoSteps(c: Config, a: App, e: Event, f: Event)
    requires Enabled(c, a, e) && Enabled(c, Step(c, a, e), f)
    ensures Feasible(c, a, [e, f]) && Run(c, a, [e, f]) == Step(c, Step(c, a, e), f)
  {
    hide Step, Enabled;
    assert [e, f][1..] == [f] && [f][1..] == [];
    assert Feasible(c, Step(c, a, e), [f]);
    assert Run(c, Step(c, a, e), [f]) == Step(c, Step(c, a, e), f);
  }

  /** A run that exceeds the limit by a reload: one worker allowed, one registered, then the reload. */
  lemma ReloadCanExceed(c: Config)
    requires c.maxWorkers > 0 && c.maxPending > 0 && c.addTrials > 0
    ensures var es := [Register(1, 77, true, []), Reload(Limits(1, 1), [78])];
      Possible(c, Limits(1, 1), [77], es) && Total(After(c, Limits(1, 1), [77], es)) == 2
  {
    hide Step;
    var a := Initial(c, Limits(1, 1), [77]);
    assert a.pending == [77] && a.phase == New && a.conf == Limits(1, 1) && a.workers == [] && a.idle == []
      && a.messages == [] && a.wkr == map[];
    FirstIn(c, a, 1, 77);
    Reloaded(c, Step(c, a, Register(1, 77, true, [])), Limits(1, 1), 78);
    TwoSteps(c, a, Register(1, 77, true, []), Reload(Limits(1, 1), [78]));
  }

  /**
   * A run that exceeds the limit by a registration: the reload finds one worker where two are allowed and
   * exceeds nothing, but it asks for a limit of one, and the worker is busy when the new one arrives.
   */
  lemma RegistrationCanExceed(c: Config)
    requires c.maxWorkers > 1 && c.maxPending > 0 && c.maxMessages > 0 && c.addTrials > 0
    ensures var es := [Register(1, 77, true, []), Complete(9), Reload(Limits(1, 1), [78])];
      var f := Register(2, 78, true, []);
      && Possible(c, Limits(1, 2), [77], es) && Within(c, Initial(c, Limits(1, 2), [77]), es)
      && var b := After(c, Limits(1, 2), [77], es);
      Enabled(c, b, f) && Exceeding(c, b, f) && Total(Step(c, b, f)) == 2 > Step(c, b, f).conf.max
  {
    hide Step, Exceeding;
    var a0 := Initial(c, Limits(1, 2), [77]);
    var e0, e1, e2 := Register(1, 77, true, []), Complete(9), Reload(Limits(1, 1), [78]);
    assert a0.pending == [77] && a0.phase == New && a0.conf == Limits(1, 2) && a0.workers == [] && a0.idle == []
      && a0.messages == [] && a0.wkr == map[] && a0.admitted == [] && a0.refused == {};
    FirstIn(c, a0, 1, 77);
    var a1 := Step(c, a0, e0);
    OneRequest(c, a1, 1, 9);
    var a2 := Step(c, a1, e1);
    Reloaded(c, a2, Limits(1, 1), 78);
    ThreeSteps(c, a0, e0, e1, e2);
    OneLeft(c, Step(c, a2, e2), 2, 78);
  }

  lemma FirstIn(c: Config, a: App, w: WkrId, pid: int)
    requires a.phase == New && a.pending == [pid] && a.workers == [] && a.idle == [] && a.messages == []
    requires a.wkr == map[] && a.conf.min <= 1 && a.conf.max > 0
    ensures var e := Register(w, pid, true, []); Enabled(c, a, e) && var b := Step(c, a, e);
      && b.workers == [w] && b.idle == [w] && b.pending == [] && b.messages == [] && b.phase == Serving
      && b.wkr.Keys == {w} && b.conf == a.conf && b.admitted == a.admitted && b.refused == a.refused
  {
    assert Taken([pid], pid) == [];
  }

  lemma OneRequest(c: Config, a: App, w: WkrId, r: ReqId)
    requires a.phase == Serving && a.workers == [w] && a.idle == [w] && a.messages == [] && a.wkr.Keys == {w}
    requires r !in a.admitted && r !in a.refused && c.maxMessages > 0
    ensures var e := Complete(r); Enabled(c, a, e) && var b := Step(c, a, e);
      && b.workers == [w] && b.idle == [] && b.pending == a.pending && b.phase == Serving
      && b.wkr.Keys == {w} && b.conf == a.conf
  {}

  lemma Reloaded(c: Config, a: App, limits: Limits, pid: int)
    requires a.phase == Serving && a.pending == [] && pid > 0 && LimitsOk(c, limits)
    requires c.maxPending > 0 && c.addTrials > 0
    ensures var e := Reload(limits, [pid]); Enabled(c, a, e) && var b := Step(c, a, e);
      && b.workers == a.workers && b.idle == a.idle && b.wkr == a.wkr && b.pending == [pid]
      && b.phase == Restart && b.next == Some(limits) && b.conf == a.conf
  {}

  /** The registration at the end of that run. */
  lemma OneLeft(c: Config, a: App, w: WkrId, pid: int)
    requires a.phase == Restart && a.next == Some(Limits(1, 1)) && a.pending == [pid]
    requires |a.workers| == 1 && a.idle == [] && w !in a.wkr && c.maxWorkers > 1 && a.conf.max > 1
    ensures var e := Register(w, pid, true, []);
      && Enabled(c, a, e) && Exceeding(c, a, e)
      && Total(Step(c, a, e)) == 2 && Step(c, a, e).conf.max == 1
  {
    assert Taken([pid], pid) == [];
    var d := Accept(a, pid);
    assert |d.workers| == 1 && d.pending == [] && d.conf == Limits(1, 1);
  }

  lemma ThreeSteps(c: Config, a: App, e: Event, f: Event, g: Event)
    requires Enabled(c, a, e) && Enabled(c, Step(c, a, e), f) && Enabled(c, Step(c, Step(c, a, e), f), g)
    ensures var b := Step(c, a, e); var d := Step(c, b, f); var z := Step(c, d, g); var es := [e, f, g];
      && Feasible(c, a, es) && Run(c, a, es) == z
      && (Total(a) <= a.conf.max && Total(b) <= b.conf.max && Total(d) <= d.conf.max && Total(z) <= z.conf.max
          ==> Within(c, a, es))
  {
    hide Step, Enabled;
    var es := [e, f, g];
    var b := Step(c, a, e);
    var d := Step(c, b, f);
    var z := Step(c, d, g);
    TwoSteps(c, b, f, g);
    assert es[1..] == [f, g] && [f, g][1..] == [g] && [g][1..] == [];
    assert Feasible(c, z, []) && Feasible(c, d, [g]);
    assert Total(z) <= z.conf.max ==> Within(c, z, []);
    assert Total(d) <= d.conf.max && Total(z) <= z.conf.max ==> Within(c, d, [g]);
  }

  /** In an application that is never reloaded, pending and registered workers stay within the limit. */
  lemma WorkersStayWithinLimit(c: Config, conf: Limits, forks: seq<int>, es: seq<Event>)
    requires Possible(c, conf, forks, es)
    requires forall e :: e in es ==> !e.Reload?
    ensures Within(c, Initial(c, conf, forks), es) && Total(After(c, conf, forks, es)) <= conf.max
  {
    InitialInv(c, conf, forks);
    StartsWithin(c, conf, forks);
    NeverReloaded(c, Initial(c, conf, forks), es);
    WithinExactly(c, conf, forks, es);
  }

  /** Without reloads no step is exceeding and the limits do not change. */
  lemma {:induction false} NeverReloaded(c: Config, a: App, es: seq<Event>)
    requires Inv(c, a) && Total(a) <= a.conf.max && a.phase != Restart && Feasible(c, a, es)
    requires forall e :: e in es ==> !e.Reload?
    ensures Moderate(c, a, es) && Run(c, a, es).conf == a.conf && Total(Run(c, a, es)) <= a.conf.max
    decreases |es|
  {
    if es != [] {
      ExceedsExactly(c, a, es[0]);
      StepKeeps(c, a, es[0]);
      NeverReloaded(c, Step(c, a, es[0]), es[1..]);
    }
  }

  /**
   * A worker's ADD either changes nothing, the pending queue and its order included, or takes
   * exactly one pid out of that queue; only then, and only if it can be reached, is it registered.
   */
  lemma RegistrationConsumesOnePid(c: Config, a: App, w: WkrId, pid: int, connected: bool, forks: seq<int>)
    requires Inv(c, a) && Enabled(c, a, Register(w, pid, connected, forks))
    ensures var b := Step(c, a, Register(w, pid, connected, forks));
      && (pid !in a.pending ==> b == a)
      && (b == a || (&& pid in a.pending && Taken(a.pending, pid) <= b.pending
                     && multiset(Taken(a.pending, pid)) + multiset{pid} == multiset(a.pending)))
      && (w in b.wkr ==> connected && b.wkr[w].pid == pid)
      && (w in b.wkr ==> a.phase == Restart || |a.workers| < a.conf.max)
  {
    if Wanted(a, pid) {
      TakenIsPermutation(a.pending, pid);
      assert forall v :: v in Accept(a, pid).wkr ==> v in a.wkr by { AcceptKeeps(c, a, pid); }
      assert Accept(a, pid).pending == Taken(a.pending, pid) by { AcceptPending(a, pid); }
      if connected { EnrolPending(c, Accept(a, pid), w, pid, forks); }
    }
  }

  lemma AcceptPending(a: App, pid: int)
    requires pid in a.pending && (a.phase == Restart ==> a.next.Some?)
    ensures Accept(a, pid).pending == Taken(a.pending, pid)
  {
    if a.phase == Restart {
      FreeIdlePending(a.(pending := Taken(a.pending, pid), timeouts := 0, conf := a.next.value, next := None));
    }
  }

  lemma FreeIdlePending(a: App)
    ensures FreeIdle(a).pending == a.pending
    decreases |a.idle|
  {
    if a.idle != [] { FreeIdlePending(FreeWkr(a, a.idle[0])); }
  }

  lemma EnrolPending(c: Config, a: App, w: WkrId, pid: int, forks: seq<int>)
    requires w !in a.wkr
    ensures var b := Enrol(c, a, w, pid, forks);
      a.pending <= b.pending && (w in b.wkr ==> b.wkr[w].pid == pid)
  {
    var b := a.(workers := a.workers + [w], wkr := a.wkr[w := Wkr(Inactive, None, 0, pid)]);
    FillAppends(c, Allocate(c, b, w), forks);
  }

  lemma {:induction false} FillAppends(c: Config, a: App, forks: seq<int>)
    ensures a.pending <= Fill(c, a, forks).pending && Fill(c, a, forks).wkr == a.wkr
    decreases |forks|
  {
    if Total(a) < a.conf.min && Spawn(c, a, forks).1 {
      FillAppends(c, Spawn(c, a, forks).0, forks[1..]);
    }
  }

  // ----- how long a silent worker is tolerated -----

  /** Events that show `w` working on its response, or that would bring it back. */
  predicate Sign(e: Event, w: WkrId) {
    (e.Progress? || e.Respond? || e.Register?) && e.w == w
  }

  /** How often the wait timer of `w` fires. */
  function Firings(es: seq<Event>, w: WkrId): nat {
    if es == [] then 0 else (if es[0].PingTimer? && es[0].w == w then 1 else 0) + Firings(es[1..], w)
  }

  /** `w` still serves `r`, and its ping budget has shrunk by `spent`. */
  ghost predicate StillServing(a: App, b: App, w: WkrId, r: ReqId, spent: nat) {
    w in b.wkr && b.wkr[w].req == Some(r) && w in a.wkr && b.wkr[w].trials == a.wkr[w].trials + spent
  }

  /** `w` has left the pool and `r` has been answered with an error. */
  ghost predicate GivenUp(b: App, w: WkrId, r: ReqId) {
    w !in b.wkr && (r, Failed) in b.finished
  }

  /** What any event but a sign of life does to a busy worker. */
  lemma SilentStep(c: Config, a: App, e: Event, w: WkrId, r: ReqId)
    requires Pool(c, a, {}) && Enabled(c, a, e) && !Sign(e, w)
    requires w in a.wkr && a.wkr[w].req == Some(r)
    ensures var b := Step(c, a, e);
      GivenUp(b, w, r) || StillServing(a, b, w, r, if e.PingTimer? && e.w == w then 1 else 0)
  {
    assert w in a.workers && w !in a.idle && InService(a.wkr[w].state) by { assert Settled(c, a, w); }
    if WorkerEvent(e) {
      SilentWorkerEvent(c, a, e, w, r);
    } else {
      match e
      case RemoveTimer(pid) => SilentRemoveTimer(c, a, pid, w, r);
      case Register(v, pid, connected, forks) => SilentRegister(c, a, v, pid, connected, forks, w, r);
      case _ => SilentAppEvent(c, a, e, w, r);
    }
  }

  lemma SilentWorkerEvent(c: Config, a: App, e: Event, w: WkrId, r: ReqId)
    requires Enabled(c, a, e) && !Sign(e, w) && WorkerEvent(e)
    requires w in a.wkr && a.wkr[w].req == Some(r) && InService(a.wkr[w].state)
    ensures var b := Step(c, a, e);
      GivenUp(b, w, r) || StillServing(a, b, w, r, if e.PingTimer? && e.w == w then 1 else 0)
  {
    match e
    case PingTimer(v, forks) => SilentPingTimer(c, a, v, forks, w, r);
    case Gone(v, forks) => SilentGone(c, a, v, forks, w, r);
    case Broken(v) => FreeOther(a, v, w, r);
    case Respond(v) => SilentRespond(c, a, v, w, r);
    case Progress(v) => FreeOther(a, v, w, r);
    case PingReply(v) => FreeOther(a, v, w, r);
  }

  lemma SilentAppEvent(c: Config, a: App, e: Event, w: WkrId, r: ReqId)
    requires Enabled(c, a, e) && !WorkerEvent(e) && !e.RemoveTimer? && !e.Register?
    requires w in a.workers && w !in a.idle && w in a.wkr && a.wkr[w].req == Some(r)
    ensures GivenUp(Step(c, a, e), w, r) || StillServing(a, Step(c, a, e), w, r, 0)
  {
    match e
    case Complete(q) => SilentComplete(c, a, q, w, r);
    case AddError(pid) => SilentDestroy(a.(timeouts := 0), w, r);
    case AddTimeout(forks) => SilentAddTimeout(c, a, forks, w, r);
    case RemoveApp => SilentDestroy(a, w, r);
    case Abort(_) =>
    case Reload(_, _) =>
    case AddTimer(_) =>
  }

  lemma SilentComplete(c: Config, a: App, q: ReqId, w: WkrId, r: ReqId)
    requires w !in a.idle && w in a.wkr && a.wkr[w].req == Some(r)
    ensures StillServing(a, CompleteStep(c, a, q), w, r, 0)
  {}

  lemma SilentPingTimer(c: Config, a: App, v: WkrId, forks: seq<int>, w: WkrId, r: ReqId)
    requires v in a.wkr && w in a.wkr && a.wkr[w].req == Some(r) && InService(a.wkr[w].state)
    ensures var b := StateMachine(c, a, v, ToPingTimeout, forks);
      GivenUp(b, w, r) || StillServing(a, b, w, r, if v == w then 1 else 0)
  {
    FreeOther(a, v, w, r);
    FillFrame(c, FreeWkr(a, v), forks);
  }

  lemma SilentGone(c: Config, a: App, v: WkrId, forks: seq<int>, w: WkrId, r: ReqId)
    requires w in a.wkr && a.wkr[w].req == Some(r)
    ensures var b := FreeWkr(a, v);
      var d := if b.phase == Serving then Balance(c, b, forks) else b;
      GivenUp(d, w, r) || StillServing(a, d, w, r, 0)
  {
    FreeOther(a, v, w, r);
    FillFrame(c, FreeWkr(a, v), forks);
  }

  lemma FreeOther(a: App, v: WkrId, w: WkrId, r: ReqId)
    requires w in a.wkr && a.wkr[w].req == Some(r)
    ensures a.finished <= FreeWkr(a, v).finished
    ensures if v == w then GivenUp(FreeWkr(a, v), w, r)
            else w in FreeWkr(a, v).wkr && FreeWkr(a, v).wkr[w] == a.wkr[w]
  {
    if v == w {
      var b := FreeWkr(a, w);
      assert b.finished[|a.finished|] == (r, Failed);
    }
  }

  lemma SilentRespond(c: Config, a: App, v: WkrId, w: WkrId, r: ReqId)
    requires v != w && v in a.wkr && w in a.wkr && a.wkr[w].req == Some(r)
    ensures StillServing(a, RespondStep(c, a, v), w, r, 0)
  {
    var b := a.(wkr := a.wkr[v := a.wkr[v].(req := None)],
                finished := a.finished + Outcomes(ReqOf(a.wkr, v), Served));
    FreeOther(b, v, w, r);
  }

  lemma SilentRemoveTimer(c: Config, a: App, pid: Option<int>, w: WkrId, r: ReqId)
    requires Pool(c, a, {}) && w in a.wkr && a.wkr[w].req == Some(r)
    ensures StillServing(a, RemoveTimerStep(a, pid), w, r, 0)
  {
    assert w in a.workers && Settled(c, a, w);
    if pid.Some? && WithPid(a.idle, a.wkr, pid.value).Some? {
      FreeOther(a, WithPid(a.idle, a.wkr, pid.value).value, w, r);
    }
  }

  lemma {:induction false} FreeIdleSpares(a: App, w: WkrId, r: ReqId)
    requires w in a.wkr && a.wkr[w].req == Some(r) && w !in a.idle && Distinct(a.idle)
    ensures w in FreeIdle(a).wkr && FreeIdle(a).wkr[w] == a.wkr[w]
    decreases |a.idle|
  {
    if a.idle != [] {
      FreeOther(a, a.idle[0], w, r);
      WithoutDistinct(a.idle, a.idle[0]);
      FreeIdleSpares(FreeWkr(a, a.idle[0]), w, r);
    }
  }

  lemma SilentAccept(c: Config, a: App, pid: int, w: WkrId, r: ReqId)
    requires Pool(c, a, {}) && pid in a.pending && (a.phase == Restart ==> a.next.Some?)
    requires w in a.wkr && a.wkr[w].req == Some(r)
    ensures StillServing(a, Accept(a, pid), w, r, 0)
  {
    assert w in a.workers && Settled(c, a, w);
    if a.phase == Restart {
      FreeIdleSpares(a.(pending := Taken(a.pending, pid), timeouts := 0, conf := a.next.value, next := None), w, r);
    }
  }

  lemma SilentRegister(c: Config, a: App, v: WkrId, pid: int, connected: bool, forks: seq<int>, w: WkrId, r: ReqId)
    requires Pool(c, a, {}) && w != v && w in a.wkr && a.wkr[w].req == Some(r)
    requires a.phase == Restart ==> a.next.Some?
    ensures StillServing(a, RegisterStep(c, a, v, pid, connected, forks), w, r, 0)
  {
    if Wanted(a, pid) {
      SilentAccept(c, a, pid, w, r);
      var d := Accept(a, pid);
      var b := d.(workers := d.workers + [v], wkr := d.wkr[v := Wkr(Inactive, None, 0, pid)]);
      FillAppends(c, Allocate(c, b, v), forks);
    }
  }

  lemma {:induction false} FreeAllGivesUp(a: App, w: WkrId, r: ReqId)
    requires w in a.wkr ==> w in a.workers && a.wkr[w].req == Some(r)
    requires w !in a.wkr ==> (r, Failed) in a.finished
    ensures GivenUp(FreeAll(a), w, r)
    decreases |a.workers|
  {
    if a.workers != [] {
      var v := a.workers[0];
      if w in a.wkr { FreeOther(a, v, w, r); }
      FreeAllGivesUp(FreeWkr(a, v), w, r);
    }
  }

  lemma SilentDestroy(a: App, w: WkrId, r: ReqId)
    requires w in a.workers && w in a.wkr && a.wkr[w].req == Some(r)
    ensures GivenUp(Destroy(a), w, r)
  {
    FreeAllGivesUp(a.(phase := Destroyed, next := None), w, r);
  }

  lemma SilentAddTimeout(c: Config, a: App, forks: seq<int>, w: WkrId, r: ReqId)
    requires w in a.workers && w in a.wkr && a.wkr[w].req == Some(r)
    ensures GivenUp(AddTimeoutStep(c, a, forks), w, r) || StillServing(a, AddTimeoutStep(c, a, forks), w, r, 0)
  {
    var t := a.timeouts + 1;
    var b := a.(timeouts := if t == c.addTrials then t + 1 else t, pending := KillPending(c, t, a.pending));
    SilentDestroy(b.(timeouts := 0), w, r);
    FillAppends(c, b, forks);
  }

  /**
   * A silent worker is pinged at most `ping_trials` times, whatever it replies and whatever else
   * happens meanwhile: once its timer has fired more often than its budget allows, it has left the
   * pool and its request has been answered with an error.
   */
  lemma {:induction false} SilentWorkerIsGivenUp(c: Config, a: App, es: seq<Event>, w: WkrId, r: ReqId)
    requires Inv(c, a) && Feasible(c, a, es)
    requires w in a.wkr && a.wkr[w].req == Some(r)
    requires forall e :: e in es ==> !Sign(e, w)
    ensures var b := Run(c, a, es);
      && (GivenUp(b, w, r) || StillServing(a, b, w, r, Firings(es, w)))
      && (a.wkr[w].trials + Firings(es, w) > c.pingTrials ==> GivenUp(b, w, r))
    decreases |es|
  {
    hide Inv, Step, Enabled, Pool, Sign;
    ThePool(c, a);
    if es != [] {
      var b := Step(c, a, es[0]);
      StepKeeps(c, a, es[0]);
      SilentStep(c, a, es[0], w, r);
      if GivenUp(b, w, r) {
        GivenUpForGood(c, b, es[1..], w, r);
      } else {
        SilentWorkerIsGivenUp(c, b, es[1..], w, r);
      }
    }
    assert w in Run(c, a, es).wkr ==> Run(c, a, es).wkr[w].trials <= c.pingTrials by {
      RunKeeps(c, a, es);
      ThePool(c, Run(c, a, es));
      BudgetHolds(c, Run(c, a, es), w);
    }
  }

  lemma ThePool(c: Config, a: App)
    requires Inv(c, a)
    ensures Pool(c, a, {})
  {}

  lemma BudgetHolds(c: Config, a: App, w: WkrId)
    requires Pool(c, a, {})
    ensures w in a.wkr ==> a.wkr[w].trials <= c.pingTrials
  {
    if w in a.wkr { assert w in a.workers && Settled(c, a, w); }
  }

  /** History only grows, and a worker that left does not come back without a new ADD. */
  lemma {:induction false} GivenUpForGood(c: Config, a: App, es: seq<Event>, w: WkrId, r: ReqId)
    requires Feasible(c, a, es) && GivenUp(a, w, r)
    requires forall e :: e in es ==> !Sign(e, w)
    ensures GivenUp(Run(c, a, es), w, r)
    decreases |es|
  {
    if es != [] {
      GivenUpStep(c, a, es[0], w, r);
      GivenUpForGood(c, Step(c, a, es[0]), es[1..], w, r);
    }
  }

  lemma GivenUpStep(c: Config, a: App, e: Event, w: WkrId, r: ReqId)
    requires Enabled(c, a, e) && !Sign(e, w) && GivenUp(a, w, r)
    ensures GivenUp(Step(c, a, e), w, r)
  {
    if WorkerEvent(e) {
      GoneAfterWorkerEvent(c, a, e, w, r);
    } else {
      match e
      case AddError(pid) => GoneAfterDestroy(a.(timeouts := 0), w, r);
      case AddTimeout(forks) => GoneAfterTimeout(c, a, forks, w, r);
      case RemoveApp => GoneAfterDestroy(a, w, r);
      case Register(v, pid, connected, forks) => GoneAfterRegister(c, a, v, pid, connected, forks, w, r);
      case _ =>
    }
  }

  lemma GoneAfterWorkerEvent(c: Config, a: App, e: Event, w: WkrId, r: ReqId)
    requires Enabled(c, a, e) && WorkerEvent(e) && GivenUp(a, w, r)
    ensures GivenUp(Step(c, a, e), w, r)
  {
    match e
    case PingTimer(v, forks) =>
      FillFrame(c, FreeWkr(a, v), forks);
      assert GivenUp(FreeWkr(a, v), w, r);
    case Gone(v, forks) =>
      FillFrame(c, FreeWkr(a, v), forks);
      assert GivenUp(FreeWkr(a, v), w, r);
    case Respond(v) => GoneAfterRespond(c, a, v, w, r);
    case _ =>
  }

  lemma GoneAfterRespond(c: Config, a: App, v: WkrId, w: WkrId, r: ReqId)
    requires v in a.wkr && GivenUp(a, w, r)
    ensures GivenUp(RespondStep(c, a, v), w, r)
  {
    var b := a.(wkr := a.wkr[v := a.wkr[v].(req := None)],
                finished := a.finished + Outcomes(ReqOf(a.wkr, v), Served));
    assert GivenUp(b, w, r);
  }

  lemma GoneAfterDestroy(a: App, w: WkrId, r: ReqId)
    requires GivenUp(a, w, r)
    ensures GivenUp(Destroy(a), w, r)
  {
    FreeAllGivesUp(a.(phase := Destroyed, next := None), w, r);
  }

  lemma GoneAfterTimeout(c: Config, a: App, forks: seq<int>, w: WkrId, r: ReqId)
    requires GivenUp(a, w, r)
    ensures GivenUp(AddTimeoutStep(c, a, forks), w, r)
  {
    hide Balance, Destroy;
    var t := a.timeouts + 1;
    var b := a.(timeouts := if t == c.addTrials then t + 1 else t, pending := KillPending(c, t, a.pending));
    GoneAfterDestroy(b.(timeouts := 0), w, r);
    GoneAfterBalance(c, b, forks, w, r);
  }

  lemma GoneAfterBalance(c: Config, a: App, forks: seq<int>, w: WkrId, r: ReqId)
    requires GivenUp(a, w, r)
    ensures GivenUp(Balance(c, a, forks), w, r)
  {
    FillFrame(c, a, forks);
  }

  lemma {:induction false} GoneAfterFreeIdle(a: App, w: WkrId, r: ReqId)
    requires GivenUp(a, w, r)
    ensures GivenUp(FreeIdle(a), w, r)
    decreases |a.idle|
  {
    if a.idle != [] { GoneAfterFreeIdle(FreeWkr(a, a.idle[0]), w, r); }
  }

  lemma GoneAfterRegister(c: Config, a: App, v: WkrId, pid: int, connected: bool, forks: seq<int>, w: WkrId, r: ReqId)
    requires GivenUp(a, w, r) && v != w && (a.phase == Restart ==> a.next.Some?)
    ensures GivenUp(RegisterStep(c, a, v, pid, connected, forks), w, r)
  {
    if Wanted(a, pid) {
      if a.phase == Restart {
        GoneAfterFreeIdle(a.(pending := Taken(a.pending, pid), timeouts := 0, conf := a.next.value, next := None), w, r);
      }
      var d := Accept(a, pid);
      var b := d.(workers := d.workers + [v], wkr := d.wkr[v := Wkr(Inactive, None, 0, pid)]);
      FillFrame(c, Allocate(c, b, v), forks);
    }
  }
}
