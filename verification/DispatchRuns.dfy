/** From single moves to steps, and from steps to whole runs of the dispatcher. */
module DispatchRuns {
  import opened Seqs
  import opened DispatchModel
  import opened DispatchSafety

  // ----- steps on the pending queue and the limits -----

  lemma FillOnlyForks(c: Config, a: App, forks: seq<int>)
    ensures Fill(c, a, forks).wkr == a.wkr && Balance(c, a, forks).wkr == a.wkr
  {
    FillFrame(c, a, forks);
  }

  /** Nothing in the invariant but `Bounds` reads the pending queue, the phase or the limits. */
  lemma ControlKeeps(c: Config, a: App, b: App)
    requires Inv(c, a) && Bounds(c, b)
    requires b == a.(pending := b.pending, phase := b.phase, conf := b.conf, next := b.next, timeouts := b.timeouts)
    ensures Inv(c, b)
  {
    assert Pool(c, b, {}) by {
      forall w | w in b.workers ensures Settled(c, b, w) { assert Settled(c, a, w); }
    }
  }

  lemma TakenIsPermutation(s: seq<int>, pid: int)
    requires pid in s
    ensures multiset(s) == multiset(Taken(s, pid)) + multiset{pid}
    ensures |Taken(s, pid)| == |s| - 1
  {
    var k := FirstIndex(s, pid);
    assert s == s[..k] + [pid] + s[k + 1..];
  }

  lemma AddTimeoutKeeps(c: Config, a: App, forks: seq<int>)
    requires Inv(c, a) && a.phase != Destroyed
    ensures Inv(c, AddTimeoutStep(c, a, forks))
  {
    hide Pool, Ledger, WorkConserving, AfterKill;
    var t := a.timeouts + 1;
    var b := a.(timeouts := if t == c.addTrials then t + 1 else t, pending := KillPending(c, t, a.pending));
    if t > c.addTrials {
      assert AddTimeoutStep(c, a, forks) == a.(timeouts := 0);
      ControlKeeps(c, a, a.(timeouts := 0));
    } else {
      assert AddTimeoutStep(c, a, forks) == AfterKill(c, b, forks);
      ControlKeeps(c, a, b);
      AfterKillKeeps(c, b, forks);
    }
  }

  lemma AfterKillKeeps(c: Config, a: App, forks: seq<int>)
    requires Inv(c, a) && a.phase != Destroyed
    ensures Inv(c, AfterKill(c, a, forks))
  {
    match a.phase
    case Restart => ControlKeeps(c, a, AfterKill(c, a, forks));
    case New =>
      ControlKeeps(c, a, a.(timeouts := 0));
      DestroyKeeps(c, a.(timeouts := 0));
    case _ => BalanceKeeps(c, a, forks);
  }

  lemma AddErrorKeeps(c: Config, a: App, pid: int)
    requires Inv(c, a) && a.phase != Destroyed
    ensures Inv(c, AddErrorStep(a, pid))
  {
    if pid in a.pending { TakenIsPermutation(a.pending, pid); }
    if a.phase == New {
      ControlKeeps(c, a, a.(timeouts := 0));
      DestroyKeeps(c, a.(timeouts := 0));
    } else {
      ControlKeeps(c, a, AddErrorStep(a, pid));
    }
  }

  /** Worker `w` goes if it is idle; if it is busy it keeps its request and expires. */
  ghost predicate ShedOne(a: App, w: WkrId, b: App)
    requires w in a.wkr
  {
    if w in a.idle then b.wkr == a.wkr - {w} && b.finished == a.finished && w !in b.idle
    else b == a.(wkr := a.wkr[w := a.wkr[w].(state := Expired)]) && a.wkr[w].req.Some?
  }

  /** One worker with the reported pid, if there is any and the pool is above its minimum; else nothing. */
  ghost predicate Shed(a: App, pid: Option<int>, b: App) {
    if |a.workers| > a.conf.min && pid.Some? && exists w :: w in a.wkr && a.wkr[w].pid == pid.value then
      exists w :: w in a.wkr && a.wkr[w].pid == pid.value && ShedOne(a, w, b)
    else
      b == a
  }

  lemma RemoveTimerKeeps(c: Config, a: App, pid: Option<int>)
    requires Inv(c, a) && a.phase != Destroyed
    ensures Inv(c, RemoveTimerStep(a, pid)) && Shed(a, pid, RemoveTimerStep(a, pid))
  {
    hide Inv, ShedOne;
    assert a.wkr.Keys == Elems(a.workers) && Distinct(a.idle) by { InvFacts(c, a); }
    if |a.workers| > a.conf.min && pid.Some? {
      var i, b := WithPid(a.idle, a.wkr, pid.value), WithPid(a.workers, a.wkr, pid.value);
      if i.Some? {
        FreeKeeps(c, a, i.value);
        ShedIdle(c, a, i.value);
      } else if b.Some? {
        BusyExpires(c, a, b.value);
      }
    }
  }

  lemma ShedIdle(c: Config, a: App, w: WkrId)
    requires Inv(c, a) && w in a.wkr && w in a.idle
    ensures ShedOne(a, w, FreeWkr(a, w))
  {
    InvWorker(c, a, w);
    WithoutDistinct(a.idle, w);
    assert a.finished + [] == a.finished;
  }

  lemma BusyExpires(c: Config, a: App, w: WkrId)
    requires Inv(c, a) && w in a.wkr && w !in a.idle && a.phase != Destroyed
    ensures var b := a.(wkr := a.wkr[w := a.wkr[w].(state := Expired)]); Inv(c, b) && ShedOne(a, w, b)
  {
    InvWorker(c, a, w);
    TouchKeeps(c, a, w, a.wkr[w].(state := Expired));
  }

  // ----- registration and reload -----

  /** Reload, first half: every idle worker is freed, no request is touched. */
  lemma FreeIdleKeeps(c: Config, a: App)
    requires Pool(c, a, {}) && Ledger(a)
    ensures var b := FreeIdle(a);
      && Pool(c, b, {}) && Ledger(b) && b.idle == []
      && b == a.(workers := b.workers, idle := [], wkr := b.wkr, finished := b.finished)
    decreases |a.idle|
  {
    if a.idle != [] {
      var w := a.idle[0];
      assert w in a.workers;
      assert {} - {w} == {};
      assert Pool(c, FreeWkr(a, w), {}) by { FreeKeepsPool(c, a, w, {}); }
      assert Ledger(FreeWkr(a, w)) by { FreeKeepsLedger(a, w); }
      FreeIdleKeeps(c, FreeWkr(a, w));
    }
  }

  /** Reload, second half: once no worker is idle, all may be marked EXPIRED. */
  lemma ExpireKeeps(c: Config, a: App)
    requires Pool(c, a, {}) && Ledger(a) && a.idle == []
    ensures var b := a.(wkr := ExpireAll(a.wkr));
      Pool(c, b, {}) && Ledger(b)
  {
    hide Ledger, Pool, Held;
    var b := a.(wkr := ExpireAll(a.wkr));
    HeldSame(a.workers, a.wkr, b.wkr);
    SameHeldKeepsLedger(a, b);
    ExpireKeepsPool(c, a);
  }

  lemma ExpireKeepsPool(c: Config, a: App)
    requires Pool(c, a, {}) && a.idle == []
    ensures Pool(c, a.(wkr := ExpireAll(a.wkr)), {})
  {
    var b := a.(wkr := ExpireAll(a.wkr));
    assert b.wkr.Keys == a.wkr.Keys;
    forall w | w in b.workers ensures Settled(c, b, w) { assert Settled(c, a, w); }
  }

  /** Exactly the idle workers go; if none of them holds a request, none is finished. */
  lemma {:induction false} FreeIdleLeaves(a: App)
    requires Distinct(a.idle) && forall w :: w in a.idle ==> w in a.wkr && a.wkr[w].req == None
    ensures var b := FreeIdle(a);
      && b.wkr == a.wkr - Elems(a.idle) && b.idle == []
      && b.finished == a.finished && b.messages == a.messages && b.conf == a.conf
    decreases |a.idle|
  {
    hide Distinct;
    if a.idle != [] {
      var w := a.idle[0];
      WithoutDistinct(a.idle, w);
      assert a.finished + [] == a.finished;
      FreeIdleLeaves(FreeWkr(a, w));
      assert Elems(a.idle) == {w} + Elems(Without(a.idle, w));
    }
  }

  lemma IdleHoldNothing(c: Config, a: App)
    requires Inv(c, a)
    ensures Distinct(a.idle) && forall w :: w in a.idle ==> w in a.wkr && a.wkr[w].req == None
    ensures forall w :: w in a.wkr && w !in a.idle ==> a.wkr[w].req.Some?
  {
    forall w | w in a.wkr ensures w in a.idle <==> a.wkr[w].req == None { InvWorker(c, a, w); }
  }

  /** A reload that takes effect: the idle workers go, the busy ones keep their requests and expire. */
  lemma RenewOutcome(c: Config, a: App)
    requires Inv(c, a) && a.next.Some?
    ensures var b := Renew(a);
      && b.wkr.Keys == a.wkr.Keys - Elems(a.idle) && b.idle == []
      && (forall w :: w in b.wkr ==> b.wkr[w] == a.wkr[w].(state := Expired) && a.wkr[w].req.Some?)
      && b.finished == a.finished && b.messages == a.messages && b.conf == a.next.value
  {
    hide Inv, Distinct, FreeIdle;
    IdleHoldNothing(c, a);
    FreeIdleLeaves(a.(conf := a.next.value, next := None));
  }

  lemma RenewKeeps(c: Config, a: App)
    requires Inv(c, a) && a.next.Some? && a.phase != Destroyed
    ensures Inv(c, Renew(a)) && Renew(a).phase == Restarting
  {
    var a' := a.(conf := a.next.value, next := None);
    assert Pool(c, a', {}) by {
      forall w | w in a'.workers ensures Settled(c, a', w) { assert Settled(c, a, w); }
    }
    FreeIdleKeeps(c, a');
    var b := FreeIdle(a');
    ExpireKeeps(c, b);
    var d := b.(wkr := ExpireAll(b.wkr));
    assert Renew(a) == d.(phase := Restarting);
    assert Pool(c, Renew(a), {}) by {
      forall w | w in d.workers ensures Settled(c, Renew(a), w) { assert Settled(c, d, w); }
    }
  }

  lemma AcceptKeeps(c: Config, a: App, pid: int)
    requires Inv(c, a) && pid in a.pending && a.phase != Destroyed
    ensures Inv(c, Accept(a, pid)) && Accept(a, pid).phase != Destroyed
    ensures forall w :: w in Accept(a, pid).wkr ==> w in a.wkr
  {
    TakenIsPermutation(a.pending, pid);
    var b := a.(pending := Taken(a.pending, pid), timeouts := 0);
    ControlKeeps(c, a, b);
    if a.phase == Restart {
      RenewKeeps(c, b);
      FreeIdleKeys(b.(conf := b.next.value, next := None));
    } else if a.phase == New {
      ControlKeeps(c, a, b.(phase := Serving));
    }
  }

  lemma TakenKeeps(c: Config, a: App, pid: int)
    requires Inv(c, a) && pid in a.pending
    ensures Inv(c, a.(pending := Taken(a.pending, pid), timeouts := 0))
  {
    TakenIsPermutation(a.pending, pid);
    ControlKeeps(c, a, a.(pending := Taken(a.pending, pid), timeouts := 0));
  }

  lemma FreeIdleKeys(a: App)
    ensures FreeIdle(a).wkr.Keys <= a.wkr.Keys
    decreases |a.idle|
  {
    if a.idle != [] { FreeIdleKeys(FreeWkr(a, a.idle[0])); }
  }

  lemma EnrolKeeps(c: Config, a: App, w: WkrId, pid: int, forks: seq<int>)
    requires Inv(c, a) && w !in a.wkr && a.phase != Destroyed
    ensures Inv(c, Enrol(c, a, w, pid, forks))
  {
    hide Allocate, Balance, Ledger;
    if |a.workers| < c.maxWorkers + 1 {
      var b := a.(workers := a.workers + [w], wkr := a.wkr[w := Wkr(Inactive, None, 0, pid)]);
      assert w !in a.workers;
      NewcomerLedger(a, w, b.wkr[w]);
      assert Pool(c, b, {w}) by { NewcomerPool(c, a, w, b.wkr[w]); }
      AllocateKeeps(c, b, w);
      AllocateFrame(c, b, w);
      BalanceKeeps(c, Allocate(c, b, w), forks);
    }
  }

  lemma NewcomerLedger(a: App, w: WkrId, k: Wkr)
    requires Ledger(a) && w !in a.workers && k.req == None
    ensures Ledger(a.(workers := a.workers + [w], wkr := a.wkr[w := k]))
  {
    NewcomerHolds(a.workers, a.wkr, a.wkr[w := k], w);
  }

  lemma NewcomerPool(c: Config, a: App, w: WkrId, k: Wkr)
    requires Pool(c, a, {}) && w !in a.wkr && |a.workers| < c.maxWorkers + 1
    requires k.req == None && k.trials <= c.pingTrials
    ensures Pool(c, a.(workers := a.workers + [w], wkr := a.wkr[w := k]), {w})
  {
    var b := a.(workers := a.workers + [w], wkr := a.wkr[w := k]);
    assert w !in a.workers && w !in a.idle;
    assert b.wkr.Keys == a.wkr.Keys + {w} == Elems(b.workers);
    forall v | v in b.workers && v !in {w} ensures Settled(c, b, v) { assert v in a.workers && Settled(c, a, v); }
  }

  /** What registration may rely on when it hands the newcomer its first request. */
  lemma NewcomerFacts(c: Config, a: App, w: WkrId, pid: int)
    requires Inv(c, a) && w !in a.wkr && |a.workers| < c.maxWorkers + 1
    ensures var b := a.(workers := a.workers + [w], wkr := a.wkr[w := Wkr(Inactive, None, 0, pid)]);
      Distinct(b.workers) && Distinct(b.idle) && Distinct(b.messages)
  {
    NewcomerPool(c, a, w, Wkr(Inactive, None, 0, pid));
    InvFacts(c, a);
  }

  lemma AllocateFrame(c: Config, a: App, w: WkrId)
    requires w in a.wkr && Bounds(c, a) && a.phase != Destroyed
    ensures Bounds(c, Allocate(c, a, w)) && Allocate(c, a, w).phase == a.phase
  {}

  lemma NewcomerHolds(ws: seq<WkrId>, m: map<WkrId, Wkr>, m': map<WkrId, Wkr>, w: WkrId)
    requires w !in ws && w in m' && m'[w].req == None
    requires forall v :: v in ws ==> Bag(m, v) == Bag(m', v)
    ensures Held(ws + [w], m') == Held(ws, m)
  {
    HeldSame(ws, m, m');
    HeldAppend(ws, m', w);
  }

  lemma RegisterKeeps(c: Config, a: App, w: WkrId, pid: int, connected: bool, forks: seq<int>)
    requires Inv(c, a) && w !in a.wkr && a.phase != Destroyed
    ensures Inv(c, RegisterStep(c, a, w, pid, connected, forks))
  {
    if Wanted(a, pid) {
      AcceptKeeps(c, a, pid);
      if connected { EnrolKeeps(c, Accept(a, pid), w, pid, forks); }
    }
  }

  // ----- removing the application -----

  lemma FreeAllKeeps(c: Config, a: App)
    requires Pool(c, a, {}) && Ledger(a)
    ensures var b := FreeAll(a);
      && Pool(c, b, {}) && Ledger(b) && b.workers == []
      && b == a.(workers := [], idle := b.idle, wkr := b.wkr, finished := b.finished)
    decreases |a.workers|
  {
    if a.workers != [] {
      var w := a.workers[0];
      assert {} - {w} == {};
      assert Pool(c, FreeWkr(a, w), {}) by { FreeKeepsPool(c, a, w, {}); }
      assert Ledger(FreeWkr(a, w)) by { FreeKeepsLedger(a, w); }
      FreeAllKeeps(c, FreeWkr(a, w));
    }
  }

  /** Fetching a worker from its queue first makes no difference to freeing it. */
  lemma FetchThenFree(a: App)
    requires Distinct(a.workers) && Distinct(a.idle)
    ensures a.workers != [] ==>
      FreeWkr(a.(workers := a.workers[1..]), a.workers[0]) == FreeWkr(a, a.workers[0])
    ensures a.idle != [] ==> FreeWkr(a.(idle := a.idle[1..]), a.idle[0]) == FreeWkr(a, a.idle[0])
    ensures a.workers != [] ==> Distinct(a.workers[1..])
    ensures a.idle != [] ==> Distinct(a.idle[1..])
  {
    if a.workers != [] { WithoutAbsent(a.workers[1..], a.workers[0]); }
    if a.idle != [] { WithoutAbsent(a.idle[1..], a.idle[0]); }
  }

  lemma FreeDistinct(a: App, w: WkrId)
    requires Distinct(a.workers) && Distinct(a.idle)
    ensures Distinct(FreeWkr(a, w).workers) && Distinct(FreeWkr(a, w).idle)
    ensures FreeWkr(a, w).messages == a.messages
  {
    FreeMembers(a.workers, w);
    FreeMembers(a.idle, w);
  }

  lemma FreeFewerIdle(a: App)
    requires a.idle != [] && Distinct(a.idle)
    ensures FreeWkr(a, a.idle[0]).idle == a.idle[1..]
  {}

  lemma FreeShrinks(a: App, w: WkrId)
    requires w in a.workers
    ensures |FreeWkr(a, w).workers| < |a.workers|
  {
    var k := FirstAt(a.workers, w);
    WithoutAt(a.workers, w, k);
  }

  /** EXPIRED for the workers in `s` only. */
  function ExpireSome(m: map<WkrId, Wkr>, s: set<WkrId>): map<WkrId, Wkr> {
    map w | w in m :: if w in s then m[w].(state := Expired) else m[w]
  }

  lemma ExpireOneMore(m: map<WkrId, Wkr>, s: set<WkrId>, w: WkrId)
    requires w in m
    ensures w in ExpireSome(m, s)
    ensures ExpireSome(m, s)[w := ExpireSome(m, s)[w].(state := Expired)] == ExpireSome(m, s + {w})
  {}

  lemma ExpireEverybody(m: map<WkrId, Wkr>, s: set<WkrId>)
    requires m.Keys == s
    ensures ExpireSome(m, s) == ExpireAll(m) && ExpireSome(m, {}) == m
  {}

  lemma RenewFacts(c: Config, a: App)
    requires Inv(c, a) && a.next.Some?
    ensures var b := FreeIdle(a.(conf := a.next.value, next := None));
      && b.wkr.Keys == Elems(b.workers) && Distinct(b.workers) && b.idle == []
  {
    var a' := a.(conf := a.next.value, next := None);
    assert Pool(c, a', {}) by {
      forall w | w in a'.workers ensures Settled(c, a', w) { assert Settled(c, a, w); }
    }
    FreeIdleKeeps(c, a');
  }

  lemma DrainNone(a: App)
    requires a.messages == []
    ensures Drain(a) == a
  {}

  /** Failing the oldest waiting request first makes no difference to draining the queue. */
  lemma DrainOne(a: App)
    requires a.messages != [] && Distinct(a.messages)
    ensures var b := AbortStep(a.(messages := a.messages[1..]), a.messages[0]);
      Drain(b) == Drain(a) && b.messages == a.messages[1..] && Distinct(b.messages)
  {
    var m := a.messages;
    WithoutAbsent(m[1..], m[0]);
    assert m == [m[0]] + m[1..];
    assert Outcomes(m, Failed) == [(m[0], Failed)] + Outcomes(m[1..], Failed);
    assert Elems(m) == {m[0]} + Elems(m[1..]);
    var b := AbortStep(a.(messages := m[1..]), m[0]);
    assert a.finished + Outcomes(m, Failed) == b.finished + Outcomes(m[1..], Failed);
    assert a.withdrawn + Elems(m) == b.withdrawn + Elems(m[1..]);
  }

  /** Withdrawing everything that still waits leaves exactly what was started. */
  lemma {:induction false} KeepDropsTail(s: seq<ReqId>, out: set<ReqId>, p: seq<ReqId>, q: seq<ReqId>)
    requires Distinct(s) && Keep(s, out) == p + q
    ensures Keep(s, out + Elems(q)) == p
    decreases |q|
  {
    if q == [] {
      assert out + Elems(q) == out && p + q == p;
    } else {
      var q', x := q[..|q| - 1], q[|q| - 1];
      assert q == q' + [x];
      assert Keep(s, out + {x}) == p + q' by { KeepDropsLast(s, out, p + q', x); }
      KeepDropsTail(s, out + {x}, p, q');
      assert out + {x} + Elems(q') == out + Elems(q);
    }
  }

  lemma KeepDropsLast(s: seq<ReqId>, out: set<ReqId>, p: seq<ReqId>, x: ReqId)
    requires Distinct(s) && Keep(s, out) == p + [x]
    ensures Keep(s, out + {x}) == p
  {
    KeepMembers(s, out);
    assert (p + [x])[|p|] == x;
    KeepWithout(s, out, x);
    WithoutAt(p + [x], x, |p|);
  }

  lemma DrainKeepsLedger(a: App)
    requires Ledger(a)
    ensures Ledger(a.(messages := [], pending := [], finished := a.finished + Outcomes(a.messages, Failed),
                      withdrawn := a.withdrawn + Elems(a.messages)))
  {
    var m, n := a.messages, Names(a.finished);
    NamesAppend(a.finished, m, Failed);
    KeepDropsTail(a.admitted, a.withdrawn, a.started, m);
    assert a.started + [] == a.started;
    assert multiset(n + m) == multiset(n) + multiset(m);
    DrainAlgebra(multiset(m), Held(a.workers, a.wkr), multiset(n));
    forall r | r in a.withdrawn + Elems(m) ensures r in n + m {
      if r in m {
        var i :| 0 <= i < |m| && m[i] == r;
        assert (n + m)[|n| + i] == r;
      } else {
        var i :| 0 <= i < |n| && n[i] == r;
        assert (n + m)[i] == r;
      }
    }
  }

  lemma DrainAlgebra(m: multiset<ReqId>, h: multiset<ReqId>, n: multiset<ReqId>)
    ensures m + h + n == multiset{} + h + (n + m)
  {
    Comm(m, h);
    Swap(h, m, n);
    Assoc(h, n, m);
  }

  /** `t` is `s` with failures behind it. */
  ghost predicate OnlyFailures(s: seq<(ReqId, Outcome)>, t: seq<(ReqId, Outcome)>) {
    s <= t && forall i :: |s| <= i < |t| ==> t[i].1 == Failed
  }

  lemma {:induction false} FreeAllFails(a: App)
    ensures OnlyFailures(a.finished, FreeAll(a).finished)
    decreases |a.workers|
  {
    if a.workers != [] { FreeAllFails(FreeWkr(a, a.workers[0])); }
  }

  lemma DestroyFails(a: App)
    ensures var b := Destroy(a); OnlyFailures(a.finished, b.finished) && b.messages == []
  {
    var d := a.(phase := Destroyed, next := None);
    FreeAllFails(d);
    var f, g := FreeAll(d).finished, Outcomes(FreeAll(d).messages, Failed);
    assert (f + g)[..|a.finished|] == f[..|a.finished|] == a.finished;
  }

  lemma DestroyedInv(c: Config, a: App)
    requires Inv(c, a)
    ensures Inv(c, Destroy(a)) && Destroy(a).workers == []
  {
    var a' := a.(phase := Destroyed, next := None);
    assert Pool(c, a', {}) by {
      forall w | w in a'.workers ensures Settled(c, a', w) { assert Settled(c, a, w); }
    }
    FreeAllKeeps(c, a');
    DrainKeepsLedger(FreeAll(a'));
  }

  lemma NothingOpen(c: Config, a: App)
    requires Inv(c, a) && a.messages == [] && a.workers == []
    ensures multiset(a.admitted) == multiset(Names(a.finished))
  {}

  /**
   * Destroying the application adds failures only and leaves nothing waiting or in service, so that every
   * admitted request is finished and each one that was not has failed.
   */
  lemma DestroyKeeps(c: Config, a: App)
    requires Inv(c, a)
    ensures var b := Destroy(a);
      && Inv(c, b) && b.messages == [] && b.workers == []
      && OnlyFailures(a.finished, b.finished) && multiset(b.admitted) == multiset(Names(b.finished))
  {
    hide Inv, Destroy, OnlyFailures, Names;
    DestroyedInv(c, a);
    DestroyFails(a);
    NothingOpen(c, Destroy(a));
  }

  // ----- steps and runs -----

  predicate WorkerEvent(e: Event) {
    e.Progress? || e.Respond? || e.Broken? || e.PingTimer? || e.PingReply? || e.Gone?
  }

  lemma WorkerEventKeeps(c: Config, a: App, e: Event)
    requires Inv(c, a) && Enabled(c, a, e) && WorkerEvent(e)
    ensures Inv(c, Step(c, a, e))
  {
    hide Pool, Ledger, WorkConserving, Balance;
    match e
    case Progress(w) => ProgressKeeps(c, a, w);
    case Respond(w) => RespondKeeps(c, a, w);
    case Broken(w) => FailKeeps(c, a, w, ToError);
    case PingTimer(w, forks) => PingTimerKeeps(c, a, w, forks);
    case PingReply(w) => SignKeeps(c, a, w, ToPingReply);
    case Gone(w, forks) =>
      FailKeeps(c, a, w, ToRemove);
      GoneKeeps(c, StateMachine(c, a, w, ToRemove, []), forks);
  }

  lemma GoneKeeps(c: Config, a: App, forks: seq<int>)
    requires Inv(c, a) && a.phase != Destroyed
    ensures Inv(c, if a.phase == Serving then Balance(c, a, forks) else a)
  {
    BalanceKeeps(c, a, forks);
  }

  lemma AppEventKeeps(c: Config, a: App, e: Event)
    requires Inv(c, a) && Enabled(c, a, e) && !WorkerEvent(e)
    ensures Inv(c, Step(c, a, e))
  {
    hide Pool, Ledger, WorkConserving;
    match e
    case Complete(r) => CompleteKeeps(c, a, r);
    case Abort(r) => AbortKeeps(c, a, r);
    case Register(w, pid, connected, forks) => RegisterKeeps(c, a, w, pid, connected, forks);
    case AddError(pid) => AddErrorKeeps(c, a, pid);
    case AddTimer(forks) => ControlKeeps(c, a, Step(c, a, e));
    case AddTimeout(forks) => AddTimeoutKeeps(c, a, forks);
    case RemoveTimer(pid) => RemoveTimerKeeps(c, a, pid);
    case Reload(limits, forks) => ControlKeeps(c, a, Step(c, a, e));
    case RemoveApp => DestroyKeeps(c, a);
  }

  /** Every event the environment can raise keeps the invariant. */
  lemma StepKeeps(c: Config, a: App, e: Event)
    requires Inv(c, a) && Enabled(c, a, e)
    ensures Inv(c, Step(c, a, e))
  {
    if WorkerEvent(e) { WorkerEventKeeps(c, a, e); } else { AppEventKeeps(c, a, e); }
  }

  lemma InitialInv(c: Config, conf: Limits, forks: seq<int>)
    requires LimitsOk(c, conf)
    ensures Inv(c, Initial(c, conf, forks))
  {
    var a := App([], [], [], [], map[], New, conf, None, 0, [], [], [], {}, {});
    assert Pool(c, a, {});
    BalanceKeeps(c, a, forks);
  }

  lemma {:induction false} RunKeeps(c: Config, a: App, es: seq<Event>)
    requires Inv(c, a) && Feasible(c, a, es)
    ensures Inv(c, Run(c, a, es))
    decreases |es|
  {
    if es != [] {
      StepKeeps(c, a, es[0]);
      RunKeeps(c, Step(c, a, es[0]), es[1..]);
    }
  }
}
