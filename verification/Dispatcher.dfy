/**
 * src/head/wr_worker.c and src/head/wr_application.c over objects: workers and requests with fields
 * that are updated in place, moved through four ring queues. The ghost field `m` is the abstract
 * application; every method says which DispatchModel step it takes `m` through.
 */
module Dispatcher {
  import opened Seqs
  import opened DispatchModel
  import opened DispatchSafety
  import DispatchRuns
  import DispatchEffects
  import opened RingQueue
  import M = DispatchModel

  class Worker {
    const id: WkrId
    const pid: int
    var state: WkrState
    var req: Request?
    var trials: nat

    /** wr_wkr_new */
    constructor (id: WkrId, pid: int)
      ensures this.id == id && this.pid == pid
      ensures state == Connecting && req == null && trials == 0
    {
      this.id, this.pid := id, pid;
      state, req, trials := Connecting, null, 0;
    }
  }

  class Request {
    const id: ReqId
    var wkr: Worker?
    var usingWkr: bool
    var connErr: bool

    /** wr_req_new */
    constructor (id: ReqId)
      ensures this.id == id && wkr == null && !usingWkr && !connErr
    {
      this.id := id;
      wkr, usingWkr, connErr := null, false, false;
    }
  }

  function WkrIds(ws: seq<Worker>): seq<WkrId> {
    seq(|ws|, i requires 0 <= i < |ws| => ws[i].id)
  }

  function ReqIds(rs: seq<Request>): seq<ReqId> {
    seq(|rs|, i requires 0 <= i < |rs| => rs[i].id)
  }

  lemma WkrIdsWithout(ws: seq<Worker>, w: Worker)
    requires forall x :: x in ws && x.id == w.id ==> x == w
    ensures WkrIds(Without(ws, w)) == Without(WkrIds(ws), w.id)
  {
    if ws != [] {
      WkrIdsWithout(ws[1..], w);
      assert WkrIds(ws)[1..] == WkrIds(ws[1..]);
      assert ws[0] in ws;
      if ws[0] != w {
        assert Without(ws, w) == [ws[0]] + Without(ws[1..], w);
      }
    }
  }

  lemma ReqIdsWithout(rs: seq<Request>, r: Request)
    requires forall x :: x in rs && x.id == r.id ==> x == r
    ensures ReqIds(Without(rs, r)) == Without(ReqIds(rs), r.id)
  {
    if rs != [] {
      ReqIdsWithout(rs[1..], r);
      assert ReqIds(rs)[1..] == ReqIds(rs[1..]);
      assert rs[0] in rs;
      if rs[0] != r {
        assert Without(rs, r) == [rs[0]] + Without(rs[1..], r);
      }
    }
  }

  lemma WithoutIn<T>(s: seq<T>, x: T)
    ensures forall y :: y in Without(s, x) ==> y in s
  {
    if s != [] { WithoutIn(s[1..], x); }
  }

  lemma {:induction false} FirstIndexIs(s: seq<int>, x: int, k: nat)
    requires k < |s| && s[k] == x && x !in s[..k]
    ensures FirstIndex(s, x) == k
  {
    if k > 0 {
      assert s[0] in s[..k];
      assert s[1..][..k - 1] == s[..k][1..];
      FirstIndexIs(s[1..], x, k - 1);
    }
  }

  // ----- what the objects have to do with the abstract state -----

  function Fields(w: Worker): Wkr
    reads w
  {
    Wkr(w.state, if w.req == null then None else Some(w.req.id), w.trials, w.pid)
  }

  /** The objects an application knows by id; `ws` and `rs` are all it has ever been given. */
  datatype Links = Links(
    reg: map<WkrId, Worker>,     // registered workers
    live: map<ReqId, Request>,   // requests
    ws: set<Worker>,
    rs: set<Request>)

  /** The worker objects carry the fields the abstract state says. */
  ghost predicate Mirrors(wkr: map<WkrId, Wkr>, k: Links)
    reads k.ws
  {
    && wkr.Keys == k.reg.Keys
    && forall i :: i in k.reg ==> k.reg[i] in k.ws && k.reg[i].id == i && wkr[i] == Fields(k.reg[i])
  }

  ghost predicate Registered(ws: seq<Worker>, k: Links) {
    forall w :: w in ws ==> w in k.ws && w.id in k.reg && k.reg[w.id] == w
  }

  ghost predicate Known(rs: seq<Request>, k: Links) {
    forall r :: r in rs ==> r in k.rs && r.id in k.live && k.live[r.id] == r
  }

  ghost predicate Waiting(rs: seq<Request>)
    reads rs`wkr
  {
    forall r :: r in rs ==> r.wkr == null
  }

  /** A held request is known and points back at its holder. */
  ghost predicate Holding(k: Links)
    reads k.ws`req, k.rs`wkr
  {
    forall i :: i in k.reg && k.reg[i] in k.ws && k.reg[i].req != null ==>
      var r := k.reg[i].req; r in k.rs && r.id in k.live && k.live[r.id] == r && r.wkr == k.reg[i]
  }

  /** Between events a held request is marked as in use by its worker. */
  ghost predicate Using(k: Links)
    reads k.ws`req, k.rs`usingWkr
  {
    forall i :: i in k.reg && k.reg[i] in k.ws && k.reg[i].req != null && k.reg[i].req in k.rs ==>
      k.reg[i].req.usingWkr
  }

  ghost predicate LiveIds(k: Links, admitted: seq<ReqId>, refused: set<ReqId>) {
    forall i :: i in k.live ==> k.live[i] in k.rs && k.live[i].id == i && (i in admitted || i in refused)
  }

  ghost predicate Linked(m: App, k: Links, waiting: seq<Request>, workers: seq<Worker>, free: seq<Worker>)
    reads k.ws, k.rs`wkr, waiting`wkr
  {
    && Mirrors(m.wkr, k) && Holding(k) && LiveIds(k, m.admitted, m.refused)
    && Registered(workers, k) && Registered(free, k)
    && Known(waiting, k) && Waiting(waiting)
  }

  /** Of the abstract state, the links read only the worker fields and who came in. */
  lemma LinkedFrame(m: App, m': App, k: Links, waiting: seq<Request>, workers: seq<Worker>, free: seq<Worker>)
    requires Linked(m, k, waiting, workers, free)
    requires m'.wkr == m.wkr && m'.admitted == m.admitted && m'.refused == m.refused
    ensures Linked(m', k, waiting, workers, free)
  {}

  lemma RefusedKeepsLinks(m: App, k: Links, waiting: seq<Request>, workers: seq<Worker>, free: seq<Worker>, r: ReqId)
    requires Linked(m, k, waiting, workers, free)
    ensures Linked(m.(refused := m.refused + {r}), k, waiting, workers, free)
  {}

  lemma NothingLinked(m: App, k: Links)
    requires m.wkr == map[] && k == Links(map[], map[], {}, {})
    ensures Linked(m, k, [], [], []) && Using(k)
  {}

  lemma ElemsNone()
    ensures Elems<WkrId>([]) == {}
  {}

  lemma ElemsNext(ids: seq<WkrId>, i: nat)
    requires i < |ids|
    ensures Elems(ids[..i + 1]) == Elems(ids[..i]) + {ids[i]}
  {
    assert ids[..i + 1] == ids[..i] + [ids[i]];
  }

  lemma ElemsIn(ids: seq<WkrId>, m: map<WkrId, Wkr>)
    requires m.Keys == Elems(ids)
    ensures forall i :: 0 <= i < |ids| ==> ids[i] in m
  {}

  lemma IdsAppend(rs: seq<Request>, r: Request)
    ensures ReqIds(rs + [r]) == ReqIds(rs) + [r.id] && |ReqIds(rs)| == |rs|
  {}

  lemma HeadOnly(rs: seq<Request>)
    requires rs != [] && Distinct(ReqIds(rs))
    ensures rs[0] !in rs[1..] && ReqIds(rs[1..]) == ReqIds(rs)[1..]
  {
    var ids := ReqIds(rs);
    forall i | 0 <= i < |rs[1..]| ensures rs[1..][i] != rs[0] {
      assert ids[i + 1] == rs[1..][i].id && ids[0] == rs[0].id;
    }
  }

  lemma CompleteFacts(c: Config, a: App, r: ReqId)
    requires Inv(c, a) && r !in a.admitted && r !in a.refused
    ensures Distinct(a.messages + [r])
    ensures Pool(c, a.(messages := a.messages + [r], admitted := a.admitted + [r]), {})
  {
    var b := a.(messages := a.messages + [r], admitted := a.admitted + [r]);
    AdmitKeepsLedger(a, r);
    KeepMembers(b.admitted, b.withdrawn);
    DistinctParts(b.started, b.messages);
    AdmitKeepsPool(c, a, r);
  }

  /** WKR_ACTION_REQ_PROCESSING on an idle worker only changes its state. */
  lemma ProcessIs(c: Config, a: App, w: WkrId)
    requires w in a.wkr && a.wkr[w].state == Inactive
    ensures M.StateMachine(c, a, w, ToProcess, []) == a.(wkr := a.wkr[w := a.wkr[w].(state := Active)])
  {}

  // ----- updates of one object, and what they do to the links -----

  method PutState(w: Worker, s: WkrState, ghost wkr: map<WkrId, Wkr>, ghost k: Links)
    requires Mirrors(wkr, k) && w.id in k.reg && k.reg[w.id] == w
    modifies w`state
    ensures w.state == s && w.id in wkr && Mirrors(wkr[w.id := wkr[w.id].(state := s)], k)
  {
    w.state := s;
  }

  method PutTrials(w: Worker, n: nat, ghost wkr: map<WkrId, Wkr>, ghost k: Links)
    requires Mirrors(wkr, k) && w.id in k.reg && k.reg[w.id] == w
    modifies w`trials
    ensures w.id in wkr && Mirrors(wkr[w.id := wkr[w.id].(trials := n)], k)
  {
    w.trials := n;
  }

  method PutReq(w: Worker, r: Request, ghost wkr: map<WkrId, Wkr>, ghost k: Links)
    requires Mirrors(wkr, k) && Holding(k) && w.id in k.reg && k.reg[w.id] == w && w.req == null
    requires r in k.rs && r.id in k.live && k.live[r.id] == r && r.wkr == null
    modifies w`req, r`wkr, r`usingWkr
    ensures w.req == r && r.wkr == w && r.usingWkr
    ensures w.id in wkr && Mirrors(wkr[w.id := wkr[w.id].(req := Some(r.id))], k) && Holding(k)
    ensures old(Using(k)) ==> Using(k)
  {
    r.wkr := w;
    r.usingWkr := true;
    w.req := r;
  }

  method DropReq(w: Worker, ghost wkr: map<WkrId, Wkr>, ghost k: Links)
    requires Mirrors(wkr, k) && Holding(k) && w.id in k.reg && k.reg[w.id] == w
    modifies w`req
    ensures w.req == null
    ensures w.id in wkr && Mirrors(wkr[w.id := wkr[w.id].(req := None)], k) && Holding(k)
    ensures old(Using(k)) ==> Using(k)
  {
    w.req := null;
  }

  /** Taking the request away from worker `w` spoils the mark of no other worker's request. */
  method Unmark(w: Worker, r: Request, ghost k: Links)
    requires Holding(k) && w.id in k.reg && k.reg[w.id] == w && w in k.ws && w.req == r
    requires forall i :: i in k.reg ==> k.reg[i].id == i
    modifies r`usingWkr
    ensures !r.usingWkr
    ensures old(Using(k)) ==> Using(Forget(k, w))
  {
    r.usingWkr := false;
  }

  /** The links once request `r` has come in. */
  ghost function With(k: Links, r: Request): Links {
    k.(live := k.live[r.id := r], rs := k.rs + {r})
  }

  /** The links once worker `w` has registered. */
  ghost function Join(k: Links, w: Worker): Links {
    k.(reg := k.reg[w.id := w], ws := k.ws + {w})
  }

  /** The links once worker `w` is forgotten. */
  ghost function Forget(k: Links, w: Worker): Links {
    k.(reg := k.reg - {w.id})
  }

  /** All that has happened to the links is that workers have been forgotten. */
  ghost predicate Kept(was: Links, k: Links) {
    && k.live == was.live && k.ws == was.ws && k.rs == was.rs
    && forall i :: i in k.reg ==> i in was.reg && k.reg[i] == was.reg[i]
  }

  lemma TimeoutStep(c: Config, a: App, forks: seq<int>)
    requires Enabled(c, a, AddTimeout(forks))
    ensures Step(c, a, AddTimeout(forks)) == AddTimeoutStep(c, a, forks) && a.phase != Destroyed
  {}

  lemma ProgressIs(c: Config, a: App, w: WkrId)
    requires Enabled(c, a, Progress(w))
    ensures Step(c, a, Progress(w)) == ProgressStep(c, a, w) && a.wkr[w].req.Some?
  {}

  lemma KeptSame(k: Links)
    ensures Kept(k, k)
  {}

  lemma ForgetKept(was: Links, k: Links, w: Worker)
    requires Kept(was, k)
    ensures Kept(was, Forget(k, w)) && Forget(k, w).ws == k.ws && Forget(k, w).rs == k.rs
  {}

  lemma JoinKept(was: Links, k: Links, w: Worker)
    requires Kept(was, k)
    ensures Kept(Join(was, w), Join(k, w))
  {}

  lemma {:induction false} StillRegistered(ws: seq<Worker>, k: Links, w: Worker)
    requires Registered(ws, k) && w.id in k.reg && k.reg[w.id] == w && Distinct(WkrIds(ws))
    ensures Registered(Without(ws, w), Forget(k, w))
    ensures WkrIds(Without(ws, w)) == Without(WkrIds(ws), w.id)
  {
    if ws != [] {
      var t := ws[1..];
      assert WkrIds(ws)[1..] == WkrIds(t);
      if ws[0] == w {
        forall x | x in t ensures x.id != w.id {
          var i :| 0 <= i < |t| && t[i] == x;
          assert WkrIds(ws)[i + 1] == x.id && WkrIds(ws)[0] == w.id;
        }
      } else {
        StillRegistered(t, k, w);
        assert ws[0] in ws;
        assert Without(ws, w) == [ws[0]] + Without(t, w);
      }
    }
  }

  /** Forgetting one worker keeps every link that does not involve it. */
  lemma ForgetKeepsLinks(m: App, m': App, k: Links,
                         waiting: seq<Request>, workers: seq<Worker>, free: seq<Worker>, w: Worker)
    requires Linked(m, k, waiting, workers, free) && w.id in k.reg && k.reg[w.id] == w
    requires Distinct(WkrIds(workers)) && Distinct(WkrIds(free))
    requires m'.wkr == m.wkr - {w.id} && m'.admitted == m.admitted && m'.refused == m.refused
    ensures Linked(m', Forget(k, w), waiting, Without(workers, w), Without(free, w))
    ensures WkrIds(Without(workers, w)) == Without(WkrIds(workers), w.id)
    ensures WkrIds(Without(free, w)) == Without(WkrIds(free), w.id)
  {
    StillRegistered(workers, k, w);
    StillRegistered(free, k, w);
    hide Registered, Known, Waiting;
  }

  class Application {
    const c: Config
    const qMessages: Queue<Request>
    const qWorkers: Queue<Worker>
    const qFree: Queue<Worker>
    const qPending: Queue<int>
    var conf: Limits
    var next: Option<Limits>
    var phase: Phase
    var timeouts: nat
    ghost var m: App
    ghost var k: Links

    ghost function Repr(): set<object>
      reads this
    {
      {this, qMessages, qMessages.elements, qWorkers, qWorkers.elements, qFree, qFree.elements,
       qPending, qPending.elements} + k.ws + k.rs
    }

    ghost predicate Queues()
      reads qMessages, qMessages.elements, qWorkers, qWorkers.elements, qFree, qFree.elements,
            qPending, qPending.elements
    {
      && qFree != qWorkers && qFree.elements != qWorkers.elements
      && qMessages.Valid() && qWorkers.Valid() && qFree.Valid() && qPending.Valid()
      && qMessages.capacity == c.maxMessages && qPending.capacity == c.maxPending
      && qWorkers.capacity == qFree.capacity == c.maxWorkers + 1
    }

    /** The fields and queues spell out `m`. */
    ghost predicate Abstracts()
      reads this, qMessages, qWorkers, qFree, qPending
    {
      && m.messages == ReqIds(qMessages.contents)
      && m.workers == WkrIds(qWorkers.contents)
      && m.idle == WkrIds(qFree.contents)
      && m.pending == qPending.contents
      && m.phase == phase && m.conf == conf && m.next == next && m.timeouts == timeouts
    }

    ghost predicate LinkedNow()
      reads this, qMessages, qWorkers, qFree, k.ws, k.rs`wkr, qMessages.contents`wkr
    {
      Linked(m, k, qMessages.contents, qWorkers.contents, qFree.contents)
    }

    ghost predicate IsKnown(r: Request)
      reads this
    {
      r in k.rs && r.id in k.live && k.live[r.id] == r
    }

    ghost predicate Has(w: Worker)
      reads this
    {
      w in k.ws && w.id in k.reg && k.reg[w.id] == w
    }

    ghost predicate Rep()
      reads this, Repr(), qMessages.contents`wkr
    {
      Queues() && Abstracts() && LinkedNow()
    }

    ghost predicate Valid()
      reads this, Repr(), qMessages.contents`wkr
    {
      Rep() && Using(k) && Inv(c, m)
    }

    /** wr_app_insert */
    constructor (c: Config, conf: Limits, forks: seq<int>)
      requires LimitsOk(c, conf)
      ensures Valid() && k == Links(map[], map[], {}, {})
      ensures fresh(Repr() - {this}) && this.c == c
      ensures m == Initial(c, conf, forks)
    {
      hide Queue.Valid, Inv, Balance, Linked, Using;
      this.c, this.conf, next, phase, timeouts := c, conf, None, New, 0;
      qFree := new Queue<Worker>(c.maxWorkers + 1);
      qWorkers := new Queue<Worker>(c.maxWorkers + 1);
      qPending := new Queue<int>(c.maxPending);
      qMessages := new Queue<Request>(c.maxMessages);
      m := App([], [], [], [], map[], New, conf, None, 0, [], [], [], {}, {});
      k := Links(map[], map[], {}, {});
      new;
      hide Rep;
      assert fresh(Repr() - {this});
      Begin(forks);
    }

    /** The first forks of a new application. */
    method Begin(forks: seq<int>)
      requires LimitsOk(c, conf) && Queues() && Abstracts()
      requires qMessages.contents == [] && qWorkers.contents == [] && qFree.contents == []
      requires m == App([], [], [], [], map[], New, conf, None, 0, [], [], [], {}, {})
      requires k == Links(map[], map[], {}, {})
      modifies this, qPending, qPending.elements
      ensures Valid() && k == old(k) && m == Initial(c, old(conf), forks)
      ensures Repr() == old(Repr())
    {
      hide Queue.Valid, Inv, Balance, Linked, Using, Queues, Abstracts;
      NothingLinked(m, k);
      assert LinkedNow();
      DispatchRuns.InitialInv(c, conf, forks);
      WkrBalance(forks);
    }

    // ----- wr_application.c: processes that have been forked -----

    /** wr_app_wkr_add; the head of `forks` is what fork() returns. */
    method WkrAdd(forks: seq<int>) returns (ok: bool)
      requires Rep()
      modifies this, qPending, qPending.elements
      ensures Rep() && k == old(k)
      ensures (m, ok) == Spawn(c, old(m), forks)
    {
      hide Queue.Valid, Linked;
      ok := false;
      if qPending.count < qPending.capacity {
        if timeouts >= c.addTrials {
          return;
        }
        var retval := if forks == [] then -1 else forks[0];
        if retval > 0 {
          ok := qPending.Insert(retval);
          SetModel(m.(pending := m.pending + [retval]));
        }
      }
    }

    /** Bookkeeping: a new abstract state with the same workers and requests. */
    ghost method SetModel(m': App)
      requires LinkedNow()
      requires m'.wkr == m.wkr && m'.admitted == m.admitted && m'.refused == m.refused
      modifies this`m
      ensures m == m' && LinkedNow()
    {
      LinkedFrame(m, m', k, qMessages.contents, qWorkers.contents, qFree.contents);
      m := m';
    }

    /** wr_app_wkr_balance */
    method WkrBalance(forks: seq<int>)
      requires Rep()
      modifies this, qPending, qPending.elements
      ensures Rep() && k == old(k)
      ensures m == M.Balance(c, old(m), forks)
    {
      hide Queue.Valid, Linked;
      var rest := forks;
      while qPending.count + qWorkers.count < conf.min
        invariant Rep() && k == old(k)
        invariant Fill(c, m, rest) == Fill(c, old(m), forks)
        decreases |rest|
      {
        var ok := WkrAdd(rest);
        if !ok {
          break;
        }
        rest := rest[1..];
      }
      if qWorkers.count >= conf.min && phase == Restart {
        phase, next := Serving, None;
        SetModel(m.(phase := Serving, next := None));
      }
    }

    /** wr_pending_worker_exist: one turn of the queue, stopping at the pid it is after. */
    method PendingWorkerExist(pid: int) returns (found: bool)
      requires qPending.Valid()
      modifies qPending, qPending.elements
      ensures qPending.Valid()
      ensures found == (pid in old(qPending.contents))
      ensures qPending.contents == if found then Taken(old(qPending.contents), pid) else old(qPending.contents)
    {
      hide Queue.Valid, Rotated;
      ghost var was := qPending.contents;
      RotateFully(was);
      var i := 0;
      while i < qPending.count
        invariant qPending.Valid()
        invariant 0 <= i <= |was| == |qPending.contents|
        invariant qPending.contents == Rotated(was, i) && pid !in was[..i]
      {
        RotateOne(was, i);
        var pending := qPending.Fetch();
        if pending == Some(pid) {
          FirstIndexIs(was, pid, i);
          return true;
        }
        var _ := qPending.Insert(pending.value);
        i := i + 1;
      }
      return false;
    }

    // ----- fields of one worker -----

    method SetState(w: Worker, s: WkrState)
      requires Rep() && Has(w)
      modifies w`state, `m
      ensures Rep() && w.id in old(m).wkr && w.state == s
      ensures m == old(m).(wkr := old(m).wkr[w.id := old(m).wkr[w.id].(state := s)])
    {
      hide Queues, Mirrors, Holding, LiveIds, Registered, Known, Waiting;
      PutState(w, s, m.wkr, k);
      m := m.(wkr := m.wkr[w.id := m.wkr[w.id].(state := s)]);
    }

    method SetTrials(w: Worker, n: nat)
      requires Rep() && Has(w)
      modifies w`trials, `m
      ensures Rep() && w.id in old(m).wkr
      ensures m == old(m).(wkr := old(m).wkr[w.id := old(m).wkr[w.id].(trials := n)])
    {
      hide Queues, Mirrors, Holding, LiveIds, Registered, Known, Waiting;
      PutTrials(w, n, m.wkr, k);
      m := m.(wkr := m.wkr[w.id := m.wkr[w.id].(trials := n)]);
    }

    /** The two-way link that wr_wkr_req_processing sets up. */
    method Link(w: Worker, r: Request)
      requires Rep() && Has(w) && w.req == null
      requires IsKnown(r) && r.wkr == null && r !in qMessages.contents
      modifies w`req, r`wkr, r`usingWkr, `m
      ensures Rep() && w.id in old(m).wkr
      ensures old(Using(k)) ==> Using(k)
      ensures m == old(m).(wkr := old(m).wkr[w.id := old(m).wkr[w.id].(req := Some(r.id))])
    {
      hide Queues, Mirrors, Holding, LiveIds, Registered, Known, Using;
      PutReq(w, r, m.wkr, k);
      m := m.(wkr := m.wkr[w.id := m.wkr[w.id].(req := Some(r.id))]);
    }

    /** wr_wkr_req_processed gives the request back; only the worker's own pointer is cleared. */
    method Unlink(w: Worker)
      requires Rep() && Has(w)
      modifies w`req, `m
      ensures Rep() && w.id in old(m).wkr && w.req == null
      ensures old(Using(k)) ==> Using(k)
      ensures m == old(m).(wkr := old(m).wkr[w.id := old(m).wkr[w.id].(req := None)])
    {
      hide Queues, Mirrors, Holding, LiveIds, Registered, Known, Waiting, Using;
      DropReq(w, m.wkr, k);
      m := m.(wkr := m.wkr[w.id := m.wkr[w.id].(req := None)]);
    }

    // ----- wr_connection.c and wr_worker.c -----

    /** wr_conn_err_resp: a request a worker still uses is marked, any other one is answered and freed. */
    method ErrResp(r: Request)
      requires Rep() && IsKnown(r)
      modifies r`connErr, `m, qMessages, qMessages.elements
      ensures Rep()
      ensures old(r.wkr == null) ==> m == AbortStep(old(m), r.id)
      ensures old(r.wkr != null) ==> qMessages.contents == old(qMessages.contents)
      ensures old(r.wkr != null && !r.usingWkr) ==> m == old(m).(finished := old(m).finished + [(r.id, Failed)])
      ensures old(r.wkr != null && r.usingWkr) ==> m == old(m) && r.connErr
    {
      hide Queue.Valid, Mirrors, Holding, LiveIds, Registered;
      if r.wkr != null {
        if r.usingWkr {
          r.connErr := true;
        } else {
          SetModel(m.(finished := m.finished + [(r.id, Failed)]));
        }
      } else {
        ghost var was := qMessages.contents;
        ReqIdsWithout(was, r);
        var _ := qMessages.Remove(r);
        WithoutIn(was, r);
        m := AbortStep(m, r.id);
      }
    }

    /** The first half of wr_wkr_free: an unfinished request is answered with status 500. */
    method Disown(w: Worker)
      requires Rep() && Has(w)
      modifies k.rs`usingWkr, k.rs`connErr, `m, qMessages, qMessages.elements
      ensures Rep() && qMessages.contents == old(qMessages.contents)
      ensures old(Using(k)) ==> Using(Forget(k, w))
      ensures m == old(m).(finished := old(m).finished + Outcomes(ReqOf(old(m).wkr, w.id), Failed))
    {
      hide Queue.Valid, LiveIds, Registered, Known, Waiting;
      if w.req != null {
        var r: Request := w.req;
        Unmark(w, r, k);
        ErrResp(r);
      } else {
        assert ReqOf(m.wkr, w.id) == [];
        assert m == old(m).(finished := m.finished + []);
      }
    }

    /** The second half: the worker leaves both queues. */
    method Strike(w: Worker)
      requires Queues()
      modifies qWorkers, qWorkers.elements, qFree, qFree.elements
      ensures Queues()
      ensures qWorkers.contents == Without(old(qWorkers.contents), w)
      ensures qFree.contents == Without(old(qFree.contents), w)
    {
      hide Queue.Valid, Without;
      var _ := qWorkers.Remove(w);
      var _ := qFree.Remove(w);
    }

    /** wr_wkr_free */
    method WkrFree(w: Worker)
      requires Rep() && Has(w) && Distinct(m.workers) && Distinct(m.idle)
      modifies `m, `k, k.rs`usingWkr, k.rs`connErr, qMessages, qMessages.elements,
               qWorkers, qWorkers.elements, qFree, qFree.elements
      ensures Rep() && k == Forget(old(k), w)
      ensures qMessages.contents == old(qMessages.contents)
      ensures old(Using(k)) ==> Using(k)
      ensures m == M.FreeWkr(old(m), w.id)
    {
      hide Queues, Linked, Using, WkrIds, ReqIds, Distinct, Without, ReqOf, Outcomes;
      Disown(w);
      ghost var m' := m.(wkr := m.wkr - {w.id}, workers := Without(m.workers, w.id), idle := Without(m.idle, w.id));
      ForgetKeepsLinks(m, m', k, qMessages.contents, qWorkers.contents, qFree.contents, w);
      Strike(w);
      assert Linked(m', Forget(k, w), qMessages.contents, qWorkers.contents, qFree.contents);
      hide Forget;
      k := Forget(k, w);
      m := m';
    }

    /** WR_QUEUE_FETCH on the message queue. */
    method TakeMessage() returns (r: Request)
      requires Rep() && m.messages != [] && Distinct(m.messages)
      modifies qMessages, `m
      ensures Rep() && m == old(m).(messages := old(m).messages[1..])
      ensures IsKnown(r) && r.wkr == null && r.id == old(m).messages[0]
      ensures r !in qMessages.contents
    {
      hide Queue.Valid, Mirrors, Holding, LiveIds, Registered;
      ghost var was := qMessages.contents;
      var x := qMessages.Fetch();
      r := x.value;
      HeadOnly(was);
      assert was[0] in was;
      m := m.(messages := m.messages[1..]);
    }

    /** WR_QUEUE_FETCH on the free queue. */
    method TakeIdle() returns (w: Worker)
      requires Rep() && m.idle != []
      modifies qFree, `m
      ensures Rep() && m == old(m).(idle := old(m).idle[1..])
      ensures Has(w) && w.id == old(m).idle[0]
    {
      hide Queue.Valid, Mirrors, Holding, LiveIds, Known, Waiting;
      ghost var was := qFree.contents;
      var x := qFree.Fetch();
      w := x.value;
      assert was[0] in was;
      m := m.(idle := m.idle[1..]);
    }

    /** WR_QUEUE_INSERT on the free queue, its result ignored. */
    method PutIdle(w: Worker)
      requires Rep() && Has(w)
      modifies qFree, qFree.elements, `m
      ensures Rep()
      ensures m == old(m).(idle := if |old(m).idle| < c.maxWorkers + 1 then old(m).idle + [w.id] else old(m).idle)
    {
      hide Queue.Valid, Mirrors, Holding, LiveIds, Known, Waiting;
      var ok := qFree.Insert(w);
      m := m.(idle := if ok then m.idle + [w.id] else m.idle);
    }

    /** wr_wkr_req_processing */
    method ReqProcessing(w: Worker, r: Request)
      requires Rep() && Has(w) && w.req == null && w.state == Inactive && Distinct(m.workers) && Distinct(m.idle)
      requires IsKnown(r) && r.wkr == null && r !in qMessages.contents
      modifies Repr()
      ensures Rep() && k == old(k)
      ensures old(Using(k)) ==> Using(k)
      ensures w.id in old(m).wkr && m == Start(old(m), w.id, r.id)
      decreases 1
    {
      hide Rep, Using, Distinct, M.StateMachine;
      StateIs(w);
      Link(w, r);
      StateIs(w);
      ProcessIs(c, m, w.id);
      StateMachine(w, ToProcess, []);
      LogStart(r);
    }

    ghost method LogStart(r: Request)
      requires Rep()
      modifies `m
      ensures Rep() && m == old(m).(started := old(m).started + [r.id])
    {
      hide Queues, Linked;
      SetModel(m.(started := m.started + [r.id]));
    }

    /** wr_wrk_allocate */
    method Allocate(w: Worker)
      requires Rep() && Has(w) && w.req == null && w.state == Inactive
      requires Distinct(m.workers) && Distinct(m.idle) && Distinct(m.messages)
      modifies Repr()
      ensures Rep() && k == old(k)
      ensures old(Using(k)) ==> Using(k)
      ensures w.id in old(m).wkr && m == M.Allocate(c, old(m), w.id)
      decreases 2
    {
      hide Queue.Valid, Linked, Using;
      StateIs(w);
      if qMessages.count > 0 {
        var req := TakeMessage();
        ReqProcessing(w, req);
      } else {
        PutIdle(w);
      }
    }

    lemma StateIs(w: Worker)
      requires Rep() && Has(w)
      ensures w.id in m.wkr && m.wkr[w.id] == Fields(w)
    {}

    /** The row WKR_ACTION_REQ_PROCESSED of a worker that stays. */
    method Reallocate(w: Worker)
      requires Rep() && Has(w) && w.req == null && Distinct(m.workers) && Distinct(m.idle) && Distinct(m.messages)
      modifies Repr()
      ensures Rep() && k == old(k)
      ensures old(Using(k)) ==> Using(k)
      ensures var a := old(m);
        w.id in a.wkr && m == M.Allocate(c, a.(wkr := a.wkr[w.id := a.wkr[w.id].(state := Inactive)]), w.id)
      ensures w.id in m.wkr
      decreases 3
    {
      hide Rep, Using, Distinct, M.Allocate;
      StateIs(w);
      SetState(w, Inactive);
      StateIs(w);
      Allocate(w);
      StateIs(w);
    }

    /** wr_wkr_state_machine */
    method StateMachine(w: Worker, action: Action, forks: seq<int>)
      requires Rep() && Has(w) && Distinct(m.workers) && Distinct(m.idle)
      requires action == ToProcessed ==> w.req == null && Distinct(m.messages)
      modifies Repr()
      ensures Rep() && k == if w.id in m.wkr then old(k) else Forget(old(k), w)
      ensures old(Using(k)) ==> Using(k)
      ensures w.id in old(m).wkr && m == M.StateMachine(c, old(m), w.id, action, forks)
      decreases if action == ToProcess then 0 else 4
    {
      hide Rep, Using, Distinct, M.Allocate, M.FreeWkr, Balance;
      StateIs(w);
      if action == ToError || action == ToRemove {
        Retire(w, Error);
        return;
      }
      match w.state {
        case Connecting =>
          if action == ToAdd {
            SetState(w, Inactive);
          }
        case Inactive =>
          if action == ToProcess {
            SetState(w, Active);
          }
        case Active =>
          if action == ToProcessed {
            Reallocate(w);
          } else if action == ToPingTimeout {
            PingTimeout(w, forks);
          }
        case Pinging =>
          if action == ToProcessed {
            Reallocate(w);
          } else if action == ToProcess || action == ToPingReply {
            SetState(w, Active);
          } else if action == ToPingTimeout {
            PingTimeout(w, forks);
          }
        case Expired =>
          if action == ToProcessed || action == ToPingTimeout {
            Retire(w, Disconnecting);
          }
        case _ =>
          Retire(w, w.state);
      }
    }

    /** Marks a worker with its last state and frees it. */
    method Retire(w: Worker, last: WkrState)
      requires Rep() && Has(w) && Distinct(m.workers) && Distinct(m.idle)
      modifies Repr()
      ensures Rep() && k == Forget(old(k), w)
      ensures qMessages.contents == old(qMessages.contents)
      ensures old(Using(k)) ==> Using(k)
      ensures m == M.FreeWkr(old(m), w.id) && w.id !in m.wkr
    {
      hide Rep, Using, Distinct;
      ghost var a := m;
      StateIs(w);
      SetState(w, last);
      WkrFree(w);
      assert a.wkr[w.id := a.wkr[w.id].(state := last)] - {w.id} == a.wkr - {w.id};
    }

    /** The ping branch of ACTIVE and PINGING, with wr_wkr_ping_send. */
    method PingTimeout(w: Worker, forks: seq<int>)
      requires Rep() && Has(w) && Distinct(m.workers) && Distinct(m.idle)
      requires w.state == Active || w.state == Pinging
      modifies Repr()
      ensures Rep() && k == if w.id in m.wkr then old(k) else Forget(old(k), w)
      ensures old(Using(k)) ==> Using(k)
      ensures w.id in old(m).wkr && m == Busy(c, old(m), w.id, ToPingTimeout, forks)
    {
      hide Rep, Using, Distinct;
      StateIs(w);
      if w.trials < c.pingTrials {
        SetState(w, Pinging);
        SetTrials(w, w.trials + 1);
      } else {
        Retire(w, Hangup);
        WkrBalance(forks);
        DispatchRuns.FillOnlyForks(c, M.FreeWkr(old(m), w.id), forks);
      }
    }

    // ----- from ids to objects -----

    lemma WorkerObject(w: WkrId)
      requires Rep() && w in m.wkr
      ensures w in k.reg && Has(k.reg[w]) && k.reg[w].id == w
    {}

    lemma WaitingObject(r: ReqId)
      requires Rep() && r in m.messages
      ensures r in k.live && IsKnown(k.live[r]) && k.live[r] in qMessages.contents && k.live[r].id == r
    {
      var i :| 0 <= i < |m.messages| && m.messages[i] == r;
      assert qMessages.contents[i].id == r && qMessages.contents[i] in qMessages.contents;
    }

    lemma HeldObject(w: Worker)
      requires Rep() && Has(w) && m.wkr[w.id].req.Some?
      ensures w.req != null && IsKnown(w.req) && w.req.wkr == w && w.req !in qMessages.contents
    {}

    lemma NewId(r: ReqId)
      requires Rep() && r !in m.admitted && r !in m.refused
      ensures r !in k.live
    {}

    lemma QueuedObject(w: Worker)
      requires Rep() && w in qWorkers.contents
      ensures Has(w) && w.id in m.workers && w.id in m.wkr && m.wkr[w.id] == Fields(w)
      ensures w in qFree.contents <==> w.id in m.idle
    {
      var i :| 0 <= i < |qWorkers.contents| && qWorkers.contents[i] == w;
      assert m.workers[i] == w.id;
      if w in qFree.contents {
        var j :| 0 <= j < |qFree.contents| && qFree.contents[j] == w;
        assert m.idle[j] == w.id;
      }
      if w.id in m.idle {
        var j :| 0 <= j < |m.idle| && m.idle[j] == w.id;
        assert qFree.contents[j] in qFree.contents && qFree.contents[j].id == w.id;
      }
    }

    // ----- events: requests -----

    /** WR_APP_MSG_DISPATCH in wr_wkr_dispatch_req */
    method DispatchReq()
      requires Rep() && Pool(c, m, {}) && Distinct(m.messages)
      modifies Repr()
      ensures Rep() && k == old(k)
      ensures old(Using(k)) ==> Using(k)
      ensures m == Dispatch(old(m))
    {
      hide Rep, Using, Distinct, Pool;
      CountWaiting();
      if qMessages.count > 0 && qFree.count > 0 {
        FirstIdle(c, m);
        var w := TakeIdle();
        StateIs(w);
        var r := TakeMessage();
        ReqProcessing(w, r);
      }
    }

    /** WR_QUEUE_INSERT on the message queue; a refused request goes through wr_req_invalid. */
    method Admit(r: Request) returns (ok: bool)
      requires Rep() && r.wkr == null && r.id !in m.admitted && r.id !in m.refused
      modifies `m, `k, qMessages, qMessages.elements
      ensures Rep() && k == if ok then With(old(k), r) else old(k)
      ensures old(Using(k)) ==> Using(k)
      ensures ok == (|old(m).messages| < c.maxMessages)
      ensures m == if ok then old(m).(messages := old(m).messages + [r.id], admitted := old(m).admitted + [r.id])
                   else old(m).(refused := old(m).refused + {r.id})
    {
      hide Queue.Valid, Linked, Using, WkrIds, ReqIds, Without;
      NewRequestLinks(r);
      IdsAppend(qMessages.contents, r);
      ok := qMessages.Insert(r);
      if ok {
        k := With(k, r);
        m := m.(messages := m.messages + [r.id], admitted := m.admitted + [r.id]);
      } else {
        Refuse(r);
      }
    }

    /** wr_req_invalid on a request that no queue took. */
    method Refuse(r: Request)
      requires Rep() && r !in qMessages.contents
      modifies `m, qMessages, qMessages.elements
      ensures Rep() && m == old(m).(refused := old(m).refused + {r.id})
    {
      hide Queue.Valid, Linked, WkrIds, ReqIds, Without;
      WithoutAbsent(qMessages.contents, r);
      var _ := qMessages.Remove(r);
      assert qWorkers.contents == old(qWorkers.contents) && qFree.contents == old(qFree.contents);
      assert forall o :: o in k.ws ==> unchanged(o);
      assert forall o :: o in k.rs ==> unchanged(o);
      assert LinkedNow();
      RefusedKeepsLinks(m, k, qMessages.contents, qWorkers.contents, qFree.contents, r.id);
      m := m.(refused := m.refused + {r.id});
    }

    /** wr_req_complete_cb */
    method OnComplete(r: Request)
      requires Valid() && r.wkr == null && Enabled(c, m, Complete(r.id))
      modifies Repr(), r
      ensures Valid() && m == Step(c, old(m), Complete(r.id))
      ensures k == if |old(m).messages| < c.maxMessages then With(old(k), r) else old(k)
      ensures |old(m).messages| < c.maxMessages ==> IsKnown(r)
      ensures Repr() == old(Repr()) + if |old(m).messages| < c.maxMessages then {r} else {}
    {
      hide Queues, Abstracts, LinkedNow, Using, Inv, Pool, Distinct, Dispatch;
      DispatchRuns.StepKeeps(c, m, Complete(r.id));
      CompleteFacts(c, m, r.id);
      var ok := Admit(r);
      if ok {
        DispatchReq();
      }
    }

    lemma NewRequestLinks(r: Request)
      requires LinkedNow() && r.id !in m.admitted && r.id !in m.refused && r.wkr == null
      ensures r.id !in k.live && r !in qMessages.contents
      ensures Linked(m.(messages := m.messages + [r.id], admitted := m.admitted + [r.id]), With(k, r),
                     qMessages.contents + [r], qWorkers.contents, qFree.contents)
      ensures Using(k) ==> Using(With(k, r))
    {}

    /** wr_req_parse_err_cb: a connection fails while its request waits, or while a worker has it. */
    method OnConnError(r: Request)
      requires Valid() && IsKnown(r)
      requires r in qMessages.contents || (r.wkr != null && Has(r.wkr) && r.wkr.req == r)
      modifies Repr()
      ensures Valid()
      ensures old(r in qMessages.contents) ==> Enabled(c, old(m), Abort(r.id)) && m == Step(c, old(m), Abort(r.id))
      ensures old(r !in qMessages.contents) ==> m == old(m) && r.connErr
      ensures Kept(old(k), k) && Repr() == old(Repr())
    {
      hide Queue.Valid, Inv, Mirrors, Holding, LiveIds, Registered;
      if r in qMessages.contents {
        assert r.id in m.messages by {
          var i :| 0 <= i < |qMessages.contents| && qMessages.contents[i] == r;
          assert m.messages[i] == r.id;
        }
        AliveWhileWaiting(r.id);
        DispatchRuns.StepKeeps(c, m, Abort(r.id));
      }
      ErrResp(r);
    }

    lemma AliveWhileWaiting(r: ReqId)
      requires Inv(c, m) && r in m.messages
      ensures Enabled(c, m, Abort(r))
    {}

    // ----- events: workers -----

    /** wr_wait_watcher_start, on every sign that the response makes progress. */
    method OnProgress(w: Worker)
      requires Valid() && Has(w) && Enabled(c, m, Progress(w.id))
      modifies Repr()
      ensures Valid() && m == Step(c, old(m), Progress(w.id))
      ensures w.trials == 0 && w.state == (if old(w.state) == Pinging then Active else old(w.state))
      ensures Has(w) && w.req == old(w.req) != null
      ensures Kept(old(k), k) && Repr() == old(Repr())
    {
      hide Rep, Using, Inv, Distinct, M.StateMachine, M.Step, Kept;
      InvFacts(c, m);
      SignKeeps(c, m, w.id, ToProcess);
      DispatchRuns.StepKeeps(c, m, Progress(w.id));
      DispatchEffects.ProgressEffect(c, m, w.id);
      ProgressIs(c, m, w.id);
      KeptSame(k);
      StateIs(w);
      HeldObject(w);
      StateMachine(w, ToProcess, []);
      SetTrials(w, 0);
      StateIs(w);
      HeldObject(w);
    }

    /** wr_wkr_req_processed: the response is complete. */
    method OnRespond(w: Worker)
      requires Valid() && Has(w) && Enabled(c, m, Respond(w.id))
      modifies Repr()
      ensures Valid() && m == Step(c, old(m), Respond(w.id))
      ensures Kept(old(k), k) && Repr() == old(Repr())
    {
      hide Queues, Linked, Using, Inv, Distinct, M.StateMachine;
      InvFacts(c, m);
      DispatchRuns.StepKeeps(c, m, Respond(w.id));
      Unlink(w);
      SetModel(m.(finished := m.finished + Outcomes(ReqOf(old(m).wkr, w.id), Served)));
      StateMachine(w, ToProcessed, []);
    }

    /** A failed read or write, or an empty response: WKR_ACTION_ERROR. */
    method OnBroken(w: Worker)
      requires Valid() && Has(w) && Enabled(c, m, Broken(w.id))
      modifies Repr()
      ensures Valid() && m == Step(c, old(m), Broken(w.id))
      ensures Kept(old(k), k) && Repr() == old(Repr())
    {
      hide Rep, Using, Inv, Distinct, M.StateMachine;
      InvFacts(c, m);
      DispatchRuns.StepKeeps(c, m, Broken(w.id));
      StateMachine(w, ToError, []);
    }

    /** wr_wkr_wait_cb */
    method OnPingTimer(w: Worker, forks: seq<int>)
      requires Valid() && Has(w) && Enabled(c, m, PingTimer(w.id, forks))
      modifies Repr()
      ensures Valid() && m == Step(c, old(m), PingTimer(w.id, forks))
      ensures Kept(old(k), k) && Repr() == old(Repr())
    {
      hide Rep, Using, Inv, Distinct, M.StateMachine;
      InvFacts(c, m);
      DispatchRuns.StepKeeps(c, m, PingTimer(w.id, forks));
      StateMachine(w, ToPingTimeout, forks);
    }

    /** wr_wkr_ping_cb */
    method OnPingReply(w: Worker)
      requires Valid() && Has(w) && Enabled(c, m, PingReply(w.id))
      modifies Repr()
      ensures Valid() && m == Step(c, old(m), PingReply(w.id))
      ensures Kept(old(k), k) && Repr() == old(Repr())
    {
      hide Rep, Using, Inv, Distinct, M.StateMachine;
      InvFacts(c, m);
      DispatchRuns.StepKeeps(c, m, PingReply(w.id));
      StateMachine(w, ToPingReply, []);
    }

    /** wr_wkr_remove_cb, and wr_ctl_free when the control connection is lost. */
    method OnGone(w: Worker, forks: seq<int>)
      requires Valid() && Has(w) && Enabled(c, m, Gone(w.id, forks))
      modifies Repr()
      ensures Valid() && m == Step(c, old(m), Gone(w.id, forks))
      ensures Kept(old(k), k) && Repr() == old(Repr())
    {
      hide Queues, Linked, Using, Inv, Distinct, M.StateMachine, M.Balance;
      InvFacts(c, m);
      DispatchRuns.StepKeeps(c, m, Gone(w.id, forks));
      StateMachine(w, ToRemove, []);
      if phase == Serving {
        WkrBalance(forks);
      }
    }

    // ----- events: the application -----

    /** wr_app_wkr_add_cb */
    method OnAddTimer(forks: seq<int>)
      requires Valid() && Enabled(c, m, AddTimer(forks))
      modifies Repr()
      ensures Valid() && m == Step(c, old(m), AddTimer(forks))
      ensures Kept(old(k), k) && Repr() == old(Repr())
    {
      hide Queue.Valid, Linked, Using, Inv, M.Spawn;
      DispatchRuns.StepKeeps(c, m, AddTimer(forks));
      if qPending.count + qWorkers.count < conf.max {
        var _ := WkrAdd(forks);
      }
    }

    /** wr_app_kill_pending_wkr: kill one pending worker, or all of them. */
    method KillPendingWkr(one: bool)
      requires Rep()
      modifies `m, qPending
      ensures Rep()
      ensures m == old(m).(pending := if one && old(m).pending != [] then old(m).pending[1..] else [])
    {
      hide Queue.Valid, Linked;
      ghost var was := m.pending;
      while qPending.count > 0
        invariant Rep() && m == old(m).(pending := m.pending)
        invariant one ==> m.pending == was
        decreases |qPending.contents|
      {
        var _ := qPending.Fetch();
        SetModel(m.(pending := qPending.contents));
        if one {
          return;
        }
      }
      assert m.pending == [];
    }

    method SetTimeouts(n: nat)
      requires Rep()
      modifies `timeouts, `m
      ensures Rep() && timeouts == n && m == old(m).(timeouts := n)
    {
      hide Queues, Linked, WkrIds, ReqIds;
      timeouts := n;
      SetModel(m.(timeouts := n));
    }

    lemma FieldsOf()
      requires Rep()
      ensures timeouts == m.timeouts && phase == m.phase && conf == m.conf && next == m.next
    {}

    /** wr_app_wkr_add_timeout_cb: count the timeout and kill late processes, unless it is time to reset. */
    method CountTimeout() returns (reset: bool)
      requires Rep()
      modifies `timeouts, `m, qPending
      ensures Rep() && reset == (old(m).timeouts + 1 > c.addTrials)
      ensures var t := old(m).timeouts + 1;
        m == if reset then old(m).(timeouts := 0)
             else old(m).(timeouts := if t == c.addTrials then t + 1 else t,
                          pending := KillPending(c, t, old(m).pending))
    {
      hide Queues, LinkedNow;
      SetTimeouts(timeouts + 1);
      if timeouts > c.addTrials {
        SetTimeouts(0);
        return true;
      } else if timeouts == c.addTrials {
        SetTimeouts(timeouts + 1);
        KillPendingWkr(false);
      }
      KillPendingWkr(true);
      return false;
    }

    method OnAddTimeout(forks: seq<int>)
      requires Valid() && Enabled(c, m, AddTimeout(forks))
      modifies Repr()
      ensures Valid() && m == Step(c, old(m), AddTimeout(forks))
      ensures Kept(old(k), k) && Repr() == old(Repr())
    {
      hide Rep, Using, Inv, Distinct, M.AfterKill, KillPending, Kept, M.Step;
      KeptSame(k);
      TimeoutStep(c, m, forks);
      InvFacts(c, m);
      DispatchRuns.StepKeeps(c, m, AddTimeout(forks));
      FieldsOf();
      var reset := CountTimeout();
      if !reset {
        FieldsOf();
        AfterKill(forks);
      }
    }

    /** What wr_app_wkr_add_timeout_cb does once the late processes are killed. */
    method AfterKill(forks: seq<int>)
      requires Rep() && Using(k) && Distinct(m.workers) && Distinct(m.idle) && Distinct(m.messages)
      requires phase != Destroyed
      modifies Repr()
      ensures Rep() && Using(k) && m == M.AfterKill(c, old(m), forks)
      ensures Kept(old(k), k) && Repr() == old(Repr())
    {
      hide Rep, Using, Distinct, M.Balance, M.Destroy;
      FieldsOf();
      CountWorkers();
      if phase == Restart {
        SetControl(Serving, None, 0);
        return;
      } else if phase == New {
        if qPending.count == 0 {
          SetTimeouts(0);
          AppFree();
        }
        return;
      }
      WkrBalance(forks);
    }

    /** wr_app_wkr_error */
    method OnAddError(pid: int)
      requires Valid() && Enabled(c, m, AddError(pid))
      modifies Repr()
      ensures Valid() && m == Step(c, old(m), AddError(pid))
      ensures Kept(old(k), k) && Repr() == old(Repr())
    {
      hide Rep, Using, Inv, Distinct, M.Destroy;
      InvFacts(c, m);
      DispatchRuns.StepKeeps(c, m, AddError(pid));
      FieldsOf();
      if phase == Restart {
        SetControl(Serving, None, 0);
      } else if phase == New {
        SetTimeouts(0);
        AppFree();
      } else {
        var _ := TakePending(pid);
        SetTimeouts(0);
      }
    }

    /** wr_pending_worker_exist, and what it does to the abstract state. */
    method TakePending(pid: int) returns (found: bool)
      requires Rep()
      modifies `m, qPending, qPending.elements
      ensures Rep() && found == (pid in old(m).pending)
      ensures m == old(m).(pending := if found then Taken(old(m).pending, pid) else old(m).pending)
    {
      hide Queue.Valid, Linked, Taken, WkrIds, ReqIds;
      found := PendingWorkerExist(pid);
      assert qMessages.contents == old(qMessages.contents);
      assert qWorkers.contents == old(qWorkers.contents) && qFree.contents == old(qFree.contents);
      assert forall o :: o in k.ws ==> unchanged(o);
      assert forall o :: o in k.rs ==> unchanged(o);
      assert LinkedNow();
      SetModel(m.(pending := qPending.contents));
    }

    /** wr_app_reload_cb */
    method OnReload(limits: Limits, forks: seq<int>)
      requires Valid() && Enabled(c, m, Reload(limits, forks))
      modifies Repr()
      ensures Valid() && m == Step(c, old(m), Reload(limits, forks))
      ensures Kept(old(k), k) && Repr() == old(Repr())
    {
      hide Rep, Using, Inv, Distinct, M.Spawn;
      DispatchRuns.StepKeeps(c, m, Reload(limits, forks));
      SetControl(Restart, Some(limits), 0);
      KillPendingWkr(false);
      var _ := WkrAdd(forks);
    }

    /** wr_queue_fetch on the worker queue. */
    method TakeWorker() returns (w: Worker)
      requires Rep() && m.workers != []
      modifies qWorkers, `m
      ensures Rep() && m == old(m).(workers := old(m).workers[1..])
      ensures Has(w) && w.id == old(m).workers[0]
      ensures old(qWorkers.contents) != [] && w == old(qWorkers.contents)[0]
      ensures qWorkers.contents == old(qWorkers.contents)[1..]
    {
      hide Queue.Valid, Mirrors, Holding, LiveIds, Known, Waiting;
      ghost var was := qWorkers.contents;
      var x := qWorkers.Fetch();
      w := x.value;
      assert was[0] in was;
      m := m.(workers := m.workers[1..]);
    }

    /** The first loop of wr_app_free: every worker is freed, its request failed. */
    method FreeWorkers()
      requires Rep() && Using(k) && Distinct(m.workers) && Distinct(m.idle)
      modifies Repr()
      ensures Rep() && Using(k) && m == FreeAll(old(m))
      ensures Kept(old(k), k) && m.messages == old(m).messages
    {
      hide Queue.Valid, Linked, Using, Distinct, M.FreeWkr, Forget, Kept;
      KeptSame(k);
      while qWorkers.count > 0
        invariant Rep() && Using(k) && FreeAll(m) == FreeAll(old(m))
        invariant Distinct(m.workers) && Distinct(m.idle) && m.messages == old(m).messages
        invariant Kept(old(k), k) && k.ws == old(k).ws && k.rs == old(k).rs
        decreases |m.workers|
      {
        DispatchRuns.FetchThenFree(m);
        DispatchRuns.FreeDistinct(m, m.workers[0]);
        DispatchRuns.FreeShrinks(m, m.workers[0]);
        var w := TakeWorker();
        ForgetKept(old(k), k, w);
        WkrFree(w);
      }
    }

    /** The second loop of wr_app_free: every waiting request is failed. */
    method DrainMessages()
      requires Rep() && Using(k) && Distinct(m.messages)
      modifies Repr()
      ensures Rep() && Using(k) && m == Drain(old(m)) && k == old(k)
    {
      hide Queue.Valid, Linked, Using, Distinct, Drain, AbortStep;
      while qMessages.count > 0
        invariant Rep() && Using(k) && Distinct(m.messages)
        invariant k == old(k)
        invariant Drain(m) == Drain(old(m))
        decreases |m.messages|
      {
        DispatchRuns.DrainOne(m);
        var r := TakeMessage();
        ErrResp(r);
      }
      DispatchRuns.DrainNone(m);
    }

    /** wr_app_free */
    method AppFree()
      requires Rep() && Using(k) && Distinct(m.workers) && Distinct(m.idle) && Distinct(m.messages)
      modifies Repr()
      ensures Rep() && Using(k) && m == M.Destroy(old(m)) && Kept(old(k), k)
    {
      hide Rep, Using, Distinct, FreeAll, Drain;
      FieldsOf();
      SetControl(Destroyed, None, timeouts);
      FreeWorkers();
      DrainMessages();
      KillPendingWkr(false);
    }

    /** The loops of wr_app_wkr_remove_cb: the first worker in the queue that has this pid. */
    method FindPid(q: Queue<Worker>, pid: int) returns (found: Worker?)
      requires q.Valid()
      ensures found == null ==> forall w :: w in q.contents ==> w.pid != pid
      ensures found != null ==>
        exists i :: 0 <= i < |q.contents| && q.contents[i] == found && FirstWithPid(q.contents, i, pid)
    {
      hide Queue.Valid;
      var i := 0;
      while i < q.count
        invariant 0 <= i <= |q.contents|
        invariant forall j :: 0 <= j < i ==> q.contents[j].pid != pid
      {
        var w := q.Peek(i);
        if w.pid == pid {
          return w;
        }
        i := i + 1;
      }
      return null;
    }

    ghost predicate FirstWithPid(ws: seq<Worker>, i: nat, pid: int) {
      i < |ws| && ws[i].pid == pid && forall j :: 0 <= j < i ==> ws[j].pid != pid
    }

    ghost predicate PidsShow(ws: seq<Worker>, wkr: map<WkrId, Wkr>)
      reads ws
    {
      forall w <- ws :: w.id in wkr && wkr[w.id].pid == w.pid
    }

    lemma PidsAreShown(ws: seq<Worker>)
      requires Mirrors(m.wkr, k) && Registered(ws, k)
      ensures PidsShow(ws, m.wkr)
    {
      forall w | w in ws ensures w.id in m.wkr && m.wkr[w.id].pid == w.pid {
        assert m.wkr[w.id] == Fields(w);
      }
    }

    lemma {:induction false} FindsWithPid(ws: seq<Worker>, wkr: map<WkrId, Wkr>, pid: int)
      requires PidsShow(ws, wkr)
      ensures (forall w :: w in ws ==> w.pid != pid) ==> WithPid(WkrIds(ws), wkr, pid) == None
      ensures forall i :: 0 <= i < |ws| && FirstWithPid(ws, i, pid) ==>
        WithPid(WkrIds(ws), wkr, pid) == Some(ws[i].id)
    {
      if ws != [] {
        assert ws[0] in ws;
        assert WkrIds(ws)[1..] == WkrIds(ws[1..]);
        if ws[0].pid != pid {
          FindsWithPid(ws[1..], wkr, pid);
          forall i | 0 <= i < |ws| && FirstWithPid(ws, i, pid)
            ensures WithPid(WkrIds(ws), wkr, pid) == Some(ws[i].id)
          {
            assert forall j :: 0 <= j < |ws| - 1 ==> ws[1..][j] == ws[j + 1];
            assert FirstWithPid(ws[1..], i - 1, pid);
          }
        }
      }
    }

    method Locate(q: Queue<Worker>, pid: int) returns (found: Worker?)
      requires Rep() && (q == qFree || q == qWorkers)
      ensures found == null ==> WithPid(WkrIds(q.contents), m.wkr, pid) == None
      ensures found != null ==> Has(found) && WithPid(WkrIds(q.contents), m.wkr, pid) == Some(found.id)
    {
      hide Queue.Valid, Mirrors, Holding, LiveIds, Known, Waiting, WkrIds, ReqIds, WithPid;
      PidsAreShown(q.contents);
      FindsWithPid(q.contents, m.wkr, pid);
      found := FindPid(q, pid);
    }

    /** The worker with the pid that ps reported goes now if it is idle, after its request if not. */
    method Shed(pid: int)
      requires Rep() && Using(k) && Distinct(m.workers) && Distinct(m.idle) && |m.workers| > m.conf.min
      modifies Repr()
      ensures Rep() && Using(k) && m == RemoveTimerStep(old(m), Some(pid)) && Kept(old(k), k)
    {
      hide Rep, Using, Distinct, WkrIds, WithPid, M.FreeWkr;
      CountWorkers();
      var idle := Locate(qFree, pid);
      if idle != null {
        Retire(idle, Error);
        return;
      }
      var busy := Locate(qWorkers, pid);
      if busy != null {
        SetState(busy, Expired);
      }
    }

    /** wr_app_wkr_remove_cb; `largest` is the pid that ps put into the file, if it could be read. */
    method OnRemoveTimer(largest: Option<int>)
      requires Valid() && Enabled(c, m, RemoveTimer(largest))
      modifies Repr()
      ensures Valid() && m == Step(c, old(m), RemoveTimer(largest))
      ensures Kept(old(k), k) && Repr() == old(Repr())
    {
      hide Rep, Using, Inv, Distinct, WithPid, M.FreeWkr;
      InvFacts(c, m);
      DispatchRuns.StepKeeps(c, m, RemoveTimer(largest));
      CountWorkers();
      FieldsOf();
      if qWorkers.count > conf.min && largest.Some? {
        Shed(largest.value);
      }
    }

    lemma CountWaiting()
      requires Rep()
      ensures qMessages.count == |m.messages| && qFree.count == |m.idle|
    {}

    lemma CountWorkers()
      requires Rep()
      ensures qWorkers.count == |m.workers| && qPending.count == |m.pending|
      ensures m.idle == WkrIds(qFree.contents) && m.workers == WkrIds(qWorkers.contents)
    {}

    /** wr_app_remove_cb for this application. */
    method OnRemoveApp()
      requires Valid() && Enabled(c, m, RemoveApp)
      modifies Repr()
      ensures Valid() && m == Step(c, old(m), RemoveApp)
      ensures Kept(old(k), k) && Repr() == old(Repr())
    {
      hide Queues, Linked, Using, Inv, Distinct, M.Destroy;
      InvFacts(c, m);
      DispatchRuns.StepKeeps(c, m, RemoveApp);
      AppFree();
    }

    // ----- events: registration -----

    /** The first loop of wr_app_reload: free workers go at once. */
    method FreeIdleWorkers()
      requires Rep() && Using(k) && Distinct(m.workers) && Distinct(m.idle)
      modifies Repr()
      ensures Rep() && Using(k) && m == FreeIdle(old(m)) && Kept(old(k), k)
    {
      hide Queue.Valid, Linked, Using, Distinct, M.FreeWkr, Forget, Kept;
      KeptSame(k);
      while qFree.count > 0
        invariant Rep() && Using(k) && FreeIdle(m) == FreeIdle(old(m))
        invariant Distinct(m.workers) && Distinct(m.idle)
        invariant Kept(old(k), k) && k.ws == old(k).ws && k.rs == old(k).rs
        decreases |m.idle|
      {
        DispatchRuns.FetchThenFree(m);
        DispatchRuns.FreeDistinct(m, m.idle[0]);
        DispatchRuns.FreeFewerIdle(m);
        var w := TakeIdle();
        ForgetKept(old(k), k, w);
        WkrFree(w);
      }
    }

    /** wr_queue_fetch and wr_queue_insert of the same worker: one turn of the ring. */
    method RotateWorkers() returns (w: Worker)
      requires Rep() && m.workers != []
      modifies qWorkers, qWorkers.elements, `m
      ensures Rep() && Has(w) && w.id == old(m).workers[0]
      ensures m == old(m).(workers := old(m).workers[1..] + [old(m).workers[0]])
    {
      hide Queue.Valid, Mirrors, Holding, LiveIds, Known, Waiting, ReqIds;
      w := TakeWorker();
      var _ := qWorkers.Insert(w);
      m := m.(workers := m.workers + [w.id]);
    }

    /** The second loop of wr_app_reload: every worker that is left is marked, in queue order. */
    method ExpireWorkers()
      requires Rep() && Using(k) && m.wkr.Keys == Elems(m.workers)
      modifies Repr()
      ensures Rep() && Using(k) && k == old(k) && m == old(m).(wkr := ExpireAll(old(m).wkr))
    {
      hide Rep, Using, ExpireAll, DispatchRuns.ExpireSome, Rotated, Elems;
      ghost var was, ids := m.wkr, m.workers;
      DispatchRuns.ExpireEverybody(was, Elems(ids));
      ElemsIn(ids, was);
      CountWorkers();
      var count := 0;
      RotateFully(ids);
      ElemsNone();
      while count < qWorkers.count
        invariant Rep() && Using(k) && k == old(k)
        invariant 0 <= count <= |ids| == qWorkers.count
        invariant m == old(m).(workers := Rotated(ids, count),
                               wkr := DispatchRuns.ExpireSome(was, Elems(ids[..count])))
      {
        ExpireNext(was, ids, count);
        CountWorkers();
        count := count + 1;
      }
    }

    /** One turn of that loop. */
    method ExpireNext(ghost was: map<WkrId, Wkr>, ghost ids: seq<WkrId>, ghost count: nat)
      requires Rep() && count < |ids| && ids[count] in was
      requires m.workers == Rotated(ids, count)
      requires m.wkr == DispatchRuns.ExpireSome(was, Elems(ids[..count]))
      modifies Repr()
      ensures Rep() && k == old(k) && (old(Using(k)) ==> Using(k))
      ensures m == old(m).(workers := Rotated(ids, count + 1),
                           wkr := DispatchRuns.ExpireSome(was, Elems(ids[..count + 1])))
    {
      hide Rep, Using, DispatchRuns.ExpireSome, Rotated, Elems;
      RotateOne(ids, count);
      ElemsNext(ids, count);
      DispatchRuns.ExpireOneMore(was, Elems(ids[..count]), ids[count]);
      var w := RotateWorkers();
      SetState(w, Expired);
    }

    /** wr_app_reload */
    method AppReload()
      requires Valid() && m.next.Some?
      modifies Repr()
      ensures Rep() && Using(k) && m == Renew(old(m)) && Kept(old(k), k)
    {
      hide Rep, Using, Inv, Distinct, FreeIdle, ExpireAll;
      InvFacts(c, m);
      DispatchRuns.RenewFacts(c, m);
      TakeLimits();
      FreeIdleWorkers();
      ExpireWorkers();
      SetPhase(Restarting);
    }

    /** The new limits come into force. */
    method TakeLimits()
      requires Rep() && m.next.Some?
      modifies `conf, `next, `m
      ensures Rep() && m == old(m).(conf := old(m).next.value, next := None)
    {
      hide Rep;
      FieldsOf();
      SetConf(next.value);
      SetNext(None);
    }

    /** wr_app_wkr_insert */
    method WkrInsert(pid: int) returns (ok: bool)
      requires Valid() && m.phase != Destroyed
      modifies Repr()
      ensures Valid() && ok == Wanted(old(m), pid) && Kept(old(k), k)
      ensures ok == (pid in old(m.pending) && (old(m.phase) == Restart || old(|m.workers|) < old(m.conf.max)))
      ensures m == if ok then Accept(old(m), pid) else old(m)
    {
      hide Rep, Using, Inv, Distinct, Renew, Taken;
      InvFacts(c, m);
      CountWorkers();
      FieldsOf();
      if conf.max > qWorkers.count || phase == Restart {
        if pid in m.pending { DispatchRuns.AcceptKeeps(c, m, pid); }
        var pending := TakePending(pid);
        if !pending {
          return false;
        }
        SetTimeouts(0);
        FieldsOf();
        if phase == Restart {
          DispatchRuns.TakenKeeps(c, old(m), pid);
          AppReload();
        } else if phase == New {
          SetPhase(Serving);
        }
        return true;
      }
      return false;
    }

    method SetControl(p: Phase, n: Option<Limits>, t: nat)
      requires Rep()
      modifies `phase, `next, `timeouts, `m
      ensures Rep() && phase == p && m == old(m).(phase := p, next := n, timeouts := t)
    {
      hide Rep;
      SetPhase(p);
      SetNext(n);
      SetTimeouts(t);
      FieldsOf();
    }

    method SetNext(n: Option<Limits>)
      requires Rep()
      modifies `next, `m
      ensures Rep() && m == old(m).(next := n)
    {
      hide Queues, Linked, WkrIds, ReqIds;
      next := n;
      SetModel(m.(next := n));
    }

    method SetConf(l: Limits)
      requires Rep()
      modifies `conf, `m
      ensures Rep() && m == old(m).(conf := l)
    {
      hide Queues, Linked, WkrIds, ReqIds;
      conf := l;
      SetModel(m.(conf := l));
    }

    method SetPhase(p: Phase)
      requires Rep()
      modifies `phase, `m
      ensures Rep() && m == old(m).(phase := p)
    {
      hide Queues, Linked, WkrIds, ReqIds;
      phase := p;
      SetModel(m.(phase := p));
    }

    /** wr_wkr_set_ratio: the newcomer joins the worker queue and turns INACTIVE. */
    method SetRatio(w: Worker) returns (ok: bool)
      requires Rep() && w.id !in m.wkr && w !in k.ws && w.state == Connecting && w.req == null && w.trials == 0
      modifies `m, `k, qWorkers, qWorkers.elements, w`state
      ensures Rep() && ok == (|old(m).workers| < c.maxWorkers + 1) && w.req == null
      ensures ok ==> Has(w) && w.state == Inactive
      ensures k == if ok then Join(old(k), w) else old(k)
      ensures old(Using(k)) ==> Using(k)
      ensures m == if ok then old(m).(workers := old(m).workers + [w.id],
                                      wkr := old(m).wkr[w.id := Wkr(Inactive, None, 0, w.pid)])
                   else old(m)
    {
      hide Rep, Using, Join;
      ok := InsertWorker(w);
      if ok {
        SetState(w, Inactive);
      }
    }

    method InsertWorker(w: Worker) returns (ok: bool)
      requires Rep() && w.id !in m.wkr && w !in k.ws && w.state == Connecting && w.req == null && w.trials == 0
      modifies `m, `k, qWorkers, qWorkers.elements
      ensures Rep() && ok == (|old(m).workers| < c.maxWorkers + 1)
      ensures k == (if ok then Join(old(k), w) else old(k)) && (ok ==> Has(w))
      ensures old(Using(k)) ==> Using(k)
      ensures m == if ok then old(m).(workers := old(m).workers + [w.id],
                                      wkr := old(m).wkr[w.id := Wkr(Connecting, None, 0, w.pid)])
                   else old(m)
    {
      hide Queue.Valid, Linked, Using, ReqIds;
      CountWorkers();
      JoinKeepsLinks(w);
      ok := qWorkers.Insert(w);
      if ok {
        k := Join(k, w);
        m := m.(workers := m.workers + [w.id], wkr := m.wkr[w.id := Wkr(Connecting, None, 0, w.pid)]);
      }
    }

    lemma JoinKeepsLinks(w: Worker)
      requires LinkedNow() && w.id !in m.wkr && w !in k.ws
      requires w.state == Connecting && w.req == null && w.trials == 0
      ensures Linked(m.(workers := m.workers + [w.id], wkr := m.wkr[w.id := Wkr(Connecting, None, 0, w.pid)]),
                     Join(k, w), qMessages.contents, qWorkers.contents + [w], qFree.contents)
      ensures Using(k) ==> Using(Join(k, w))
    {}

    /** wr_wkr_connect; `worker` is the object that joins the pool, if one does. */
    method OnRegister(id: WkrId, pid: int, connected: bool, forks: seq<int>) returns (ok: bool, worker: Worker?)
      requires Valid() && Enabled(c, m, Register(id, pid, connected, forks))
      modifies Repr()
      ensures Valid() && m == Step(c, old(m), Register(id, pid, connected, forks))
      ensures ok == (id in m.wkr) == (worker != null)
      ensures ok == (connected && pid in old(m.pending) &&
        if old(m.phase) == Restart then old(|m.workers| - |m.idle|) <= c.maxWorkers
        else old(|m.workers|) < old(m.conf.max))
      ensures ok ==> fresh(worker) && worker.id == id && Has(worker) && Kept(Join(old(k), worker), k)
      ensures !ok ==> Kept(old(k), k)
      ensures Repr() == old(Repr()) + if ok then {worker} else {}
    {
      hide Rep, Using, Inv, Distinct, Accept, M.Balance, Kept;
      worker := null;
      DispatchEffects.RegisteredExactly(c, m, id, pid, connected, forks);
      DispatchRuns.StepKeeps(c, m, Register(id, pid, connected, forks));
      if Wanted(m, pid) { DispatchRuns.AcceptKeeps(c, m, pid); }
      ghost var was := k;
      NotYet(id);
      KeptSame(k);
      ok := WkrInsert(pid);
      StillNot(was, id);
      if !ok || !connected {
        ok := false;
        return;
      }
      ghost var now := k;
      ok, worker := Enrol(id, pid, forks);
      StillNot(was, id);
      if ok { JoinKept(was, now, worker); }
    }

    lemma NotYet(id: WkrId)
      requires Rep() && id !in m.wkr
      ensures id !in k.reg
    {}

    lemma StillNot(was: Links, id: WkrId)
      requires Rep() && id !in was.reg
      ensures Kept(was, k) ==> id !in m.wkr && k.ws == was.ws && k.rs == was.rs
    {}

    /** The rest of wr_wkr_connect, once the socket is open. */
    method Enrol(id: WkrId, pid: int, forks: seq<int>) returns (ok: bool, worker: Worker?)
      requires Valid() && id !in m.wkr && m.phase != Destroyed
      modifies Repr()
      ensures Rep() && Using(k) && m == M.Enrol(c, old(m), id, pid, forks)
      ensures ok ==> worker != null && fresh(worker) && worker.id == id && Has(worker) && k == Join(old(k), worker)
      ensures ok ==> id in m.wkr
      ensures !ok ==> worker == null && k == old(k)
    {
      hide Rep, Using, Inv, Distinct, M.Balance;
      if |m.workers| < c.maxWorkers + 1 { DispatchRuns.NewcomerFacts(c, m, id, pid); }
      var newcomer := new Worker(id, pid);
      ok := SetRatio(newcomer);
      if !ok {
        return ok, null;
      }
      Employ(newcomer, forks);
      return ok, newcomer;
    }

    /** The newcomer gets to work, and the pool is made up. */
    method Employ(w: Worker, forks: seq<int>)
      requires Rep() && Using(k) && Has(w) && w.req == null && w.state == Inactive
      requires Distinct(m.workers) && Distinct(m.idle) && Distinct(m.messages)
      modifies Repr()
      ensures Rep() && Using(k) && k == old(k)
      ensures w.id in old(m).wkr && m == M.Balance(c, M.Allocate(c, old(m), w.id), forks) && w.id in m.wkr
    {
      hide Rep, Using, Distinct, M.Balance, M.Allocate;
      Allocate(w);
      WkrBalance(forks);
      StateIs(w);
    }
  }
}
