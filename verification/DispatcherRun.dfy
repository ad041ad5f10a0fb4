/**
 * Runs of the dispatcher on the heap: the event loop keeps the objects that its watchers point at and
 * calls back, one event after the other. What DispatchTheorems proves of the machine's runs holds of the
 * objects after every sequence of callbacks.
 */
module DispatcherRun {
  import opened Seqs
  import opened DispatchModel
  import opened DispatchSafety
  import opened DispatchTheorems
  import opened Dispatcher

  /** What may happen next: an event of the machine, or the loss of the client whose request worker `w` has. */
  datatype Occurrence = Raised(e: Event) | Lost(w: WkrId)

  /** The outside world can go through `os`, starting from state `a`. */
  ghost predicate CanHappen(c: Config, a: App, os: seq<Occurrence>)
    decreases |os|
  {
    os == [] || match os[0]
      case Raised(e) => Enabled(c, a, e) && CanHappen(c, Step(c, a, e), os[1..])
      case Lost(w) => w in a.wkr && a.wkr[w].req.Some? && CanHappen(c, a, os[1..])
  }

  /** The machine's events among them. */
  ghost function EventsOf(os: seq<Occurrence>): seq<Event> {
    if os == [] then [] else (if os[0].Raised? then [os[0].e] else []) + EventsOf(os[1..])
  }

  lemma {:induction false} EventsFeasible(c: Config, a: App, os: seq<Occurrence>)
    requires CanHappen(c, a, os)
    ensures Feasible(c, a, EventsOf(os))
    decreases |os|
  {
    if os != [] {
      match os[0]
      case Raised(e) =>
        EventsFeasible(c, Step(c, a, e), os[1..]);
        assert EventsOf(os)[1..] == EventsOf(os[1..]);
      case Lost(_) =>
        EventsFeasible(c, a, os[1..]);
        assert EventsOf(os) == EventsOf(os[1..]);
    }
  }

  /** One occurrence more: a lost client of a request in service is no step of the machine. */
  lemma RunOne(c: Config, a: App, os: seq<Occurrence>)
    requires CanHappen(c, a, os) && os != []
    ensures Feasible(c, a, EventsOf(os))
    ensures var b := if os[0].Raised? then Step(c, a, os[0].e) else a;
      && CanHappen(c, b, os[1..]) && Feasible(c, b, EventsOf(os[1..]))
      && Run(c, a, EventsOf(os)) == Run(c, b, EventsOf(os[1..]))
  {
    EventsFeasible(c, a, os);
    if os[0].Raised? {
      assert EventsOf(os)[1..] == EventsOf(os[1..]);
    } else {
      assert EventsOf(os) == EventsOf(os[1..]);
    }
  }

  class EventLoop {
    const app: Application
    var workers: map<WkrId, Worker>      // what the workers' watchers point at
    var requests: map<ReqId, Request>    // what the connections' watchers point at

    ghost predicate Valid()
      reads this, app, app.Repr(), app.qMessages.contents`wkr
    {
      app.Valid() && this !in app.Repr() && Pointers(app.k)
    }

    ghost predicate Pointers(k: Links)
      reads this
    {
      && (forall i :: i in k.reg ==> i in workers && workers[i] == k.reg[i])
      && (forall i :: i in k.live ==> i in requests && requests[i] == k.live[i])
    }

    constructor (c: Config, conf: Limits, forks: seq<int>)
      requires LimitsOk(c, conf)
      ensures Valid() && app.c == c && app.m == Initial(c, conf, forks)
      ensures fresh(app) && fresh(app.Repr())
    {
      hide Application.Rep, Using, Inv, Initial;
      app := new Application(c, conf, forks);
      workers, requests := map[], map[];
    }

    lemma KeptPointers(was: Links, k: Links)
      requires Pointers(was) && Kept(was, k)
      ensures Pointers(k)
    {}

    /** The callbacks that concern one worker. */
    method RaiseOnWorker(e: Event)
      requires Valid() && Enabled(app.c, app.m, e)
      requires e.Progress? || e.Respond? || e.Broken? || e.PingTimer? || e.PingReply? || e.Gone?
      modifies app.Repr()
      ensures Valid() && app.m == Step(app.c, old(app.m), e) && app.Repr() == old(app.Repr())
    {
      hide Application.Rep, Using, Inv, Step, Kept, Pointers;
      ghost var was := app.k;
      app.WorkerObject(e.w);
      PointsAt(e.w);
      var w := workers[e.w];
      match e {
        case Progress(_) => app.OnProgress(w);
        case Respond(_) => app.OnRespond(w);
        case Broken(_) => app.OnBroken(w);
        case PingTimer(_, forks) => app.OnPingTimer(w, forks);
        case PingReply(_) => app.OnPingReply(w);
        case Gone(_, forks) => app.OnGone(w, forks);
      }
      KeptPointers(was, app.k);
    }

    /** The callbacks that concern the application. */
    method RaiseOnApp(e: Event)
      requires Valid() && Enabled(app.c, app.m, e)
      requires e.AddError? || e.AddTimer? || e.AddTimeout? || e.RemoveTimer? || e.Reload? || e.RemoveApp?
      modifies app.Repr()
      ensures Valid() && app.m == Step(app.c, old(app.m), e) && app.Repr() == old(app.Repr())
    {
      hide Application.Rep, Using, Inv, Step, Kept, Pointers;
      ghost var was := app.k;
      match e {
        case AddError(pid) => app.OnAddError(pid);
        case AddTimer(forks) => app.OnAddTimer(forks);
        case AddTimeout(forks) => app.OnAddTimeout(forks);
        case RemoveTimer(largest) => app.OnRemoveTimer(largest);
        case Reload(limits, forks) => app.OnReload(limits, forks);
        case RemoveApp => app.OnRemoveApp();
      }
      KeptPointers(was, app.k);
    }

    lemma PointsAt(w: WkrId)
      requires Pointers(app.k) && w in app.k.reg
      ensures w in workers && workers[w] == app.k.reg[w]
    {}

    lemma PointsAtRequest(r: ReqId)
      requires Pointers(app.k) && r in app.k.live
      ensures r in requests && requests[r] == app.k.live[r]
    {}

    /** A request comes in, as a new object. */
    method Receive(r: ReqId)
      requires Valid() && Enabled(app.c, app.m, Complete(r))
      modifies `requests, app.Repr()
      ensures Valid() && app.m == Step(app.c, old(app.m), Complete(r)) && fresh(app.Repr() - old(app.Repr()))
    {
      hide Application.Rep, Using, Inv, Step, Enabled, Pointers;
      var req := new Request(r);
      Completed(req);
    }

    method Completed(req: Request)
      requires Valid() && Enabled(app.c, app.m, Complete(req.id)) && req.wkr == null
      modifies `requests, app.Repr(), req
      ensures Valid() && app.m == Step(app.c, old(app.m), Complete(req.id))
      ensures app.Repr() <= old(app.Repr()) + {req}
    {
      hide Application.Rep, Using, Inv, Step, With, Pointers;
      ghost var was := app.k;
      app.NewId(req.id);
      app.OnComplete(req);
      Remember(was, req);
    }

    method Remember(ghost k: Links, req: Request)
      requires Pointers(k) && req.id !in k.live
      modifies `requests
      ensures Pointers(k) && Pointers(With(k, req))
    {
      requests := requests[req.id := req];
    }

    /** A worker registers; if it is taken, its watchers point at the new object. */
    method Connect(w: WkrId, pid: int, connected: bool, forks: seq<int>)
      requires Valid() && Enabled(app.c, app.m, Register(w, pid, connected, forks))
      modifies `workers, app.Repr()
      ensures Valid() && app.m == Step(app.c, old(app.m), Register(w, pid, connected, forks))
      ensures fresh(app.Repr() - old(app.Repr()))
    {
      hide Application.Rep, Using, Inv, Enabled, Step, Kept, Join, Pointers;
      ghost var was := app.k;
      var ok, worker := Ask(w, pid, connected, forks);
      if ok {
        Enlist(was, worker);
        KeptPointers(Join(was, worker), app.k);
      } else {
        KeptPointers(was, app.k);
      }
    }

    method Ask(w: WkrId, pid: int, connected: bool, forks: seq<int>) returns (ok: bool, worker: Worker?)
      requires Valid() && Enabled(app.c, app.m, Register(w, pid, connected, forks))
      modifies app.Repr()
      ensures app.Valid() && app.m == Step(app.c, old(app.m), Register(w, pid, connected, forks))
      ensures this !in app.Repr() && fresh(app.Repr() - old(app.Repr())) && Pointers(old(app.k))
      ensures ok ==> worker != null && worker.id == w && w !in old(app.k).reg && Kept(Join(old(app.k), worker), app.k)
      ensures !ok ==> Kept(old(app.k), app.k)
    {
      hide Application.Rep, Using, Inv, Step, Kept, Join, Pointers;
      app.NotYet(w);
      ok, worker := app.OnRegister(w, pid, connected, forks);
    }

    method Enlist(ghost k: Links, worker: Worker)
      requires Pointers(k) && worker.id !in k.reg
      modifies `workers
      ensures Pointers(Join(k, worker))
    {
      workers := workers[worker.id := worker];
    }

    /** The connection of a waiting request fails. */
    method LoseWaiting(r: ReqId)
      requires Valid() && Enabled(app.c, app.m, Abort(r))
      modifies app.Repr()
      ensures Valid() && app.m == Step(app.c, old(app.m), Abort(r)) && app.Repr() == old(app.Repr())
    {
      hide Application.Rep, Using, Inv, Step, Kept, Pointers;
      ghost var was := app.k;
      app.WaitingObject(r);
      PointsAtRequest(r);
      app.OnConnError(requests[r]);
      KeptPointers(was, app.k);
    }

    /** The connection of a request fails that worker `w` is busy with. */
    method LoseInService(w: WkrId)
      requires Valid() && w in app.m.wkr && app.m.wkr[w].req.Some?
      modifies app.Repr()
      ensures Valid() && app.m == old(app.m) && app.Repr() == old(app.Repr())
    {
      hide Application.Rep, Using, Inv, Step, Kept, Pointers;
      ghost var was := app.k;
      app.WorkerObject(w);
      PointsAt(w);
      app.HeldObject(workers[w]);
      app.OnConnError(workers[w].req);
      KeptPointers(was, app.k);
    }

    /** One turn of the loop. */
    method Turn(o: Occurrence)
      requires Valid() && CanHappen(app.c, app.m, [o])
      modifies this, app.Repr()
      ensures Valid() && app.m == if o.Raised? then Step(app.c, old(app.m), o.e) else old(app.m)
      ensures fresh(app.Repr() - old(app.Repr()))
    {
      hide Valid, Step;
      match o {
        case Raised(e) =>
          match e {
            case Complete(r) => Receive(r);
            case Abort(r) => LoseWaiting(r);
            case Register(w, pid, connected, forks) => Connect(w, pid, connected, forks);
            case Progress(_) | Respond(_) | Broken(_) | PingTimer(_, _) | PingReply(_) | Gone(_, _) =>
              RaiseOnWorker(e);
            case _ => RaiseOnApp(e);
          }
        case Lost(w) => LoseInService(w);
      }
    }
  }

  // ----- what the objects show -----

  /** The requests that the workers' own pointers show. */
  ghost function InHand(ws: seq<Worker>): multiset<ReqId>
    reads ws`req
  {
    if ws == [] then multiset{}
    else (if ws[0].req == null then multiset{} else multiset{ws[0].req.id}) + InHand(ws[1..])
  }

  lemma {:induction false} InHandIs(ws: seq<Worker>, wkr: map<WkrId, Wkr>)
    requires forall w <- ws :: w.id in wkr && wkr[w.id] == Fields(w)
    ensures InHand(ws) == Held(WkrIds(ws), wkr)
  {
    if ws != [] {
      InHandIs(ws[1..], wkr);
      assert WkrIds(ws)[1..] == WkrIds(ws[1..]);
      assert ws[0] in ws;
    }
  }

  /** Every request that came in is in the queue, in the hands of one worker, or finished. */
  ghost predicate Balanced(app: Application)
    reads app, app.qMessages, app.qWorkers, app.qWorkers.contents`req
  {
    multiset(app.m.admitted)
      == multiset(ReqIds(app.qMessages.contents)) + InHand(app.qWorkers.contents) + multiset(Names(app.m.finished))
  }

  /** A worker is in the free queue and has no request, or has one that points back at it. */
  ghost predicate AtWork(app: Application, w: Worker)
    reads app, app.qFree, w`req, if w.req == null then {} else {w.req}
  {
    if w.req == null then w in app.qFree.contents
    else w !in app.qFree.contents && w.req.wkr == w && w.req.usingWkr
  }

  lemma HeapBalanced(app: Application)
    requires app.Valid()
    ensures Balanced(app)
  {
    hide Held, InHand, Names, Everywhere;
    forall w | w in app.qWorkers.contents ensures w.id in app.m.wkr && app.m.wkr[w.id] == Fields(w) {
      app.QueuedObject(w);
    }
    InHandIs(app.qWorkers.contents, app.m.wkr);
    Accounts(app.c, app.m);
  }

  lemma HeapAtWork(app: Application, w: Worker)
    requires app.Valid() && w in app.qWorkers.contents
    ensures AtWork(app, w)
  {
    app.QueuedObject(w);
    InvWorker(app.c, app.m, w.id);
    if w.req != null { app.HeldObject(w); }
  }

  lemma {:induction false} EndsWithin(c: Config, a: App, es: seq<Event>)
    requires Feasible(c, a, es) && Within(c, a, es)
    ensures var b := Run(c, a, es); Total(b) <= b.conf.max
    decreases |es|
  {
    if es != [] { EndsWithin(c, Step(c, a, es[0]), es[1..]); }
  }

  lemma HeapCounts(app: Application)
    requires app.Valid()
    ensures app.qMessages.count == 0 || app.qFree.count == 0
    ensures app.qPending.count + app.qWorkers.count == Total(app.m) && app.conf == app.m.conf && app.phase == app.m.phase
  {
    app.CountWaiting();
    app.CountWorkers();
    app.FieldsOf();
  }

  /** The callbacks for `os`, one after the other. */
  method Drive(c: Config, conf: Limits, forks: seq<int>, os: seq<Occurrence>) returns (app: Application)
    requires LimitsOk(c, conf) && CanHappen(c, Initial(c, conf, forks), os)
    ensures fresh(app.Repr()) && app.Valid() && app.c == c
    ensures Possible(c, conf, forks, EventsOf(os)) && app.m == After(c, conf, forks, EventsOf(os))
  {
    hide Application.Rep, Inv, Using, Step, Initial, EventLoop.Pointers;
    ghost var start := Initial(c, conf, forks);
    EventsFeasible(c, start, os);
    var loop := new EventLoop(c, conf, forks);
    app := loop.app;
    for i := 0 to |os|
      invariant loop.Valid() && loop.app == app && fresh(loop) && fresh(app.Repr()) && app.c == c
      invariant CanHappen(c, app.m, os[i..]) && Feasible(c, app.m, EventsOf(os[i..]))
      invariant Run(c, app.m, EventsOf(os[i..])) == Run(c, start, EventsOf(os))
    {
      RunOne(c, app.m, os[i..]);
      assert os[i..][1..] == os[i + 1..];
      loop.Turn(os[i]);
    }
  }

  /**
   * An application is added and its callbacks are called for whatever happens. Afterwards the objects spell
   * out the state that the machine has reached, no request is lost, every worker is free or at work, no
   * worker is free while a request waits, and there are no more processes than the limit in force allows
   * if no event was an exceeding one.
   */
  method Serve(c: Config, conf: Limits, forks: seq<int>, os: seq<Occurrence>) returns (app: Application)
    requires LimitsOk(c, conf) && CanHappen(c, Initial(c, conf, forks), os)
    ensures fresh(app.Repr()) && app.Valid() && app.c == c
    ensures Possible(c, conf, forks, EventsOf(os)) && app.m == After(c, conf, forks, EventsOf(os))
    ensures Balanced(app) && forall w :: w in app.qWorkers.contents ==> AtWork(app, w)
    ensures app.phase == Destroyed ==> multiset(app.m.admitted) == multiset(Names(app.m.finished))
    ensures app.qMessages.count == 0 || app.qFree.count == 0
    ensures Moderate(c, Initial(c, conf, forks), EventsOf(os)) ==>
      app.qPending.count + app.qWorkers.count <= app.conf.max
  {
    hide Application.Valid, Application.Repr, Step, Initial, Balanced, AtWork;
    app := Drive(c, conf, forks, os);
    HeapBalanced(app);
    forall w | w in app.qWorkers.contents ensures AtWork(app, w) { HeapAtWork(app, w); }
    HeapCounts(app);
    NothingIsLost(c, conf, forks, EventsOf(os));
    WithinExactly(c, conf, forks, EventsOf(os));
    if Moderate(c, Initial(c, conf, forks), EventsOf(os)) {
      EndsWithin(c, Initial(c, conf, forks), EventsOf(os));
    }
  }
}
