/**
 * The dispatcher of one application as a state machine: every event-loop callback of
 * src/head/wr_worker.c and src/head/wr_application.c is one atomic step. Workers and requests are
 * named by the ids the server numbers them with. Whatever the environment decides (fork results, the pid that
 * `ps` reports, whether connect() succeeds, when timers fire) is a parameter of the event.
 */
module DispatchModel {
  import opened Seqs

  type WkrId = nat
  type ReqId = nat

  datatype WkrState =
    Connecting | Active | Inactive | Pinging | Expired | Error | Hangup | Disconnecting

  datatype Action = ToAdd | ToRemove | ToPingTimeout | ToPingReply | ToProcessed | ToProcess | ToError

  datatype Wkr = Wkr(state: WkrState, req: Option<ReqId>, trials: nat, pid: int)

  datatype Phase = New | Serving | Restart | Restarting | Destroyed

  datatype Limits = Limits(min: nat, max: nat)

  datatype Config = Config(
    maxWorkers: nat,     // Config->Server.Worker.max
    maxPending: nat,     // Config->Server.Worker.pending
    maxMessages: nat,    // Config->Application.msg_queue_size
    pingTrials: nat,     // Config->Server.Worker.ping_trials
    addTrials: nat)      // Config->Server.Worker.add_trials

  datatype Outcome = Served | Failed

  datatype App = App(
    messages: seq<ReqId>,           // q_messages
    workers: seq<WkrId>,            // q_workers
    idle: seq<WkrId>,               // q_free_workers
    pending: seq<int>,          // q_pending_workers
    wkr: map<WkrId, Wkr>,        // the fields of every registered worker
    phase: Phase,
    conf: Limits,
    next: Option<Limits>,       // conf->new
    timeouts: nat,              // timeout_counter
    // history, read by no step
    admitted: seq<ReqId>,           // accepted into q_messages, in order
    started: seq<ReqId>,            // handed to a worker, in order
    finished: seq<(ReqId, Outcome)>,
    withdrawn: set<ReqId>,          // failed while still waiting
    refused: set<ReqId>)            // turned away because q_messages was full

  datatype Event =
    | Complete(r: ReqId)                                           // wr_req_complete_cb
    | Abort(r: ReqId)                                              // connection error on a waiting request
    | Progress(w: WkrId)                                           // wr_wait_watcher_start
    | Respond(w: WkrId)                                            // wr_wkr_req_processed
    | Broken(w: WkrId)                                             // WKR_ACTION_ERROR
    | PingTimer(w: WkrId, forks: seq<int>)                         // wr_wkr_wait_cb
    | PingReply(w: WkrId)                                          // wr_wkr_ping_cb
    | Gone(w: WkrId, forks: seq<int>)                              // wr_wkr_remove_cb, wr_ctl_free
    | Register(w: WkrId, pid: int, connected: bool, forks: seq<int>) // wr_wkr_connect
    | AddError(pid: int)                                       // wr_app_wkr_error
    | AddTimer(forks: seq<int>)                                // wr_app_wkr_add_cb
    | AddTimeout(forks: seq<int>)                              // wr_app_wkr_add_timeout_cb
    | RemoveTimer(largest: Option<int>)                        // wr_app_wkr_remove_cb
    | Reload(limits: Limits, forks: seq<int>)                  // wr_app_reload_cb
    | RemoveApp                                                // wr_app_free

  function Total(a: App): nat {
    |a.pending| + |a.workers|
  }

  // ----- wr_worker.c -----

  /** What WKR_ACTION_REQ_PROCESSING does to a worker's state. */
  function OnProcessing(s: WkrState): WkrState {
    if s == Inactive || s == Pinging then Active else s
  }

  /** wr_wkr_req_processing */
  function Start(a: App, w: WkrId, r: ReqId): App
    requires w in a.wkr
  {
    a.(wkr := a.wkr[w := a.wkr[w].(state := OnProcessing(a.wkr[w].state), req := Some(r))],
       started := a.started + [r])
  }

  /** wr_wrk_allocate; as in the source, nobody looks at whether the insert succeeded. */
  function Allocate(c: Config, a: App, w: WkrId): App
    requires w in a.wkr
  {
    if a.messages != [] then
      Start(a.(messages := a.messages[1..]), w, a.messages[0])
    else
      a.(idle := if |a.idle| < c.maxWorkers + 1 then a.idle + [w] else a.idle)
  }

  /** WR_APP_MSG_DISPATCH and the call that follows it in wr_wkr_dispatch_req. */
  function Dispatch(a: App): App
  {
    if a.messages != [] && a.idle != [] && a.idle[0] in a.wkr then
      Start(a.(messages := a.messages[1..], idle := a.idle[1..]), a.idle[0], a.messages[0])
    else
      a
  }

  /** wr_wkr_free: a request still held is answered with status 500. */
  function FreeWkr(a: App, w: WkrId): App {
    a.(workers := Without(a.workers, w),
       idle := Without(a.idle, w),
       wkr := a.wkr - {w},
       finished := a.finished + Outcomes(ReqOf(a.wkr, w), Failed))
  }

  function Outcomes(rs: seq<ReqId>, o: Outcome): seq<(ReqId, Outcome)> {
    seq(|rs|, i requires 0 <= i < |rs| => (rs[i], o))
  }

  /** The request worker `w` holds, as a sequence of length zero or one. */
  function ReqOf(m: map<WkrId, Wkr>, w: WkrId): (rs: seq<ReqId>)
    ensures |rs| <= 1
  {
    if w in m && m[w].req.Some? then [m[w].req.value] else []
  }

  /** wr_wkr_state_machine: one worker, one action. */
  function StateMachine(c: Config, a: App, w: WkrId, action: Action, forks: seq<int>): App
    requires w in a.wkr
  {
    var k := a.wkr[w];
    match action
    case ToError | ToRemove => FreeWkr(a, w)
    case _ =>
      match k.state
      case Connecting =>
        if action == ToAdd then a.(wkr := a.wkr[w := k.(state := Inactive)]) else a
      case Inactive =>
        if action == ToProcess then a.(wkr := a.wkr[w := k.(state := OnProcessing(Inactive))]) else a
      case Active | Pinging => Busy(c, a, w, action, forks)
      case Expired =>
        if action == ToProcessed || action == ToPingTimeout then FreeWkr(a, w) else a
      case Error | Hangup | Disconnecting => FreeWkr(a, w)
  }

  /** The ACTIVE and PINGING rows, which differ only in that PINGING leaves on any sign of life. */
  function Busy(c: Config, a: App, w: WkrId, action: Action, forks: seq<int>): App
    requires w in a.wkr
  {
    var k := a.wkr[w];
    match action
    case ToProcessed => Allocate(c, a.(wkr := a.wkr[w := k.(state := Inactive)]), w)
    case ToProcess => a.(wkr := a.wkr[w := k.(state := OnProcessing(k.state))])
    case ToPingReply => if k.state == Pinging then a.(wkr := a.wkr[w := k.(state := Active)]) else a
    case ToPingTimeout =>
      if k.trials < c.pingTrials then
        a.(wkr := a.wkr[w := k.(state := Pinging, trials := k.trials + 1)])
      else
        Balance(c, FreeWkr(a, w), forks)
    case _ => a
  }

  /** wr_wait_watcher_start: the response made progress. */
  function ProgressStep(c: Config, a: App, w: WkrId): App
    requires w in a.wkr
  {
    var b := StateMachine(c, a, w, ToProcess, []);
    if w in b.wkr then b.(wkr := b.wkr[w := b.wkr[w].(trials := 0)]) else b
  }

  /** wr_wkr_req_processed: the whole response has been relayed. */
  function RespondStep(c: Config, a: App, w: WkrId): App
    requires w in a.wkr
  {
    var b := a.(wkr := a.wkr[w := a.wkr[w].(req := None)],
                finished := a.finished + Outcomes(ReqOf(a.wkr, w), Served));
    StateMachine(c, b, w, ToProcessed, [])
  }

  // ----- wr_application.c -----

  /** wr_app_wkr_add; a fork that fails, or that the oracle does not mention, yields no pid. */
  function Spawn(c: Config, a: App, forks: seq<int>): (App, bool) {
    if |a.pending| < c.maxPending && a.timeouts < c.addTrials && forks != [] && forks[0] > 0 then
      (a.(pending := a.pending + [forks[0]]), true)
    else
      (a, false)
  }

  /** The loop of wr_app_wkr_balance. */
  function Fill(c: Config, a: App, forks: seq<int>): App
    decreases |forks|
  {
    if Total(a) < a.conf.min && Spawn(c, a, forks).1 then
      Fill(c, Spawn(c, a, forks).0, forks[1..])
    else
      a
  }

  /** wr_app_wkr_balance */
  function Balance(c: Config, a: App, forks: seq<int>): App {
    var b := Fill(c, a, forks);
    if |b.workers| >= b.conf.min && b.phase == Restart then b.(phase := Serving, next := None) else b
  }

  function FirstIndex(s: seq<int>, x: int): (k: nat)
    requires x in s
    ensures k < |s| && s[k] == x && x !in s[..k]
  {
    if s[0] == x then 0
    else
      var k := FirstIndex(s[1..], x) + 1;
      assert s[..k] == [s[0]] + s[1..][..k - 1];
      k
  }

  /** wr_pending_worker_exist leaves the queue rotated to just past the pid it takes out. */
  function Taken(s: seq<int>, pid: int): seq<int>
    requires pid in s
  {
    var k := FirstIndex(s, pid);
    s[k + 1..] + s[..k]
  }

  function FreeIdle(a: App): App
    decreases |a.idle|
  {
    if a.idle == [] then a else FreeIdle(FreeWkr(a, a.idle[0]))
  }

  function ExpireAll(m: map<WkrId, Wkr>): map<WkrId, Wkr> {
    map w | w in m :: m[w].(state := Expired)
  }

  /** wr_app_reload: free the idle workers, let the busy ones finish, install the new limits. */
  function Renew(a: App): App
    requires a.next.Some?
  {
    var b := FreeIdle(a.(conf := a.next.value, next := None));
    b.(wkr := ExpireAll(b.wkr), phase := Restarting)
  }

  /** wr_wkr_set_ratio, then wr_wrk_allocate and wr_app_wkr_balance. */
  function Enrol(c: Config, a: App, w: WkrId, pid: int, forks: seq<int>): App {
    if |a.workers| < c.maxWorkers + 1 then
      var b := a.(workers := a.workers + [w], wkr := a.wkr[w := Wkr(Inactive, None, 0, pid)]);
      Balance(c, Allocate(c, b, w), forks)
    else
      a
  }

  /** wr_app_wkr_insert up to the point where the socket is opened. */
  function Accept(a: App, pid: int): App
    requires pid in a.pending
    requires a.phase == Restart ==> a.next.Some?
  {
    var b := a.(pending := Taken(a.pending, pid), timeouts := 0);
    if b.phase == Restart then Renew(b)
    else if b.phase == New then b.(phase := Serving)
    else b
  }

  predicate Wanted(a: App, pid: int) {
    (a.conf.max > |a.workers| || a.phase == Restart) && pid in a.pending
  }

  /** wr_wkr_connect */
  function RegisterStep(c: Config, a: App, w: WkrId, pid: int, connected: bool, forks: seq<int>): App
    requires a.phase == Restart ==> a.next.Some?
  {
    if !Wanted(a, pid) then a
    else if connected then Enrol(c, Accept(a, pid), w, pid, forks)
    else Accept(a, pid)
  }

  function FreeAll(a: App): App
    decreases |a.workers|
  {
    if a.workers == [] then a else FreeAll(FreeWkr(a, a.workers[0]))
  }

  /** wr_app_free, with the wr_app_conf_remove that follows it in wr_app_remove. */
  function Destroy(a: App): App {
    Drain(FreeAll(a.(phase := Destroyed, next := None))).(pending := [])
  }

  /** Every request that still waits is answered with status 500. */
  function Drain(a: App): App {
    a.(messages := [],
       finished := a.finished + Outcomes(a.messages, Failed),
       withdrawn := a.withdrawn + Elems(a.messages))
  }

  /** wr_app_wkr_error */
  function AddErrorStep(a: App, pid: int): App {
    match a.phase
    case Restart => a.(phase := Serving, next := None, timeouts := 0)
    case New => Destroy(a.(timeouts := 0))
    case _ => a.(pending := if pid in a.pending then Taken(a.pending, pid) else a.pending, timeouts := 0)
  }

  /** The kills of wr_app_wkr_add_timeout_cb: all pending workers on the last trial, else the oldest. */
  function KillPending(c: Config, timeouts: nat, pending: seq<int>): seq<int> {
    if timeouts == c.addTrials || pending == [] then [] else pending[1..]
  }

  /** wr_app_wkr_add_timeout_cb */
  function AddTimeoutStep(c: Config, a: App, forks: seq<int>): App {
    var t := a.timeouts + 1;
    if t > c.addTrials then a.(timeouts := 0)
    else
      AfterKill(c, a.(timeouts := if t == c.addTrials then t + 1 else t,
                      pending := KillPending(c, t, a.pending)), forks)
  }

  /** Its second half: roll a restart back, give a new application up, or make up the numbers. */
  function AfterKill(c: Config, a: App, forks: seq<int>): App {
    match a.phase
    case Restart => a.(phase := Serving, next := None, timeouts := 0)
    case New => if a.pending == [] then Destroy(a.(timeouts := 0)) else a
    case _ => Balance(c, a, forks)
  }

  function WithPid(s: seq<WkrId>, m: map<WkrId, Wkr>, pid: int): (w: Option<WkrId>)
    ensures w.Some? ==> w.value in s && w.value in m && m[w.value].pid == pid
    ensures w.None? ==> forall v :: v in s && v in m ==> m[v].pid != pid
  {
    if s == [] then None
    else if s[0] in m && m[s[0]].pid == pid then Some(s[0])
    else WithPid(s[1..], m, pid)
  }

  /** wr_app_wkr_remove_cb: a free worker is removed at once, a busy one when its request is done. */
  function RemoveTimerStep(a: App, pid: Option<int>): App {
    if |a.workers| > a.conf.min && pid.Some? then
      match WithPid(a.idle, a.wkr, pid.value)
      case Some(w) => FreeWkr(a, w)
      case None =>
        match WithPid(a.workers, a.wkr, pid.value)
        case Some(w) => a.(wkr := a.wkr[w := a.wkr[w].(state := Expired)])
        case None => a
    else a
  }

  /** wr_app_reload_cb */
  function ReloadStep(c: Config, a: App, limits: Limits, forks: seq<int>): App {
    Spawn(c, a.(phase := Restart, next := Some(limits), timeouts := 0, pending := []), forks).0
  }

  /** wr_req_complete_cb for a request that was resolved to this application. */
  function CompleteStep(c: Config, a: App, r: ReqId): App {
    if |a.messages| < c.maxMessages then
      Dispatch(a.(messages := a.messages + [r], admitted := a.admitted + [r]))
    else
      a.(refused := a.refused + {r})
  }

  /** wr_conn_err_resp for a request that no worker holds. */
  function AbortStep(a: App, r: ReqId): App {
    a.(messages := Without(a.messages, r),
       finished := a.finished + [(r, Failed)],
       withdrawn := a.withdrawn + {r})
  }

  // ----- runs -----

  predicate LimitsOk(c: Config, l: Limits) {
    l.min <= l.max <= c.maxWorkers
  }

  /** What the environment can do: only live objects raise events, and objects that arrive are new. */
  predicate Enabled(c: Config, a: App, e: Event) {
    && a.phase != Destroyed
    && (a.phase == Restart ==> a.next.Some?)
    && match e
       case Complete(r) => r !in a.admitted && r !in a.refused
       case Abort(r) => r in a.messages
       case Progress(w) => w in a.wkr && a.wkr[w].req.Some?
       case Respond(w) => w in a.wkr && a.wkr[w].req.Some?
       case Broken(w) => w in a.wkr
       case PingTimer(w, _) => w in a.wkr
       case PingReply(w) => w in a.wkr
       case Gone(w, _) => w in a.wkr
       case Register(w, _, _, _) => w !in a.wkr
       case Reload(limits, _) => LimitsOk(c, limits)
       case _ => true
  }

  function Step(c: Config, a: App, e: Event): App
    requires Enabled(c, a, e)
  {
    match e
    case Complete(r) => CompleteStep(c, a, r)
    case Abort(r) => AbortStep(a, r)
    case Progress(w) => ProgressStep(c, a, w)
    case Respond(w) => RespondStep(c, a, w)
    case Broken(w) => StateMachine(c, a, w, ToError, [])
    case PingTimer(w, forks) => StateMachine(c, a, w, ToPingTimeout, forks)
    case PingReply(w) => StateMachine(c, a, w, ToPingReply, [])
    case Gone(w, forks) =>
      var b := StateMachine(c, a, w, ToRemove, []);
      if b.phase == Serving then Balance(c, b, forks) else b
    case Register(w, pid, connected, forks) => RegisterStep(c, a, w, pid, connected, forks)
    case AddError(pid) => AddErrorStep(a, pid)
    case AddTimer(forks) => if Total(a) < a.conf.max then Spawn(c, a, forks).0 else a
    case AddTimeout(forks) => AddTimeoutStep(c, a, forks)
    case RemoveTimer(pid) => RemoveTimerStep(a, pid)
    case Reload(limits, forks) => ReloadStep(c, a, limits, forks)
    case RemoveApp => Destroy(a)
  }

  /** wr_app_insert */
  function Initial(c: Config, conf: Limits, forks: seq<int>): App {
    Balance(c, App([], [], [], [], map[], New, conf, None, 0, [], [], [], {}, {}), forks)
  }

  predicate Feasible(c: Config, a: App, es: seq<Event>)
    decreases |es|
  {
    es == [] || (Enabled(c, a, es[0]) && Feasible(c, Step(c, a, es[0]), es[1..]))
  }

  function Run(c: Config, a: App, es: seq<Event>): App
    requires Feasible(c, a, es)
    decreases |es|
  {
    if es == [] then a else Run(c, Step(c, a, es[0]), es[1..])
  }
}
