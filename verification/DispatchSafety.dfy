/** What every run of the dispatcher keeps. */
module DispatchSafety {
  import opened Seqs
  import opened DispatchModel

  // ----- the invariant -----

  predicate InService(s: WkrState) {
    s == Active || s == Pinging || s == Expired
  }

  /** A worker is idle (INACTIVE, no request, in the free queue) or busy (one request, not in it). */
  ghost predicate Settled(c: Config, a: App, w: WkrId)
    requires w in a.wkr
  {
    var k := a.wkr[w];
    && k.trials <= c.pingTrials
    && (w in a.idle <==> k.state == Inactive)
    && (w !in a.idle <==> InService(k.state))
    && (w in a.idle <==> k.req == None)
  }

  /** The two worker queues; the workers in `loose` are in the middle of a step. */
  ghost predicate Pool(c: Config, a: App, loose: set<WkrId>) {
    && Distinct(a.workers) && Distinct(a.idle)
    && a.wkr.Keys == Elems(a.workers)
    && |a.workers| <= c.maxWorkers + 1
    && (forall w :: w in a.idle ==> w in a.workers && w !in loose)
    && (forall w :: w in a.workers && w !in loose ==> Settled(c, a, w))
    && (forall w :: w in a.workers && w in loose ==> a.wkr[w].req == None && a.wkr[w].trials <= c.pingTrials)
  }

  ghost predicate Holds(m: map<WkrId, Wkr>, w: WkrId, r: ReqId) {
    w in m && m[w].req == Some(r)
  }

  /** The request worker `w` holds, if any. */
  ghost function Bag(m: map<WkrId, Wkr>, w: WkrId): multiset<ReqId> {
    if w in m && m[w].req.Some? then multiset{m[w].req.value} else multiset{}
  }

  /** The requests held by the workers in `ws`, each as often as it is held. */
  ghost function Held(ws: seq<WkrId>, m: map<WkrId, Wkr>): multiset<ReqId> {
    if ws == [] then multiset{} else Bag(m, ws[0]) + Held(ws[1..], m)
  }

  ghost function Names(fs: seq<(ReqId, Outcome)>): seq<ReqId> {
    seq(|fs|, i requires 0 <= i < |fs| => fs[i].0)
  }

  /** `s` without the elements of `out`, order kept. */
  ghost function Keep(s: seq<ReqId>, out: set<ReqId>): seq<ReqId> {
    if s == [] then [] else Keep(s[..|s| - 1], out) + (if s[|s| - 1] in out then [] else [s[|s| - 1]])
  }

  /** All requests the application can still account for, with their number of occurrences. */
  ghost function Everywhere(a: App): multiset<ReqId> {
    multiset(a.messages) + Held(a.workers, a.wkr) + multiset(Names(a.finished))
  }

  ghost predicate Conserved(a: App) {
    multiset(a.admitted) == Everywhere(a)
  }

  /** Each admitted request is waiting, in service or finished; those not withdrawn start in order. */
  ghost predicate Ledger(a: App) {
    && Distinct(a.admitted)
    && Conserved(a)
    && a.started + a.messages == Keep(a.admitted, a.withdrawn)
    && (forall r :: r in a.refused ==> r !in a.admitted)
    && (forall r :: r in a.withdrawn ==> r in Names(a.finished))
  }

  ghost predicate Bounds(c: Config, a: App) {
    && |a.messages| <= c.maxMessages
    && |a.pending| <= c.maxPending
    && LimitsOk(c, a.conf)
    && (a.next.Some? ==> LimitsOk(c, a.next.value))
    && (a.phase == Restart <==> a.next.Some?)
    && (a.phase == Destroyed ==> a.messages == [] && a.workers == [] && a.pending == [])
  }

  ghost predicate WorkConserving(a: App) {
    a.messages == [] || a.idle == []
  }

  ghost predicate Inv(c: Config, a: App) {
    Pool(c, a, {}) && Ledger(a) && Bounds(c, a) && WorkConserving(a)
  }

  /** What the code takes for granted when it fetches, inserts and frees without looking. */
  lemma InvFacts(c: Config, a: App)
    requires Inv(c, a)
    ensures Distinct(a.workers) && Distinct(a.idle) && Distinct(a.messages)
    ensures a.wkr.Keys == Elems(a.workers)
    ensures a.phase == Restart <==> a.next.Some?
  {
    KeepMembers(a.admitted, a.withdrawn);
    DistinctParts(a.started, a.messages);
  }

  lemma InvWorker(c: Config, a: App, w: WkrId)
    requires Inv(c, a) && w in a.wkr
    ensures w in a.workers && Settled(c, a, w)
  {}

  // ----- sequences and multisets -----

  lemma Assoc(a: multiset<ReqId>, b: multiset<ReqId>, c: multiset<ReqId>)
    ensures (a + b) + c == a + (b + c)
  {}

  lemma Comm(a: multiset<ReqId>, b: multiset<ReqId>)
    ensures a + b == b + a
  {}

  lemma Swap(a: multiset<ReqId>, b: multiset<ReqId>, c: multiset<ReqId>)
    ensures (a + b) + c == (a + c) + b
  {
    Assoc(a, b, c);
    Comm(b, c);
    Assoc(a, c, b);
  }

  lemma {:induction false} HeldSame(ws: seq<WkrId>, m: map<WkrId, Wkr>, m': map<WkrId, Wkr>)
    requires forall v :: v in ws ==> Bag(m, v) == Bag(m', v)
    ensures Held(ws, m') == Held(ws, m)
  {
    if ws != [] { HeldSame(ws[1..], m, m'); }
  }

  lemma {:induction false} HeldUpdate(ws: seq<WkrId>, m: map<WkrId, Wkr>, m': map<WkrId, Wkr>, w: WkrId)
    requires Distinct(ws) && w in ws
    requires forall v :: v in ws && v != w ==> Bag(m, v) == Bag(m', v)
    ensures Held(ws, m') + Bag(m, w) == Held(ws, m) + Bag(m', w)
  {
    var t := ws[1..];
    if ws[0] == w {
      HeldSame(t, m, m');
      Comm(Bag(m', w), Held(t, m));
      Comm(Bag(m, w), Held(t, m));
      Swap(Held(t, m), Bag(m', w), Bag(m, w));
    } else {
      assert w in t;
      HeldUpdate(t, m, m', w);
      Assoc(Bag(m, ws[0]), Held(t, m'), Bag(m, w));
      Assoc(Bag(m, ws[0]), Held(t, m), Bag(m', w));
    }
  }

  lemma {:induction false} HeldWithout(ws: seq<WkrId>, m: map<WkrId, Wkr>, w: WkrId)
    requires w in ws
    ensures Held(ws, m) == Held(Without(ws, w), m) + Bag(m, w)
  {
    if ws[0] != w {
      HeldWithout(ws[1..], m, w);
      Assoc(Bag(m, ws[0]), Held(Without(ws[1..], w), m), Bag(m, w));
      assert Without(ws, w)[1..] == Without(ws[1..], w);
    }
  }

  lemma {:induction false} HeldAppend(ws: seq<WkrId>, m: map<WkrId, Wkr>, w: WkrId)
    ensures Held(ws + [w], m) == Held(ws, m) + Bag(m, w)
  {
    if ws == [] {
      assert ws + [w] == [w] && [w][1..] == [];
      assert Held([], m) == multiset{};
    } else {
      HeldAppend(ws[1..], m, w);
      assert (ws + [w])[1..] == ws[1..] + [w];
      Assoc(Bag(m, ws[0]), Held(ws[1..], m), Bag(m, w));
    }
  }

  lemma NamesAppend(fs: seq<(ReqId, Outcome)>, rs: seq<ReqId>, o: Outcome)
    ensures Names(fs + Outcomes(rs, o)) == Names(fs) + rs
  {}

  lemma {:induction false} KeepOut(s: seq<ReqId>, out: set<ReqId>, r: ReqId)
    requires r in out || r !in s
    ensures Keep(s, out + {r}) == Keep(s, out)
  {
    if s != [] {
      assert r !in s ==> r !in s[..|s| - 1];
      KeepOut(s[..|s| - 1], out, r);
    }
  }

  lemma {:induction false} KeepMembers(s: seq<ReqId>, out: set<ReqId>)
    ensures forall r :: r in Keep(s, out) <==> r in s && r !in out
    ensures Distinct(s) ==> Distinct(Keep(s, out))
  {
    if s != [] {
      KeepMembers(s[..|s| - 1], out);
    }
  }

  lemma {:induction false} KeepWithout(s: seq<ReqId>, out: set<ReqId>, r: ReqId)
    requires Distinct(s) && r !in out
    ensures Keep(s, out + {r}) == Without(Keep(s, out), r)
  {
    KeepMembers(s, out);
    if r !in s {
      KeepOut(s, out, r);
      WithoutAbsent(Keep(s, out), r);
    } else {
      var t, x := s[..|s| - 1], s[|s| - 1];
      KeepMembers(t, out);
      if x == r {
        KeepOut(t, out, r);
        WithoutAt(Keep(s, out), r, |Keep(t, out)|);
      } else {
        KeepWithout(t, out, r);
        WithoutPrefix(Keep(t, out), if x in out then [] else [x], r);
      }
    }
  }

  lemma {:induction false} WithoutPrefix(s: seq<ReqId>, t: seq<ReqId>, r: ReqId)
    requires r in s || r !in t
    ensures Without(s + t, r) == Without(s, r) + t
  {
    if s == [] {
      assert s + t == t;
      WithoutAbsent(t, r);
      assert Without(s, r) + t == t;
    } else {
      assert (s + t)[1..] == s[1..] + t;
      if s[0] != r { WithoutPrefix(s[1..], t, r); }
    }
  }

  lemma {:induction false} WithoutSuffix(s: seq<ReqId>, t: seq<ReqId>, r: ReqId)
    requires r !in s
    ensures Without(s + t, r) == s + Without(t, r)
  {
    if s == [] {
      assert s + t == t;
    } else {
      assert (s + t)[1..] == s[1..] + t;
      WithoutSuffix(s[1..], t, r);
    }
  }

  lemma {:induction false} BagWithout(s: seq<ReqId>, r: ReqId)
    requires r in s
    ensures multiset(s) == multiset(Without(s, r)) + multiset{r}
  {
    assert s == [s[0]] + s[1..];
    if s[0] != r { BagWithout(s[1..], r); }
  }

  // ----- the moves every step is made of -----

  lemma FreeKeepsPool(c: Config, a: App, w: WkrId, loose: set<WkrId>)
    requires Pool(c, a, loose) && w in a.workers
    ensures Pool(c, FreeWkr(a, w), loose - {w})
    ensures WorkConserving(a) ==> WorkConserving(FreeWkr(a, w))
  {
    var b := FreeWkr(a, w);
    assert b.workers == Without(a.workers, w) && b.idle == Without(a.idle, w) && b.wkr == a.wkr - {w};
    FreeMembers(a.workers, w);
    FreeMembers(a.idle, w);
    assert b.wkr.Keys == a.wkr.Keys - {w};
    forall v | v in b.workers && v !in loose - {w} ensures Settled(c, b, v) {
      assert v in a.workers && v != w && Settled(c, a, v);
      assert v in b.idle <==> v in a.idle;
    }
  }

  lemma FreeMembers(s: seq<WkrId>, w: WkrId)
    requires Distinct(s)
    ensures Distinct(Without(s, w)) && |Without(s, w)| <= |s|
    ensures Elems(Without(s, w)) == Elems(s) - {w}
    ensures forall v :: v in Without(s, w) <==> v in Elems(s) - {w}
    ensures s == [] ==> Without(s, w) == []
  {
    WithoutDistinct(s, w);
  }

  lemma FreeKeepsLedger(a: App, w: WkrId)
    requires Distinct(a.workers) && w in a.workers && Ledger(a)
    ensures Ledger(FreeWkr(a, w))
  {
    hide Ledger, Held, Names, Outcomes, Distinct;
    var b, rs := FreeWkr(a, w), ReqOf(a.wkr, w);
    NamesAppend(a.finished, rs, Failed);
    WithoutDistinct(a.workers, w);
    HeldWithout(a.workers, a.wkr, w);
    HeldSame(b.workers, a.wkr, b.wkr);
    FinishKeepsLedger(a, b, rs);
  }

  /** Requests that leave their workers and are recorded as finished stay accounted for. */
  lemma FinishKeepsLedger(a: App, b: App, rs: seq<ReqId>)
    requires Ledger(a)
    requires b.messages == a.messages && b.started == a.started && b.admitted == a.admitted
    requires b.withdrawn == a.withdrawn && b.refused == a.refused
    requires Names(b.finished) == Names(a.finished) + rs
    requires Held(b.workers, b.wkr) + multiset(rs) == Held(a.workers, a.wkr)
    ensures Ledger(b)
  {
    hide Held, Names, Keep, Distinct;
    var n := Names(a.finished);
    assert multiset(n + rs) == multiset(n) + multiset(rs);
    FreeAlgebra(multiset(a.messages), Held(b.workers, b.wkr), multiset(rs), multiset(n));
  }

  lemma SameHeldKeepsLedger(a: App, b: App)
    requires Ledger(a) && b == a.(wkr := b.wkr) && Held(b.workers, b.wkr) == Held(a.workers, a.wkr)
    ensures Ledger(b)
  {
    hide Ledger, Held, Names;
    assert Names(a.finished) + [] == Names(a.finished);
    FinishKeepsLedger(a, b, []);
  }

  /** Of an application, the ledger reads neither the free queue nor what controls the pool. */
  lemma LedgerFrame(a: App, b: App)
    requires Ledger(a)
    requires b == a.(idle := b.idle, pending := b.pending, phase := b.phase, conf := b.conf, next := b.next,
                     timeouts := b.timeouts)
    ensures Ledger(b)
  {
    hide Held, Names, Keep, Distinct;
  }

  lemma FreeAlgebra(m: multiset<ReqId>, h: multiset<ReqId>, x: multiset<ReqId>, n: multiset<ReqId>)
    ensures m + (h + x) + n == m + h + (n + x)
  {
    Assoc(m, h, x);
    Swap(m + h, x, n);
    Assoc(m + h, n, x);
  }

  /** Handing the oldest waiting request to a loose worker. */
  lemma StartKeepsPool(c: Config, a: App, w: WkrId, loose: set<WkrId>)
    requires Pool(c, a, loose) && w in loose && w in a.workers
    requires a.messages != [] && a.wkr[w].state == Inactive
    ensures Pool(c, Start(a.(messages := a.messages[1..]), w, a.messages[0]), loose - {w})
  {
    var b := Start(a.(messages := a.messages[1..]), w, a.messages[0]);
    assert b.wkr.Keys == a.wkr.Keys;
  }

  lemma StartKeepsLedger(a: App, w: WkrId)
    requires Distinct(a.workers) && w in a.workers && w in a.wkr && a.wkr[w].req == None
    requires Ledger(a) && a.messages != []
    ensures Ledger(Start(a.(messages := a.messages[1..]), w, a.messages[0]))
  {
    var m := a.messages;
    var b := Start(a.(messages := m[1..]), w, m[0]);
    assert m == [m[0]] + m[1..];
    assert b.started + b.messages == a.started + m;
    HeldGains(a.workers, a.wkr, w, b.wkr[w], m[0]);
    StartAlgebra(multiset(m[1..]), multiset{m[0]}, Held(a.workers, a.wkr), multiset(Names(a.finished)));
  }

  lemma HeldGains(ws: seq<WkrId>, m: map<WkrId, Wkr>, w: WkrId, k: Wkr, r: ReqId)
    requires Distinct(ws) && w in ws && w in m && m[w].req == None && k.req == Some(r)
    ensures Held(ws, m[w := k]) == Held(ws, m) + multiset{r}
  {
    HeldUpdate(ws, m, m[w := k], w);
  }

  lemma StartAlgebra(m: multiset<ReqId>, x: multiset<ReqId>, h: multiset<ReqId>, n: multiset<ReqId>)
    ensures x + m + h + n == m + (h + x) + n
  {
    Comm(x, m);
    Swap(m, x, h);
    Assoc(m, h, x);
  }

  /** A worker that has no request either takes the oldest waiting one or becomes idle. */
  lemma AllocateKeeps(c: Config, a: App, w: WkrId)
    requires Pool(c, a, {w}) && Ledger(a) && WorkConserving(a)
    requires w in a.workers && a.wkr[w].state == Inactive
    ensures var b := Allocate(c, a, w);
      && Pool(c, b, {}) && Ledger(b) && WorkConserving(b)
      && (a.messages == [] ==> b.idle == a.idle + [w])
  {
    assert w in a.wkr && a.wkr[w].req == None && Distinct(a.workers);
    IdleHasRoom(c, a, w);
    hide Pool, Ledger, Start, Distinct;
    if a.messages != [] {
      assert {w} - {w} == {};
      StartKeepsPool(c, a, w, {w});
      StartKeepsLedger(a, w);
      StartFrame(a.(messages := a.messages[1..]), w, a.messages[0]);
    } else {
      PutIdleKeepsPool(c, a, w);
      LedgerFrame(a, a.(idle := a.idle + [w]));
    }
  }

  lemma StartFrame(a: App, w: WkrId, r: ReqId)
    requires w in a.wkr
    ensures var b := Start(a, w, r); b == a.(wkr := b.wkr, started := b.started)
  {}

  lemma PutIdleKeepsPool(c: Config, a: App, w: WkrId)
    requires Pool(c, a, {w}) && w in a.workers && a.wkr[w].state == Inactive
    ensures Pool(c, a.(idle := a.idle + [w]), {})
  {
    var b := a.(idle := a.idle + [w]);
    forall v | v in b.workers ensures Settled(c, b, v) {
      assert v != w ==> Settled(c, a, v);
    }
  }

  /** Why the ignored result of the insert into the free queue is never a failure. */
  lemma IdleHasRoom(c: Config, a: App, w: WkrId)
    requires Pool(c, a, {w}) && w in a.workers
    ensures |a.idle| < |a.workers| <= c.maxWorkers + 1
  {
    DistinctSubsetLength(a.idle + [w], a.workers);
  }

  /** Balancing forks processes and may end a restart; it touches nothing else. */
  lemma BalanceFrame(c: Config, a: App, forks: seq<int>)
    requires Bounds(c, a) && a.phase != Destroyed
    ensures var b := Balance(c, a, forks);
      && Bounds(c, b) && b.phase != Destroyed
      && b == a.(pending := b.pending, phase := b.phase, next := b.next)
  {
    FillFrame(c, a, forks);
  }

  lemma {:induction false} FillFrame(c: Config, a: App, forks: seq<int>)
    ensures var b := Fill(c, a, forks);
      && b == a.(pending := b.pending)
      && (|a.pending| <= c.maxPending ==> |b.pending| <= c.maxPending)
      && Total(b) <= if Total(a) < a.conf.min then a.conf.min else Total(a)
    decreases |forks|
  {
    if Total(a) < a.conf.min && Spawn(c, a, forks).1 {
      FillFrame(c, Spawn(c, a, forks).0, forks[1..]);
    }
  }

  lemma BalanceKeeps(c: Config, a: App, forks: seq<int>)
    requires Inv(c, a) && a.phase != Destroyed
    ensures Inv(c, Balance(c, a, forks)) && Balance(c, a, forks).phase != Destroyed
  {
    BalanceFrame(c, a, forks);
    var b := Balance(c, a, forks);
    assert Pool(c, b, {}) by {
      forall w | w in b.workers ensures Settled(c, b, w) { assert Settled(c, a, w); }
    }
  }

  lemma FreeKeeps(c: Config, a: App, w: WkrId)
    requires Inv(c, a) && w in a.wkr && a.phase != Destroyed
    ensures Inv(c, FreeWkr(a, w)) && FreeWkr(a, w).phase == a.phase
  {
    assert w in a.workers;
    assert {} - {w} == {};
    assert Pool(c, FreeWkr(a, w), {}) && WorkConserving(FreeWkr(a, w)) by { FreeKeepsPool(c, a, w, {}); }
    assert Ledger(FreeWkr(a, w)) by { FreeKeepsLedger(a, w); }
  }

  /** A change to one busy worker that leaves it busy with the same request. */
  lemma TouchKeeps(c: Config, a: App, w: WkrId, k: Wkr)
    requires Inv(c, a) && w in a.wkr && w !in a.idle
    requires k.req == a.wkr[w].req && k.trials <= c.pingTrials && InService(k.state)
    ensures Inv(c, a.(wkr := a.wkr[w := k]))
  {
    assert Pool(c, a.(wkr := a.wkr[w := k]), {}) by { TouchKeepsPool(c, a, w, k); }
    assert Held(a.workers, a.wkr[w := k]) == Held(a.workers, a.wkr) by { TouchKeepsHeld(a.workers, a.wkr, w, k); }
  }

  lemma TouchKeepsHeld(ws: seq<WkrId>, m: map<WkrId, Wkr>, w: WkrId, k: Wkr)
    requires w in m && k.req == m[w].req
    ensures Held(ws, m[w := k]) == Held(ws, m)
  {
    HeldSame(ws, m, m[w := k]);
  }

  lemma TouchKeepsPool(c: Config, a: App, w: WkrId, k: Wkr)
    requires Pool(c, a, {}) && w in a.wkr && w !in a.idle
    requires k.req == a.wkr[w].req && k.trials <= c.pingTrials && InService(k.state)
    ensures Pool(c, a.(wkr := a.wkr[w := k]), {})
  {
    var b := a.(wkr := a.wkr[w := k]);
    assert b.wkr.Keys == a.wkr.Keys;
    forall v | v in b.workers ensures Settled(c, b, v) { assert Settled(c, a, v); }
  }

  lemma RespondKeeps(c: Config, a: App, w: WkrId)
    requires Inv(c, a) && w in a.wkr && a.wkr[w].req.Some? && a.phase != Destroyed
    ensures Inv(c, RespondStep(c, a, w))
  {
    var k := a.wkr[w];
    assert w in a.workers && w !in a.idle && InService(k.state) by { assert Settled(c, a, w); }
    assert Distinct(a.workers);
    RespondIs(c, a, w);
    hide Ledger, Pool, Settled, Distinct, RespondStep, Released;
    ReleasedFrame(a, w);
    ReleaseKeepsLedger(a, w);
    LoosePool(c, a, Released(a, w), w);
    if k.state == Expired {
      LastBreath(c, Released(a, w), w);
    } else {
      NextRequest(c, Released(a, w), w);
    }
  }

  /** Worker `w` has given its finished request back. */
  function Released(a: App, w: WkrId): App
    requires w in a.wkr
  {
    a.(wkr := a.wkr[w := a.wkr[w].(req := None)], finished := a.finished + Outcomes(ReqOf(a.wkr, w), Served))
  }

  lemma ReleasedFrame(a: App, w: WkrId)
    requires w in a.wkr
    ensures var b := Released(a, w);
      && b == a.(wkr := b.wkr, finished := b.finished) && b.wkr.Keys == a.wkr.Keys
      && b.wkr[w] == a.wkr[w].(req := None) && forall v :: v in a.wkr && v != w ==> b.wkr[v] == a.wkr[v]
  {
    hide Outcomes, ReqOf;
  }

  lemma RespondIs(c: Config, a: App, w: WkrId)
    requires w in a.wkr && InService(a.wkr[w].state)
    ensures w in Released(a, w).wkr
    ensures var b := Released(a, w);
      RespondStep(c, a, w) == if a.wkr[w].state == Expired then FreeWkr(b, w)
                              else Allocate(c, b.(wkr := b.wkr[w := b.wkr[w].(state := Inactive)]), w)
  {
    hide FreeWkr, Allocate, Outcomes, ReqOf;
  }

  /** A worker that is done turns INACTIVE and is allocated again. */
  lemma NextRequest(c: Config, a: App, w: WkrId)
    requires Pool(c, a, {w}) && Ledger(a) && Bounds(c, a) && WorkConserving(a)
    requires w in a.workers && a.phase != Destroyed
    ensures Inv(c, Allocate(c, a.(wkr := a.wkr[w := a.wkr[w].(state := Inactive)]), w))
  {
    var b := a.(wkr := a.wkr[w := a.wkr[w].(state := Inactive)]);
    assert w in a.wkr && b.wkr.Keys == a.wkr.Keys;
    LooseChange(c, a, b, w);
    TouchKeepsHeld(a.workers, a.wkr, w, b.wkr[w]);
    hide Pool, Ledger, Held;
    SameHeldKeepsLedger(a, b);
    AllocateKeeps(c, b, w);
    AllocateFrame(c, b, w);
  }

  lemma AllocateFrame(c: Config, a: App, w: WkrId)
    requires w in a.wkr
    ensures var b := Allocate(c, a, w);
      b == a.(wkr := b.wkr, messages := b.messages, started := b.started, idle := b.idle)
      && |b.messages| <= |a.messages|
  {}

  /** What happens to a worker in the middle of a step does not concern the others. */
  lemma LooseChange(c: Config, a: App, b: App, w: WkrId)
    requires Pool(c, a, {w}) && b == a.(wkr := b.wkr) && b.wkr.Keys == a.wkr.Keys
    requires forall v :: v in a.workers && v != w ==> b.wkr[v] == a.wkr[v]
    requires w in a.wkr && b.wkr[w].req == None && b.wkr[w].trials == a.wkr[w].trials
    ensures Pool(c, b, {w})
  {
    forall v | v in b.workers && v !in {w} ensures Settled(c, b, v) { assert Settled(c, a, v); }
  }

  /** An expired worker leaves once it has nothing to do. */
  lemma LastBreath(c: Config, a: App, w: WkrId)
    requires Pool(c, a, {w}) && Ledger(a) && Bounds(c, a) && WorkConserving(a)
    requires w in a.workers && a.phase != Destroyed
    ensures Inv(c, FreeWkr(a, w))
  {
    assert {w} - {w} == {};
    assert Pool(c, FreeWkr(a, w), {}) && WorkConserving(FreeWkr(a, w)) by { FreeKeepsPool(c, a, w, {w}); }
    assert Ledger(FreeWkr(a, w)) by { FreeKeepsLedger(a, w); }
  }

  /** Emptying a busy worker's hands makes it loose. */
  lemma LoosePool(c: Config, a: App, b: App, w: WkrId)
    requires Pool(c, a, {}) && w in a.workers && w !in a.idle
    requires b.workers == a.workers && b.idle == a.idle && b.wkr.Keys == a.wkr.Keys
    requires forall v :: v in a.workers && v != w ==> b.wkr[v] == a.wkr[v]
    requires b.wkr[w].req == None && b.wkr[w].trials == a.wkr[w].trials
    ensures Pool(c, b, {w})
  {
    assert Settled(c, a, w);
    forall v | v in b.workers && v !in {w} ensures Settled(c, b, v) { assert Settled(c, a, v); }
  }

  lemma ReleaseKeepsLedger(a: App, w: WkrId)
    requires Ledger(a) && Distinct(a.workers) && w in a.workers && w in a.wkr && a.wkr[w].req.Some?
    ensures Ledger(Released(a, w))
  {
    hide Ledger, Held, Names, Outcomes, Distinct;
    var m, rs := a.wkr[w := a.wkr[w].(req := None)], ReqOf(a.wkr, w);
    NamesAppend(a.finished, rs, Served);
    HeldUpdate(a.workers, a.wkr, m, w);
    assert Held(a.workers, m) + Bag(a.wkr, w) == Held(a.workers, a.wkr) + multiset{};
    FinishKeepsLedger(a, Released(a, w), rs);
  }

  lemma FailKeeps(c: Config, a: App, w: WkrId, action: Action)
    requires Inv(c, a) && w in a.wkr && a.phase != Destroyed && (action == ToError || action == ToRemove)
    ensures var b := StateMachine(c, a, w, action, []);
      Inv(c, b) && b.phase == a.phase
  {
    FreeKeeps(c, a, w);
  }

  lemma PingTimerKeeps(c: Config, a: App, w: WkrId, forks: seq<int>)
    requires Inv(c, a) && w in a.wkr && a.phase != Destroyed
    ensures Inv(c, StateMachine(c, a, w, ToPingTimeout, forks))
  {
    hide Ledger, Balance, FreeWkr;
    var k, b := a.wkr[w], StateMachine(c, a, w, ToPingTimeout, forks);
    assert Settled(c, a, w) by { assert w in a.workers; }
    if k.state == Inactive {
      assert b == a;
    } else if k.state == Expired {
      assert b == FreeWkr(a, w);
      FreeKeeps(c, a, w);
    } else if k.trials < c.pingTrials {
      assert b == a.(wkr := a.wkr[w := k.(state := Pinging, trials := k.trials + 1)]);
      TouchKeeps(c, a, w, b.wkr[w]);
    } else {
      assert b == Balance(c, FreeWkr(a, w), forks);
      FreeKeeps(c, a, w);
      BalanceKeeps(c, FreeWkr(a, w), forks);
    }
  }

  lemma SignKeeps(c: Config, a: App, w: WkrId, action: Action)
    requires Inv(c, a) && w in a.wkr && (action == ToPingReply || action == ToProcess)
    requires action == ToProcess ==> a.wkr[w].req.Some?
    ensures var b := StateMachine(c, a, w, action, []);
      Inv(c, b) && w in b.wkr && b.wkr[w].req == a.wkr[w].req
  {
    var k, b := a.wkr[w], StateMachine(c, a, w, action, []);
    assert Settled(c, a, w) by { assert w in a.workers; }
    if k.state == Active || k.state == Pinging {
      assert a.wkr[w := k] == a.wkr;
      assert b == a.(wkr := a.wkr[w := k.(state := Active)]);
      TouchKeeps(c, a, w, k.(state := Active));
    } else {
      assert b == a;
    }
  }

  lemma ProgressKeeps(c: Config, a: App, w: WkrId)
    requires Inv(c, a) && w in a.wkr && a.wkr[w].req.Some? && a.phase != Destroyed
    ensures Inv(c, ProgressStep(c, a, w))
  {
    SignKeeps(c, a, w, ToProcess);
    var b := StateMachine(c, a, w, ToProcess, []);
    assert w !in b.idle && InService(b.wkr[w].state) by { assert w in b.workers && Settled(c, b, w); }
    TouchKeeps(c, b, w, b.wkr[w].(trials := 0));
  }

  lemma CompleteKeeps(c: Config, a: App, r: ReqId)
    requires Inv(c, a) && r !in a.admitted && r !in a.refused && a.phase != Destroyed
    ensures Inv(c, CompleteStep(c, a, r))
  {
    hide Pool, Ledger, Dispatch;
    if |a.messages| < c.maxMessages {
      AdmitKeepsLedger(a, r);
      AdmitKeepsPool(c, a, r);
      DispatchKeeps(c, a.(messages := a.messages + [r], admitted := a.admitted + [r]));
    } else {
      RefuseKeeps(c, a, r);
    }
  }

  lemma RefuseKeeps(c: Config, a: App, r: ReqId)
    requires Inv(c, a) && r !in a.admitted
    ensures Inv(c, a.(refused := a.refused + {r}))
  {
    hide Held, Names, Keep, Distinct;
    var b := a.(refused := a.refused + {r});
    forall v | v in b.workers ensures Settled(c, b, v) { assert Settled(c, a, v); }
  }

  lemma AdmitKeepsPool(c: Config, a: App, r: ReqId)
    requires Pool(c, a, {})
    ensures Pool(c, a.(messages := a.messages + [r], admitted := a.admitted + [r]), {})
  {
    var b := a.(messages := a.messages + [r], admitted := a.admitted + [r]);
    forall v | v in b.workers ensures Settled(c, b, v) { assert Settled(c, a, v); }
  }

  /** If only one request waits, an idle worker takes it. */
  lemma DispatchKeeps(c: Config, a: App)
    requires Pool(c, a, {}) && Ledger(a) && Bounds(c, a) && a.phase != Destroyed
    requires a.messages != [] && (a.idle == [] || |a.messages| == 1)
    ensures Inv(c, Dispatch(a))
  {
    hide Ledger, Pool, Start;
    if a.idle != [] {
      var w, b := a.idle[0], a.(idle := a.idle[1..]);
      FirstIdle(c, a);
      PopIdle(c, a);
      LedgerFrame(a, b);
      assert {w} - {w} == {};
      StartKeepsPool(c, b, w, {w});
      StartKeepsLedger(b, w);
      StartFrame(b.(messages := b.messages[1..]), w, b.messages[0]);
    }
  }

  lemma FirstIdle(c: Config, a: App)
    requires Pool(c, a, {}) && a.idle != []
    ensures var w := a.idle[0]; w in a.workers && w in a.wkr && a.wkr[w].state == Inactive && a.wkr[w].req == None
    ensures Distinct(a.workers) && Distinct(a.idle[1..])
  {
    assert a.idle[0] in a.workers && Settled(c, a, a.idle[0]);
  }

  lemma PopIdle(c: Config, a: App)
    requires Pool(c, a, {}) && a.idle != []
    ensures Pool(c, a.(idle := a.idle[1..]), {a.idle[0]})
  {
    var b, w := a.(idle := a.idle[1..]), a.idle[0];
    assert w in a.workers && Settled(c, a, w);
    forall v | v in b.workers && v !in {w} ensures Settled(c, b, v) {
      assert Settled(c, a, v);
      assert a.idle == [w] + b.idle;
    }
  }

  lemma AdmitKeepsLedger(a: App, r: ReqId)
    requires Ledger(a) && r !in a.admitted && r !in a.refused
    ensures Ledger(a.(messages := a.messages + [r], admitted := a.admitted + [r]))
  {
    var b := a.(messages := a.messages + [r], admitted := a.admitted + [r]);
    WithdrawnWereAdmitted(a);
    assert b.admitted[..|b.admitted| - 1] == a.admitted;
    assert b.started + b.messages == a.started + a.messages + [r];
    Swap(multiset(a.messages), multiset{r}, Held(a.workers, a.wkr));
    Swap(multiset(a.messages) + Held(a.workers, a.wkr), multiset{r}, multiset(Names(a.finished)));
  }

  lemma WithdrawnWereAdmitted(a: App)
    requires Ledger(a)
    ensures forall r :: r in a.withdrawn ==> r in a.admitted
  {
    forall r | r in a.withdrawn ensures r in a.admitted {
      assert r in multiset(Names(a.finished));
      assert r in multiset(a.admitted);
    }
  }

  lemma AbortKeeps(c: Config, a: App, r: ReqId)
    requires Inv(c, a) && r in a.messages
    ensures var b := AbortStep(a, r);
      && Inv(c, b) && b == a.(messages := b.messages, finished := b.finished, withdrawn := b.withdrawn)
      && r !in b.messages && multiset(a.messages) == multiset(b.messages) + multiset{r}
      && b.finished == a.finished + [(r, Failed)]
  {
    var b := AbortStep(a, r);
    KeepMembers(a.admitted, a.withdrawn);
    var k :| 0 <= k < |a.messages| && a.messages[k] == r;
    assert (a.started + a.messages)[|a.started| + k] == r;
    KeepWithout(a.admitted, a.withdrawn, r);
    DistinctParts(a.started, a.messages);
    WithoutSuffix(a.started, a.messages, r);
    WithoutDistinct(a.messages, r);
    BagWithout(a.messages, r);
    NamesAppend(a.finished, [r], Failed);
    assert Outcomes([r], Failed) == [(r, Failed)];
    AbortAlgebra(multiset(b.messages), multiset{r}, Held(a.workers, a.wkr), multiset(Names(a.finished)));
    WithoutShorter(a.messages, r);
    assert Pool(c, b, {}) by {
      forall v | v in b.workers ensures Settled(c, b, v) { assert Settled(c, a, v); }
    }
  }

  lemma DistinctParts(s: seq<ReqId>, t: seq<ReqId>)
    requires Distinct(s + t)
    ensures Distinct(s) && Distinct(t) && forall x :: x in t ==> x !in s
  {
    var u := s + t;
    forall i, j | 0 <= i < |s| && 0 <= j < |t| ensures s[i] != t[j] {
      assert u[i] == s[i] && u[|s| + j] == t[j];
    }
    forall i, j | 0 <= i < j < |s| ensures s[i] != s[j] {
      assert u[i] == s[i] && u[j] == s[j];
    }
    forall i, j | 0 <= i < j < |t| ensures t[i] != t[j] {
      assert u[|s| + i] == t[i] && u[|s| + j] == t[j];
    }
  }

  lemma WithoutShorter(s: seq<ReqId>, r: ReqId)
    ensures |Without(s, r)| <= |s|
  {
    if s != [] { WithoutShorter(s[1..], r); }
  }

  lemma AbortAlgebra(m: multiset<ReqId>, x: multiset<ReqId>, h: multiset<ReqId>, n: multiset<ReqId>)
    ensures m + x + h + n == m + h + (n + x)
  {
    Swap(m, x, h);
    Swap(m + h, x, n);
    Assoc(m + h, n, x);
  }
}
