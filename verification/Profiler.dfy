/**
 * The time accounting that src/ruby_lib/profiler/webroar_profiling.rb wraps around database and render
 * methods: a stack turns elapsed times into exclusive ones. Times are reals, in milliseconds.
 */
module Profiler {
  import opened Seqs
  import opened RubyHash

  // ----- what the application does -----

  /** Traced calls in time order, each with its elapsed time and the traced calls made from it. */
  datatype Calls =
    | Nothing
    | Db(name: string, cls: string, elapsed: real, inner: Calls, rest: Calls)
    | Render(elapsed: real, inner: Calls, rest: Calls)

  /** Elapsed time of the database calls that are not inside another database call. */
  function Outermost(cs: Calls): real {
    match cs
    case Nothing => 0.0
    case Db(_, _, t, _, rest) => t + Outermost(rest)
    case Render(_, inner, rest) => Outermost(inner) + Outermost(rest)
  }

  /** What one method of one class is charged: own elapsed time minus that of the nearest calls inside. */
  function Charged(cs: Calls, name: string, cls: string): real {
    match cs
    case Nothing => 0.0
    case Db(n, k, t, inner, rest) =>
      (if n == name && k == cls then t - Outermost(inner) else 0.0) + Charged(inner, name, cls) + Charged(rest, name, cls)
    case Render(_, inner, rest) => Charged(inner, name, cls) + Charged(rest, name, cls)
  }

  /** The outermost renders without the outermost database calls inside them. */
  function PureRendering(cs: Calls): real {
    match cs
    case Nothing => 0.0
    case Db(_, _, _, inner, rest) => PureRendering(inner) + PureRendering(rest)
    case Render(t, inner, rest) => t - Outermost(inner) + PureRendering(rest)
  }

  ghost predicate NamesFree(cs: Calls, c: char) {
    match cs
    case Nothing => true
    case Db(n, _, _, inner, rest) => c !in n && NamesFree(inner, c) && NamesFree(rest, c)
    case Render(_, inner, rest) => NamesFree(inner, c) && NamesFree(rest, c)
  }

  // ----- what the generated code keeps -----

  /** Thread.current[:webroar_profiler] */
  datatype Profile = Profile(database: Hash<Hash<real>>, rendering: real, renderingStarted: bool,
                             dbStack: seq<real>, renderStack: seq<real>)

  const FRESH := Profile([], 0.0, false, [], [])

  function Row(database: Hash<Hash<real>>, name: string): Hash<real> {
    var r := Find(database, name);
    if r.Some? then r.value else []
  }

  /** The last element is the top. */
  function Top(stack: seq<real>): real
    requires stack != []
  {
    stack[|stack| - 1]
  }

  function Pop(stack: seq<real>): seq<real>
    requires stack != []
  {
    stack[..|stack| - 1]
  }

  /** The caller, if there is one, learns what its callee took. */
  function Credit(stack: seq<real>, t: real): seq<real> {
    if stack == [] then [] else Pop(stack) + [t + Top(stack)]
  }

  function AfterDb(p: Profile, name: string, cls: string, spent: real): Profile
    requires p.dbStack != []
  {
    var record := spent - Top(p.dbStack);
    p.(dbStack := Credit(Pop(p.dbStack), spent),
       database := Put(p.database, name, AddTo(Row(p.database, name), cls, record)),
       rendering := if p.renderingStarted then p.rendering - record else p.rendering)
  }

  function AfterRender(p: Profile, spent: real): Profile
    requires p.renderStack != []
  {
    var stack := Pop(p.renderStack);
    if stack != [] then p.(renderStack := stack)
    else p.(renderStack := stack, rendering := p.rendering + spent, renderingStarted := false)
  }

  /** Each call is wrapped: the code before it, the calls inside it, the code after it. */
  function Run(p: Profile, cs: Calls): (r: Profile)
    ensures |r.dbStack| == |p.dbStack| && |r.renderStack| == |p.renderStack|
    decreases cs
  {
    match cs
    case Nothing => p
    case Db(name, cls, t, inner, rest) =>
      var q := Run(p.(dbStack := p.dbStack + [0.0]), inner);
      Run(AfterDb(q, name, cls, t), rest)
    case Render(t, inner, rest) =>
      var q := Run(p.(renderingStarted := true, renderStack := p.renderStack + [0.0]), inner);
      Run(AfterRender(q, t), rest)
  }

  // ----- the accounting is right -----

  /** Recorded time of one method of one class. */
  function Time(database: Hash<Hash<real>>, name: string, cls: string): real {
    Get(Row(database, name), cls)
  }

  function Total(database: Hash<Hash<real>>): real {
    if database == [] then 0.0 else Sum(database[0].1) + Total(database[1..])
  }

  lemma {:induction false} TotalPut(d: Hash<Hash<real>>, name: string, h: Hash<real>)
    ensures Total(Put(d, name, h)) == Total(d) - Sum(Row(d, name)) + Sum(h)
  {
    if d != [] && d[0].0 != name {
      TotalPut(d[1..], name, h);
      assert Put(d, name, h)[1..] == Put(d[1..], name, h);
    }
  }

  /** One record changes one entry and the total by the same amount. */
  lemma Recorded(d: Hash<Hash<real>>, name: string, cls: string, t: real)
    ensures var e := Put(d, name, AddTo(Row(d, name), cls, t));
      && Total(e) == Total(d) + t
      && forall n, k :: Time(e, n, k) == Time(d, n, k) + if n == name && k == cls then t else 0.0
  {
    var h := AddTo(Row(d, name), cls, t);
    var e := Put(d, name, h);
    TotalPut(d, name, h);
    SumPut(Row(d, name), cls, Get(Row(d, name), cls) + t);
    forall n, k ensures Time(e, n, k) == Time(d, n, k) + if n == name && k == cls then t else 0.0 {
      FindPut(d, name, h, n);
      FindPut(Row(d, name), cls, Get(Row(d, name), cls) + t, k);
    }
  }

  /** What the calls `cs` add to a profile in which they are made. */
  ghost predicate Accounted(p: Profile, cs: Calls, r: Profile) {
    && r.dbStack == Credit(p.dbStack, Outermost(cs))
    && r.renderStack == p.renderStack && r.renderingStarted == p.renderingStarted
    && r.rendering == p.rendering + (if p.renderStack != [] then -Outermost(cs) else PureRendering(cs))
    && Total(r.database) == Total(p.database) + Outermost(cs)
    && forall n, k :: Time(r.database, n, k) == Time(p.database, n, k) + Charged(cs, n, k)
  }

  lemma CreditTwice(s: seq<real>, t: real, u: real)
    ensures Credit(Credit(s, t), u) == Credit(s, t + u)
    ensures Credit(s, 0.0) == s
    ensures Credit(s + [t], u) == s + [u + t]
  {
    assert s != [] ==> Pop(s) + [Top(s)] == s;
  }

  /** The first call alone. */
  function First(cs: Calls): Calls {
    match cs
    case Nothing => Nothing
    case Db(name, cls, t, inner, _) => Db(name, cls, t, inner, Nothing)
    case Render(t, inner, _) => Render(t, inner, Nothing)
  }

  function Own(cs: Calls, name: string, cls: string): real {
    if cs.Db? && cs.name == name && cs.cls == cls then cs.elapsed - Outermost(cs.inner) else 0.0
  }

  lemma FirstAlone(cs: Calls)
    requires !cs.Nothing?
    ensures Outermost(First(cs)) == if cs.Db? then cs.elapsed else Outermost(cs.inner)
    ensures PureRendering(First(cs)) == if cs.Db? then PureRendering(cs.inner) else cs.elapsed - Outermost(cs.inner)
    ensures forall n, k :: Charged(First(cs), n, k) == Own(cs, n, k) + Charged(cs.inner, n, k)
    ensures Outermost(cs) == Outermost(First(cs)) + Outermost(cs.rest)
    ensures PureRendering(cs) == PureRendering(First(cs)) + PureRendering(cs.rest)
    ensures forall n, k :: Charged(cs, n, k) == Charged(First(cs), n, k) + Charged(cs.rest, n, k)
  {}

  lemma AccountFirst(p: Profile, cs: Calls, q: Profile, r: Profile)
    requires !cs.Nothing? && Accounted(p, First(cs), q) && Accounted(q, cs.rest, r)
    ensures Accounted(p, cs, r)
  {
    hide Total, Time, Outermost, PureRendering, Charged, First;
    FirstAlone(cs);
    CreditTwice(p.dbStack, Outermost(First(cs)), Outermost(cs.rest));
  }

  lemma AccountDb(p: Profile, cs: Calls, q: Profile)
    requires (p.renderingStarted <==> p.renderStack != []) && cs.Db?
    requires Accounted(p.(dbStack := p.dbStack + [0.0]), cs.inner, q)
    ensures q.dbStack != [] && Accounted(p, First(cs), AfterDb(q, cs.name, cs.cls, cs.elapsed))
  {
    hide Total, Time, Put, AddTo, Row, Outermost, PureRendering, Charged, First;
    FirstAlone(cs);
    CreditTwice(p.dbStack, 0.0, Outermost(cs.inner));
    assert Pop(q.dbStack) == p.dbStack;
    Recorded(q.database, cs.name, cs.cls, cs.elapsed - Outermost(cs.inner));
  }

  lemma AccountRender(p: Profile, cs: Calls, q: Profile)
    requires (p.renderingStarted <==> p.renderStack != []) && cs.Render?
    requires Accounted(p.(renderingStarted := true, renderStack := p.renderStack + [0.0]), cs.inner, q)
    ensures q.renderStack != [] && Accounted(p, First(cs), AfterRender(q, cs.elapsed))
  {
    hide Total, Time, Outermost, PureRendering, Charged, First;
    FirstAlone(cs);
    assert Pop(q.renderStack) == p.renderStack;
  }

  lemma AccountNothing(p: Profile)
    ensures Accounted(p, Nothing, p)
  {
    CreditTwice(p.dbStack, 0.0, 0.0);
  }

  lemma SameStacks(p: Profile, cs: Calls, r: Profile)
    requires Accounted(p, cs, r)
    ensures r.renderStack == p.renderStack && r.renderingStarted == p.renderingStarted
  {}

  /** For any nesting of database and render calls. */
  lemma {:induction false} RunAccounts(p: Profile, cs: Calls)
    requires p.renderingStarted <==> p.renderStack != []
    ensures Accounted(p, cs, Run(p, cs))
    decreases cs
  {
    hide Accounted, AfterDb, AfterRender;
    match cs {
      case Nothing =>
        AccountNothing(p);
      case Db(name, cls, t, inner, rest) =>
        var p1 := p.(dbStack := p.dbStack + [0.0]);
        var q := Run(p1, inner);
        RunAccounts(p1, inner);
        AccountDb(p, cs, q);
        SameStacks(p, First(cs), AfterDb(q, name, cls, t));
        RunAccounts(AfterDb(q, name, cls, t), rest);
        AccountFirst(p, cs, AfterDb(q, name, cls, t), Run(p, cs));
      case Render(t, inner, rest) =>
        var p1 := p.(renderingStarted := true, renderStack := p.renderStack + [0.0]);
        var q := Run(p1, inner);
        RunAccounts(p1, inner);
        AccountRender(p, cs, q);
        SameStacks(p, First(cs), AfterRender(q, t));
        RunAccounts(AfterRender(q, t), rest);
        AccountFirst(p, cs, AfterRender(q, t), Run(p, cs));
    }
  }

  /**
   * One request: every method of every class is charged exactly its exclusive time, the charges add
   * up to the elapsed time of the outermost database calls, and what is left of the outermost
   * renders is the rendering time. Both stacks end as empty as they began.
   */
  lemma RequestAccounts(cs: Calls)
    ensures var r := Run(FRESH, cs);
      && (forall n, k :: Time(r.database, n, k) == Charged(cs, n, k))
      && Total(r.database) == Outermost(cs)
      && r.rendering == PureRendering(cs)
      && r.dbStack == [] && r.renderStack == [] && !r.renderingStarted
  {
    RunAccounts(FRESH, cs);
  }

  /** The hashes are well formed and no method name contains a dot. */
  ghost predicate Tidy(d: Hash<Hash<real>>) {
    && Keyed(d)
    && forall i :: 0 <= i < |d| ==> Keyed(d[i].1) && '.' !in d[i].0
  }

  lemma RecordKeepsTidy(d: Hash<Hash<real>>, name: string, cls: string, t: real)
    requires Tidy(d) && '.' !in name
    ensures Tidy(Put(d, name, AddTo(Row(d, name), cls, t)))
  {
    var row := Row(d, name);
    if Find(d, name).Some? {
      var i := FindWhere(d, name);
      FindAt(d, i);
    }
    PutKeys(row, cls, Get(row, cls) + t);
    PutKeys(d, name, AddTo(row, cls, t));
  }

  lemma {:induction false} RunKeepsTidy(p: Profile, cs: Calls)
    requires Tidy(p.database) && NamesFree(cs, '.')
    ensures Tidy(Run(p, cs).database)
    decreases cs
  {
    hide Tidy, Put, AddTo;
    match cs {
      case Nothing =>
      case Db(name, cls, t, inner, rest) =>
        var q := Run(p.(dbStack := p.dbStack + [0.0]), inner);
        RunKeepsTidy(p.(dbStack := p.dbStack + [0.0]), inner);
        RecordKeepsTidy(q.database, name, cls, t - Top(q.dbStack));
        RunKeepsTidy(AfterDb(q, name, cls, t), rest);
      case Render(t, inner, rest) =>
        var p1 := p.(renderingStarted := true, renderStack := p.renderStack + [0.0]);
        RunKeepsTidy(p1, inner);
        RunKeepsTidy(AfterRender(Run(p1, inner), t), rest);
    }
  }

  // ----- the generated code -----

  class ThreadProfile {
    var database: Hash<Hash<real>>
    var rendering: real
    var renderingStarted: bool
    var dbMetricStack: seq<real>
    var renderMetricStack: seq<real>

    ghost function State(): Profile
      reads this
    {
      Profile(database, rendering, renderingStarted, dbMetricStack, renderMetricStack)
    }

    constructor ()
      ensures State() == FRESH
    {
      database, rendering, renderingStarted := [], 0.0, false;
      dbMetricStack, renderMetricStack := [], [];
    }

    /** The calls an action makes, every one through its wrapper. */
    method Perform(cs: Calls)
      modifies this
      ensures State() == Run(old(State()), cs)
      decreases cs
    {
      match cs {
        case Nothing =>
        case Db(name, cls, t, inner, rest) =>
          dbMetricStack := dbMetricStack + [0.0];
          Perform(inner);
          DatabaseDone(name, cls, t);
          Perform(rest);
        case Render(t, inner, rest) =>
          renderingStarted := true;
          renderMetricStack := renderMetricStack + [0.0];
          Perform(inner);
          RenderDone(t);
          Perform(rest);
      }
    }

    method DatabaseDone(name: string, cls: string, spentTime: real)
      requires dbMetricStack != []
      modifies this
      ensures State() == AfterDb(old(State()), name, cls, spentTime)
    {
      var pop1 := dbMetricStack[|dbMetricStack| - 1];
      dbMetricStack := dbMetricStack[..|dbMetricStack| - 1];
      var recordTime := spentTime - pop1;
      if |dbMetricStack| > 0 {
        var pop2 := dbMetricStack[|dbMetricStack| - 1];
        dbMetricStack := dbMetricStack[..|dbMetricStack| - 1];
        dbMetricStack := dbMetricStack + [spentTime + pop2];
      }
      var row := Find(database, name);
      if row == None {
        row := Some([]);
      }
      if Find(row.value, cls).Some? {
        row := Some(Put(row.value, cls, Find(row.value, cls).value + recordTime));
      } else {
        row := Some(Put(row.value, cls, recordTime));
      }
      database := Put(database, name, row.value);
      if renderingStarted {
        rendering := rendering - recordTime;
      }
    }

    method RenderDone(spentTime: real)
      requires renderMetricStack != []
      modifies this
      ensures State() == AfterRender(old(State()), spentTime)
    {
      renderMetricStack := renderMetricStack[..|renderMetricStack| - 1];
      if !(|renderMetricStack| > 0) {
        rendering := rendering + spentTime;
        renderingStarted := false;
      }
    }
  }
}
