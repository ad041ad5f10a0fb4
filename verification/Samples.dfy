/**
 * Time samples of the analyzer: src/admin_panel/app/models/app_time_sample.rb and url_time_sample.rb keep
 * one sample in memory for each application and URL and the rest in the database;
 * src/ruby_lib/analyzer/message_analyzer.rb feeds both from the profiler's messages.
 */
module Samples {
  import opened Seqs
  import opened RubyHash
  import opened Profiler

  /** An application (AppTimeSample) or a URL of one (UrlTimeSample). */
  datatype Key = AppKey(app: nat) | UrlKey(app: nat, url: string)

  datatype Sums = Sums(total: real, db: real, rendering: real, requests: int)

  /** A sample in memory: when its period starts, its sums, its database time by method. */
  datatype Sample = Sample(wall: int, sums: Sums, breakup: Hash<real>)

  /** A database row, with the rows of UrlBreakupTimeSample that belong to it. */
  datatype Row = Row(key: Key, wall: int, sums: Sums, breakup: Hash<real>)

  datatype Column = TotalTime | DbTime | RenderingTime | Requests | MethodTime(name: string)

  function Add(s: Sums, t: Sums): Sums {
    Sums(s.total + t.total, s.db + t.db, s.rendering + t.rendering, s.requests + t.requests)
  }

  function Col(s: Sums, b: Hash<real>, c: Column): real {
    match c
    case TotalTime => s.total
    case DbTime => s.db
    case RenderingTime => s.rendering
    case Requests => s.requests as real
    case MethodTime(n) => Get(b, n)
  }

  function InRows(rows: seq<Row>, key: Key, c: Column): real {
    if rows == [] then 0.0
    else
      var r := rows[|rows| - 1];
      InRows(rows[..|rows| - 1], key, c) + if r.key == key then Col(r.sums, r.breakup, c) else 0.0
  }

  function InMemory(samples: map<Key, Sample>, key: Key, c: Column): real {
    if key in samples then Col(samples[key].sums, samples[key].breakup, c) else 0.0
  }

  /** The database time of a URL sample is the sum of its breakup; application samples have none. */
  ghost predicate Fair(key: Key, s: Sums, b: Hash<real>) {
    Keyed(b) && if key.UrlKey? then Sum(b) == s.db else b == []
  }

  lemma {:induction false} RowChanged(rows: seq<Row>, i: nat, s: Sums, b: Hash<real>, key: Key, c: Column)
    requires i < |rows|
    ensures InRows(rows[i := rows[i].(sums := s, breakup := b)], key, c)
      == InRows(rows, key, c)
         + if rows[i].key == key then Col(s, b, c) - Col(rows[i].sums, rows[i].breakup, c) else 0.0
    decreases |rows|
  {
    hide Col;
    var n := |rows| - 1;
    var rows' := rows[i := rows[i].(sums := s, breakup := b)];
    if i == n {
      assert rows'[..n] == rows[..n];
    } else {
      assert rows'[..n] == rows[..n][i := rows[i].(sums := s, breakup := b)];
      RowChanged(rows[..n], i, s, b, key, c);
    }
  }

  lemma RowAdded(rows: seq<Row>, r: Row, key: Key, c: Column)
    ensures InRows(rows + [r], key, c)
      == InRows(rows, key, c) + if r.key == key then Col(r.sums, r.breakup, c) else 0.0
  {
    assert (rows + [r])[..|rows|] == rows;
  }

  /** `h` is `g` with the times of `b` added. */
  ghost predicate Merged(h: Hash<real>, g: Hash<real>, b: Hash<real>) {
    && Keyed(h) && Sum(h) == Sum(g) + Sum(b)
    && (forall n :: Get(h, n) == Get(g, n) + Get(b, n))
    && (g == [] && b == [] ==> h == [])
  }

  lemma MergedCol(s: Sums, t: Sums, h: Hash<real>, g: Hash<real>, b: Hash<real>, c: Column)
    requires Merged(h, g, b)
    ensures Col(Add(s, t), h, c) == Col(s, g, c) + Col(t, b, c)
  {}

  lemma MergedFair(key: Key, s: Sums, t: Sums, h: Hash<real>, g: Hash<real>, b: Hash<real>)
    requires Merged(h, g, b) && Fair(key, s, g) && Fair(key, t, b)
    ensures Fair(key, Add(s, t), h)
  {}

  lemma SumPrefix(b: Hash<real>, i: nat)
    requires i < |b| && Keyed(b)
    ensures Sum(b[..i + 1]) == Sum(b[..i]) + b[i].1
    ensures forall n :: Get(b[..i + 1], n) == Get(b[..i], n) + if n == b[i].0 then b[i].1 else 0.0
  {
    var e := [b[i]];
    assert b[..i + 1] == b[..i] + e;
    SumAppend(b[..i], e);
    assert e[1..] == [];
    forall n ensures Get(b[..i + 1], n) == Get(b[..i], n) + if n == b[i].0 then b[i].1 else 0.0 {
      FindAppend(b[..i], e, n);
      if n == b[i].0 { FindMissing(b[..i], n); }
    }
  }

  /** Merging in memory: one pair after the other. */
  method MergeHash(g: Hash<real>, b: Hash<real>) returns (h: Hash<real>)
    requires Keyed(g) && Keyed(b)
    ensures Merged(h, g, b)
  {
    hide Sum, Find, Put, Keyed;
    h := g;
    assert b[..0] == [];
    SumNothing();
    for i := 0 to |b|
      invariant Keyed(h) && Sum(h) == Sum(g) + Sum(b[..i])
      invariant forall n :: Get(h, n) == Get(g, n) + Get(b[..i], n)
      invariant g == [] && b == [] ==> h == []
    {
      var (key, value) := b[i];
      SumPrefix(b, i);
      var k := Find(h, key);
      var v := if k.Some? then k.value + value else value;
      PutKeys(h, key, v);
      SumPut(h, key, v);
      forall n ensures Get(Put(h, key, v), n) == if n == key then v else Get(h, n) { FindPut(h, key, v, n); }
      h := Put(h, key, v);
    }
    assert b[..|b|] == b;
  }

  lemma SumNothing()
    ensures Sum([]) == 0.0
    ensures forall n :: Get([], n) == 0.0
  {}

  /** `h` without the key `k`. */
  function Remove(h: Hash<real>, k: string): Hash<real> {
    if h == [] then [] else if h[0].0 == k then h[1..] else [h[0]] + Remove(h[1..], k)
  }

  lemma {:induction false} RemoveKey(h: Hash<real>, k: string)
    requires Keyed(h)
    ensures |Remove(h, k)| <= |h| && Keyed(Remove(h, k)) && Sum(Remove(h, k)) == Sum(h) - Get(h, k)
    ensures forall i :: 0 <= i < |Remove(h, k)| ==> Remove(h, k)[i] in h && Remove(h, k)[i].0 != k
    ensures forall n :: Find(Remove(h, k), n) == if n == k then None else Find(h, n)
  {
    if h != [] {
      RemoveKey(h[1..], k);
      var t := Remove(h[1..], k);
      if h[0].0 == k {
        FindMissing(h[1..], k);
      } else {
        assert Remove(h, k)[1..] == t;
        forall i | 0 <= i < |t| ensures t[i].0 != h[0].0 {
          assert t[i] in h[1..];
        }
      }
    }
  }

  /**
   * Merging into the database: first the breakup rows that are there, then rows for the keys that
   * none of them covered.
   */
  method MergeRows(g: Hash<real>, b: Hash<real>) returns (h: Hash<real>)
    requires Keyed(g) && Keyed(b)
    ensures Merged(h, g, b)
  {
    hide Sum, Find, Put, Remove;
    h := g;
    var remaining := b;
    for i := 0 to |g|
      invariant |h| == |g| && (forall j :: 0 <= j < |g| ==> h[j].0 == g[j].0) && Keyed(remaining)
      invariant forall j :: 0 <= j < i ==> Find(remaining, g[j].0) == None
      invariant forall j :: i <= j < |g| ==> Find(remaining, g[j].0) == Find(b, g[j].0)
      invariant Sum(h) + Sum(remaining) == Sum(g) + Sum(b)
      invariant forall n :: Get(h, n) + Get(remaining, n) == Get(g, n) + Get(b, n)
      invariant |remaining| <= |b|
    {
      var name := h[i].0;
      if Find(b, name).Some? {
        Cover(h, remaining, i);
        h := h[i := (name, h[i].1 + Find(b, name).value)];
        remaining := Remove(remaining, name);
      }
    }
    Appended(h, remaining);
    h := h + remaining;
  }

  /** One breakup row takes over the time that was still to be placed. */
  lemma Cover(h: Hash<real>, remaining: Hash<real>, i: nat)
    requires Keyed(h) && Keyed(remaining) && i < |h| && Find(remaining, h[i].0).Some?
    ensures var name := h[i].0; var t := Find(remaining, name).value;
      var h', r := h[i := (name, h[i].1 + t)], Remove(remaining, name);
      && |r| <= |remaining| && Keyed(r) && Find(r, name) == None && Sum(h') + Sum(r) == Sum(h) + Sum(remaining)
      && (forall n :: n != name ==> Find(r, n) == Find(remaining, n))
      && (forall n :: Get(h', n) + Get(r, n) == Get(h, n) + Get(remaining, n))
  {
    hide Sum, Put, Remove, Keyed, Find;
    var name := h[i].0;
    var v := h[i].1 + Find(remaining, name).value;
    FindAt(h, i);
    PutAt(h, i, v);
    SumPut(h, name, v);
    RemoveKey(remaining, name);
    forall n ensures Get(Put(h, name, v), n) == if n == name then v else Get(h, n) { FindPut(h, name, v, n); }
  }

  lemma Appended(h: Hash<real>, r: Hash<real>)
    requires Keyed(h) && Keyed(r) && forall j :: 0 <= j < |h| ==> Find(r, h[j].0) == None
    ensures Keyed(h + r) && Sum(h + r) == Sum(h) + Sum(r)
    ensures forall n :: Get(h + r, n) == Get(h, n) + Get(r, n)
  {
    SumAppend(h, r);
    forall i | 0 <= i < |r| ensures Find(r, r[i].0).Some? { FindAt(r, i); }
    forall n ensures Get(h + r, n) == Get(h, n) + Get(r, n) {
      FindAppend(h, r, n);
      if Find(h, n).Some? { var j := FindWhere(h, n); }
    }
  }

  // ----- memory and database -----

  datatype Store = Store(samples: map<Key, Sample>, rows: seq<Row>)

  /** What memory and database together hold under a key. */
  function Kept(s: Store, key: Key, c: Column): real {
    InMemory(s.samples, key, c) + InRows(s.rows, key, c)
  }

  ghost predicate AllFair(s: Store) {
    && (forall k <- s.samples :: Fair(k, s.samples[k].sums, s.samples[k].breakup))
    && (forall i :: 0 <= i < |s.rows| ==> Fair(s.rows[i].key, s.rows[i].sums, s.rows[i].breakup))
  }

  /** From `s` to `t` exactly the given times have been added, under `key` and nowhere else. */
  ghost predicate Added(s: Store, t: Store, key: Key, sums: Sums, b: Hash<real>) {
    && AllFair(t)
    && forall k, c :: Kept(t, k, c) == Kept(s, k, c) + if k == key then Col(sums, b, c) else 0.0
  }

  /** Nothing is gained or lost. */
  ghost predicate Moved(s: Store, t: Store) {
    && AllFair(t)
    && forall k, c :: Kept(t, k, c) == Kept(s, k, c)
  }

  lemma AddNewSample(s: Store, key: Key, sums: Sums, b: Hash<real>, wall: int)
    requires AllFair(s) && key !in s.samples && Fair(key, sums, b)
    ensures Added(s, s.(samples := s.samples[key := Sample(wall, sums, b)]), key, sums, b)
  {
    hide Fair, Col;
  }

  lemma AddToMemory(s: Store, key: Key, sums: Sums, b: Hash<real>, h: Hash<real>)
    requires AllFair(s) && key in s.samples && Fair(key, sums, b) && Merged(h, s.samples[key].breakup, b)
    ensures var m := s.samples[key];
      Added(s, s.(samples := s.samples[key := Sample(m.wall, Add(m.sums, sums), h)]), key, sums, b)
  {
    hide Fair, Col, Merged, Add;
    var m := s.samples[key];
    var t := s.(samples := s.samples[key := Sample(m.wall, Add(m.sums, sums), h)]);
    MergedFair(key, m.sums, sums, h, m.breakup, b);
    forall k, c ensures Kept(t, k, c) == Kept(s, k, c) + if k == key then Col(sums, b, c) else 0.0 {
      MergedCol(m.sums, sums, h, m.breakup, b, c);
    }
  }

  lemma AddToRow(s: Store, key: Key, sums: Sums, b: Hash<real>, i: nat, h: Hash<real>)
    requires AllFair(s) && i < |s.rows| && s.rows[i].key == key && Fair(key, sums, b)
    requires Merged(h, s.rows[i].breakup, b)
    ensures Added(s, s.(rows := s.rows[i := s.rows[i].(sums := Add(s.rows[i].sums, sums), breakup := h)]), key, sums, b)
  {
    hide Fair, Col, Merged, Add, InRows;
    var r := s.rows[i];
    var t := s.(rows := s.rows[i := r.(sums := Add(r.sums, sums), breakup := h)]);
    MergedFair(key, r.sums, sums, h, r.breakup, b);
    forall k, c ensures Kept(t, k, c) == Kept(s, k, c) + if k == key then Col(sums, b, c) else 0.0 {
      MergedCol(r.sums, sums, h, r.breakup, b, c);
      RowChanged(s.rows, i, Add(r.sums, sums), h, k, c);
    }
  }

  lemma AddNewRow(s: Store, key: Key, sums: Sums, b: Hash<real>, wall: int)
    requires AllFair(s) && Fair(key, sums, b)
    ensures Added(s, s.(rows := s.rows + [Row(key, wall, sums, b)]), key, sums, b)
  {
    hide Fair, Col, InRows;
    var r := Row(key, wall, sums, b);
    forall k, c ensures Kept(s.(rows := s.rows + [r]), k, c) == Kept(s, k, c) + if k == key then Col(sums, b, c) else 0.0 {
      RowAdded(s.rows, r, k, c);
    }
  }

  /** A sample moves from memory to the database. */
  lemma WriteSample(s: Store, key: Key, wall: int)
    requires AllFair(s) && key in s.samples
    ensures var m := s.samples[key];
      Moved(s, Store(s.samples - {key}, s.rows + [Row(key, wall, m.sums, m.breakup)]))
  {
    hide Fair, Col, InRows;
    var m := s.samples[key];
    var r := Row(key, wall, m.sums, m.breakup);
    var t := Store(s.samples - {key}, s.rows + [r]);
    forall k, c ensures Kept(t, k, c) == Kept(s, k, c) { RowAdded(s.rows, r, k, c); }
  }

  // ----- messages -----

  /** item[:database] and the other fields of a url_metric; the application is None if its name is unknown. */
  datatype Message = Message(app: Option<nat>, controller: string, action: string, total: real, rendering: real,
                             database: Hash<Hash<real>>, wall: int)

  function Url(m: Message): string {
    m.controller + "/" + m.action
  }

  function RowNames(name: string, row: Hash<real>): Hash<real> {
    seq(|row|, j requires 0 <= j < |row| => (row[j].0 + "." + name, row[j].1))
  }

  /** The breakup: one entry `class.method` for each entry of the nested hash. */
  function Flat(d: Hash<Hash<real>>): Hash<real> {
    if d == [] then [] else Flat(d[..|d| - 1]) + RowNames(d[|d| - 1].0, d[|d| - 1].1)
  }

  function SumsOf(m: Message): Sums {
    Sums(m.total, Sum(Flat(m.database)), m.rendering, 1)
  }

  /** What one message contributes to a key. */
  function Contribution(m: Message, key: Key, c: Column): real {
    if m.app.None? then 0.0
    else if key == AppKey(m.app.value) then Col(SumsOf(m), [], c)
    else if key == UrlKey(m.app.value, Url(m)) then Col(SumsOf(m), Flat(m.database), c)
    else 0.0
  }

  function Processed(log: seq<Message>, key: Key, c: Column): real {
    if log == [] then 0.0 else Processed(log[..|log| - 1], key, c) + Contribution(log[|log| - 1], key, c)
  }

  lemma ProcessedOne(log: seq<Message>, m: Message, key: Key, c: Column)
    ensures Processed(log + [m], key, c) == Processed(log, key, c) + Contribution(m, key, c)
  {
    assert (log + [m])[..|log|] == log;
  }

  /** `class.method` tells class and method apart, since no method name contains a dot. */
  lemma DotSplits(c: string, m: string, d: string, n: string)
    requires '.' !in m && '.' !in n && c + "." + m == d + "." + n
    ensures c == d && m == n
  {
    var s, t := c + "." + m, d + "." + n;
    assert s[|c|] == '.' && t[|d|] == '.';
    assert forall k :: |c| < k < |s| ==> s[k] == m[k - |c| - 1];
    assert forall k :: |d| < k < |t| ==> t[k] == n[k - |d| - 1];
    assert |c| == |d|;
    assert c == s[..|c|] && d == t[..|d|] && m == s[|c| + 1..] && n == t[|d| + 1..];
  }

  /** Every entry of the breakup stems from an entry of the nested hash. */
  lemma {:induction false} FlatFrom(d: Hash<Hash<real>>, i: nat) returns (a: nat, b: nat)
    requires i < |Flat(d)|
    ensures a < |d| && b < |d[a].1| && Flat(d)[i] == (d[a].1[b].0 + "." + d[a].0, d[a].1[b].1)
  {
    var n := |d| - 1;
    if i < |Flat(d[..n])| {
      a, b := FlatFrom(d[..n], i);
    } else {
      a, b := n, i - |Flat(d[..n])|;
    }
  }

  lemma {:induction false} FlatKeyed(d: Hash<Hash<real>>)
    requires Tidy(d)
    ensures Keyed(Flat(d))
  {
    if d != [] {
      var n := |d| - 1;
      var f, g := Flat(d[..n]), RowNames(d[n].0, d[n].1);
      FlatKeyed(d[..n]);
      forall i, j | 0 <= i < |f| && 0 <= j < |g| ensures f[i].0 != g[j].0 {
        var a, b := FlatFrom(d[..n], i);
        if f[i].0 == g[j].0 {
          DotSplits(d[a].1[b].0, d[a].0, d[n].1[j].0, d[n].0);
          assert false;
        }
      }
      forall i, j | 0 <= i < j < |g| ensures g[i].0 != g[j].0 {
        if g[i].0 == g[j].0 { DotSplits(d[n].1[i].0, d[n].0, d[n].1[j].0, d[n].0); }
      }
    }
  }

  lemma {:induction false} RowNamesSum(name: string, row: Hash<real>)
    ensures Sum(RowNames(name, row)) == Sum(row)
  {
    if row != [] {
      assert RowNames(name, row)[1..] == RowNames(name, row[1..]);
      RowNamesSum(name, row[1..]);
    }
  }

  lemma {:induction false} TotalLast(d: Hash<Hash<real>>)
    requires d != []
    ensures Total(d) == Total(d[..|d| - 1]) + Sum(d[|d| - 1].1)
  {
    if |d| == 1 {
      assert d[1..] == [] && d[..0] == [];
      assert Total(d[1..]) == 0.0;
    } else {
      TotalLast(d[1..]);
      assert d[1..][..|d| - 2] == d[..|d| - 1][1..];
    }
  }

  /** The total database time of a message is that of its nested hash. */
  lemma {:induction false} FlatTotal(d: Hash<Hash<real>>)
    ensures Sum(Flat(d)) == Total(d)
  {
    if d != [] {
      var n := |d| - 1;
      FlatTotal(d[..n]);
      SumAppend(Flat(d[..n]), RowNames(d[n].0, d[n].1));
      RowNamesSum(d[n].0, d[n].1);
      TotalLast(d);
    }
  }

  lemma {:induction false} FlatHas(d: Hash<Hash<real>>, a: nat, b: nat) returns (i: nat)
    requires a < |d| && b < |d[a].1|
    ensures i < |Flat(d)| && Flat(d)[i] == (d[a].1[b].0 + "." + d[a].0, d[a].1[b].1)
  {
    var n := |d| - 1;
    if a < n {
      i := FlatHas(d[..n], a, b);
    } else {
      i := |Flat(d[..n])| + b;
    }
  }

  /** Each entry of the breakup is the recorded time of that method of that class. */
  lemma FlatTime(d: Hash<Hash<real>>, name: string, cls: string)
    requires Tidy(d) && '.' !in name
    ensures Get(Flat(d), cls + "." + name) == Time(d, name, cls)
  {
    hide Tidy, Keyed, Flat;
    var f := Flat(d);
    FlatKeyed(d);
    TidyRow(d, name);
    if Find(Profiler.Row(d, name), cls).Some? {
      var a := FindWhere(d, name);
      FindAtTidy(d, a);
      var b := FindWhere(d[a].1, cls);
      FindAt(d[a].1, b);
      var i := FlatHas(d, a, b);
      FindAt(f, i);
    } else if Find(f, cls + "." + name).Some? {
      var i := FindWhere(f, cls + "." + name);
      var a, b := FlatFrom(d, i);
      FindAtTidy(d, a);
      DotSplits(d[a].1[b].0, d[a].0, cls, name);
      FindAt(d[a].1, b);
      assert false;
    }
  }

  lemma TidyRow(d: Hash<Hash<real>>, name: string)
    ensures Find(d, name).None? ==> Profiler.Row(d, name) == []
  {}

  lemma FindAtTidy(d: Hash<Hash<real>>, a: nat)
    requires Tidy(d) && a < |d|
    ensures Find(d, d[a].0) == Some(d[a].1) && Keyed(d[a].1) && '.' !in d[a].0
  {
    FindAt(d, a);
  }

  /**
   * From the calls of a request to its message: the database time is the elapsed time of the outermost
   * database calls, and the breakup gives each method exactly the time it is charged.
   */
  lemma MessageOfRequest(cs: Calls, name: string, cls: string)
    requires NamesFree(cs, '.') && '.' !in name
    ensures var d := Run(FRESH, cs).database;
      && Tidy(d) && Sum(Flat(d)) == Outermost(cs)
      && Get(Flat(d), cls + "." + name) == Charged(cs, name, cls)
  {
    RunKeepsTidy(FRESH, cs);
    RequestAccounts(cs);
    FlatTotal(Run(FRESH, cs).database);
    FlatTime(Run(FRESH, cs).database, name, cls);
  }

  // ----- accounts, told by the fields themselves -----

  /** The sum of `f` over what memory and database hold under a key. */
  ghost function Stored(s: Store, key: Key, f: (Sums, Hash<real>) -> real): real {
    (if key in s.samples then f(s.samples[key].sums, s.samples[key].breakup) else 0.0) + OverRows(s.rows, key, f)
  }

  ghost function OverRows(rows: seq<Row>, key: Key, f: (Sums, Hash<real>) -> real): real {
    if rows == [] then 0.0
    else
      var r := rows[|rows| - 1];
      OverRows(rows[..|rows| - 1], key, f) + if r.key == key then f(r.sums, r.breakup) else 0.0
  }

  /** The sum of `f` over the messages that `p` selects. */
  ghost function Over(log: seq<Message>, p: Message -> bool, f: Message -> real): real {
    if log == [] then 0.0
    else Over(log[..|log| - 1], p, f) + if p(log[|log| - 1]) then f(log[|log| - 1]) else 0.0
  }

  /** Under `key` stands what the messages that `p` selects tell: their times, and how many they are. */
  ghost predicate Booked(s: Store, key: Key, log: seq<Message>, p: Message -> bool) {
    && Stored(s, key, (t: Sums, b) => t.total) == Over(log, p, (m: Message) => m.total)
    && Stored(s, key, (t: Sums, b) => t.rendering) == Over(log, p, (m: Message) => m.rendering)
    && Stored(s, key, (t: Sums, b) => t.db) == Over(log, p, (m: Message) => Total(m.database))
    && Stored(s, key, (t: Sums, b) => t.requests as real) == Over(log, p, (m: Message) => 1.0)
  }

  lemma {:induction false} OverRowsIs(rows: seq<Row>, key: Key, c: Column, f: (Sums, Hash<real>) -> real)
    requires forall t, b :: f(t, b) == Col(t, b, c)
    ensures OverRows(rows, key, f) == InRows(rows, key, c)
  {
    hide Col;
    if rows != [] { OverRowsIs(rows[..|rows| - 1], key, c, f); }
  }

  lemma StoredIs(s: Store, key: Key, c: Column, f: (Sums, Hash<real>) -> real)
    requires forall t, b :: f(t, b) == Col(t, b, c)
    ensures Stored(s, key, f) == Kept(s, key, c)
  {
    OverRowsIs(s.rows, key, c, f);
  }

  lemma {:induction false} OverIs(log: seq<Message>, key: Key, c: Column, p: Message -> bool, f: Message -> real)
    requires forall i :: 0 <= i < |log| ==> Contribution(log[i], key, c) == if p(log[i]) then f(log[i]) else 0.0
    ensures Over(log, p, f) == Processed(log, key, c)
  {
    hide Contribution;
    if log != [] { OverIs(log[..|log| - 1], key, c, p, f); }
  }

  /** `p` selects the messages that count for `key`. */
  ghost predicate Selects(p: Message -> bool, key: Key) {
    forall m: Message ::
      p(m) <==> m.app.Some? && (key == AppKey(m.app.value) || key == UrlKey(m.app.value, m.controller + "/" + m.action))
  }

  lemma ContributionIs(m: Message, key: Key, p: Message -> bool)
    requires Selects(p, key)
    ensures Contribution(m, key, TotalTime) == if p(m) then m.total else 0.0
    ensures Contribution(m, key, RenderingTime) == if p(m) then m.rendering else 0.0
    ensures Contribution(m, key, DbTime) == if p(m) then Total(m.database) else 0.0
    ensures Contribution(m, key, Requests) == if p(m) then 1.0 else 0.0
  {
    FlatTotal(m.database);
  }

  lemma BookedIs(s: Store, key: Key, log: seq<Message>, p: Message -> bool)
    requires Selects(p, key) && forall c :: Kept(s, key, c) == Processed(log, key, c)
    ensures Booked(s, key, log, p)
  {
    hide Kept, Processed, Contribution, Stored, Over, Selects;
    forall m: Message
      ensures Contribution(m, key, TotalTime) == if p(m) then m.total else 0.0
      ensures Contribution(m, key, RenderingTime) == if p(m) then m.rendering else 0.0
      ensures Contribution(m, key, DbTime) == if p(m) then Total(m.database) else 0.0
      ensures Contribution(m, key, Requests) == if p(m) then 1.0 else 0.0
    {
      ContributionIs(m, key, p);
    }
    StoredIs(s, key, TotalTime, (t: Sums, b) => t.total);
    OverIs(log, key, TotalTime, p, (m: Message) => m.total);
    StoredIs(s, key, RenderingTime, (t: Sums, b) => t.rendering);
    OverIs(log, key, RenderingTime, p, (m: Message) => m.rendering);
    StoredIs(s, key, DbTime, (t: Sums, b) => t.db);
    OverIs(log, key, DbTime, p, (m: Message) => Total(m.database));
    StoredIs(s, key, Requests, (t: Sums, b) => t.requests as real);
    OverIs(log, key, Requests, p, (m: Message) => 1.0);
  }

  /** Under `key` stands, for a method of a class, the time that the selected messages tell for it. */
  ghost predicate TimeBooked(s: Store, key: Key, log: seq<Message>, p: Message -> bool, name: string, cls: string) {
    Stored(s, key, (t: Sums, b) => Get(b, cls + "." + name)) == Over(log, p, (m: Message) => Time(m.database, name, cls))
  }

  lemma TimeBookedIs(s: Store, app: nat, url: string, log: seq<Message>, p: Message -> bool, name: string, cls: string)
    requires Selects(p, UrlKey(app, url)) && forall c :: Kept(s, UrlKey(app, url), c) == Processed(log, UrlKey(app, url), c)
    requires '.' !in name && forall i :: 0 <= i < |log| ==> Tidy(log[i].database)
    ensures TimeBooked(s, UrlKey(app, url), log, p, name, cls)
  {
    hide Kept, Processed, Stored, Over, Tidy;
    var key, c := UrlKey(app, url), MethodTime(cls + "." + name);
    forall i | 0 <= i < |log|
      ensures Contribution(log[i], key, c) == if p(log[i]) then Time(log[i].database, name, cls) else 0.0
    {
      FlatTime(log[i].database, name, cls);
    }
    StoredIs(s, key, c, (t: Sums, b) => Get(b, cls + "." + name));
    OverIs(log, key, c, p, (m: Message) => Time(m.database, name, cls));
  }

  /** A URL tells controller and action apart, since no action contains a slash. */
  lemma UrlSplits(m: Message, n: Message)
    requires '/' !in m.action && '/' !in n.action && Url(m) == Url(n)
    ensures m.controller == n.controller && m.action == n.action
  {
    var s, t := Url(m), Url(n);
    assert s[|m.controller|] == '/' && t[|n.controller|] == '/';
    assert forall k :: |m.controller| < k < |s| ==> s[k] == m.action[k - |m.controller| - 1];
    assert forall k :: |n.controller| < k < |t| ==> t[k] == n.action[k - |n.controller| - 1];
    assert |m.controller| == |n.controller|;
    assert m.controller == s[..|m.controller|] && n.controller == t[..|n.controller|];
    assert m.action == s[|m.controller| + 1..] && n.action == t[|n.controller| + 1..];
  }

  // ----- the two sample models -----

  /** The messages of known applications, in order. */
  function OfKnown(queue: seq<Message>): seq<Message> {
    if queue == [] then [] else (if queue[0].app.Some? then [queue[0]] else []) + OfKnown(queue[1..])
  }

  lemma OfKnownNone()
    ensures OfKnown([]) == []
  {}

  lemma Regroup<T>(s: seq<T>, t: seq<T>, u: seq<T>)
    ensures (s + t) + u == s + (t + u)
  {}

  lemma {:induction false} OfKnownAfter(queue: seq<Message>, n: nat)
    requires n <= |queue| && forall i :: 0 <= i < n ==> queue[i].app.Some?
    requires n < |queue| ==> queue[n].app.None?
    ensures OfKnown(queue) == queue[..n] + OfKnown(if n < |queue| then queue[n + 1..] else [])
  {
    if n > 0 {
      OfKnownAfter(queue[1..], n - 1);
      assert n < |queue| ==> queue[1..][n..] == queue[n + 1..];
      assert queue[..n] == [queue[0]] + queue[1..][..n - 1];
    } else if queue != [] {
      assert OfKnown(queue) == [] + OfKnown(queue[1..]) == queue[..0] + OfKnown(queue[1..]);
    }
  }

  class MessageAnalyzer {
    const samplingRate: int
    var samples: map<Key, Sample>   // @application_samples and @url_samples
    var rows: seq<Row>              // the tables
    ghost var log: seq<Message>     // messages processed so far

    ghost function Both(): Store
      reads this
    {
      Store(samples, rows)
    }

    /** Memory and database hold exactly what was processed, for every application, URL and method. */
    ghost predicate Valid()
      reads this
    {
      AllFair(Both()) && forall k, c :: Kept(Both(), k, c) == Processed(log, k, c)
    }

    constructor (rate: int)
      ensures Valid() && log == [] && samplingRate == 60 * rate
    {
      samplingRate, samples, rows, log := 60 * rate, map[], [], [];
    }

    /** `find(:first, ...)`: some row of the key whose time lies in the period that starts at `wall`. */
    method FindFirst(key: Key, wall: int) returns (found: Option<nat>)
      ensures found.Some? ==> found.value < |rows| && Matches(rows[found.value], key, wall)
      ensures found.None? ==> forall i :: 0 <= i < |rows| ==> !Matches(rows[i], key, wall)
    {
      if i :| 0 <= i < |rows| && Matches(rows[i], key, wall) {
        return Some(i);
      }
      return None;
    }

    /** The row that the old sample becomes; a URL sample is stamped with the time of the new message. */
    ghost function Written(key: Key, m: Sample, wall: int): Row {
      Row(key, if key.AppKey? then m.wall + samplingRate else wall, m.sums, m.breakup)
    }

    /** A message from before the sample in memory: one matching row takes it, or a new one if none matches. */
    ghost predicate LateRow(was: seq<Row>, now: seq<Row>, key: Key, sums: Sums, breakup: Hash<real>, wall: int) {
      if exists i :: 0 <= i < |was| && was[i].key == key && wall <= was[i].wall <= wall + samplingRate then
        exists i :: 0 <= i < |was| && was[i].key == key && wall <= was[i].wall <= wall + samplingRate
          && TakenBy(was, now, i, sums)
      else
        now == was + [Row(key, wall + samplingRate, sums, breakup)]
    }

    static ghost predicate TakenBy(was: seq<Row>, now: seq<Row>, i: nat, sums: Sums) {
      && i < |was| == |now| && now == was[i := now[i]]
      && now[i].(breakup := was[i].breakup) == was[i].(sums := Add(was[i].sums, sums))
    }

    predicate Matches(r: Row, key: Key, wall: int) {
      r.key == key && wall <= r.wall <= wall + samplingRate
    }

    /** create_sample */
    method CreateSample(key: Key, sums: Sums, breakup: Hash<real>, wall: int)
      modifies this`rows
      ensures rows == old(rows) + [Row(key, wall, sums, breakup)]
    {
      rows := rows + [Row(key, wall, sums, breakup)];
    }

    /**
     * add_to_sample of both models. The times are added once, under their key: to the sample in memory if
     * the message lies in its period, to the database if it is older, to a new sample if it is newer.
     */
    method AddToSample(key: Key, sums: Sums, breakup: Hash<real>, wall: int)
      requires AllFair(Both()) && Fair(key, sums, breakup)
      modifies this`samples, this`rows
      ensures Added(old(Both()), Both(), key, sums, breakup)
      ensures key in samples
      ensures key !in old(samples) ==> samples[key].wall == wall && rows == old(rows)
      ensures key in old(samples) ==> var m := old(samples)[key];
        && (wall < m.wall ==> samples == old(samples) && LateRow(old(rows), rows, key, sums, breakup, wall))
        && (m.wall <= wall <= m.wall + samplingRate ==>
              samples[key].wall == m.wall && samples[key].sums == Add(m.sums, sums) && rows == old(rows))
        && (m.wall <= wall && m.wall + samplingRate < wall ==>
              samples[key] == Sample(wall, sums, breakup) && rows == old(rows) + [Written(key, m, wall)])
      ensures forall k :: k != key ==>
        (k in samples <==> k in old(samples)) && (k in samples ==> samples[k] == old(samples)[k])
    {
      hide Fair, Added, Merged, AllFair;
      ghost var s := Both();
      if key !in samples {
        AddNewSample(s, key, sums, breakup, wall);
        samples := samples[key := Sample(wall, sums, breakup)];
      } else if samples[key].wall <= wall <= samples[key].wall + samplingRate {
        var m := samples[key];
        FairKeys(s, key);
        FairIsKeyed(key, sums, breakup);
        var h := MergeHash(m.breakup, breakup);
        AddToMemory(s, key, sums, breakup, h);
        samples := samples[key := Sample(m.wall, Add(m.sums, sums), h)];
      } else if wall < samples[key].wall {
        var found := FindFirst(key, wall);
        if found.Some? {
          var i := found.value;
          FairRows(s, i);
          FairIsKeyed(key, sums, breakup);
          var h := MergeRows(rows[i].breakup, breakup);
          AddToRow(s, key, sums, breakup, i, h);
          rows := rows[i := rows[i].(sums := Add(rows[i].sums, sums), breakup := h)];
          assert TakenBy(s.rows, rows, i, sums);
        } else {
          AddNewRow(s, key, sums, breakup, wall + samplingRate);
          CreateSample(key, sums, breakup, wall + samplingRate);
        }
      } else {
        Replace(key, sums, breakup, wall);
      }
    }

    /** A later period has begun: the old sample is written, a new one takes its place. */
    method Replace(key: Key, sums: Sums, breakup: Hash<real>, wall: int)
      requires AllFair(Both()) && Fair(key, sums, breakup) && key in samples
      modifies this`samples, this`rows
      ensures Added(old(Both()), Both(), key, sums, breakup)
      ensures samples == old(samples)[key := Sample(wall, sums, breakup)]
      ensures rows == old(rows) + [Written(key, old(samples)[key], wall)]
    {
      hide Fair, AllFair, Kept;
      ghost var s := Both();
      var m := samples[key];
      // AppTimeSample stamps the row with the end of the period, UrlTimeSample with the new message's time.
      var stamp := if key.AppKey? then m.wall + samplingRate else wall;
      WriteSample(s, key, stamp);
      CreateSample(key, m.sums, m.breakup, stamp);
      ghost var t := Store(s.samples - {key}, rows);
      AddNewSample(t, key, sums, breakup, wall);
      assert t.samples[key := Sample(wall, sums, breakup)] == s.samples[key := Sample(wall, sums, breakup)];
      samples := samples[key := Sample(wall, sums, breakup)];
    }

    /** The sample in memory: the period of the message, if it starts a new one, else the period it was in. */
    ghost predicate InPeriod(was: map<Key, Sample>, now: map<Key, Sample>, key: Key, wall: int) {
      && key in now
      && now[key].wall == if key in was && (wall < was[key].wall || wall <= was[key].wall + samplingRate)
                          then was[key].wall else wall
    }

    /** What becomes of the rows: nothing, a late message finds its row, or the sample of the last period is written. */
    ghost predicate Filed(was: seq<Row>, now: seq<Row>, held: map<Key, Sample>, key: Key, sums: Sums,
                          breakup: Hash<real>, wall: int)
    {
      if key !in held then now == was
      else
        var m := held[key];
        if wall < m.wall then LateRow(was, now, key, sums, breakup, wall)
        else if wall <= m.wall + samplingRate then now == was
        else now == was + [Row(key, if key.AppKey? then m.wall + samplingRate else wall, m.sums, m.breakup)]
    }

    /** process_messages, one message: totals and breakup from the nested hash, then both models. */
    method ProcessMessage(m: Message)
      requires Valid() && m.app.Some? && Tidy(m.database)
      modifies this`samples, this`rows, this`log
      ensures Valid() && log == old(log) + [m]
      ensures InPeriod(old(samples), samples, AppKey(m.app.value), m.wall)
      ensures InPeriod(old(samples), samples, UrlKey(m.app.value, m.controller + "/" + m.action), m.wall)
      ensures forall k :: k != AppKey(m.app.value) && k != UrlKey(m.app.value, m.controller + "/" + m.action) ==>
        (k in samples <==> k in old(samples)) && (k in samples ==> samples[k] == old(samples)[k])
      ensures var key, sums := UrlKey(m.app.value, m.controller + "/" + m.action),
                               Sums(m.total, Total(m.database), m.rendering, 1);
        exists mid :: Filed(old(rows), mid, old(samples), AppKey(m.app.value), sums, [], m.wall)
          && Filed(mid, rows, old(samples), key, sums, Flat(m.database), m.wall)
    {
      hide AllFair, Fair, Kept, Added, Tidy, Keyed, LateRow;
      FlatTotal(m.database);
      var dbTime, breakup := Breakup(m.database);
      var app, url, sums := m.app.value, Url(m), Sums(m.total, dbTime, m.rendering, 1);
      ghost var s := Both();
      FairMessage(m);
      AddToSample(AppKey(app), sums, [], m.wall);
      ghost var t := Both();
      assert Filed(s.rows, t.rows, s.samples, AppKey(app), sums, [], m.wall);
      AddedFair(s, t, AppKey(app), sums, []);
      AddToSample(UrlKey(app, url), sums, breakup, m.wall);
      assert Filed(t.rows, rows, s.samples, UrlKey(app, url), sums, breakup, m.wall);
      AddedTwice(s, t, Both(), log, m);
      log := log + [m];
    }

    /** db_time and db_time_breakup */
    method Breakup(d: Hash<Hash<real>>) returns (dbTime: real, breakup: Hash<real>)
      requires Tidy(d)
      ensures breakup == Flat(d) && dbTime == Sum(breakup)
    {
      hide Put, Sum, Find, Tidy, Keyed;
      dbTime, breakup := 0.0, [];
      assert d[..0] == [];
      SumNothing();
      for i := 0 to |d|
        invariant breakup == Flat(d[..i]) && dbTime == Sum(breakup)
      {
        var (key1, value1) := d[i];
        ghost var f := Flat(d[..i]);
        assert RowNames(key1, value1[..0]) == [] && f + [] == f;
        for j := 0 to |value1|
          invariant breakup == f + RowNames(key1, value1[..j]) && dbTime == Sum(breakup)
        {
          var (key2, value2) := value1[j];
          dbTime := dbTime + value2;
          NewName(d, i, j);
          PutNew(breakup, key2 + "." + key1, value2);
          breakup := Put(breakup, key2 + "." + key1, value2);
          assert RowNames(key1, value1[..j + 1]) == RowNames(key1, value1[..j]) + [(key2 + "." + key1, value2)];
        }
        assert value1[..|value1|] == value1;
        assert d[..i + 1][..i] == d[..i];
      }
      assert d[..|d|] == d;
    }

    /**
     * process_messages. A message whose application is not known has been taken off the reader by the time
     * that is noticed: it is dropped, and what follows it is left for the next call.
     */
    method ProcessMessages(queue: seq<Message>) returns (n: nat, left: seq<Message>)
      requires Valid() && forall i :: 0 <= i < |queue| ==> Tidy(queue[i].database)
      modifies this`samples, this`rows, this`log
      ensures Valid() && n <= |queue| && log == old(log) + queue[..n]
      ensures (forall i :: 0 <= i < n ==> queue[i].app.Some?) && (n < |queue| ==> queue[n].app.None?)
      ensures left == if n < |queue| then queue[n + 1..] else []
    {
      hide Tidy, Valid;
      n, left := 0, queue;
      while left != []
        invariant Valid() && n <= |queue| && log == old(log) + queue[..n] && left == queue[n..]
        invariant forall i :: 0 <= i < n ==> queue[i].app.Some?
      {
        var item := left[0];
        left := left[1..];
        if item.app == None { return; }
        ProcessMessage(item);
        n := n + 1;
      }
    }

    /** The analyzer's loop: the calls that it takes to empty the reader process all but the dropped messages. */
    method ProcessAll(queue: seq<Message>)
      requires Valid() && forall i :: 0 <= i < |queue| ==> Tidy(queue[i].database)
      modifies this`samples, this`rows, this`log
      ensures Valid() && log == old(log) + OfKnown(queue)
    {
      hide Tidy, Valid, OfKnown;
      OfKnownNone();
      var left := queue;
      while left != []
        invariant Valid() && log + OfKnown(left) == old(log) + OfKnown(queue)
        invariant forall i :: 0 <= i < |left| ==> Tidy(left[i].database)
        decreases |left|
      {
        ghost var was, done := left, log;
        var n;
        n, left := ProcessMessages(left);
        OfKnownAfter(was, n);
        Regroup(done, was[..n], OfKnown(left));
      }
      assert log + [] == log;
    }

    /** The rows are samples of `was`, stamped with the end of their periods. */
    ghost predicate Stamped(was: map<Key, Sample>, now: seq<Row>) {
      forall i :: 0 <= i < |now| ==> var r := now[i];
        r.key in was && r == Row(r.key, was[r.key].wall + samplingRate, was[r.key].sums, was[r.key].breakup)
    }

    /** write_stale_samples of both models, in any order of the keys. */
    method WriteStaleSamples(now: int)
      requires Valid()
      modifies this`samples, this`rows
      ensures Valid() && forall k <- samples :: now <= samples[k].wall + samplingRate
      ensures forall k <- samples :: k in old(samples) && samples[k] == old(samples)[k]
      ensures forall k <- old(samples) :: k in samples || old(samples)[k].wall + samplingRate < now
      ensures old(rows) <= rows && Stamped(old(samples), rows[|old(rows)|..])
    {
      hide AllFair, Kept;
      var rest := samples.Keys;
      while rest != {}
        invariant Valid() && rest <= samples.Keys && old(rows) <= rows && Stamped(old(samples), rows[|old(rows)|..])
        invariant forall k <- samples :: k in rest || now <= samples[k].wall + samplingRate
        invariant forall k <- samples :: k in old(samples) && samples[k] == old(samples)[k]
        invariant forall k <- old(samples) :: k in samples || old(samples)[k].wall + samplingRate < now
        decreases |rest|
      {
        var key :| key in rest;
        rest := rest - {key};
        var m := samples[key];
        if m.wall + samplingRate < now {
          WriteSample(Both(), key, m.wall + samplingRate);
          CreateSample(key, m.sums, m.breakup, m.wall + samplingRate);
          samples := samples - {key};
        }
      }
    }

    /** write_all_samples of both models: then the database alone holds all that was processed. */
    method WriteAllSamples()
      requires Valid()
      modifies this`rows
      ensures forall k, c :: InRows(rows, k, c) == Processed(log, k, c)
      ensures forall app, urls, c: Column :: Covers(Store(map[], rows), app, urls) && !c.MethodTime? ==>
        InRows(rows, AppKey(app), c) == SumUrls(Store(map[], rows), app, urls, c)
      ensures old(rows) <= rows && Stamped(samples, rows[|old(rows)|..])
    {
      hide AllFair, InRows, Processed, Col, Covers, SumUrls;
      var rest := samples.Keys;
      ghost var left := samples;
      while rest != {}
        invariant rest == left.Keys && left.Keys <= samples.Keys && forall k <- left :: left[k] == samples[k]
        invariant AllFair(Store(left, rows)) && old(rows) <= rows && Stamped(samples, rows[|old(rows)|..])
        invariant forall k, c :: Kept(Store(left, rows), k, c) == Processed(log, k, c)
        decreases |rest|
      {
        var key :| key in rest;
        var m := samples[key];
        WriteSample(Store(left, rows), key, m.wall + samplingRate);
        CreateSample(key, m.sums, m.breakup, m.wall + samplingRate);
        left := left - {key};
        rest := rest - {key};
      }
      forall k, c ensures InRows(rows, k, c) == Processed(log, k, c) {
        assert Kept(Store(left, rows), k, c) == Processed(log, k, c);
      }
      ghost var s := Store(map[], rows);
      forall app, urls, c: Column | Covers(s, app, urls) && !c.MethodTime?
        ensures InRows(rows, AppKey(app), c) == SumUrls(s, app, urls, c)
      {
        AppIsSumOfUrls(s, log, app, urls, c);
      }
    }

    /**
     * What the samples and rows of an application add up to, column by column: the times and the number of its
     * messages; and likewise for the messages of one controller and action of it.
     */
    lemma Accounts(app: nat, controller: string, action: string)
      requires Valid()
      ensures Booked(Both(), AppKey(app), log, (m: Message) => m.app == Some(app))
      ensures Booked(Both(), UrlKey(app, controller + "/" + action), log,
        (m: Message) => m.app == Some(app) && m.controller + "/" + m.action == controller + "/" + action)
    {
      hide Booked, Kept, Processed;
      BookedIs(Both(), AppKey(app), log, (m: Message) => m.app == Some(app));
      BookedIs(Both(), UrlKey(app, controller + "/" + action), log,
        (m: Message) => m.app == Some(app) && m.controller + "/" + m.action == controller + "/" + action);
    }

    /** And its breakup: each method of each class has the time that these messages tell for it. */
    lemma AccountsByMethod(app: nat, controller: string, action: string, name: string, cls: string)
      requires Valid() && '.' !in name && forall i :: 0 <= i < |log| ==> Tidy(log[i].database)
      ensures TimeBooked(Both(), UrlKey(app, controller + "/" + action), log,
        (m: Message) => m.app == Some(app) && m.controller + "/" + m.action == controller + "/" + action, name, cls)
    {
      hide TimeBooked, Kept, Processed;
      TimeBookedIs(Both(), app, controller + "/" + action, log,
        (m: Message) => m.app == Some(app) && m.controller + "/" + m.action == controller + "/" + action, name, cls);
    }

    /** The totals kept for an application, in memory and database, are the sums over its URLs. */
    lemma ApplicationTotals(app: nat, urls: seq<string>, c: Column)
      requires Valid() && Covers(Both(), app, urls) && !c.MethodTime?
      ensures Kept(Both(), AppKey(app), c) == SumUrls(Both(), app, urls, c)
    {
      AppIsSumOfUrls(Both(), log, app, urls, c);
    }
  }

  lemma FairKeys(s: Store, key: Key)
    requires AllFair(s) && key in s.samples
    ensures Keyed(s.samples[key].breakup)
  {}

  lemma FairRows(s: Store, i: nat)
    requires AllFair(s) && i < |s.rows|
    ensures Keyed(s.rows[i].breakup)
  {}

  lemma FairIsKeyed(key: Key, sums: Sums, b: Hash<real>)
    requires Fair(key, sums, b)
    ensures Keyed(b)
  {}

  lemma FairMessage(m: Message)
    requires m.app.Some? && Tidy(m.database)
    ensures Fair(AppKey(m.app.value), SumsOf(m), []) && Fair(UrlKey(m.app.value, Url(m)), SumsOf(m), Flat(m.database))
  {
    FlatKeyed(m.database);
  }

  lemma AddedFair(s: Store, t: Store, key: Key, sums: Sums, b: Hash<real>)
    requires Added(s, t, key, sums, b)
    ensures AllFair(t)
  {}

  lemma AddedTwice(s: Store, t: Store, u: Store, log: seq<Message>, m: Message)
    requires m.app.Some? && forall k, c :: Kept(s, k, c) == Processed(log, k, c)
    requires Added(s, t, AppKey(m.app.value), SumsOf(m), [])
    requires Added(t, u, UrlKey(m.app.value, Url(m)), SumsOf(m), Flat(m.database))
    ensures AllFair(u) && forall k, c :: Kept(u, k, c) == Processed(log + [m], k, c)
  {
    hide Kept, Col, SumsOf, Url, AllFair;
    forall k, c ensures Kept(u, k, c) == Processed(log + [m], k, c) { ProcessedOne(log, m, k, c); }
  }

  lemma PutNew(h: Hash<real>, k: string, v: real)
    requires Find(h, k) == None
    ensures Put(h, k, v) == h + [(k, v)] && Sum(Put(h, k, v)) == Sum(h) + v
  {
    SumPut(h, k, v);
    if h != [] { PutNew(h[1..], k, v); }
  }

  /** The next entry of the nested hash gets a name that the breakup does not have yet. */
  lemma NewName(d: Hash<Hash<real>>, i: nat, j: nat)
    requires Tidy(d) && i < |d| && j < |d[i].1|
    ensures Find(Flat(d[..i]) + RowNames(d[i].0, d[i].1[..j]), d[i].1[j].0 + "." + d[i].0) == None
  {
    hide Flat;
    var f, g, k := Flat(d[..i]), RowNames(d[i].0, d[i].1[..j]), d[i].1[j].0 + "." + d[i].0;
    forall x | 0 <= x < |f| ensures f[x].0 != k {
      var a, b := FlatFrom(d[..i], x);
      if f[x].0 == k { DotSplits(d[a].1[b].0, d[a].0, d[i].1[j].0, d[i].0); }
    }
    forall x | 0 <= x < |g| ensures g[x].0 != k {
      if g[x].0 == k { DotSplits(d[i].1[x].0, d[i].0, d[i].1[j].0, d[i].0); }
    }
    FindMissing(f + g, k);
  }

  // ----- applications and their URLs -----

  function SumUrls(s: Store, app: nat, urls: seq<string>, c: Column): real {
    if urls == [] then 0.0 else Kept(s, UrlKey(app, urls[0]), c) + SumUrls(s, app, urls[1..], c)
  }

  ghost predicate HasAny(s: Store, key: Key) {
    key in s.samples || exists i :: 0 <= i < |s.rows| && s.rows[i].key == key
  }

  /** `urls` names every URL of the application of which something is stored, each once. */
  ghost predicate Covers(s: Store, app: nat, urls: seq<string>) {
    Distinct(urls) && forall u :: HasAny(s, UrlKey(app, u)) ==> u in urls
  }

  lemma {:induction false} NotInRows(rows: seq<Row>, key: Key, c: Column)
    requires forall i :: 0 <= i < |rows| ==> rows[i].key != key
    ensures InRows(rows, key, c) == 0.0
  {
    if rows != [] { NotInRows(rows[..|rows| - 1], key, c); }
  }

  /** Every processed message counts. */
  lemma {:induction false} Counted(log: seq<Message>, key: Key, i: nat)
    requires i <= |log|
    ensures Processed(log, key, Requests) >= 0.0
    ensures i < |log| && log[i].app.Some? && key == UrlKey(log[i].app.value, Url(log[i])) ==>
      Processed(log, key, Requests) >= 1.0
  {
    hide Url;
    if log != [] {
      var n := |log| - 1;
      Counted(log[..n], key, if i < n then i else 0);
      assert Contribution(log[n], key, Requests) >= 0.0;
    }
  }

  function SumProcessed(log: seq<Message>, app: nat, urls: seq<string>, c: Column): real {
    if urls == [] then 0.0 else Processed(log, UrlKey(app, urls[0]), c) + SumProcessed(log, app, urls[1..], c)
  }

  lemma {:induction false} SumProcessedOne(log: seq<Message>, m: Message, app: nat, urls: seq<string>, c: Column)
    requires Distinct(urls)
    ensures SumProcessed(log + [m], app, urls, c) == SumProcessed(log, app, urls, c)
      + if m.app == Some(app) && Url(m) in urls then Contribution(m, UrlKey(app, Url(m)), c) else 0.0
  {
    hide Processed, Url;
    if urls != [] {
      ProcessedOne(log, m, UrlKey(app, urls[0]), c);
      SumProcessedOne(log, m, app, urls[1..], c);
    }
  }

  lemma {:induction false} SumProcessedNone(app: nat, urls: seq<string>, c: Column)
    ensures SumProcessed([], app, urls, c) == 0.0
  {
    if urls != [] { SumProcessedNone(app, urls[1..], c); }
  }

  lemma {:induction false} ProcessedIsSum(log: seq<Message>, app: nat, urls: seq<string>, c: Column)
    requires Distinct(urls) && !c.MethodTime?
    requires forall i :: 0 <= i < |log| && log[i].app == Some(app) ==> Url(log[i]) in urls
    ensures Processed(log, AppKey(app), c) == SumProcessed(log, app, urls, c)
  {
    hide Url;
    if log == [] {
      SumProcessedNone(app, urls, c);
    } else {
      var n := |log| - 1;
      ProcessedIsSum(log[..n], app, urls, c);
      SumProcessedOne(log[..n], log[n], app, urls, c);
      assert log[..n] + [log[n]] == log;
    }
  }

  lemma {:induction false} SumsAgree(s: Store, log: seq<Message>, app: nat, urls: seq<string>, c: Column)
    requires forall k, d :: Kept(s, k, d) == Processed(log, k, d)
    ensures SumUrls(s, app, urls, c) == SumProcessed(log, app, urls, c)
  {
    hide Kept, Processed;
    if urls != [] { SumsAgree(s, log, app, urls[1..], c); }
  }

  /** Where what is stored is what was processed, an application's totals are the sums over its stored URLs. */
  lemma AppIsSumOfUrls(s: Store, log: seq<Message>, app: nat, urls: seq<string>, c: Column)
    requires forall k, d :: Kept(s, k, d) == Processed(log, k, d)
    requires Covers(s, app, urls) && !c.MethodTime?
    ensures Kept(s, AppKey(app), c) == SumUrls(s, app, urls, c)
  {
    hide Url;
    forall i | 0 <= i < |log| && log[i].app == Some(app) ensures Url(log[i]) in urls {
      var key := UrlKey(app, Url(log[i]));
      Counted(log, key, i);
      assert Kept(s, key, Requests) >= 1.0;
      if !HasAny(s, key) { NotInRows(s.rows, key, Requests); }
    }
    ProcessedIsSum(log, app, urls, c);
    SumsAgree(s, log, app, urls, c);
  }
}
