/**
 * Routing in src/head/wr_resolver.c: base URIs by hash, then host patterns from the most to the least
 * specific kind, then the default application. One `char` stands for one byte.
 */
module Resolver {
  import opened Seqs

  const PREFIX := 5381                          // Config->Request.prefix_hash
  const WORD := 0x1_0000_0000_0000_0000         // unsigned long
  const NUL: char := '\0'

  // ----- hashing, src/helper/wr_util.c -----

  /** The bytes in front of the first NUL or slash. */
  function Segment(s: string): string {
    if s == [] || s[0] == NUL || s[0] == '/' then [] else [s[0]] + Segment(s[1..])
  }

  /** `char` is signed. */
  function Signed(c: char): int {
    if c as int >= 128 then c as int - 256 else c as int
  }

  /** One round of djb2, wrapping like an unsigned long. */
  function Mix(hash: nat, c: char): nat {
    (hash * 33 + Signed(c)) % WORD
  }

  function Djb2(s: string): nat {
    if s == [] then PREFIX else Mix(Djb2(s[..|s| - 1]), s[|s| - 1])
  }

  predicate Stops(s: string, i: nat) {
    i >= |s| || s[i] == NUL || s[i] == '/'
  }

  lemma {:induction false} SegmentIs(s: string, i: nat)
    requires i <= |s| && Stops(s, i) && forall k :: 0 <= k < i ==> !Stops(s, k)
    ensures Segment(s) == s[..i]
  {
    if i > 0 {
      assert !Stops(s, 0);
      assert forall k :: 0 <= k < i - 1 ==> Stops(s[1..], k) == Stops(s, k + 1);
      SegmentIs(s[1..], i - 1);
    }
  }

  /** uri_hash, on a string that ends at its terminating NUL. */
  method UriHash(str: string) returns (hash: nat)
    ensures hash == Djb2(Segment(str))
  {
    hash := 5381;
    var i := 0;
    while !Stops(str, i)
      invariant 0 <= i <= |str| && hash == Djb2(str[..i])
      invariant forall k :: 0 <= k < i ==> !Stops(str, k)
      decreases |str| - i
    {
      assert str[..i + 1][..i] == str[..i];
      hash := (hash * 32 + hash + Signed(str[i])) % WORD;
      i := i + 1;
    }
    SegmentIs(str, i);
  }

  /** uri_hash_len, on a buffer and a length. */
  method UriHashLen(buf: string, length: int) returns (hash: nat)
    requires length <= |buf|
    ensures hash == Djb2(Segment(buf[..if length < 0 then 0 else length]))
  {
    ghost var str := buf[..if length < 0 then 0 else length];
    hash := 5381;
    var i := 0;
    while i < length && buf[i] != NUL && buf[i] != '/'
      invariant 0 <= i <= |str| && hash == Djb2(str[..i])
      invariant forall k :: 0 <= k < i ==> !Stops(str, k)
    {
      assert str[..i + 1][..i] == str[..i];
      hash := (hash * 32 + hash + Signed(buf[i])) % WORD;
      i := i + 1;
    }
    SegmentIs(str, i);
  }

  // ----- host patterns -----

  /** config_host_type_t; HOST_TPE_INVALID and the wildcard kinds in the order of their numbers. */
  datatype HostType = Invalid | Static | WildcardInStart | WildcardInEnd | WildcardInStartEnd

  function Rank(t: HostType): nat {
    match t
    case Invalid => 0
    case Static => 1
    case WildcardInStart => 2
    case WildcardInEnd => 4
    case WildcardInStartEnd => 8
  }

  /** The name is stored without its asterisks. */
  datatype Host = Host(name: string, kind: HostType)

  /** strstr */
  predicate Contains(s: string, t: string) {
    t <= s || (s != [] && Contains(s[1..], t))
  }

  ghost predicate Occurs(s: string, t: string, i: nat) {
    i + |t| <= |s| && s[i..i + |t|] == t
  }

  lemma OccursLater(s: string, t: string, i: nat)
    requires s != []
    ensures Occurs(s[1..], t, i) <==> Occurs(s, t, i + 1)
  {
    if i + 1 + |t| <= |s| { assert s[1..][i..i + |t|] == s[i + 1..i + 1 + |t|]; }
  }

  lemma OccursInFront(s: string, t: string)
    ensures Occurs(s, t, 0) <==> t <= s
    ensures s == [] ==> forall i: nat :: i > 0 ==> !Occurs(s, t, i)
  {}

  lemma {:induction false} ContainsIsOccurrence(s: string, t: string)
    ensures Contains(s, t) <==> exists i: nat :: Occurs(s, t, i)
  {
    hide Occurs;
    OccursInFront(s, t);
    if s != [] && !(t <= s) {
      ContainsIsOccurrence(s[1..], t);
      if Contains(s[1..], t) {
        var i: nat :| Occurs(s[1..], t, i);
        OccursLater(s, t, i);
      }
      if i: nat :| Occurs(s, t, i) {
        OccursLater(s, t, i - 1);
      }
    }
  }

  predicate Accepts(h: Host, host: string) {
    match h.kind
    case Invalid => false
    case Static => h.name == host
    case WildcardInStart => |h.name| < |host| && host[|host| - |h.name|..] == h.name
    case WildcardInEnd => h.name < host
    case WildcardInStartEnd => |h.name| < |host| && Contains(host, h.name)
  }

  /** The value of the Host header without the port. */
  function WithoutPort(value: string): string {
    if value == [] || value[0] == ':' then [] else [value[0]] + WithoutPort(value[1..])
  }

  /** The first segment of a path ends in front of the next slash, whatever comes behind it. */
  lemma {:induction false} FirstSegment(s: string, t: string)
    requires NUL !in s && '/' !in s
    ensures Segment(s) == s && Segment(s + "/" + t) == s
  {
    if s == [] {
      assert s + "/" + t == "/" + t;
    } else {
      assert s[0] in s && s == [s[0]] + s[1..];
      assert (s + "/" + t)[1..] == s[1..] + "/" + t;
      FirstSegment(s[1..], t);
    }
  }

  /** A path is looked up by its first segment alone. */
  lemma KeyOfPath(s: string, t: string)
    requires NUL !in s && '/' !in s
    ensures Key("/" + s + "/" + t) == Key("/" + s) == Djb2(s)
  {
    assert Tail("/" + s + "/" + t) == s + "/" + t && Tail("/" + s) == s;
    FirstSegment(s, t);
  }

  /** A byte above 127 counts as negative. */
  lemma SignedBytes()
    ensures Djb2([128 as char]) == 5381 * 33 - 128 && Djb2("a") == 5381 * 33 + 97
  {
    assert [128 as char][..0] == [] && "a"[..0] == [];
  }

  /** The header names this host: it is the host itself, or the host, a colon and a port. */
  ghost predicate Names(header: Option<string>, host: string) {
    header.Some? && ':' !in host && (header.value == host || host + ":" <= header.value)
  }

  lemma FirstByte(value: string, host: string)
    requires Names(Some(value), host)
    ensures host != [] ==> value != [] && value[0] == host[0] && host[0] != ':'
  {
    if host != [] {
      assert (host + ":")[0] == host[0] && host[0] in host;
    }
  }

  lemma {:induction false} HostOfHeader(value: string)
    ensures Names(Some(value), WithoutPort(value))
    ensures forall host :: Names(Some(value), host) ==> host == WithoutPort(value)
  {
    if value != [] && value[0] != ':' {
      var w := WithoutPort(value[1..]);
      HostOfHeader(value[1..]);
      assert WithoutPort(value) == [value[0]] + w;
      if value[1..] != w {
        assert [value[0]] + w + ":" == [value[0]] + (w + ":");
        assert value == [value[0]] + value[1..];
      }
      forall host | Names(Some(value), host) ensures host == WithoutPort(value) {
        assert (host + ":")[0] == if host == [] then ':' else host[0];
        assert host == [host[0]] + host[1..] && host[0] == value[0];
        assert host != value ==> (host + ":")[1..] == host[1..] + ":";
        assert Names(Some(value[1..]), host[1..]);
      }
    } else {
      forall host | Names(Some(value), host) ensures host == [] {
        FirstByte(value, host);
      }
    }
  }

  /** What a pattern asks of a host: that its name is the whole host, its end, its beginning, or occurs in it. */
  ghost predicate Fits(h: Host, host: string) {
    match h.kind
    case Invalid => false
    case Static => h.name == host
    case WildcardInStart => exists front :: front != [] && host == front + h.name
    case WildcardInEnd => exists rest :: rest != [] && host == h.name + rest
    case WildcardInStartEnd => h.name != host && exists i: nat :: Occurs(host, h.name, i)
  }

  lemma AcceptsExactly(h: Host, host: string)
    ensures Accepts(h, host) <==> Fits(h, host)
  {
    match h.kind {
      case WildcardInStart =>
        var n := |host| - |h.name|;
        if n > 0 { assert host == host[..n] + host[n..]; }
      case WildcardInEnd =>
        if h.name < host { assert host == h.name + host[|h.name|..]; }
      case WildcardInStartEnd =>
        ContainsIsOccurrence(host, h.name);
      case _ =>
    }
  }

  /** A host name without wildcard is the most specific pattern, then come an open start, an open end, and both. */
  predicate MoreSpecific(s: HostType, t: HostType) {
    match s
    case Invalid => t != Invalid
    case Static => t == WildcardInStart || t == WildcardInEnd || t == WildcardInStartEnd
    case WildcardInStart => t == WildcardInEnd || t == WildcardInStartEnd
    case WildcardInEnd => t == WildcardInStartEnd
    case WildcardInStartEnd => false
  }

  lemma RankIsSpecific(s: HostType, t: HostType)
    ensures MoreSpecific(s, t) <==> Rank(s) < Rank(t)
  {}

  // ----- the lists -----

  /** The configuration of an application: base URI (with its leading slash) and host patterns. */
  datatype App = App(baseuri: Option<string>, hosts: seq<Host>)

  datatype BaseUri = BaseUri(hash: nat, app: nat)
  datatype Entry = Entry(host: Host, app: nat)

  ghost predicate Sorted(hosts: seq<Entry>) {
    forall i, j :: 0 <= i < j < |hosts| ==> Rank(hosts[i].host.kind) <= Rank(hosts[j].host.kind)
  }

  function Tail(s: string): string {
    if s == [] then [] else s[1..]
  }

  /** What the base URI or the path is looked up by. */
  function Key(path: string): nat {
    Djb2(Segment(Tail(path)))
  }

  lemma SameSegmentSameKey(path: string, baseuri: string)
    requires Segment(Tail(path)) == Segment(Tail(baseuri))
    ensures Key(path) == Key(baseuri)
  {}

  /** One round of djb2, given how often the sum exceeds the word. */
  lemma Djb2Next(s: string, c: char, hash: nat, carry: nat, next: nat) returns (t: string)
    requires Djb2(s) == hash && hash * 33 + Signed(c) == carry * WORD + next && next < WORD
    ensures t == s + [c] && Djb2(t) == next
  {
    t := s + [c];
    assert t[..|s|] == s;
  }

  /** Two different segments with one hash. */
  lemma CollidingSegments()
    ensures Segment(Tail("/Ez")) == "Ez" && Segment(Tail("/FY")) == "FY"
    ensures Key("/Ez") == Key("/FY") != PREFIX
  {
    SegmentIs("Ez", 2);
    SegmentIs("FY", 2);
    Djb2Start();
    hide Segment, Djb2;
    var s: string;
    s := "";
    s := Djb2Next(s, 'E', 5381, 0, 177642);
    s := Djb2Next(s, 'z', 177642, 0, 5862308);
    assert s == "Ez";
    s := "";
    s := Djb2Next(s, 'F', 5381, 0, 177643);
    s := Djb2Next(s, 'Y', 177643, 0, 5862308);
    assert s == "FY";
  }

  lemma Djb2Start()
    ensures Djb2("") == PREFIX
  {}

  lemma ReservedStart()
    ensures Djb2("002MO") == 210646255987
  {
    Djb2Start();
    hide Segment, Djb2;
    var s := "";
    s := Djb2Next(s, '0', 5381, 0, 177621);
    s := Djb2Next(s, '0', 177621, 0, 5861541);
    s := Djb2Next(s, '2', 5861541, 0, 193430903);
    s := Djb2Next(s, 'M', 193430903, 0, 6383219876);
    s := Djb2Next(s, 'O', 6383219876, 0, 210646255987);
    assert s == "002MO";
  }

  lemma ReservedMiddle()
    ensures Djb2("002MOOEEG") == 249809818549275539
  {
    ReservedStart();
    hide Segment, Djb2;
    var s := "002MO";
    s := Djb2Next(s, 'O', 210646255987, 0, 6951326447650);
    s := Djb2Next(s, 'E', 6951326447650, 0, 229393772772519);
    s := Djb2Next(s, 'E', 229393772772519, 0, 7569994501493196);
    s := Djb2Next(s, 'G', 7569994501493196, 0, 249809818549275539);
    assert s == "002MOOEEG";
  }

  lemma ReservedEnd()
    ensures Djb2("002MOOEEGC9=9") == PREFIX
  {
    ReservedMiddle();
    hide Segment, Djb2;
    var s := "002MOOEEG";
    s := Djb2Next(s, 'C', 249809818549275539, 0, 8243724012126092854);
    s := Djb2Next(s, '9', 8243724012126092854, 14, 13788475368227341615);
    s := Djb2Next(s, '=', 13788475368227341615, 24, 12297829382473034572);
    s := Djb2Next(s, '9', 12297829382473034572, 22, 5381);
    assert s == "002MOOEEGC9=9";
  }

  /** A segment that is not empty and has the reserved hash. */
  lemma ReservedSegment()
    ensures Segment(Tail("/002MOOEEGC9=9")) == "002MOOEEGC9=9" && Key("/002MOOEEGC9=9") == PREFIX
  {
    hide Segment, Djb2;
    ReservedEnd();
    var s := "002MOOEEGC9=9";
    assert Tail("/002MOOEEGC9=9") == s;
    SegmentIs(s, |s|);
  }

  function OfBaseUri(b: BaseUri): nat {
    b.app
  }

  function OfEntry(e: Entry): nat {
    e.app
  }

  /** The entries of a list that belong to other applications, in their order. */
  function Others<T>(s: seq<T>, of: T -> nat, app: nat): seq<T> {
    if s == [] then [] else (if of(s[0]) == app then [] else [s[0]]) + Others(s[1..], of, app)
  }

  lemma {:induction false} OthersWithout<T>(s: seq<T>, i: nat, of: T -> nat, app: nat)
    requires i < |s| && of(s[i]) == app
    ensures Others(s[..i] + s[i + 1..], of, app) == Others(s, of, app)
  {
    if i == 0 {
      assert s[..0] + s[1..] == s[1..];
    } else {
      OthersWithout(s[1..], i - 1, of, app);
      assert (s[..i] + s[i + 1..])[1..] == s[1..][..i - 1] + s[1..][i..];
    }
  }

  lemma {:induction false} OthersOnly<T>(s: seq<T>, of: T -> nat, app: nat)
    requires forall i :: 0 <= i < |s| ==> of(s[i]) != app
    ensures Others(s, of, app) == s
  {
    if s != [] { OthersOnly(s[1..], of, app); }
  }

  lemma {:induction false} OthersMembers<T>(s: seq<T>, of: T -> nat, app: nat)
    ensures forall x :: x in Others(s, of, app) <==> x in s && of(x) != app
  {
    if s != [] {
      OthersMembers(s[1..], of, app);
      assert s == [s[0]] + s[1..];
    }
  }

  lemma {:induction false} OthersSorted(s: seq<Entry>, app: nat)
    requires Sorted(s)
    ensures Sorted(Others(s, OfEntry, app))
  {
    if s != [] {
      OthersSorted(s[1..], app);
      var t := Others(s[1..], OfEntry, app);
      OthersMembers(s[1..], OfEntry, app);
      forall i | 0 <= i < |t| ensures Rank(s[0].host.kind) <= Rank(t[i].host.kind) {
        assert t[i] in s[1..];
      }
    }
  }

  // ----- the default application -----

  /** The application answers for the root: its base URI has the reserved hash. */
  predicate IsRoot(conf: App) {
    conf.baseuri.Some? && Key(conf.baseuri.value) == PREFIX
  }

  /** What is asked of the resolver over time. A reload is a removal and an addition. */
  datatype Change = Added(app: nat, conf: App) | Removed(app: nat)

  function ListedAfter(cs: seq<Change>): map<nat, App> {
    if cs == [] then map[]
    else
      var was := ListedAfter(cs[..|cs| - 1]);
      match cs[|cs| - 1]
      case Added(app, conf) => was[app := conf]
      case Removed(app) => was - {app}
  }

  /** An application is added while it is not listed. */
  predicate Orderly(cs: seq<Change>) {
    cs == [] || (
      var before := cs[..|cs| - 1];
      Orderly(before) && (cs[|cs| - 1].Added? ==> cs[|cs| - 1].app !in ListedAfter(before)))
  }

  /** server->default_app after the changes. */
  function DefaultAfter(cs: seq<Change>): Option<nat> {
    if cs == [] then None
    else
      var was := DefaultAfter(cs[..|cs| - 1]);
      match cs[|cs| - 1]
      case Added(app, conf) => if IsRoot(conf) then Some(app) else was
      case Removed(app) => if was == Some(app) then None else was
  }

  predicate AddsRoot(c: Change) {
    c.Added? && IsRoot(c.conf)
  }

  /** Change `i` is the last one that adds a root application. */
  ghost predicate LastRoot(cs: seq<Change>, i: int) {
    0 <= i < |cs| && AddsRoot(cs[i]) && forall j :: i < j < |cs| ==> !AddsRoot(cs[j])
  }

  /** The application that change `i` adds has not been removed since. */
  ghost predicate Remains(cs: seq<Change>, i: int)
    requires 0 <= i < |cs|
  {
    forall j :: i < j < |cs| ==> cs[j] != Removed(cs[i].app)
  }

  /** The default application is the root application added last, if it is still there; else there is none. */
  lemma {:induction false} DefaultExactly(cs: seq<Change>)
    ensures forall i :: LastRoot(cs, i) ==> DefaultAfter(cs) == if Remains(cs, i) then Some(cs[i].app) else None
    ensures (forall i :: 0 <= i < |cs| ==> !AddsRoot(cs[i])) ==> DefaultAfter(cs) == None
  {
    hide IsRoot;
    if cs != [] {
      var t, n := cs[..|cs| - 1], |cs| - 1;
      DefaultExactly(t);
      forall i | LastRoot(cs, i) ensures DefaultAfter(cs) == if Remains(cs, i) then Some(cs[i].app) else None {
        if i < n { LastRootBefore(cs, i); }
      }
      assert (forall i :: 0 <= i < |cs| ==> !AddsRoot(cs[i])) ==> forall i :: 0 <= i < n ==> !AddsRoot(t[i]);
    }
  }

  lemma LastRootBefore(cs: seq<Change>, i: nat)
    requires LastRoot(cs, i) && i < |cs| - 1
    ensures var t := cs[..|cs| - 1];
      && LastRoot(t, i) && t[i] == cs[i] && !AddsRoot(cs[|cs| - 1])
      && (Remains(cs, i) <==> Remains(t, i) && cs[|cs| - 1] != Removed(cs[i].app))
  {
    var t := cs[..|cs| - 1];
    assert forall j :: i < j < |t| ==> t[j] == cs[j];
  }

  /** A root application that is listed is the default one if and only if no other one was added after it. */
  lemma ListedRootIsDefault(cs: seq<Change>, app: nat)
    requires Orderly(cs) && app in ListedAfter(cs) && IsRoot(ListedAfter(cs)[app])
    ensures DefaultAfter(cs) == Some(app) <==> exists i :: LastRoot(cs, i) && cs[i].app == app
  {
    DefaultExactly(cs);
    hide IsRoot, ListedAfter, DefaultAfter, Orderly;
    var k := WasAdded(cs, app);
    var i := TheLastRoot(cs, k);
    assert forall j :: LastRoot(cs, j) ==> j == i;
    if cs[i].app == app {
      assert i == k;
    }
  }

  /** The change that lists a listed application. */
  lemma {:induction false} WasAdded(cs: seq<Change>, app: nat) returns (k: nat)
    requires Orderly(cs) && app in ListedAfter(cs)
    ensures k < |cs| && cs[k] == Added(app, ListedAfter(cs)[app]) && Remains(cs, k)
    ensures forall j :: k < j < |cs| && cs[j].Added? ==> cs[j].app != app
  {
    var n := |cs| - 1;
    if cs[n].Added? && cs[n].app == app {
      k := n;
    } else {
      k := WasAdded(cs[..n], app);
    }
  }

  lemma TheLastRoot(cs: seq<Change>, k: nat) returns (i: nat)
    requires k < |cs| && AddsRoot(cs[k])
    ensures LastRoot(cs, i) && i >= k
    decreases |cs| - k
  {
    if j :| k < j < |cs| && AddsRoot(cs[j]) {
      i := TheLastRoot(cs, j);
    } else {
      i := k;
    }
  }

  /** A removal leaves the root without an answer although a root application is listed. */
  ghost predicate Unanswered(cs: seq<Change>) {
    DefaultAfter(cs) == None && exists app :: app in ListedAfter(cs) && IsRoot(ListedAfter(cs)[app])
  }

  /** That happens: the second of two root applications is removed, and the first does not come back. */
  lemma RootUnanswered(a: nat, b: nat)
    requires a != b
    ensures var root := App(Some("/"), []); var cs := [Added(a, root), Added(b, root), Removed(b)];
      Orderly(cs) && ListedAfter(cs) == map[a := root] && Unanswered(cs)
  {
    var root := App(Some("/"), []);
    var cs := [Added(a, root), Added(b, root), Removed(b)];
    assert IsRoot(root) by { assert Segment(Tail("/")) == "" && Djb2("") == PREFIX; }
    hide IsRoot;
    var c1, c2 := [Added(a, root)], [Added(a, root), Added(b, root)];
    assert c1[..0] == [] && c2[..1] == c1 && cs[..2] == c2;
    assert Orderly(c1) && ListedAfter(c1) == map[a := root];
    assert Orderly(c2) && ListedAfter(c2) == map[a := root, b := root] && DefaultAfter(c2) == Some(b);
    assert ListedAfter(cs) == map[a := root, b := root] - {b} == map[a := root];
    assert a in ListedAfter(cs) && IsRoot(ListedAfter(cs)[a]);
  }

  /**
   * With a root application listed, requests that fall through have no answer if and only if the root
   * application that was added last has been removed since.
   */
  lemma UnansweredExactly(cs: seq<Change>)
    requires Orderly(cs)
    requires exists app :: app in ListedAfter(cs) && IsRoot(ListedAfter(cs)[app])
    ensures Unanswered(cs) <==> exists i :: LastRoot(cs, i) && !Remains(cs, i)
  {
    DefaultExactly(cs);
    hide Orderly, ListedAfter, DefaultAfter;
    var app :| app in ListedAfter(cs) && IsRoot(ListedAfter(cs)[app]);
    var k := WasAdded(cs, app);
    var i := TheLastRoot(cs, k);
    assert forall j :: LastRoot(cs, j) ==> j == i;
  }

  class Table {
    var baseuris: seq<BaseUri>
    var hosts: seq<Entry>
    var defaultApp: Option<nat>
    ghost var listed: map<nat, App>   // the applications added and not removed since

    /** The three places hold exactly what the listed applications ask for. */
    ghost predicate Valid()
      reads this
    {
      && Sorted(hosts)
      && (forall b :: b in baseuris <==>
            b.app in listed && listed[b.app].baseuri.Some? && b.hash == Key(listed[b.app].baseuri.value) != PREFIX)
      && (forall e :: e in hosts <==> e.app in listed && e.host in listed[e.app].hosts)
      && (defaultApp.Some? ==>
            defaultApp.value in listed && IsRoot(listed[defaultApp.value]))
    }

    constructor ()
      ensures Valid() && listed == map[] && defaultApp == None
    {
      baseuris, hosts, defaultApp, listed := [], [], None, map[];
    }

    /** One host of wr_req_resolver_add: in front of the first entry that is not more specific. */
    method AddHost(host: Host, app: nat) returns (ghost at: nat)
      requires Sorted(hosts)
      modifies this`hosts
      ensures Sorted(hosts) && at <= |old(hosts)|
      ensures hosts == old(hosts)[..at] + [Entry(host, app)] + old(hosts)[at..]
      ensures forall j :: 0 <= j < at ==> Rank(old(hosts)[j].host.kind) < Rank(host.kind)
      ensures forall j :: at <= j < |old(hosts)| ==> Rank(host.kind) <= Rank(old(hosts)[j].host.kind)
    {
      var i := 0;
      while i < |hosts| && Rank(host.kind) > Rank(hosts[i].host.kind)
        invariant 0 <= i <= |hosts|
        invariant forall j :: 0 <= j < i ==> Rank(hosts[j].host.kind) < Rank(host.kind)
      {
        i := i + 1;
      }
      at := i;
      hosts := hosts[..i] + [Entry(host, app)] + hosts[i..];
    }

    /** wr_req_resolver_add */
    method Add(app: nat, conf: App)
      requires Valid() && app !in listed
      modifies this
      ensures Valid() && listed == old(listed)[app := conf]
      ensures baseuris == if conf.baseuri.Some? && !IsRoot(conf)
                          then [BaseUri(Key(conf.baseuri.value), app)] + old(baseuris) else old(baseuris)
      ensures defaultApp == if IsRoot(conf) then Some(app) else old(defaultApp)
    {
      if conf.baseuri.Some? {
        var hash := UriHash(Tail(conf.baseuri.value));
        if hash == PREFIX {
          defaultApp := Some(app);
        } else {
          baseuris := [BaseUri(hash, app)] + baseuris;
        }
      }
      listed := listed[app := conf];
      var i := 0;
      while i < |conf.hosts|
        invariant 0 <= i <= |conf.hosts| && Sorted(hosts)
        invariant forall e :: e in hosts <==> e in old(hosts) || (e.app == app && e.host in conf.hosts[..i])
        modifies this`hosts
      {
        ghost var was := hosts;
        ghost var at := AddHost(conf.hosts[i], app);
        InsertedMembers(was, at, Entry(conf.hosts[i], app));
        i := i + 1;
      }
      assert conf.hosts[..i] == conf.hosts;
    }

    /** wr_req_resolver_remove */
    method Remove(app: nat)
      requires Valid()
      modifies this
      ensures Valid() && listed == old(listed) - {app}
      ensures baseuris == Others(old(baseuris), OfBaseUri, app) && hosts == Others(old(hosts), OfEntry, app)
      ensures defaultApp == if old(defaultApp) == Some(app) then None else old(defaultApp)
    {
      hide Key, Others, Sorted;
      OthersMembers(baseuris, OfBaseUri, app);
      OthersMembers(hosts, OfEntry, app);
      OthersSorted(hosts, app);
      if defaultApp == Some(app) {
        defaultApp := None;
      }
      RemoveBaseUris(app);
      RemoveHosts(app);
      listed := listed - {app};
    }

    method RemoveBaseUris(app: nat)
      modifies this`baseuris
      ensures baseuris == Others(old(baseuris), OfBaseUri, app)
    {
      var i := 0;
      while i < |baseuris|
        invariant 0 <= i <= |baseuris|
        invariant forall j :: 0 <= j < i ==> OfBaseUri(baseuris[j]) != app
        invariant Others(baseuris, OfBaseUri, app) == Others(old(baseuris), OfBaseUri, app)
        decreases |baseuris| - i
      {
        if baseuris[i].app == app {
          OthersWithout(baseuris, i, OfBaseUri, app);
          baseuris := baseuris[..i] + baseuris[i + 1..];
        } else {
          i := i + 1;
        }
      }
      OthersOnly(baseuris, OfBaseUri, app);
    }

    method RemoveHosts(app: nat)
      modifies this`hosts
      ensures hosts == Others(old(hosts), OfEntry, app)
    {
      var i := 0;
      while i < |hosts|
        invariant 0 <= i <= |hosts|
        invariant forall j :: 0 <= j < i ==> OfEntry(hosts[j]) != app
        invariant Others(hosts, OfEntry, app) == Others(old(hosts), OfEntry, app)
        decreases |hosts| - i
      {
        if hosts[i].app == app {
          OthersWithout(hosts, i, OfEntry, app);
          hosts := hosts[..i] + hosts[i + 1..];
        } else {
          i := i + 1;
        }
      }
      OthersOnly(hosts, OfEntry, app);
    }

    /** Some listed application asks for this path by its base URI. */
    ghost predicate ByBaseUri(a: nat, path: Option<string>)
      reads this
    {
      a in listed && listed[a].baseuri.Some? && path.Some?
      && Key(listed[a].baseuri.value) == Key(path.value) != PREFIX
    }

    /** Some listed application has a pattern that fits the host which the header names. */
    ghost predicate ByHost(a: nat, header: Option<string>, h: Host)
      reads this
    {
      a in listed && h in listed[a].hosts && exists host :: Names(header, host) && Fits(h, host)
    }

    ghost predicate Matched(a: nat, header: Option<string>, h: Host)
      reads this
    {
      a in listed && h in listed[a].hosts && header.Some? && Accepts(h, WithoutPort(header.value))
    }

    /** Some listed application's base URI has the path's own first segment. */
    ghost predicate BySegment(a: nat, path: Option<string>)
      reads this
    {
      a in listed && listed[a].baseuri.Some? && path.Some?
      && Segment(Tail(listed[a].baseuri.value)) == Segment(Tail(path.value))
    }

    /** Some listed base URI has another first segment with the same hash. */
    ghost predicate Collides(path: string)
      reads this
    {
      exists a :: a in listed && listed[a].baseuri.Some?
        && Segment(Tail(listed[a].baseuri.value)) != Segment(Tail(path))
        && Key(listed[a].baseuri.value) == Key(path)
    }

    /**
     * Looking up by hash is looking up by first segment if and only if no listed base URI of another
     * segment collides with the path or, for a path whose segment hashes to the reserved value, no base URI
     * is listed under that segment: such a base URI is not found, its application is the default one.
     */
    lemma SegmentDecides(path: string)
      ensures (forall a :: ByBaseUri(a, Some(path)) <==> BySegment(a, Some(path)))
        <==> if Key(path) == PREFIX then forall a :: !BySegment(a, Some(path)) else !Collides(path)
    {
      forall a | BySegment(a, Some(path)) ensures Key(listed[a].baseuri.value) == Key(path) {
        SameSegmentSameKey(listed[a].baseuri.value, path);
      }
      if Key(path) != PREFIX && Collides(path) {
        var a :| a in listed && listed[a].baseuri.Some?
          && Segment(Tail(listed[a].baseuri.value)) != Segment(Tail(path)) && Key(listed[a].baseuri.value) == Key(path);
        assert ByBaseUri(a, Some(path)) && !BySegment(a, Some(path));
      }
    }

    /** An application listed at "/Ez" answers for "/FY" as well. */
    lemma CollisionAnswers(a: nat)
      requires a in listed && listed[a].baseuri == Some("/Ez")
      ensures Collides("/FY") && ByBaseUri(a, Some("/FY")) && !BySegment(a, Some("/FY"))
    {
      CollidingSegments();
    }

    /**
     * wr_req_resolve_http_req; `running` are the applications that have workers. Said of the listed
     * applications alone: a path goes by base URI if and only if its first segment has the hash of a
     * listed one, other than the reserved hash; so it does if it has that segment, and then the answer has
     * it too unless another one collides. Any other request goes by host pattern if one accepts, and then
     * none of a more specific kind accepts; otherwise it goes to the default application. In both lists
     * the first match wins. A removed application is never the answer.
     */
    method Resolve(path: Option<string>, header: Option<string>, running: set<nat>)
      returns (rc: int, app: Option<nat>, ghost pattern: Option<Host>)
      requires Valid()
      ensures rc == if app.Some? && app.value in running then 0 else -1
      ensures app.Some? ==> app.value in listed
      ensures (exists a :: ByBaseUri(a, path)) ==>
        app.Some? && ByBaseUri(app.value, path) && FirstBaseUri(app.value, Key(path.value))
      ensures (exists a :: BySegment(a, path)) && Key(path.value) != PREFIX ==>
        app.Some? && ByBaseUri(app.value, path) && (!Collides(path.value) ==> BySegment(app.value, path))
      ensures (forall a :: !ByBaseUri(a, path)) && (exists a, h :: ByHost(a, header, h)) ==>
        app.Some? && pattern.Some? && ByHost(app.value, header, pattern.value)
        && (exists host :: Names(header, host) && FirstHost(app.value, pattern.value, host))
        && forall a, h :: ByHost(a, header, h) ==> !MoreSpecific(h.kind, pattern.value.kind)
      ensures (forall a :: !ByBaseUri(a, path)) && (forall a, h :: !ByHost(a, header, h)) ==> app == defaultApp
    {
      hide Accepts, Fits, Names, Rank, MoreSpecific, FirstHost, ByBaseUri, BySegment, Collides, FirstBaseUri, WithoutPort;
      rc, app, pattern := Choose(path, header, running);
      BySegmentFound(path);
      MatchedExactly(header);
      forall s, t ensures MoreSpecific(s, t) <==> Rank(s) < Rank(t) { RankIsSpecific(s, t); }
    }

    /** The three lookups in turn. */
    method Choose(path: Option<string>, header: Option<string>, running: set<nat>)
      returns (rc: int, app: Option<nat>, ghost pattern: Option<Host>)
      requires Valid()
      ensures rc == if app.Some? && app.value in running then 0 else -1
      ensures app.Some? ==> app.value in listed
      ensures (exists a :: ByBaseUri(a, path)) ==>
        app.Some? && ByBaseUri(app.value, path) && FirstBaseUri(app.value, Key(path.value))
      ensures (forall a :: !ByBaseUri(a, path)) && (exists a, h :: Matched(a, header, h)) ==>
        app.Some? && pattern.Some? && Matched(app.value, header, pattern.value)
        && FirstHost(app.value, pattern.value, WithoutPort(header.value))
        && forall a, h :: Matched(a, header, h) ==> Rank(pattern.value.kind) <= Rank(h.kind)
      ensures (forall a :: !ByBaseUri(a, path)) && (forall a, h :: !Matched(a, header, h)) ==> app == defaultApp
    {
      hide Accepts, WithoutPort, Key, Rank, Sorted, FirstBaseUri, FirstHost;
      app, pattern := None, None;
      assert forall a, h :: Matched(a, header, h) ==> Entry(h, a) in hosts;
      if path.Some? {
        app := FindBaseUri(path.value);
      }
      if app == None && |hosts| > 0 && header.Some? {
        app, pattern := FindHost(WithoutPort(header.value));
      }
      if app == None {
        app := defaultApp;
      }
      rc := if app.Some? && app.value in running then 0 else -1;
    }

    lemma MatchedExactly(header: Option<string>)
      ensures forall a, h :: Matched(a, header, h) <==> ByHost(a, header, h)
      ensures header.Some? ==> Names(header, WithoutPort(header.value))
    {
      if header.Some? {
        HostOfHeader(header.value);
        forall h: Host ensures Accepts(h, WithoutPort(header.value)) <==> Fits(h, WithoutPort(header.value)) {
          AcceptsExactly(h, WithoutPort(header.value));
        }
      }
    }

    lemma BySegmentFound(path: Option<string>)
      ensures (exists a :: BySegment(a, path)) && Key(path.value) != PREFIX ==> exists a :: ByBaseUri(a, path)
      ensures forall a :: ByBaseUri(a, path) && !Collides(path.value) ==> BySegment(a, path)
    {
      if a :| BySegment(a, path) {
        SameSegmentSameKey(listed[a].baseuri.value, path.value);
        assert Key(path.value) != PREFIX ==> ByBaseUri(a, path);
      }
    }

    /** `a` is the application of the first base URI with this hash. */
    ghost predicate FirstBaseUri(a: nat, hash: nat)
      reads this
    {
      exists i :: 0 <= i < |baseuris|
        && baseuris[i] == BaseUri(hash, a) && forall j :: 0 <= j < i ==> baseuris[j].hash != hash
    }

    /** `a` is the application of the first pattern that fits the host. */
    ghost predicate FirstHost(a: nat, h: Host, host: string)
      reads this
    {
      exists i :: 0 <= i < |hosts|
        && hosts[i] == Entry(h, a) && forall j :: 0 <= j < i ==> !Fits(hosts[j].host, host)
    }

    method FindBaseUri(path: string) returns (app: Option<nat>)
      requires Valid()
      ensures app.Some? ==> ByBaseUri(app.value, Some(path)) && FirstBaseUri(app.value, Key(path))
      ensures app.None? ==> forall a :: !ByBaseUri(a, Some(path))
    {
      var hash := UriHashLen(Tail(path), |path| - 1);
      assert hash == Key(path) by { assert Tail(path)[..|Tail(path)|] == Tail(path); }
      for i := 0 to |baseuris|
        invariant forall j :: 0 <= j < i ==> baseuris[j].hash != hash
      {
        if baseuris[i].hash == hash {
          assert baseuris[i] in baseuris;
          return Some(baseuris[i].app);
        }
      }
      assert forall a :: ByBaseUri(a, Some(path)) ==> BaseUri(hash, a) in baseuris;
      return None;
    }

    method FindHost(host: string) returns (app: Option<nat>, ghost pattern: Option<Host>)
      requires Valid()
      ensures app.Some? ==>
        pattern.Some? && app.value in listed && pattern.value in listed[app.value].hosts && Accepts(pattern.value, host)
        && FirstHost(app.value, pattern.value, host)
        && forall a, h :: a in listed && h in listed[a].hosts && Accepts(h, host)
             ==> Rank(pattern.value.kind) <= Rank(h.kind)
      ensures app.None? ==> forall a, h :: a in listed && h in listed[a].hosts ==> !Accepts(h, host)
    {
      pattern := None;
      for i := 0 to |hosts|
        invariant forall j :: 0 <= j < i ==> !Accepts(hosts[j].host, host)
      {
        if Accepts(hosts[i].host, host) {
          pattern := Some(hosts[i].host);
          assert hosts[i] in hosts;
          forall j | 0 <= j < i ensures !Fits(hosts[j].host, host) { AcceptsExactly(hosts[j].host, host); }
          forall a, h | a in listed && h in listed[a].hosts && Accepts(h, host)
            ensures Rank(pattern.value.kind) <= Rank(h.kind)
          {
            assert Entry(h, a) in hosts;
          }
          return Some(hosts[i].app), pattern;
        }
      }
      forall a, h | a in listed && h in listed[a].hosts ensures !Accepts(h, host) {
        assert Entry(h, a) in hosts;
      }
      return None, pattern;
    }
  }

  /** The resolver goes through the changes, starting empty. */
  method Maintain(cs: seq<Change>) returns (table: Table)
    requires Orderly(cs)
    ensures fresh(table) && table.Valid()
    ensures table.listed == ListedAfter(cs) && table.defaultApp == DefaultAfter(cs)
  {
    hide Table.Valid, IsRoot;
    table := new Table();
    for i := 0 to |cs|
      invariant fresh(table) && table.Valid()
      invariant table.listed == ListedAfter(cs[..i]) && table.defaultApp == DefaultAfter(cs[..i])
    {
      assert cs[..i + 1][..i] == cs[..i];
      OrderlyUpTo(cs, i + 1);
      match cs[i] {
        case Added(app, conf) => table.Add(app, conf);
        case Removed(app) => table.Remove(app);
      }
    }
    assert cs[..|cs|] == cs;
  }

  lemma {:induction false} OrderlyUpTo(cs: seq<Change>, n: nat)
    requires Orderly(cs) && n <= |cs|
    ensures Orderly(cs[..n])
  {
    if n < |cs| {
      OrderlyUpTo(cs[..|cs| - 1], n);
      assert cs[..|cs| - 1][..n] == cs[..n];
    } else {
      assert cs[..n] == cs;
    }
  }

  lemma InsertedMembers(s: seq<Entry>, at: nat, x: Entry)
    requires at <= |s|
    ensures forall e :: e in s[..at] + [x] + s[at..] <==> e in s || e == x
  {
    assert s == s[..at] + s[at..];
  }
}
