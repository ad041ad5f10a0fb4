/**
 * The pass of src/head/wr_configurator.c over the list of configured applications that is to enforce
 * distinct base URIs, in place on the linked list. It removes by name, and names may repeat.
 */
module Configurator {
  import opened Seqs

  /**
   * An application's name and base URI; one that is found by host name only has none. The id tells
   * entries apart that agree in both.
   */
  datatype Conf = Conf(id: nat, name: string, baseuri: Option<string>)

  // ----- what shall remain -----

  /** Keep an application unless its base URI is reserved or an earlier application has the same one. */
  ghost predicate Keeps(s: seq<Conf>, i: nat, reserved: string)
    requires i < |s|
  {
    s[i].baseuri.None?
    || (s[i].baseuri.value != reserved && forall j :: 0 <= j < i ==> s[j].baseuri != s[i].baseuri)
  }

  /** The kept applications, in the order of the list. */
  ghost function Survivors(s: seq<Conf>, reserved: string): seq<Conf> {
    if s == [] then []
    else Survivors(s[..|s| - 1], reserved) + if Keeps(s, |s| - 1, reserved) then [s[|s| - 1]] else []
  }

  // ----- removing exactly the application that is meant -----

  function RemoveBase(s: seq<Conf>, b: string): seq<Conf> {
    if s == [] then []
    else if s[0].baseuri == Some(b) then RemoveBase(s[1..], b)
    else [s[0]] + RemoveBase(s[1..], b)
  }

  lemma {:induction false} RemoveBaseShrinks(s: seq<Conf>, b: string)
    ensures |RemoveBase(s, b)| <= |s|
  {
    if s != [] { RemoveBaseShrinks(s[1..], b); }
  }

  /** Each application removes its duplicates behind it; a reserved one goes without doing so. */
  function Dedup(s: seq<Conf>, reserved: string): seq<Conf>
    decreases |s|
  {
    if s == [] then []
    else if s[0].baseuri.None? then [s[0]] + Dedup(s[1..], reserved)
    else if s[0].baseuri.value == reserved then Dedup(s[1..], reserved)
    else
      RemoveBaseShrinks(s[1..], s[0].baseuri.value);
      [s[0]] + Dedup(RemoveBase(s[1..], s[0].baseuri.value), reserved)
  }

  /** One pass with the set of base URIs seen so far. */
  function OnePass(s: seq<Conf>, reserved: string, seen: set<string>): seq<Conf> {
    if s == [] then []
    else if s[0].baseuri.None? then [s[0]] + OnePass(s[1..], reserved, seen)
    else if s[0].baseuri.value == reserved || s[0].baseuri.value in seen then OnePass(s[1..], reserved, seen)
    else [s[0]] + OnePass(s[1..], reserved, seen + {s[0].baseuri.value})
  }

  /** Removing a base URI from the rest, or remembering that it has been seen, is the same. */
  lemma {:induction false} PassAfterRemoval(s: seq<Conf>, reserved: string, b: string, seen: set<string>)
    requires b != reserved
    ensures OnePass(RemoveBase(s, b), reserved, seen) == OnePass(s, reserved, seen + {b})
  {
    if s != [] {
      var t := s[0].baseuri;
      if t == Some(b) || t.None? || t.value == reserved || t.value in seen {
        PassAfterRemoval(s[1..], reserved, b, seen);
      } else {
        PassAfterRemoval(s[1..], reserved, b, seen + {t.value});
        assert seen + {t.value} + {b} == seen + {b} + {t.value};
      }
    }
  }

  lemma {:induction false} DedupIsOnePass(s: seq<Conf>, reserved: string)
    ensures Dedup(s, reserved) == OnePass(s, reserved, {})
    decreases |s|
  {
    if s != [] {
      if s[0].baseuri.None? || s[0].baseuri.value == reserved {
        DedupIsOnePass(s[1..], reserved);
      } else {
        var b := s[0].baseuri.value;
        RemoveBaseShrinks(s[1..], b);
        DedupIsOnePass(RemoveBase(s[1..], b), reserved);
        PassAfterRemoval(s[1..], reserved, b, {});
        assert {} + {b} == {b};
      }
    }
  }

  lemma {:induction false} OnePassLast(s: seq<Conf>, x: Conf, reserved: string, seen: set<string>)
    ensures OnePass(s + [x], reserved, seen) == OnePass(s, reserved, seen)
      + if x.baseuri.None? || (x.baseuri.value != reserved && x.baseuri.value !in seen
                               && forall j :: 0 <= j < |s| ==> s[j].baseuri != x.baseuri) then [x] else []
  {
    if s == [] {
      assert [x][1..] == [];
    } else {
      assert (s + [x])[0] == s[0] && (s + [x])[1..] == s[1..] + [x];
      var skip := s[0].baseuri.None? || s[0].baseuri.value == reserved || s[0].baseuri.value in seen;
      OnePassLast(s[1..], x, reserved, if skip then seen else seen + {s[0].baseuri.value});
      assert forall j :: 0 < j < |s| ==> s[j] == s[1..][j - 1];
    }
  }

  /** The pass leaves the original list without reserved base URIs and without later duplicates, in order. */
  lemma {:induction false} DedupSurvives(s: seq<Conf>, reserved: string)
    ensures Dedup(s, reserved) == Survivors(s, reserved)
    decreases |s|
  {
    DedupIsOnePass(s, reserved);
    if s != [] {
      var t := s[..|s| - 1];
      DedupSurvives(t, reserved);
      DedupIsOnePass(t, reserved);
      assert t + [s[|s| - 1]] == s;
      OnePassLast(t, s[|s| - 1], reserved, {});
    }
  }

  // ----- removing by name -----

  /** `s` without the entry at `i`. */
  function Drop(s: seq<Conf>, i: nat): (r: seq<Conf>)
    requires i < |s|
    ensures |r| == |s| - 1
  {
    s[..i] + s[i + 1..]
  }

  /** The position of the first entry of that name, or |s|. */
  function FirstNamed(s: seq<Conf>, name: string): (i: nat)
    ensures i <= |s|
  {
    if s == [] || s[0].name == name then 0 else FirstNamed(s[1..], name) + 1
  }

  lemma {:induction false} FirstNamedAt(s: seq<Conf>, name: string)
    ensures var i := FirstNamed(s, name);
      (i < |s| ==> s[i].name == name) && forall j :: 0 <= j < i ==> s[j].name != name
  {
    if s != [] && s[0].name != name {
      FirstNamedAt(s[1..], name);
      assert forall j :: 0 < j < |s| ==> s[j] == s[1..][j - 1];
    }
  }

  /**
   * The inner scan for the application at `k`, with its cursor at `j`: what is left, and where the application
   * is now. A removal by name may hit an entry in front of it, or itself: then (None) the scan finds the
   * null in the `next` that was cleared before the entry was freed, and the whole pass ends.
   */
  function Scan(s: seq<Conf>, k: nat, j: nat, b: string): (r: (seq<Conf>, Option<nat>))
    requires k < j <= |s|
    ensures |r.0| <= |s| && (r.1.Some? ==> r.1.value < |r.0| && |r.0| - r.1.value <= |s| - k)
    decreases |s|, |s| - j
  {
    if j == |s| then (s, Some(k))
    else if s[j].baseuri != Some(b) then Scan(s, k, j + 1, b)
    else
      FirstIsAtMost(s, j);
      var i := FirstNamed(s, s[j].name);
      if i < k then Scan(Drop(s, i), k - 1, k, b)
      else if i == k then (Drop(s, i), None)
      else Scan(Drop(s, i), k, k + 1, b)
  }

  lemma FirstIsAtMost(s: seq<Conf>, j: nat)
    requires j < |s|
    ensures FirstNamed(s, s[j].name) <= j && s[FirstNamed(s, s[j].name)].name == s[j].name
  {
    FirstNamedAt(s, s[j].name);
  }

  /** wr_remove_app_with_dup_baseuri from the application at `k` on. */
  function Pass(s: seq<Conf>, k: nat, reserved: string): (r: seq<Conf>)
    requires k <= |s|
    ensures |r| <= |s|
    decreases |s| - k
  {
    if k == |s| then s
    else if s[k].baseuri.None? then Pass(s, k + 1, reserved)
    else if s[k].baseuri.value == reserved then
      FirstIsAtMost(s, k);
      Pass(Drop(s, FirstNamed(s, s[k].name)), k, reserved)
    else
      var (t, at) := Scan(s, k, k + 1, s[k].baseuri.value);
      if at.None? then t else Pass(t, at.value + 1, reserved)
  }

  /** No application that is to go shares its name with an earlier one that is to stay. */
  ghost predicate NamesAllow(s: seq<Conf>, reserved: string) {
    forall i, j :: 0 <= i < j < |s| && s[i].name == s[j].name && !Keeps(s, j, reserved) ==> !Keeps(s, i, reserved)
  }

  // ----- when names allow, the survivors remain -----

  lemma {:induction false} SurvivorsDrop(s: seq<Conf>, i: nat, reserved: string)
    requires i < |s| && !Keeps(s, i, reserved)
    ensures Survivors(Drop(s, i), reserved) == Survivors(s, reserved)
  {
    var n := |s| - 1;
    if i == n {
      assert Drop(s, i) == s[..n];
    } else {
      var t := Drop(s, i);
      assert t[..n - 1] == Drop(s[..n], i);
      assert !Keeps(s[..n], i, reserved);
      SurvivorsDrop(s[..n], i, reserved);
      KeepsDrop(s, i, n, reserved);
    }
  }

  /** Dropping an entry that is to go changes the fate of no other. */
  lemma KeepsDrop(s: seq<Conf>, i: nat, j: nat, reserved: string)
    requires i < |s| && j < |s| && i != j && !Keeps(s, i, reserved)
    ensures Keeps(Drop(s, i), if j < i then j else j - 1, reserved) <==> Keeps(s, j, reserved)
  {
    var t, m := Drop(s, i), if j < i then j else j - 1;
    assert forall x :: 0 <= x < |t| ==> t[x] == s[if x < i then x else x + 1];
    if !Keeps(s, j, reserved) && s[j].baseuri.value != reserved {
      var x :| 0 <= x < j && s[x].baseuri == s[j].baseuri;
      if x != i {
        assert t[if x < i then x else x - 1] == s[x];
      } else {
        var y :| 0 <= y < i && s[y].baseuri == s[i].baseuri;
        assert t[y] == s[y];
      }
    }
  }

  lemma NamesAllowDrop(s: seq<Conf>, i: nat, reserved: string)
    requires i < |s| && !Keeps(s, i, reserved) && NamesAllow(s, reserved)
    ensures NamesAllow(Drop(s, i), reserved)
  {
    hide Keeps;
    var t := Drop(s, i);
    forall x, y | 0 <= x < y < |t| && t[x].name == t[y].name && !Keeps(t, y, reserved) ensures !Keeps(t, x, reserved) {
      var x', y' := if x < i then x else x + 1, if y < i then y else y + 1;
      KeepsDrop(s, i, x', reserved);
      KeepsDrop(s, i, y', reserved);
      assert t[x] == s[x'] && t[y] == s[y'];
    }
  }

  /** The first `k` entries are to stay and have no duplicate behind them. */
  ghost predicate Settled(s: seq<Conf>, k: nat, reserved: string)
    requires k <= |s|
  {
    forall i :: 0 <= i < k ==>
      Keeps(s, i, reserved) && (s[i].baseuri.Some? ==> forall j :: i < j < |s| ==> s[j].baseuri != s[i].baseuri)
  }

  lemma SettledDrop(s: seq<Conf>, k: nat, i: nat, reserved: string)
    requires k <= i < |s| && Settled(s, k, reserved) && !Keeps(s, i, reserved)
    ensures Settled(Drop(s, i), k, reserved) && Drop(s, i)[..k] == s[..k]
  {
    var t := Drop(s, i);
    forall x | 0 <= x < k
      ensures Keeps(t, x, reserved) && (t[x].baseuri.Some? ==> forall j :: x < j < |t| ==> t[j].baseuri != t[x].baseuri)
    {
      KeepsDrop(s, i, x, reserved);
      assert forall j :: 0 <= j < |t| ==> t[j] == s[if j < i then j else j + 1];
    }
  }

  lemma {:induction false} ScanWhenAllowed(s: seq<Conf>, k: nat, j: nat, b: string, reserved: string)
    requires k < j <= |s| && Settled(s, k, reserved) && NamesAllow(s, reserved)
    requires s[k].baseuri == Some(b) && b != reserved && forall i :: k < i < j ==> s[i].baseuri != Some(b)
    ensures var (t, at) := Scan(s, k, j, b);
      && at == Some(k) && Settled(t, k + 1, reserved) && NamesAllow(t, reserved)
      && Survivors(t, reserved) == Survivors(s, reserved)
    decreases |s|, |s| - j
  {
    hide Survivors, NamesAllow;
    KeepsHere(s, k, reserved);
    if j < |s| {
      if s[j].baseuri != Some(b) {
        ScanWhenAllowed(s, k, j + 1, b, reserved);
      } else {
        var i := FirstNamed(s, s[j].name);
        FirstIsAtMost(s, j);
        GoesToo(s, i, j, reserved);
        assert i > k;
        SurvivorsDrop(s, i, reserved);
        NamesAllowDrop(s, i, reserved);
        SettledDrop(s, k, i, reserved);
        assert Drop(s, i)[k] == s[k];
        ScanWhenAllowed(Drop(s, i), k, k + 1, b, reserved);
      }
    }
  }

  /** The application at the cursor stays unless its base URI is reserved. */
  lemma KeepsHere(s: seq<Conf>, k: nat, reserved: string)
    requires k < |s| && Settled(s, k, reserved) && s[k].baseuri != Some(reserved)
    ensures Keeps(s, k, reserved)
  {}

  /** What removal by name hits instead of `j` is to go as well. */
  lemma GoesToo(s: seq<Conf>, i: nat, j: nat, reserved: string)
    requires i <= j < |s| && s[i].name == s[j].name && !Keeps(s, j, reserved) && NamesAllow(s, reserved)
    ensures !Keeps(s, i, reserved)
  {}

  lemma {:induction false} PassWhenAllowed(s: seq<Conf>, k: nat, reserved: string)
    requires k <= |s| && Settled(s, k, reserved) && NamesAllow(s, reserved)
    ensures Pass(s, k, reserved) == Survivors(s, reserved)
    decreases |s| - k
  {
    hide Survivors, NamesAllow;
    if k == |s| {
      AllSurvive(s, reserved);
    } else if s[k].baseuri.None? {
      PassWhenAllowed(s, k + 1, reserved);
    } else if s[k].baseuri.value == reserved {
      var i := FirstNamed(s, s[k].name);
      FirstIsAtMost(s, k);
      GoesToo(s, i, k, reserved);
      assert i == k;
      SurvivorsDrop(s, k, reserved);
      NamesAllowDrop(s, k, reserved);
      SettledDrop(s, k, k, reserved);
      PassWhenAllowed(Drop(s, k), k, reserved);
    } else {
      ScanWhenAllowed(s, k, k + 1, s[k].baseuri.value, reserved);
      PassWhenAllowed(Scan(s, k, k + 1, s[k].baseuri.value).0, k + 1, reserved);
    }
  }

  lemma {:induction false} AllSurvive(s: seq<Conf>, reserved: string)
    requires forall i :: 0 <= i < |s| ==> Keeps(s, i, reserved)
    ensures Survivors(s, reserved) == s
  {
    if s != [] {
      var t := s[..|s| - 1];
      forall i | 0 <= i < |t| ensures Keeps(t, i, reserved) { assert Keeps(s, i, reserved); }
      AllSurvive(t, reserved);
    }
  }

  // ----- when they do not, the survivors cannot remain -----

  lemma DropDistinct(s: seq<Conf>, i: nat)
    requires Distinct(s) && i < |s|
    ensures var t := Drop(s, i);
      Distinct(t) && s[i] !in t && (forall x :: x in t ==> x in s)
  {
    assert forall x :: 0 <= x < |s| - 1 ==> Drop(s, i)[x] == s[if x < i then x else x + 1];
  }

  /** Where two entries are after a removal by name, unless the first of them is what was removed. */
  lemma PairAfterDrop(s: seq<Conf>, j: nat, p: nat, q: nat) returns (i: nat, p': nat, q': nat)
    requires j < |s| && p < q < |s| && s[p].name == s[q].name
    ensures i == FirstNamed(s, s[j].name) < |s| && i != q
    ensures i != p ==> p' < q' < |s| - 1 && Drop(s, i)[p'] == s[p] && Drop(s, i)[q'] == s[q]
  {
    FirstNamedAt(s, s[j].name);
    i := FirstNamed(s, s[j].name);
    p', q' := if p <= i then p else p - 1, if q < i then q else q - 1;
  }

  /** Of two entries with one name the scan never removes only the later one. */
  lemma {:induction false} ScanPair(s: seq<Conf>, k: nat, j: nat, b: string, p: nat, q: nat) returns (p': nat, q': nat)
    requires Distinct(s) && k < j <= |s| && p < q < |s| && s[p].name == s[q].name
    ensures var t := Scan(s, k, j, b).0;
      && Distinct(t) && (forall x :: x in t ==> x in s)
      && (s[p] in t ==> p' < q' < |t| && t[p'] == s[p] && t[q'] == s[q])
    decreases |s|, |s| - j
  {
    hide Drop, Distinct, FirstNamed;
    p', q' := p, q;
    if j < |s| {
      if s[j].baseuri != Some(b) {
        p', q' := ScanPair(s, k, j + 1, b, p, q);
      } else {
        var i, x, y := PairAfterDrop(s, j, p, q);
        FirstIsAtMost(s, j);
        DropDistinct(s, i);
        var t := Drop(s, i);
        if i == k {
          p', q' := x, y;
        } else {
          var k' := if i < k then k - 1 else k;
          if i != p {
            p', q' := ScanPair(t, k', k' + 1, b, x, y);
          } else {
            ScanInside(t, k', k' + 1, b);
          }
        }
      }
    }
  }

  lemma {:induction false} ScanInside(s: seq<Conf>, k: nat, j: nat, b: string)
    requires Distinct(s) && k < j <= |s|
    ensures var t := Scan(s, k, j, b).0; Distinct(t) && forall x :: x in t ==> x in s
    decreases |s|, |s| - j
  {
    if j < |s| {
      if s[j].baseuri != Some(b) {
        ScanInside(s, k, j + 1, b);
      } else {
        FirstIsAtMost(s, j);
        var i := FirstNamed(s, s[j].name);
        DropDistinct(s, i);
        if i < k { ScanInside(Drop(s, i), k - 1, k, b); }
        if i > k { ScanInside(Drop(s, i), k, k + 1, b); }
      }
    }
  }

  lemma {:induction false} PassInside(s: seq<Conf>, k: nat, reserved: string)
    requires Distinct(s) && k <= |s|
    ensures forall x :: x in Pass(s, k, reserved) ==> x in s
    decreases |s| - k
  {
    if k < |s| {
      if s[k].baseuri.None? {
        PassInside(s, k + 1, reserved);
      } else if s[k].baseuri.value == reserved {
        FirstIsAtMost(s, k);
        DropDistinct(s, FirstNamed(s, s[k].name));
        PassInside(Drop(s, FirstNamed(s, s[k].name)), k, reserved);
      } else {
        ScanInside(s, k, k + 1, s[k].baseuri.value);
        var (t, at) := Scan(s, k, k + 1, s[k].baseuri.value);
        if at.Some? { PassInside(t, at.value + 1, reserved); }
      }
    }
  }

  /** Of two entries with one name the pass never removes only the later one. */
  lemma {:induction false} PassPair(s: seq<Conf>, k: nat, reserved: string, p: nat, q: nat)
    requires Distinct(s) && k <= |s| && p < q < |s| && s[p].name == s[q].name
    ensures s[p] in Pass(s, k, reserved) ==> s[q] in Pass(s, k, reserved)
    decreases |s| - k
  {
    if k < |s| {
      if s[k].baseuri.None? {
        PassPair(s, k + 1, reserved, p, q);
      } else if s[k].baseuri.value == reserved {
        var i, x, y := PairAfterDrop(s, k, p, q);
        FirstIsAtMost(s, k);
        DropDistinct(s, i);
        PassInside(Drop(s, i), k, reserved);
        if i != p { PassPair(Drop(s, i), k, reserved, x, y); }
      } else {
        var x, y := ScanPair(s, k, k + 1, s[k].baseuri.value, p, q);
        var (t, at) := Scan(s, k, k + 1, s[k].baseuri.value);
        if at.Some? {
          PassInside(t, at.value + 1, reserved);
          if s[p] in t { PassPair(t, at.value + 1, reserved, x, y); }
        }
      }
    }
  }

  lemma {:induction false} SurvivorsMembers(s: seq<Conf>, reserved: string)
    requires Distinct(s)
    ensures forall i :: 0 <= i < |s| ==> (s[i] in Survivors(s, reserved) <==> Keeps(s, i, reserved))
    ensures forall x :: x in Survivors(s, reserved) ==> x in s
  {
    if s != [] {
      var t := s[..|s| - 1];
      SurvivorsMembers(t, reserved);
      assert forall i :: 0 <= i < |t| ==> Keeps(t, i, reserved) == Keeps(s, i, reserved);
      assert s[|s| - 1] !in t;
    }
  }

  /**
   * The pass leaves exactly the survivors, in order, if and only if no application that is to go shares its
   * name with an earlier one that is to stay; then removing by name is removing what is meant.
   */
  lemma PassSurvives(s: seq<Conf>, reserved: string)
    requires Distinct(s)
    ensures Pass(s, 0, reserved) == Survivors(s, reserved) <==> NamesAllow(s, reserved)
    ensures Pass(s, 0, reserved) == Dedup(s, reserved) <==> NamesAllow(s, reserved)
  {
    hide Keeps, Dedup;
    DedupSurvives(s, reserved);
    if NamesAllow(s, reserved) {
      PassWhenAllowed(s, 0, reserved);
    } else {
      var i, j :| 0 <= i < j < |s| && s[i].name == s[j].name && !Keeps(s, j, reserved) && Keeps(s, i, reserved);
      SurvivorsMembers(s, reserved);
      PassPair(s, 0, reserved, i, j);
    }
  }

  /** Distinct names allow. */
  lemma DistinctNamesAllow(s: seq<Conf>, reserved: string)
    requires forall i, j :: 0 <= i < j < |s| ==> s[i].name != s[j].name
    ensures NamesAllow(s, reserved)
  {}

  /** The shortest failing kind of list: "Y" at "/b" goes in place of the second "Y". */
  lemma WrongOneGoes()
    ensures var x, y, z := Conf(0, "X", Some("/a")), Conf(1, "Y", Some("/b")), Conf(2, "Y", Some("/a"));
      var s := [x, y, z];
      Pass(s, 0, "/admin") == [x] && Survivors(s, "/admin") == [x, y] && !NamesAllow(s, "/admin")
  {
    var x, y, z := Conf(0, "X", Some("/a")), Conf(1, "Y", Some("/b")), Conf(2, "Y", Some("/a"));
    var s := [x, y, z];
    assert Keeps(s, 0, "/admin") && Keeps(s, 1, "/admin") && !Keeps(s, 2, "/admin");
    assert Survivors(s, "/admin") == [x, y] by {
      assert s[..2] == [x, y] && s[..2][..1] == [x] && [x][..0] == [];
      assert Keeps([x, y], 1, "/admin") && Keeps([x], 0, "/admin");
      assert Survivors([x], "/admin") == [x];
      assert Survivors([x, y], "/admin") == [x, y];
    }
    assert FirstNamed(s, "Y") == 1 by { assert s[1..][0] == y; }
    assert Drop(s, 1) == [x, z];
    assert FirstNamed([x, z], "Y") == 1 by { assert [x, z][1..][0] == z; }
    assert Drop([x, z], 1) == [x];
    assert Scan([x], 0, 1, "/a") == ([x], Some(0));
    assert Scan([x, z], 0, 1, "/a") == ([x], Some(0));
    assert Scan(s, 0, 2, "/a") == Scan([x, z], 0, 1, "/a");
    assert Scan(s, 0, 1, "/a") == Scan(s, 0, 2, "/a");
    assert Pass([x], 1, "/admin") == [x];
  }

  // ----- the linked list -----

  /** config_application_list_t */
  class ConfApp {
    ghost const id: nat
    const name: string
    const baseuri: Option<string>
    var next: ConfApp?

    constructor (ghost id: nat, name: string, baseuri: Option<string>)
      ensures this.id == id && this.name == name && this.baseuri == baseuri && next == null
    {
      this.id, this.name, this.baseuri, next := id, name, baseuri, null;
    }
  }

  ghost function Confs(nodes: seq<ConfApp>): (s: seq<Conf>)
    ensures |s| == |nodes|
  {
    seq(|nodes|, i requires 0 <= i < |nodes| => Conf(nodes[i].id, nodes[i].name, nodes[i].baseuri))
  }

  ghost function At(nodes: seq<ConfApp>, i: nat): ConfApp? {
    if i < |nodes| then nodes[i] else null
  }

  ghost predicate Linked(nodes: seq<ConfApp>)
    reads nodes
  {
    forall i :: 0 <= i < |nodes| ==> nodes[i].next == At(nodes, i + 1)
  }

  /** Every node has its own id. */
  ghost predicate Told(nodes: seq<ConfApp>, issued: nat) {
    && (forall i, j :: 0 <= i < j < |nodes| ==> nodes[i].id != nodes[j].id)
    && (forall i :: 0 <= i < |nodes| ==> nodes[i].id < issued)
  }

  class ApplicationList {
    var list: ConfApp?
    ghost var nodes: seq<ConfApp>
    ghost var issued: nat

    ghost predicate Valid()
      reads this, nodes
    {
      list == At(nodes, 0) && Linked(nodes) && Told(nodes, issued)
    }

    constructor ()
      ensures Valid() && nodes == []
    {
      list, nodes, issued := null, [], 0;
    }

    /** One turn of wr_iterate_app_node, which compares no names; `prev` is the last application so far. */
    method Append(name: string, baseuri: Option<string>, prev: ConfApp?) returns (app: ConfApp)
      requires Valid() && (nodes == [] || prev == nodes[|nodes| - 1])
      modifies this, nodes
      ensures Valid() && nodes == old(nodes) + [app] && fresh(app) && app.name == name && app.baseuri == baseuri
    {
      app := new ConfApp(issued, name, baseuri);
      if list != null {
        prev.next := app;
      } else {
        list := app;
      }
      nodes, issued := nodes + [app], issued + 1;
    }

    /** wr_conf_app_exist: the first application of that name and the one in front of it. */
    method ConfAppExist(name: string) returns (app: ConfApp?, prev: ConfApp?)
      requires Valid()
      ensures var i := FirstNamed(Confs(nodes), name);
        app == At(nodes, i) && (app != null ==> prev == if i == 0 then null else nodes[i - 1])
    {
      hide Confs, FirstNamed, Told;
      prev, app := null, list;
      ghost var i := 0;
      while app != null && app.name != name
        invariant i <= |nodes| && app == At(nodes, i) && prev == if i == 0 then null else nodes[i - 1]
        invariant forall j :: 0 <= j < i ==> nodes[j].name != name
        decreases |nodes| - i
      {
        prev := app;
        app := app.next;
        i := i + 1;
      }
      FirstNode(nodes, name, i);
    }

    /** wr_app_conf_remove: unlinks the first application of that name, whose `next` is cleared. */
    method AppConfRemove(name: string) returns (rc: int)
      requires Valid()
      modifies this, nodes
      ensures Valid()
      ensures var i := FirstNamed(old(Confs(nodes)), name);
        if i == |old(nodes)| then rc == -1 && nodes == old(nodes)
        else rc == 0 && nodes == Unlinked(old(nodes), i) && old(nodes)[i].next == null
    {
      hide Confs, Unlinked, FirstNamed, Valid;
      var app, prev := ConfAppExist(name);
      if app == null {
        return -1;
      }
      Unlink(app, prev, FirstNamed(Confs(nodes), name));
      return 0;
    }

    method Unlink(app: ConfApp, prev: ConfApp?, ghost i: nat)
      requires Valid() && i < |nodes| && nodes[i] == app && prev == if i == 0 then null else nodes[i - 1]
      modifies this, nodes
      ensures Valid() && nodes == Unlinked(old(nodes), i) && old(nodes)[i].next == null
    {
      hide Told, Unlinked, At;
      DistinctNodes(nodes, issued);
      UnlinkedTold(nodes, i, issued);
      UnlinkedAt(nodes, i);
      ghost var was := nodes;
      if prev != null {
        prev.next := app.next;
      } else {
        list := app.next;
      }
      app.next := null;
      nodes := Unlinked(nodes, i);
      forall j | 0 <= j < |nodes| ensures nodes[j].next == At(nodes, j + 1) {
        UnlinkedNext(was, i, j);
      }
      UnlinkedHead(was, i);
    }

    /** The same for the name of the application at `j`, which is there. */
    method RemoveByName(app: ConfApp, ghost j: nat)
      requires Valid() && j < |nodes| && nodes[j] == app
      modifies this, nodes
      ensures Valid()
      ensures var i := FirstNamed(old(Confs(nodes)), app.name);
        i <= j && nodes == Unlinked(old(nodes), i) && old(nodes)[i].next == null
      ensures var s := old(Confs(nodes));
        var i := FirstNamed(s, s[j].name); i <= j && Confs(nodes) == Drop(s, i)
    {
      FirstIsAtMost(Confs(nodes), j);
      UnlinkedConfs(nodes, FirstNamed(Confs(nodes), app.name));
      var rc := AppConfRemove(app.name);
    }

    lemma NextIs(k: nat)
      requires Valid() && k < |nodes|
      ensures nodes[k].next == At(nodes, k + 1)
    {}

    /**
     * The inner scan for the application at `k`, over any list. `at` is where that application ends up;
     * `found` tells whether something was removed.
     */
    method RemoveDuplicates(app: ConfApp, base: string, ghost k: nat)
      returns (next: ConfApp?, found: bool, ghost at: Option<nat>)
      requires Valid() && k < |nodes| && nodes[k] == app && app.baseuri == Some(base)
      modifies this, nodes
      ensures Valid() && (forall i :: 0 <= i < |nodes| ==> nodes[i] in old(nodes))
      ensures (Confs(nodes), at) == Scan(old(Confs(nodes)), k, k + 1, base)
      ensures next == if at.Some? then At(nodes, at.value + 1) else null
      ensures |nodes| <= |old(nodes)| && (if found then |nodes| < |old(nodes)| else nodes == old(nodes))
    {
      hide Confs, Scan, Drop, Unlinked, Valid, At, FirstNamed;
      ghost var s0 := Confs(nodes);
      NextIs(k);
      next, found, at := app.next, false, Some(k);
      var tmp := next;
      ghost var j := k + 1;
      while tmp != null
        invariant Valid() && (forall i :: 0 <= i < |nodes| ==> nodes[i] in old(nodes))
        invariant at.Some? ==>
          && at.value < j <= |nodes| && nodes[at.value] == app
          && tmp == At(nodes, j) && next == At(nodes, at.value + 1)
          && Scan(Confs(nodes), at.value, j, base) == Scan(s0, k, k + 1, base)
        invariant at.None? ==> tmp == null && next == null && Scan(s0, k, k + 1, base) == (Confs(nodes), None)
        invariant if found then |nodes| < |old(nodes)| else nodes == old(nodes)
        decreases |nodes|, if at.Some? then |nodes| - j else 0
      {
        ghost var s, h, was := Confs(nodes), at.value, nodes;
        AtIs(nodes, j);
        ConfsAt(nodes, j);
        ScanStep(s, h, j, base);
        if tmp.baseuri.Some? && tmp.baseuri.value == base {
          found := true;
          ghost var i := FirstNamed(s, tmp.name);
          RemoveByName(tmp, j);
          UnlinkedAt(was, i);
          at := if i < h then Some(h - 1) else if i == h then None else Some(h);
          if at.Some? { NextIs(at.value); }
          next := app.next;
          tmp := next;
          j := if at.Some? then at.value + 1 else 0;
        } else {
          NextIs(j);
          tmp := tmp.next;
          j := j + 1;
        }
      }
      if at.Some? {
        AtIs(nodes, j);
        ConfsSize(nodes);
        ScanEnds(Confs(nodes), at.value, base);
      }
    }

    /**
     * wr_remove_app_with_dup_baseuri, over any list: what it leaves, and when that is exactly the survivors,
     * in order. The result is -1 if something was removed, or if there was nothing to look at.
     */
    method RemoveAppWithDupBaseuri(reserved: string) returns (rv: int)
      requires Valid()
      modifies this, nodes
      ensures Valid() && Confs(nodes) == Pass(old(Confs(nodes)), 0, reserved)
      ensures Confs(nodes) == Survivors(old(Confs(nodes)), reserved) <==> NamesAllow(old(Confs(nodes)), reserved)
      ensures rv == if old(nodes) == [] || nodes != old(nodes) then -1 else 0
    {
      hide Confs, Scan, Pass, Drop, Unlinked, Valid, Survivors, NamesAllow, At, FirstNamed;
      ghost var s0 := Confs(nodes);
      DistinctEntries();
      PassSurvives(s0, reserved);
      ListIs();
      var app := list;
      rv := 0;
      ghost var k: Option<nat> := Some(0);
      AtIs(nodes, 0);
      ConfsSize(nodes);
      if app == null {
        PassEnds(s0, reserved);
        return -1;
      }
      while app != null
        invariant Valid() && (forall i :: 0 <= i < |nodes| ==> nodes[i] in old(nodes))
        invariant k.Some? ==>
          && k.value <= |nodes| && app == At(nodes, k.value)
          && Pass(Confs(nodes), k.value, reserved) == Pass(s0, 0, reserved)
        invariant k.None? ==> app == null && Pass(s0, 0, reserved) == Confs(nodes)
        invariant |nodes| <= |old(nodes)|
        invariant rv == (if |nodes| < |old(nodes)| then -1 else 0) && (|nodes| == |old(nodes)| ==> nodes == old(nodes))
        decreases if k.Some? then |nodes| - k.value + 1 else 0
      {
        ghost var h, s, was := k.value, Confs(nodes), nodes;
        AtIs(nodes, h);
        NextIs(h);
        ConfsAt(nodes, h);
        PassStep(s, h, reserved);
        var next := app.next;
        if app.baseuri.Some? {
          if app.baseuri.value == reserved {
            rv := -1;
            RemoveByName(app, h);
            UnlinkedAt(was, FirstNamed(s, app.name));
            UnlinkedBehind(was, FirstNamed(s, app.name), h);
          } else {
            var found; ghost var at;
            next, found, at := RemoveDuplicates(app, app.baseuri.value, h);
            if found { rv := -1; }
            k := if at.Some? then Some(at.value + 1) else None;
          }
        } else {
          k := Some(h + 1);
        }
        app := next;
      }
      if k.Some? {
        AtIs(nodes, k.value);
        ConfsSize(nodes);
        PassEnds(Confs(nodes), reserved);
      }
    }

    lemma ListIs()
      requires Valid()
      ensures list == At(nodes, 0)
    {}

    lemma DistinctEntries()
      requires Valid()
      ensures Distinct(Confs(nodes))
    {}
  }

  lemma FirstNamedIs(s: seq<Conf>, name: string, i: nat)
    requires i <= |s| && (i < |s| ==> s[i].name == name) && forall j :: 0 <= j < i ==> s[j].name != name
    ensures FirstNamed(s, name) == i
  {
    FirstNamedAt(s, name);
  }

  /** `nodes` without the one at `i`. */
  ghost function Unlinked(nodes: seq<ConfApp>, i: nat): seq<ConfApp>
    requires i < |nodes|
  {
    nodes[..i] + nodes[i + 1..]
  }

  lemma UnlinkedAt(nodes: seq<ConfApp>, i: nat)
    requires i < |nodes|
    ensures var t := Unlinked(nodes, i);
      && |t| == |nodes| - 1
      && (forall j :: 0 <= j < |t| ==> t[j] == nodes[if j < i then j else j + 1])
      && (forall j :: i < j < |nodes| ==> t[j - 1] == nodes[j])
  {}

  lemma DistinctNodes(nodes: seq<ConfApp>, issued: nat)
    requires Told(nodes, issued)
    ensures forall i, j :: 0 <= i < j < |nodes| ==> nodes[i] != nodes[j]
  {}

  lemma UnlinkedTold(nodes: seq<ConfApp>, i: nat, issued: nat)
    requires i < |nodes| && Told(nodes, issued)
    ensures Told(Unlinked(nodes, i), issued)
  {
    UnlinkedAt(nodes, i);
  }

  lemma FirstNode(nodes: seq<ConfApp>, name: string, i: nat)
    requires i <= |nodes| && (i < |nodes| ==> nodes[i].name == name)
    requires forall j :: 0 <= j < i ==> nodes[j].name != name
    ensures FirstNamed(Confs(nodes), name) == i
  {
    FirstNamedIs(Confs(nodes), name, i);
  }

  lemma UnlinkedNext(nodes: seq<ConfApp>, i: nat, j: nat)
    requires i < |nodes| && j < |nodes| - 1
    ensures At(Unlinked(nodes, i), j + 1) == At(nodes, if j + 1 < i then j + 1 else j + 2)
    ensures Unlinked(nodes, i)[j] == nodes[if j < i then j else j + 1]
  {}

  lemma UnlinkedBehind(nodes: seq<ConfApp>, i: nat, k: nat)
    requires i <= k < |nodes|
    ensures At(Unlinked(nodes, i), k) == At(nodes, k + 1)
  {}

  lemma UnlinkedHead(nodes: seq<ConfApp>, i: nat)
    requires i < |nodes|
    ensures At(Unlinked(nodes, i), 0) == At(nodes, if i == 0 then 1 else 0)
  {}

  lemma UnlinkedConfs(nodes: seq<ConfApp>, i: nat)
    requires i < |nodes|
    ensures Confs(Unlinked(nodes, i)) == Drop(Confs(nodes), i)
  {}

  lemma AtIs(nodes: seq<ConfApp>, i: nat)
    ensures At(nodes, i) == null <==> i >= |nodes|
    ensures i < |nodes| ==> At(nodes, i) == nodes[i]
  {}

  lemma ConfsSize(nodes: seq<ConfApp>)
    ensures |Confs(nodes)| == |nodes|
  {}

  lemma ConfsAt(nodes: seq<ConfApp>, i: nat)
    requires i < |nodes|
    ensures |Confs(nodes)| == |nodes| && Confs(nodes)[i] == Conf(nodes[i].id, nodes[i].name, nodes[i].baseuri)
  {}

  lemma ScanStep(s: seq<Conf>, k: nat, j: nat, b: string)
    requires k < j < |s|
    ensures s[j].baseuri != Some(b) ==> Scan(s, k, j, b) == Scan(s, k, j + 1, b)
    ensures FirstNamed(s, s[j].name) <= j
    ensures var i := FirstNamed(s, s[j].name);
      s[j].baseuri == Some(b) ==>
        && (i < k ==> Scan(s, k, j, b) == Scan(Drop(s, i), k - 1, k, b))
        && (i == k ==> Scan(s, k, j, b) == (Drop(s, i), None))
        && (i > k ==> Scan(s, k, j, b) == Scan(Drop(s, i), k, k + 1, b))
  {
    FirstIsAtMost(s, j);
  }

  lemma PassStep(s: seq<Conf>, k: nat, reserved: string)
    requires k < |s|
    ensures FirstNamed(s, s[k].name) <= k
    ensures s[k].baseuri.None? ==> Pass(s, k, reserved) == Pass(s, k + 1, reserved)
    ensures s[k].baseuri == Some(reserved) ==>
      Pass(s, k, reserved) == Pass(Drop(s, FirstNamed(s, s[k].name)), k, reserved)
    ensures s[k].baseuri.Some? && s[k].baseuri.value != reserved ==>
      var (t, at) := Scan(s, k, k + 1, s[k].baseuri.value);
      Pass(s, k, reserved) == if at.None? then t else Pass(t, at.value + 1, reserved)
  {
    FirstIsAtMost(s, k);
  }

  lemma PassEnds(s: seq<Conf>, reserved: string)
    ensures Pass(s, |s|, reserved) == s
  {}

  lemma ScanEnds(s: seq<Conf>, k: nat, b: string)
    requires k < |s|
    ensures Scan(s, k, |s|, b) == (s, Some(k))
  {}
}
