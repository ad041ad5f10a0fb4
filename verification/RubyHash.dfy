/** A Ruby Hash with String keys: pairs in insertion order, each key once. */
module RubyHash {
  import opened Seqs

  type Hash<V> = seq<(string, V)>

  function Find<V>(h: Hash<V>, k: string): Option<V> {
    if h == [] then None else if h[0].0 == k then Some(h[0].1) else Find(h[1..], k)
  }

  /** `h[k] = v`: in place if the key is there, at the end if not. */
  function Put<V>(h: Hash<V>, k: string, v: V): Hash<V> {
    if h == [] then [(k, v)] else if h[0].0 == k then [(k, v)] + h[1..] else [h[0]] + Put(h[1..], k, v)
  }

  ghost predicate Keyed<V>(h: Hash<V>) {
    forall i, j :: 0 <= i < j < |h| ==> h[i].0 != h[j].0
  }

  lemma {:induction false} FindPut<V>(h: Hash<V>, k: string, v: V, j: string)
    ensures Find(Put(h, k, v), j) == if j == k then Some(v) else Find(h, j)
  {
    if h != [] && h[0].0 != k {
      FindPut(h[1..], k, v, j);
      assert Put(h, k, v)[1..] == Put(h[1..], k, v);
    }
  }

  lemma {:induction false} FindAt<V>(h: Hash<V>, i: nat)
    requires i < |h| && Keyed(h)
    ensures Find(h, h[i].0) == Some(h[i].1)
  {
    if i > 0 {
      FindAt(h[1..], i - 1);
    }
  }

  lemma {:induction false} FindMissing<V>(h: Hash<V>, k: string)
    requires forall i :: 0 <= i < |h| ==> h[i].0 != k
    ensures Find(h, k) == None
  {
    if h != [] { FindMissing(h[1..], k); }
  }

  lemma {:induction false} FindWhere<V>(h: Hash<V>, k: string) returns (i: nat)
    requires Find(h, k).Some?
    ensures i < |h| && h[i].0 == k
  {
    if h[0].0 == k {
      i := 0;
    } else {
      i := FindWhere(h[1..], k);
      i := i + 1;
    }
  }

  lemma {:induction false} PutAt<V>(h: Hash<V>, i: nat, v: V)
    requires i < |h| && Keyed(h)
    ensures Put(h, h[i].0, v) == h[i := (h[i].0, v)]
  {
    if i > 0 {
      PutAt(h[1..], i - 1, v);
    }
  }

  lemma {:induction false} PutKeys<V>(h: Hash<V>, k: string, v: V)
    requires Keyed(h)
    ensures Keyed(Put(h, k, v))
    ensures forall i :: 0 <= i < |Put(h, k, v)| ==> Put(h, k, v)[i] == (k, v) || Put(h, k, v)[i] in h
  {
    if h != [] && h[0].0 != k {
      PutKeys(h[1..], k, v);
      var t := Put(h[1..], k, v);
      assert forall i :: 0 <= i < |t| ==> t[i].0 == k || t[i] in h[1..];
    }
  }

  // ----- hashes of times -----

  function Get(h: Hash<real>, k: string): real {
    var v := Find(h, k);
    if v.Some? then v.value else 0.0
  }

  function Sum(h: Hash<real>): real {
    if h == [] then 0.0 else h[0].1 + Sum(h[1..])
  }

  /** `if h[k] then h[k] += v else h[k] = v end` */
  function AddTo(h: Hash<real>, k: string, v: real): Hash<real> {
    Put(h, k, Get(h, k) + v)
  }

  lemma {:induction false} SumPut(h: Hash<real>, k: string, v: real)
    ensures Sum(Put(h, k, v)) == Sum(h) - Get(h, k) + v
  {
    if h != [] && h[0].0 != k {
      SumPut(h[1..], k, v);
      assert Put(h, k, v)[1..] == Put(h[1..], k, v);
    }
  }

  lemma {:induction false} SumAppend(h: Hash<real>, g: Hash<real>)
    ensures Sum(h + g) == Sum(h) + Sum(g)
  {
    if h == [] {
      assert h + g == g;
    } else {
      assert (h + g)[0] == h[0] && (h + g)[1..] == h[1..] + g;
      SumAppend(h[1..], g);
    }
  }

  lemma {:induction false} FindAppend<V>(h: Hash<V>, g: Hash<V>, k: string)
    ensures Find(h + g, k) == if Find(h, k).Some? then Find(h, k) else Find(g, k)
  {
    if h == [] {
      assert h + g == g;
    } else {
      assert (h + g)[0] == h[0] && (h + g)[1..] == h[1..] + g;
      FindAppend(h[1..], g, k);
    }
  }
}
