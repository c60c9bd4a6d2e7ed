/**
 * Python's `dict` as the repository uses it: insertion-ordered key/value
 * pairs in which assigning to a present key replaces its value in place and
 * assigning to a new key appends it.
 */
module OrderedDict {
  import opened Common

  function Keys<V>(d: seq<(string, V)>): (ks: seq<string>)
    ensures |ks| == |d|
    ensures forall i :: 0 <= i < |d| ==> ks[i] == d[i].0
  {
    seq(|d|, i requires 0 <= i < |d| => d[i].0)
  }

  predicate DistinctKeys<V>(d: seq<(string, V)>) {
    forall i, j :: 0 <= i < j < |d| ==> d[i].0 != d[j].0
  }

  /** `d.get(k)`: the value stored under `k`, if any. */
  function Get<V>(d: seq<(string, V)>, k: string): (r: Option<V>)
    ensures r.None? <==> k !in Keys(d)
  {
    if |d| == 0 then None
    else if d[0].0 == k then Some(d[0].1)
    else
      assert Keys(d) == [d[0].0] + Keys(d[1..]);
      Get(d[1..], k)
  }

  /** A found value is stored under its key, and in a dict with distinct keys it is the one stored there. */
  lemma {:induction false} GetSpec<V>(d: seq<(string, V)>, k: string)
    ensures Get(d, k).Some? ==> exists i :: 0 <= i < |d| && d[i] == (k, Get(d, k).value)
    ensures DistinctKeys(d) ==> forall i :: 0 <= i < |d| && d[i].0 == k ==> Get(d, k) == Some(d[i].1)
  {
    if |d| > 0 && d[0].0 != k {
      GetSpec(d[1..], k);
      var r := Get(d[1..], k);
      if r.Some? {
        var i :| 0 <= i < |d[1..]| && d[1..][i] == (k, r.value);
        assert d[i + 1] == (k, r.value);
      }
      if DistinctKeys(d) {
        forall i | 0 <= i < |d| && d[i].0 == k
          ensures Get(d, k) == Some(d[i].1)
        {
          assert d[1..][i - 1] == d[i];
        }
      }
    }
  }

  /** `d[k] = v`. */
  function Put<V>(d: seq<(string, V)>, k: string, v: V): (r: seq<(string, V)>)
    ensures Keys(r) == if k in Keys(d) then Keys(d) else Keys(d) + [k]
  {
    if |d| == 0 then [(k, v)]
    else if d[0].0 == k then
      assert Keys([(k, v)] + d[1..]) == Keys(d);
      [(k, v)] + d[1..]
    else
      var rest := Put(d[1..], k, v);
      assert Keys(d) == [d[0].0] + Keys(d[1..]);
      assert k in Keys(d) <==> k in Keys(d[1..]);
      assert Keys([d[0]] + rest) == [d[0].0] + Keys(rest);
      [d[0]] + rest
  }

  /** Assignment keeps a dict's keys distinct. */
  lemma {:induction false} PutDistinct<V>(d: seq<(string, V)>, k: string, v: V)
    requires DistinctKeys(d)
    ensures DistinctKeys(Put(d, k, v))
  {
    var r := Put(d, k, v);
    if |d| > 0 && d[0].0 != k {
      var rest := Put(d[1..], k, v);
      PutDistinct(d[1..], k, v);
      assert r == [d[0]] + rest;
      assert Keys(d) == [d[0].0] + Keys(d[1..]);
      forall i | 0 <= i < |rest|
        ensures rest[i].0 != d[0].0
      {
        assert Keys(rest)[i] == rest[i].0;
      }
    } else if |d| > 0 {
      assert r == [(k, v)] + d[1..];
    }
  }

  /** Every pair of `d[k] = v` is `(k, v)` or was already in `d`. */
  lemma {:induction false} PutPairs<V>(d: seq<(string, V)>, k: string, v: V)
    ensures forall p :: p in Put(d, k, v) ==> p in d || p == (k, v)
  {
    if |d| > 0 && d[0].0 != k {
      PutPairs(d[1..], k, v);
      assert Put(d, k, v) == [d[0]] + Put(d[1..], k, v);
      assert forall p :: p in d[1..] ==> p in d;
    } else if |d| > 0 {
      assert forall p :: p in d[1..] ==> p in d;
    }
  }

  /** After `d[k] = v`, `k` maps to `v` and every other key keeps its value. */
  lemma {:induction false} PutGet<V>(d: seq<(string, V)>, k: string, v: V, k': string)
    ensures Get(Put(d, k, v), k') == if k' == k then Some(v) else Get(d, k')
  {
    if |d| > 0 && d[0].0 != k {
      PutGet(d[1..], k, v, k');
      assert Put(d, k, v) == [d[0]] + Put(d[1..], k, v);
      assert ([d[0]] + Put(d[1..], k, v))[1..] == Put(d[1..], k, v);
    }
  }

  /** The dict built by assigning the pairs one after the other. */
  function FromPairs<V>(ps: seq<(string, V)>): seq<(string, V)>
  {
    if |ps| == 0 then []
    else Put(FromPairs(ps[..|ps| - 1]), ps[|ps| - 1].0, ps[|ps| - 1].1)
  }

  /** Building from one more pair is one more assignment. */
  lemma FromPairsSnoc<V>(ps: seq<(string, V)>, k: nat, key: string, v: V)
    requires k < |ps| && ps[k] == (key, v)
    ensures FromPairs(ps[..k + 1]) == Put(FromPairs(ps[..k]), key, v)
  {
    assert ps[..k + 1][..k] == ps[..k];
  }

  /** The value of the last pair whose key is `k`. */
  function LastValue<V>(ps: seq<(string, V)>, k: string): Option<V>
  {
    if |ps| == 0 then None
    else if ps[|ps| - 1].0 == k then Some(ps[|ps| - 1].1)
    else LastValue(ps[..|ps| - 1], k)
  }

  /** The keys of the built dict are exactly the keys of the pairs, without repeats. */
  lemma {:induction false} FromPairsKeys<V>(ps: seq<(string, V)>)
    ensures DistinctKeys(FromPairs(ps))
    ensures forall k :: k in Keys(FromPairs(ps)) <==> exists t :: 0 <= t < |ps| && ps[t].0 == k
  {
    if |ps| > 0 {
      var front := ps[..|ps| - 1];
      FromPairsKeys(front);
      var d := FromPairs(front);
      var (k0, v0) := ps[|ps| - 1];
      PutDistinct(d, k0, v0);
      assert FromPairs(ps) == Put(d, k0, v0);
      forall k
        ensures k in Keys(FromPairs(ps)) <==> exists t :: 0 <= t < |ps| && ps[t].0 == k
      {
        assert k in Keys(Put(d, k0, v0)) <==> k in Keys(d) || k == k0;
        if k in Keys(d) {
          var t :| 0 <= t < |front| && front[t].0 == k;
          assert ps[t].0 == k;
        }
        if exists t :: 0 <= t < |ps| && ps[t].0 == k {
          var t :| 0 <= t < |ps| && ps[t].0 == k;
          if t < |front| {
            assert front[t].0 == k;
          }
        }
      }
    }
  }

  /** A later pair with the same key overwrites an earlier one. */
  lemma {:induction false} FromPairsGet<V>(ps: seq<(string, V)>, k: string)
    ensures Get(FromPairs(ps), k) == LastValue(ps, k)
  {
    if |ps| > 0 {
      var front := ps[..|ps| - 1];
      FromPairsGet(front, k);
      PutGet(FromPairs(front), ps[|ps| - 1].0, ps[|ps| - 1].1, k);
    }
  }

  /** The dict `d` after assigning the pairs one after the other. */
  function PutAll<V>(d: seq<(string, V)>, ps: seq<(string, V)>): seq<(string, V)>
  {
    if |ps| == 0 then d
    else Put(PutAll(d, ps[..|ps| - 1]), ps[|ps| - 1].0, ps[|ps| - 1].1)
  }

  /** One more assignment after the others. */
  lemma PutAllSnoc<V>(d: seq<(string, V)>, ps: seq<(string, V)>, k: string, v: V)
    ensures PutAll(d, ps + [(k, v)]) == Put(PutAll(d, ps), k, v)
  {
    assert (ps + [(k, v)])[..|ps|] == ps;
  }

  /** After the assignments a key holds its last assigned value, or its old value if it was not assigned. */
  lemma {:induction false} PutAllGet<V>(d: seq<(string, V)>, ps: seq<(string, V)>, k: string)
    ensures Get(PutAll(d, ps), k) == if LastValue(ps, k).Some? then LastValue(ps, k) else Get(d, k)
  {
    if |ps| > 0 {
      PutAllGet(d, ps[..|ps| - 1], k);
      PutGet(PutAll(d, ps[..|ps| - 1]), ps[|ps| - 1].0, ps[|ps| - 1].1, k);
    }
  }

  /** Assignments keep every present key and keep the keys distinct. */
  lemma {:induction false} PutAllKeys<V>(d: seq<(string, V)>, ps: seq<(string, V)>)
    ensures forall k :: k in Keys(d) ==> k in Keys(PutAll(d, ps))
    ensures DistinctKeys(d) ==> DistinctKeys(PutAll(d, ps))
  {
    if |ps| > 0 {
      var front := PutAll(d, ps[..|ps| - 1]);
      PutAllKeys(d, ps[..|ps| - 1]);
      if DistinctKeys(front) {
        PutDistinct(front, ps[|ps| - 1].0, ps[|ps| - 1].1);
      }
    }
  }

  /** Assigning the same key twice is assigning it once, with the second value. */
  lemma {:induction false} PutPut<V>(d: seq<(string, V)>, k: string, v1: V, v2: V)
    ensures Put(Put(d, k, v1), k, v2) == Put(d, k, v2)
  {
    if |d| > 0 && d[0].0 != k {
      PutPut(d[1..], k, v1, v2);
      var r1 := Put(d[1..], k, v1);
      assert Put(d, k, v1) == [d[0]] + r1;
      assert ([d[0]] + r1)[1..] == r1;
    } else if |d| > 0 {
      assert Put(d, k, v1) == [(k, v1)] + d[1..];
      assert ([(k, v1)] + d[1..])[1..] == d[1..];
    }
  }
}
