/**
 * Insertion-ordered Python dicts, for the places where the driver depends on
 * their order: the gridsearch config and the per-batch embedding outputs.
 */
module OrderedDicts {
  import opened Results

  /** The items of a dict, `list(d.items())`, in insertion order. */
  type Entries<V> = seq<(string, V)>

  /** `list(d.keys())` */
  function Keys<V>(d: Entries<V>): (ks: seq<string>)
    ensures |ks| == |d|
    ensures forall i :: 0 <= i < |d| ==> ks[i] == d[i].0
  {
    seq(|d|, i requires 0 <= i < |d| => d[i].0)
  }

  /** A real dict never holds a key twice. */
  ghost predicate DistinctKeys<V>(d: Entries<V>)
  {
    forall i, j :: 0 <= i < j < |d| ==> d[i].0 != d[j].0
  }

  /** `d[k]` */
  function Get<V>(d: Entries<V>, k: string): Lookup<V>
  {
    if |d| == 0 then Missing
    else if d[0].0 == k then Found(d[0].1)
    else Get(d[1..], k)
  }

  /** `for k, v in d: setattr(ns, k, v)` -- later assignments win. */
  function SetAll<V>(m: map<string, V>, d: Entries<V>): map<string, V>
    decreases |d|
  {
    if |d| == 0 then m else SetAll(m[d[0].0 := d[0].1], d[1..])
  }

  lemma {:induction false} GetFound<V>(d: Entries<V>, k: string)
    ensures Get(d, k).Found? <==> k in Keys(d)
    ensures Get(d, k).Found? ==> (k, Get(d, k).value) in d
  {
    if |d| > 0 {
      GetFound(d[1..], k);
      assert Keys(d) == [d[0].0] + Keys(d[1..]);
    }
  }

  lemma {:induction false} GetAt<V>(d: Entries<V>, i: int)
    requires DistinctKeys(d)
    requires 0 <= i < |d|
    ensures Get(d, d[i].0) == Found(d[i].1)
  {
    if i > 0 {
      GetAt(d[1..], i - 1);
    }
  }

  lemma {:induction false} SetAllKeys<V>(m: map<string, V>, d: Entries<V>)
    ensures SetAll(m, d).Keys == m.Keys + SetOfKeys(d)
    decreases |d|
  {
    if |d| > 0 {
      SetAllKeys(m[d[0].0 := d[0].1], d[1..]);
      assert SetOfKeys(d) == {d[0].0} + SetOfKeys(d[1..]) by {
        assert forall e :: e in d <==> e == d[0] || e in d[1..];
      }
    }
  }

  /** The key set of a dict. */
  ghost function SetOfKeys<V>(d: Entries<V>): set<string>
  {
    set e | e in d :: e.0
  }

  lemma {:induction false} SetAllOther<V>(m: map<string, V>, d: Entries<V>, k: string)
    requires k !in SetOfKeys(d)
    ensures k in SetAll(m, d) <==> k in m
    ensures k in m ==> SetAll(m, d)[k] == m[k]
    decreases |d|
  {
    if |d| > 0 {
      assert d[0] in d;
      assert k !in SetOfKeys(d[1..]) by {
        forall e | e in d[1..] ensures e.0 != k {
          assert e in d;
        }
      }
      SetAllOther(m[d[0].0 := d[0].1], d[1..], k);
    }
  }

  lemma {:induction false} SetAllAt<V>(m: map<string, V>, d: Entries<V>, i: int)
    requires DistinctKeys(d)
    requires 0 <= i < |d|
    ensures d[i].0 in SetAll(m, d) && SetAll(m, d)[d[i].0] == d[i].1
    decreases |d|
  {
    if i == 0 {
      assert d[0].0 !in SetOfKeys(d[1..]) by {
        forall e | e in d[1..] ensures e.0 != d[0].0 {
          var j :| 0 <= j < |d[1..]| && d[1..][j] == e;
          assert d[j + 1] == e;
        }
      }
      SetAllOther(m[d[0].0 := d[0].1], d[1..], d[0].0);
    } else {
      SetAllAt(m[d[0].0 := d[0].1], d[1..], i - 1);
    }
  }

  /** Keys the dict does not mention keep their presence and their value. */
  lemma SetAllOthers<V>(m: map<string, V>, d: Entries<V>)
    ensures forall k :: k !in SetOfKeys(d) ==> (k in SetAll(m, d) <==> k in m)
    ensures forall k :: k !in SetOfKeys(d) && k in m ==> SetAll(m, d)[k] == m[k]
  {
    forall k | k !in SetOfKeys(d)
      ensures (k in SetAll(m, d) <==> k in m) && (k in m ==> SetAll(m, d)[k] == m[k])
    {
      SetAllOther(m, d, k);
    }
  }

  /** A dict with distinct keys leaves each of its values under its key. */
  lemma SetAllDistinct<V>(m: map<string, V>, d: Entries<V>)
    ensures DistinctKeys(d) ==> forall j :: 0 <= j < |d| ==> d[j].0 in SetAll(m, d) && SetAll(m, d)[d[j].0] == d[j].1
  {
    if DistinctKeys(d) {
      forall j | 0 <= j < |d| ensures d[j].0 in SetAll(m, d) && SetAll(m, d)[d[j].0] == d[j].1 {
        SetAllAt(m, d, j);
      }
    }
  }
}
