/** Python's `dict` with string keys, as an insertion-ordered association
    list. Assigning an existing key keeps its position; a new key goes to the
    end; `update` assigns the pairs of its argument one after the other. */
module Dicts {
  import opened Basics

  type Dict<V> = seq<(string, V)>

  /** `d.get(k)`: the value of the first pair with key `k`. */
  function Get<V>(d: Dict<V>, k: string): Option<V>
  {
    if d == [] then None
    else if d[0].0 == k then Some(d[0].1)
    else Get(d[1..], k)
  }

  predicate HasKey<V>(d: Dict<V>, k: string)
  {
    Get(d, k).Some?
  }

  /** `d.get(k, default)` */
  function GetOr<V>(d: Dict<V>, k: string, default: V): V
  {
    match Get(d, k)
    case Some(v) => v
    case None => default
  }

  /** The key sequence, in insertion order (what iteration and json.dumps see). */
  function Keys<V>(d: Dict<V>): (ks: seq<string>)
    ensures |ks| == |d|
  {
    if d == [] then [] else [d[0].0] + Keys(d[1..])
  }

  /** No key occurs twice: true of every Python dict. */
  predicate Distinct<V>(d: Dict<V>)
  {
    d == [] || (!HasKey(d[1..], d[0].0) && Distinct(d[1..]))
  }

  /** `d[k] = v` */
  function Set<V>(d: Dict<V>, k: string, v: V): Dict<V>
  {
    if d == [] then [(k, v)]
    else if d[0].0 == k then [(k, v)] + d[1..]
    else [d[0]] + Set(d[1..], k, v)
  }

  /** `d.pop(k)` once `k` is known to be present (the value is `Get(d, k)`). */
  function Remove<V>(d: Dict<V>, k: string): Dict<V>
  {
    if d == [] then []
    else if d[0].0 == k then d[1..]
    else [d[0]] + Remove(d[1..], k)
  }

  /** `d.update(kw)`: assign each pair of `kw` in turn. */
  function Update<V>(d: Dict<V>, kw: Dict<V>): Dict<V>
    decreases |kw|
  {
    if kw == [] then d else Update(Set(d, kw[0].0, kw[0].1), kw[1..])
  }

  /** Building a dict from a list of pairs, as `dict(pairs)` does: later
      duplicates overwrite earlier ones. */
  function FromPairs<V>(pairs: seq<(string, V)>): Dict<V>
  {
    Update([], pairs)
  }

  /** Two dicts with the same key/value pairs, whatever their order. */
  ghost predicate SameItems<V>(a: Dict<V>, b: Dict<V>)
  {
    forall k :: Get(a, k) == Get(b, k)
  }

  lemma {:induction false} GetSet<V>(d: Dict<V>, k: string, v: V, j: string)
    ensures Get(Set(d, k, v), j) == if j == k then Some(v) else Get(d, j)
  {
    if d != [] && d[0].0 != k {
      GetSet(d[1..], k, v, j);
    }
  }

  lemma {:induction false} SetKeepsDistinct<V>(d: Dict<V>, k: string, v: V)
    requires Distinct(d)
    ensures Distinct(Set(d, k, v))
  {
    if d != [] && d[0].0 != k {
      SetKeepsDistinct(d[1..], k, v);
      GetSet(d[1..], k, v, d[0].0);
    }
  }

  /** An existing key keeps its place; a new one is appended. */
  lemma {:induction false} KeysSet<V>(d: Dict<V>, k: string, v: V)
    ensures Keys(Set(d, k, v)) == if HasKey(d, k) then Keys(d) else Keys(d) + [k]
  {
    if d != [] && d[0].0 != k {
      KeysSet(d[1..], k, v);
      assert Keys(Set(d, k, v)) == [d[0].0] + Keys(Set(d[1..], k, v));
    }
  }

  lemma {:induction false} GetUpdate<V>(d: Dict<V>, kw: Dict<V>, j: string)
    requires Distinct(kw)
    ensures Get(Update(d, kw), j) == if HasKey(kw, j) then Get(kw, j) else Get(d, j)
    decreases |kw|
  {
    if kw != [] {
      GetUpdate(Set(d, kw[0].0, kw[0].1), kw[1..], j);
      GetSet(d, kw[0].0, kw[0].1, j);
    }
  }

  lemma {:induction false} UpdateKeepsDistinct<V>(d: Dict<V>, kw: Dict<V>)
    requires Distinct(d)
    ensures Distinct(Update(d, kw))
    decreases |kw|
  {
    if kw != [] {
      SetKeepsDistinct(d, kw[0].0, kw[0].1);
      UpdateKeepsDistinct(Set(d, kw[0].0, kw[0].1), kw[1..]);
    }
  }

  /** Update never drops a key, and any key it has came from one side. */
  lemma {:induction false} HasKeyUpdate<V>(d: Dict<V>, kw: Dict<V>, j: string)
    ensures HasKey(Update(d, kw), j) <==> HasKey(d, j) || HasKey(kw, j)
    decreases |kw|
  {
    if kw != [] {
      HasKeyUpdate(Set(d, kw[0].0, kw[0].1), kw[1..], j);
      GetSet(d, kw[0].0, kw[0].1, j);
    }
  }

  /** Pairs whose keys `d` already has do not change its key order. */
  lemma {:induction false} KeysUpdateExisting<V>(d: Dict<V>, kw: Dict<V>)
    requires forall i :: 0 <= i < |kw| ==> HasKey(d, kw[i].0)
    ensures Keys(Update(d, kw)) == Keys(d)
    decreases |kw|
  {
    if kw != [] {
      var d' := Set(d, kw[0].0, kw[0].1);
      KeysSet(d, kw[0].0, kw[0].1);
      forall i | 0 <= i < |kw[1..]| ensures HasKey(d', kw[1..][i].0) {
        GetSet(d, kw[0].0, kw[0].1, kw[1..][i].0);
        assert kw[1..][i] == kw[i + 1];
      }
      KeysUpdateExisting(d', kw[1..]);
    }
  }

  lemma {:induction false} GetRemove<V>(d: Dict<V>, k: string, j: string)
    requires Distinct(d)
    ensures Get(Remove(d, k), j) == if j == k then None else Get(d, j)
  {
    if d != [] {
      if d[0].0 == k {
        if j == k { assert !HasKey(d[1..], k); }
      } else {
        GetRemove(d[1..], k, j);
      }
    }
  }

  lemma {:induction false} RemoveKeepsDistinct<V>(d: Dict<V>, k: string)
    requires Distinct(d)
    ensures Distinct(Remove(d, k))
  {
    if d != [] && d[0].0 != k {
      RemoveKeepsDistinct(d[1..], k);
      GetRemove(d[1..], k, d[0].0);
    }
  }

  /** A dict built from the pairs of a dict with distinct keys is that dict. */
  lemma {:induction false} FromDistinctPairs<V>(d: Dict<V>)
    requires Distinct(d)
    ensures FromPairs(d) == d
  {
    UpdateOntoPrefix([], d);
  }

  lemma {:induction false} UpdateOntoPrefix<V>(p: Dict<V>, d: Dict<V>)
    requires Distinct(d)
    requires forall i :: 0 <= i < |d| ==> !HasKey(p, d[i].0)
    ensures Update(p, d) == p + d
    decreases |d|
  {
    if d != [] {
      SetAbsentAppends(p, d[0].0, d[0].1);
      var p' := p + [d[0]];
      forall i | 0 <= i < |d[1..]| ensures !HasKey(p', d[1..][i].0) {
        assert d[1..][i] == d[i + 1];
        GetAppend(p, d[0], d[i + 1].0);
        if d[i + 1].0 == d[0].0 {
          DistinctHead(d, i + 1);
        }
      }
      UpdateOntoPrefix(p', d[1..]);
      assert p' + d[1..] == p + d;
    }
  }

  lemma {:induction false} SetAbsentAppends<V>(d: Dict<V>, k: string, v: V)
    requires !HasKey(d, k)
    ensures Set(d, k, v) == d + [(k, v)]
  {
    if d != [] {
      SetAbsentAppends(d[1..], k, v);
      assert [d[0]] + (d[1..] + [(k, v)]) == d + [(k, v)];
    }
  }

  lemma {:induction false} GetAppend<V>(d: Dict<V>, kv: (string, V), j: string)
    ensures Get(d + [kv], j) == if HasKey(d, j) then Get(d, j) else if kv.0 == j then Some(kv.1) else None
  {
    if d != [] {
      assert (d + [kv])[1..] == d[1..] + [kv];
      GetAppend(d[1..], kv, j);
    }
  }

  /** In a distinct dict no later key equals the first. */
  lemma {:induction false} DistinctHead<V>(d: Dict<V>, i: nat)
    requires Distinct(d) && 0 < i < |d|
    ensures d[i].0 != d[0].0
  {
    GetAt(d[1..], i - 1);
    assert d[1..][i - 1] == d[i];
  }

  /** Every key present at some index is found by Get. */
  lemma {:induction false} GetAt<V>(d: Dict<V>, i: nat)
    requires i < |d|
    ensures HasKey(d, d[i].0)
  {
    if i > 0 && d[0].0 != d[i].0 {
      GetAt(d[1..], i - 1);
      assert d[1..][i - 1] == d[i];
    }
  }

  /** The key sequence lists the pairs' keys position by position. */
  lemma {:induction false} KeysAt<V>(d: Dict<V>)
    ensures forall i :: 0 <= i < |d| ==> Keys(d)[i] == d[i].0
  {
    if d != [] {
      KeysAt(d[1..]);
      assert forall i :: 1 <= i < |d| ==> Keys(d)[i] == Keys(d[1..])[i - 1] && d[1..][i - 1] == d[i];
    }
  }

  /** A key no pair carries is absent. */
  lemma {:induction false} GetMissing<V>(d: Dict<V>, k: string)
    requires forall i :: 0 <= i < |d| ==> d[i].0 != k
    ensures Get(d, k) == None
  {
    if d != [] {
      assert forall i :: 0 <= i < |d[1..]| ==> d[1..][i] == d[i + 1];
      GetMissing(d[1..], k);
    }
  }

  /** In a dict with pairwise distinct keys, each key maps to its pair's value. */
  lemma {:induction false} GetFound<V>(d: Dict<V>, i: nat)
    requires i < |d|
    requires forall j :: 0 <= j < i ==> d[j].0 != d[i].0
    ensures Get(d, d[i].0) == Some(d[i].1)
  {
    if i > 0 {
      assert forall j :: 0 <= j < i - 1 ==> d[1..][j] == d[j + 1];
      GetFound(d[1..], i - 1);
      assert d[1..][i - 1] == d[i];
    }
  }

  /** Pairwise distinct keys make a dict. */
  lemma {:induction false} DistinctByIndex<V>(d: Dict<V>)
    requires forall i, j :: 0 <= i < j < |d| ==> d[i].0 != d[j].0
    ensures Distinct(d)
  {
    if d != [] {
      assert forall i :: 0 <= i < |d[1..]| ==> d[1..][i] == d[i + 1];
      GetMissing(d[1..], d[0].0);
      DistinctByIndex(d[1..]);
    }
  }

  /** A dict written as a literal with pairwise distinct keys `ks`: its key
      sequence is `ks`, each key maps to its own pair's value and no other
      key is present. */
  lemma LiteralDict<V>(d: Dict<V>, ks: seq<string>)
    requires |d| == |ks| && forall i :: 0 <= i < |d| ==> d[i].0 == ks[i]
    requires forall i, j :: 0 <= i < j < |ks| ==> ks[i] != ks[j]
    ensures Keys(d) == ks && Distinct(d)
    ensures forall i :: 0 <= i < |ks| ==> Get(d, ks[i]) == Some(d[i].1)
    ensures forall k :: k !in ks ==> Get(d, k) == None
  {
    KeysAt(d);
    DistinctByIndex(d);
    forall i | 0 <= i < |ks| ensures Get(d, ks[i]) == Some(d[i].1) {
      GetFound(d, i);
    }
    forall k | k !in ks ensures Get(d, k) == None {
      GetMissing(d, k);
    }
  }

  /** Keys that differ in their first character are distinct. */
  lemma DistinctInitials(ks: seq<string>)
    requires forall i :: 0 <= i < |ks| ==> ks[i] != []
    requires forall i, j :: 0 <= i < j < |ks| ==> ks[i][0] != ks[j][0]
    ensures forall i, j :: 0 <= i < j < |ks| ==> ks[i] != ks[j]
  {
  }

  /** Update keeps the keys already there, in their order, in front. */
  lemma {:induction false} KeysUpdatePrefix<V>(d: Dict<V>, kw: Dict<V>)
    ensures |d| <= |Update(d, kw)| && Keys(Update(d, kw))[..|d|] == Keys(d)
    decreases |kw|
  {
    if kw != [] {
      var d' := Set(d, kw[0].0, kw[0].1);
      KeysSet(d, kw[0].0, kw[0].1);
      KeysUpdatePrefix(d', kw[1..]);
      assert Keys(d')[..|d|] == Keys(d);
    }
  }

  /** Removing a key that is not there changes nothing. */
  lemma {:induction false} RemoveAbsent<V>(d: Dict<V>, k: string)
    requires !HasKey(d, k)
    ensures Remove(d, k) == d
  {
    if d != [] {
      RemoveAbsent(d[1..], k);
    }
  }

  /** Assigning a key twice leaves the second value, in the first one's place. */
  lemma {:induction false} SetTwice<V>(d: Dict<V>, k: string, v: V, w: V)
    ensures Set(Set(d, k, v), k, w) == Set(d, k, w)
  {
    if d != [] && d[0].0 != k {
      SetTwice(d[1..], k, v, w);
    }
  }
}
