/** The values a metric record can carry: what json.dumps writes and
    json.loads reads, restricted to the integer numbers. */
module Json {
  import opened Dicts

  datatype Json =
    | JNull
    | JBool(b: bool)
    | JInt(n: int)
    | JStr(s: string)
    | JArr(items: seq<Json>)
    | JObj(members: Dict<Json>)

  /** Python's truth value of the corresponding object (`if x:`). */
  predicate Truthy(v: Json)
  {
    match v
    case JNull => false
    case JBool(b) => b
    case JInt(n) => n != 0
    case JStr(s) => s != []
    case JArr(items) => items != []
    case JObj(members) => members != []
  }

  /** Every object inside has distinct keys, as every Python dict does. */
  predicate Canonical(v: Json)
  {
    match v
    case JArr(items) => ItemsCanonical(items)
    case JObj(members) => Distinct(members) && MembersCanonical(members)
    case _ => true
  }

  predicate ItemsCanonical(items: seq<Json>)
  {
    items == [] || (Canonical(items[0]) && ItemsCanonical(items[1..]))
  }

  predicate MembersCanonical(members: Dict<Json>)
  {
    members == [] || (var (_, v) := members[0]; assert v < members[0]; Canonical(v) && MembersCanonical(members[1..]))
  }

  /** A canonical dict: distinct keys and canonical values. */
  predicate CanonicalDict(d: Dict<Json>)
  {
    Canonical(JObj(d))
  }

  /** Assigning a canonical value keeps a dict canonical. */
  lemma {:induction false} SetKeepsCanonical(d: Dict<Json>, k: string, v: Json)
    requires CanonicalDict(d) && Canonical(v)
    ensures CanonicalDict(Set(d, k, v))
  {
    SetKeepsDistinct(d, k, v);
    SetKeepsMembersCanonical(d, k, v);
  }

  lemma {:induction false} SetKeepsMembersCanonical(d: Dict<Json>, k: string, v: Json)
    requires MembersCanonical(d) && Canonical(v)
    ensures MembersCanonical(Set(d, k, v))
  {
    if d != [] && d[0].0 != k {
      SetKeepsMembersCanonical(d[1..], k, v);
      assert Set(d, k, v)[1..] == Set(d[1..], k, v);
    } else if d != [] {
      assert Set(d, k, v)[1..] == d[1..];
    }
  }

  lemma {:induction false} UpdateKeepsCanonical(d: Dict<Json>, kw: Dict<Json>)
    requires CanonicalDict(d) && MembersCanonical(kw)
    ensures CanonicalDict(Update(d, kw))
    decreases |kw|
  {
    if kw != [] {
      SetKeepsCanonical(d, kw[0].0, kw[0].1);
      UpdateKeepsCanonical(Set(d, kw[0].0, kw[0].1), kw[1..]);
    }
  }

  lemma {:induction false} RemoveKeepsCanonical(d: Dict<Json>, k: string)
    requires CanonicalDict(d)
    ensures CanonicalDict(Remove(d, k))
  {
    RemoveKeepsDistinct(d, k);
    RemoveKeepsMembersCanonical(d, k);
  }

  lemma {:induction false} RemoveKeepsMembersCanonical(d: Dict<Json>, k: string)
    requires MembersCanonical(d)
    ensures MembersCanonical(Remove(d, k))
  {
    if d != [] && d[0].0 != k {
      RemoveKeepsMembersCanonical(d[1..], k);
      assert Remove(d, k)[1..] == Remove(d[1..], k);
    }
  }

  /** The values of a canonical dict are canonical. */
  lemma {:induction false} GetCanonical(d: Dict<Json>, k: string)
    requires MembersCanonical(d) && HasKey(d, k)
    ensures Canonical(Get(d, k).value)
  {
    if d[0].0 != k {
      GetCanonical(d[1..], k);
    }
  }

  /** Members whose every value is canonical. */
  lemma {:induction false} MembersCanonicalByIndex(members: Dict<Json>)
    requires forall i :: 0 <= i < |members| ==> Canonical(members[i].1)
    ensures MembersCanonical(members)
  {
    if members != [] {
      assert forall i :: 0 <= i < |members[1..]| ==> members[1..][i] == members[i + 1];
      MembersCanonicalByIndex(members[1..]);
    }
  }

  lemma CanonicalDictByIndex(d: Dict<Json>)
    requires Distinct(d) && forall i :: 0 <= i < |d| ==> Canonical(d[i].1)
    ensures CanonicalDict(d)
  {
    MembersCanonicalByIndex(d);
  }
}
