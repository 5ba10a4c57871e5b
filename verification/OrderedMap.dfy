/**
  A map item is a list of key-value pairs. Its keys are primitives, pairwise unequal; it refines a
  finite map from the bytes of the keys to values, and keeps the order in which keys were first added.
 */
module OrderedMap {
  import opened Options
  import opened Bytes
  import opened TwosComplement
  import opened Items
  import opened SeqOps
  import opened Equality

  predicate IsValidMapKey(key: StackItem) { IsPrimitive(key) }

  function KeyBytes(key: StackItem): bytes
    requires IsValidMapKey(key)
  {
    TryBytes(key).value
  }

  ghost predicate ValidKeys(es: seq<MapElement>) {
    forall i {:trigger es[i]} :: 0 <= i < |es| ==> IsValidMapKey(es[i].key)
  }

  ghost predicate DistinctKeys(es: seq<MapElement>) {
    && ValidKeys(es)
    && (forall i, j :: 0 <= i < j < |es| ==> KeyBytes(es[i].key) != KeyBytes(es[j].key))
  }

  /** The finite map that the list stands for: the value filed under key bytes, if there is one. */
  ghost function Get(es: seq<MapElement>, k: bytes): Option<StackItem>
    requires ValidKeys(es)
  {
    if es == [] then None
    else if KeyBytes(es[0].key) == k then Some(es[0].value)
    else Get(es[1..], k)
  }

  /** The place where a key is filed; behind the last pair if it is new. */
  ghost function Place(es: seq<MapElement>, k: bytes): (p: nat)
    requires ValidKeys(es)
    ensures p <= |es| && (p < |es| ==> KeyBytes(es[p].key) == k)
    ensures p == |es| <==> Get(es, k) == None
    ensures forall i :: 0 <= i < p ==> KeyBytes(es[i].key) != k
  {
    if es == [] then 0
    else if KeyBytes(es[0].key) == k then 0
    else Place(es[1..], k) + 1
  }

  /** The list with a value filed under a key: an old key keeps its place and its form. */
  ghost function Filed(es: seq<MapElement>, key: StackItem, value: StackItem): seq<MapElement>
    requires ValidKeys(es) && IsValidMapKey(key)
  {
    var p := Place(es, KeyBytes(key));
    if p < |es| then es[p := MapElement(es[p].key, value)] else es + [MapElement(key, value)]
  }

  /** The list without the pair of a key. */
  ghost function Unfiled(es: seq<MapElement>, k: bytes): seq<MapElement>
    requires ValidKeys(es)
  {
    if Place(es, k) < |es| then Removed(es, Place(es, k)) else es
  }

  function Keys(es: seq<MapElement>): (ks: seq<StackItem>)
    ensures |ks| == |es| && forall i :: 0 <= i < |es| ==> ks[i] == es[i].key
  {
    seq(|es|, i requires 0 <= i < |es| => es[i].key)
  }

  lemma KeysEqualByBytes(a: StackItem, b: StackItem)
    requires IsValidMapKey(a) && IsValidMapKey(b)
    ensures FlatEquals(a, b) <==> KeyBytes(a) == KeyBytes(b)
  {
    if a.BigInteger? && b.BigInteger? && Encode(a.n) == Encode(b.n) { EncodeInjective(a.n, b.n); }
  }

  lemma {:induction false} GetAt(es: seq<MapElement>, i: nat)
    requires DistinctKeys(es) && i < |es|
    ensures Get(es, KeyBytes(es[i].key)) == Some(es[i].value)
  {
    if i > 0 { GetAt(es[1..], i - 1); }
  }

  lemma {:induction false} GetMissing(es: seq<MapElement>, k: bytes)
    requires ValidKeys(es)
    ensures Get(es, k) == None <==> forall i :: 0 <= i < |es| ==> KeyBytes(es[i].key) != k
  {
    if es != [] {
      GetMissing(es[1..], k);
      assert forall i :: 1 <= i < |es| ==> es[i] == es[1..][i - 1];
    }
  }

  lemma {:induction false} GetReplaced(es: seq<MapElement>, i: nat, v: StackItem, k: bytes)
    requires DistinctKeys(es) && i < |es|
    ensures var es' := es[i := MapElement(es[i].key, v)];
            DistinctKeys(es') && Get(es', k) == if k == KeyBytes(es[i].key) then Some(v) else Get(es, k)
  {
    var es' := es[i := MapElement(es[i].key, v)];
    if i == 0 {
      assert es'[1..] == es[1..];
    } else {
      assert es'[1..] == es[1..][i - 1 := MapElement(es[i].key, v)];
      GetReplaced(es[1..], i - 1, v, k);
    }
  }

  lemma {:induction false} GetAppended(es: seq<MapElement>, e: MapElement, k: bytes)
    requires ValidKeys(es) && IsValidMapKey(e.key) && Get(es, KeyBytes(e.key)) == None
    ensures ValidKeys(es + [e])
    ensures Get(es + [e], k) == if k == KeyBytes(e.key) then Some(e.value) else Get(es, k)
  {
    if es != [] {
      assert (es + [e])[1..] == es[1..] + [e];
      GetAppended(es[1..], e, k);
    }
  }

  lemma {:induction false} GetRemoved(es: seq<MapElement>, i: nat, k: bytes)
    requires DistinctKeys(es) && i < |es|
    ensures DistinctKeys(Removed(es, i))
    ensures Get(Removed(es, i), k) == if k == KeyBytes(es[i].key) then None else Get(es, k)
  {
    var es' := Removed(es, i);
    if i == 0 {
      assert es' == es[1..];
      if k == KeyBytes(es[0].key) { GetMissing(es', k); }
    } else {
      assert es'[1..] == Removed(es[1..], i - 1);
      GetRemoved(es[1..], i - 1, k);
    }
  }

  // ----- the code

  method Index(m: MapItem, key: StackItem) returns (index: int)
    requires DistinctKeys(m.value) && IsValidMapKey(key)
    ensures -1 <= index < |m.value|
    ensures index >= 0 ==> KeyBytes(m.value[index].key) == KeyBytes(key)
    ensures index < 0 <==> Get(m.value, KeyBytes(key)) == None
    ensures index >= 0 ==> index == Place(m.value, KeyBytes(key))
  {
    GetMissing(m.value, KeyBytes(key));
    for k := 0 to |m.value|
      invariant forall j :: 0 <= j < k ==> KeyBytes(m.value[j].key) != KeyBytes(key)
    {
      KeysEqualByBytes(m.value[k].key, key);
      if FlatEquals(m.value[k].key, key) {
        return k;
      }
    }
    return -1;
  }

  /** A key that is there keeps its place and its form; a new key goes to the end; a bad key is refused. */
  method Add(m: MapItem, key: StackItem, value: StackItem) returns (ok: bool)
    requires DistinctKeys(m.value)
    modifies m
    ensures ok <==> IsValidMapKey(key)
    ensures !ok ==> m.value == old(m.value)
    ensures DistinctKeys(m.value)
    ensures ok ==> forall k :: Get(m.value, k) == if k == KeyBytes(key) then Some(value) else old(Get(m.value, k))
    ensures ok ==> m.value == Filed(old(m.value), key, value)
    ensures ok ==> Keys(m.value) == old(Keys(m.value)) + if old(Get(m.value, KeyBytes(key))) == None then [key] else []
  {
    if !IsValidMapKey(key) {
      return false;
    }
    var index := Index(m, key);
    ghost var es := m.value;
    if index >= 0 {
      m.value := m.value[index := MapElement(m.value[index].key, value)];
      forall k
        ensures DistinctKeys(m.value) && Get(m.value, k) == if k == KeyBytes(key) then Some(value) else Get(es, k)
      {
        GetReplaced(es, index, value, k);
      }
    } else {
      m.value := m.value + [MapElement(key, value)];
      AppendDistinct(es, MapElement(key, value));
      forall k ensures Get(m.value, k) == if k == KeyBytes(key) then Some(value) else Get(es, k) {
        GetAppended(es, MapElement(key, value), k);
      }
    }
    return true;
  }

  lemma AppendDistinct(es: seq<MapElement>, e: MapElement)
    requires DistinctKeys(es) && IsValidMapKey(e.key) && Get(es, KeyBytes(e.key)) == None
    ensures DistinctKeys(es + [e])
  {
    GetMissing(es, KeyBytes(e.key));
  }

  /** The pairs behind the index are copied down and the list is cut. */
  method Drop(m: MapItem, index: nat)
    requires DistinctKeys(m.value) && index < |m.value|
    modifies m
    ensures DistinctKeys(m.value) && m.value == Removed(old(m.value), index)
    ensures forall k :: Get(m.value, k) == if k == old(KeyBytes(m.value[index].key)) then None else old(Get(m.value, k))
  {
    ghost var es := m.value;
    m.value := m.value[..index] + m.value[index + 1..] + [m.value[|m.value| - 1]];
    m.value := m.value[..|m.value| - 1];
    assert m.value == Removed(es, index);
    forall k
      ensures DistinctKeys(m.value) && Get(m.value, k) == if k == KeyBytes(es[index].key) then None else Get(es, k)
    {
      GetRemoved(es, index, k);
    }
  }
}
