/** The three ways in which a stack of values changes shape. */
module SeqOps {
  /** x put in at position k. */
  function Inserted<T>(s: seq<T>, k: nat, x: T): (r: seq<T>)
    requires k <= |s|
    ensures |r| == |s| + 1
    ensures forall i {:trigger r[i]} :: 0 <= i < |r| ==> r[i] == if i < k then s[i] else if i == k then x else s[i - 1]
  {
    seq(|s| + 1, i requires 0 <= i < |s| + 1 => if i < k then s[i] else if i == k then x else s[i - 1])
  }

  /** The member at position k taken out. */
  function Removed<T>(s: seq<T>, k: nat): (r: seq<T>)
    requires k < |s|
    ensures |r| == |s| - 1
    ensures forall i {:trigger r[i]} :: 0 <= i < |r| ==> r[i] == if i < k then s[i] else s[i + 1]
  {
    seq(|s| - 1, i requires 0 <= i < |s| - 1 => if i < k then s[i] else s[i + 1])
  }

  /** The member at position k moved to position j, the ones before it moved down. */
  function Lifted<T>(s: seq<T>, j: nat, k: nat): (r: seq<T>)
    requires j <= k < |s|
    ensures |r| == |s|
    ensures forall i {:trigger r[i]} :: 0 <= i < |r| ==>
              r[i] == if i == j then s[k] else if j < i <= k then s[i - 1] else s[i]
  {
    seq(|s|, i requires 0 <= i < |s| => if i == j then s[k] else if j < i <= k then s[i - 1] else s[i])
  }

  lemma InsertedMembers<T>(s: seq<T>, k: nat, x: T)
    requires k <= |s|
    ensures forall y :: y in Inserted(s, k, x) <==> y == x || y in s
  {
    var r := Inserted(s, k, x);
    forall y | y in s ensures y in r {
      var i :| 0 <= i < |s| && s[i] == y;
      assert r[if i < k then i else i + 1] == y;
    }
    assert r[k] == x;
  }

  lemma RemovedMembers<T>(s: seq<T>, k: nat)
    requires k < |s|
    ensures forall y :: y in s <==> y == s[k] || y in Removed(s, k)
  {
    var r := Removed(s, k);
    forall y | y in s && y != s[k] ensures y in r {
      var i :| 0 <= i < |s| && s[i] == y;
      assert r[if i < k then i else i - 1] == y;
    }
  }

  lemma LiftedMembers<T>(s: seq<T>, j: nat, k: nat)
    requires j <= k < |s|
    ensures forall y :: y in Lifted(s, j, k) <==> y in s
  {
    var r := Lifted(s, j, k);
    forall y | y in s ensures y in r {
      var i :| 0 <= i < |s| && s[i] == y;
      assert r[if i == k then j else if j <= i < k then i + 1 else i] == y;
    }
  }

  /** Bringing an element forward is taking it out and putting it in. */
  lemma LiftedInTwo<T>(s: seq<T>, k: nat)
    requires 1 <= k < |s|
    ensures Inserted(Removed(s, k), 1, s[k]) == Lifted(s, 1, k)
  {
  }

  lemma Slices<T>(s: seq<T>, k: nat, x: T)
    requires k < |s|
    ensures Inserted(s, k, x) == s[..k] + [x] + s[k..]
    ensures Removed(s, k) == s[..k] + s[k + 1..]
    ensures Lifted(s, 0, k) == [s[k]] + s[..k] + s[k + 1..]
  {
  }

  lemma PrefixGrows<T>(s: seq<T>, k: nat)
    requires k < |s|
    ensures s[..k + 1] == s[..k] + [s[k]]
  {
  }

  lemma WholePrefix<T>(s: seq<T>)
    ensures s[..|s|] == s && s[..0] == [] && s[0..] == s
  {
  }
}
