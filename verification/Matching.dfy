/**
  What CHECKMULTISIG promises: every signature is made by some key, and the keys are used in the
  order in which they are listed. Below: the promise, the one-ended greedy test, and the exchange
  arguments that allow a window of keys and signatures to be closed from either end.
 */
module Matching {
  import opened Bytes

  type Verifier = (bytes, bytes) -> bool

  /** f names, for every signature, the index of the key that made it; indices strictly increase. */
  ghost predicate IsAssignment(verify: Verifier, keys: seq<bytes>, sigs: seq<bytes>, f: seq<nat>) {
    && |f| == |sigs|
    && (forall i :: 0 <= i < |f| ==> f[i] < |keys| && verify(keys[f[i]], sigs[i]))
    && (forall i, j :: 0 <= i < j < |f| ==> f[i] < f[j])
  }

  ghost predicate Matchable(verify: Verifier, keys: seq<bytes>, sigs: seq<bytes>) {
    exists f :: IsAssignment(verify, keys, sigs, f)
  }

  /** The obvious sequential test: walk over the keys once, giving each key the first open signature. */
  predicate Greedy(verify: Verifier, keys: seq<bytes>, sigs: seq<bytes>) {
    if sigs == [] then true
    else if keys == [] then false
    else if verify(keys[0], sigs[0]) then Greedy(verify, keys[1..], sigs[1..])
    else Greedy(verify, keys[1..], sigs)
  }

  // ----- assignments that shift along with the key list

  ghost function Shift(f: seq<nat>, d: int): (r: seq<nat>)
    requires forall i :: 0 <= i < |f| ==> 0 <= f[i] + d
    ensures |r| == |f| && forall i :: 0 <= i < |f| ==> r[i] == f[i] + d
  {
    seq(|f|, i requires 0 <= i < |f| => f[i] + d)
  }

  lemma NoKeyTwice(f: seq<nat>, n: nat)
    requires forall i, j :: 0 <= i < j < |f| ==> f[i] < f[j]
    requires forall i :: 0 <= i < |f| ==> f[i] < n
    ensures |f| <= n
  {
    if |f| > 0 {
      var m := |f| - 1;
      forall i | 0 <= i < m ensures f[..m][i] < f[m] {}
      NoKeyTwice(f[..m], f[m]);
    }
  }

  /** More signatures than keys can never be matched. */
  lemma TooFewKeys(verify: Verifier, keys: seq<bytes>, sigs: seq<bytes>)
    requires Matchable(verify, keys, sigs)
    ensures |sigs| <= |keys|
  {
    var f :| IsAssignment(verify, keys, sigs, f);
    NoKeyTwice(f, |keys|);
  }

  // ----- exchange arguments at the front

  lemma SkipFirstKey(verify: Verifier, keys: seq<bytes>, sigs: seq<bytes>)
    requires |keys| > 0 && |sigs| > 0 && !verify(keys[0], sigs[0])
    ensures Matchable(verify, keys, sigs) <==> Matchable(verify, keys[1..], sigs)
  {
    if Matchable(verify, keys, sigs) {
      var f :| IsAssignment(verify, keys, sigs, f);
      assert f[0] > 0;
      assert IsAssignment(verify, keys[1..], sigs, Shift(f, -1));
    }
    if Matchable(verify, keys[1..], sigs) {
      var f :| IsAssignment(verify, keys[1..], sigs, f);
      assert IsAssignment(verify, keys, sigs, Shift(f, 1));
    }
  }

  lemma TakeFirstKey(verify: Verifier, keys: seq<bytes>, sigs: seq<bytes>)
    requires |keys| > 0 && |sigs| > 0 && verify(keys[0], sigs[0])
    ensures Matchable(verify, keys, sigs) <==> Matchable(verify, keys[1..], sigs[1..])
  {
    if Matchable(verify, keys, sigs) {
      var f :| IsAssignment(verify, keys, sigs, f);
      assert forall i :: 0 < i < |f| ==> f[0] < f[i];
      assert IsAssignment(verify, keys[1..], sigs[1..], Shift(f[1..], -1));
    }
    if Matchable(verify, keys[1..], sigs[1..]) {
      var f :| IsAssignment(verify, keys[1..], sigs[1..], f);
      assert IsAssignment(verify, keys, sigs, [0] + Shift(f, 1));
    }
  }

  // ----- exchange arguments at the back

  lemma SkipLastKey(verify: Verifier, keys: seq<bytes>, sigs: seq<bytes>)
    requires |keys| > 0 && |sigs| > 0 && !verify(keys[|keys| - 1], sigs[|sigs| - 1])
    ensures Matchable(verify, keys, sigs) <==> Matchable(verify, keys[..|keys| - 1], sigs)
  {
    var n, m := |keys| - 1, |sigs| - 1;
    if Matchable(verify, keys, sigs) {
      var f :| IsAssignment(verify, keys, sigs, f);
      assert f[m] < n;
      assert forall i :: 0 <= i < m ==> f[i] < f[m];
      assert IsAssignment(verify, keys[..n], sigs, f);
    }
    if Matchable(verify, keys[..n], sigs) {
      var f :| IsAssignment(verify, keys[..n], sigs, f);
      assert IsAssignment(verify, keys, sigs, f);
    }
  }

  lemma TakeLastKey(verify: Verifier, keys: seq<bytes>, sigs: seq<bytes>)
    requires |keys| > 0 && |sigs| > 0 && verify(keys[|keys| - 1], sigs[|sigs| - 1])
    ensures Matchable(verify, keys, sigs) <==> Matchable(verify, keys[..|keys| - 1], sigs[..|sigs| - 1])
  {
    var n, m := |keys| - 1, |sigs| - 1;
    if Matchable(verify, keys, sigs) {
      var f :| IsAssignment(verify, keys, sigs, f);
      assert forall i :: 0 <= i < m ==> f[i] < f[m];
      assert IsAssignment(verify, keys[..n], sigs[..m], f[..m]);
    }
    if Matchable(verify, keys[..n], sigs[..m]) {
      var f :| IsAssignment(verify, keys[..n], sigs[..m], f);
      assert IsAssignment(verify, keys, sigs, f + [n]);
    }
  }

  // ----- main results

  /** The one-ended greedy test decides the promise. */
  lemma {:induction false} GreedyIsExact(verify: Verifier, keys: seq<bytes>, sigs: seq<bytes>)
    ensures Greedy(verify, keys, sigs) <==> Matchable(verify, keys, sigs)
    decreases |keys|
  {
    if sigs == [] {
      assert IsAssignment(verify, keys, sigs, []);
    } else if keys == [] {
      if Matchable(verify, keys, sigs) { TooFewKeys(verify, keys, sigs); }
    } else if verify(keys[0], sigs[0]) {
      TakeFirstKey(verify, keys, sigs);
      GreedyIsExact(verify, keys[1..], sigs[1..]);
    } else {
      SkipFirstKey(verify, keys, sigs);
      GreedyIsExact(verify, keys[1..], sigs);
    }
  }

  lemma OneSignature(verify: Verifier, keys: seq<bytes>, sig: bytes)
    ensures Matchable(verify, keys, [sig]) <==> exists i :: 0 <= i < |keys| && verify(keys[i], sig)
  {
    var sigs := [sig];
    if Matchable(verify, keys, sigs) {
      var f :| IsAssignment(verify, keys, sigs, f);
      assert verify(keys[f[0]], sigs[0]);
    }
    if i :| 0 <= i < |keys| && verify(keys[i], sig) {
      assert IsAssignment(verify, keys, sigs, [i]);
    }
  }

  function Reverse<T>(s: seq<T>): (r: seq<T>)
    ensures |r| == |s| && forall i :: 0 <= i < |s| ==> r[i] == s[|s| - 1 - i]
  {
    seq(|s|, i requires 0 <= i < |s| => s[|s| - 1 - i])
  }

  lemma ReverseOneWay(verify: Verifier, keys: seq<bytes>, sigs: seq<bytes>)
    requires Matchable(verify, keys, sigs)
    ensures Matchable(verify, Reverse(keys), Reverse(sigs))
  {
    var f :| IsAssignment(verify, keys, sigs, f);
    var n, m := |keys|, |sigs|;
    var g := seq(m, i requires 0 <= i < m => n - 1 - f[m - 1 - i]);
    forall i, j | 0 <= i < j < m ensures g[i] < g[j] {
      assert f[m - 1 - j] < f[m - 1 - i];
    }
    assert IsAssignment(verify, Reverse(keys), Reverse(sigs), g);
  }

  /** Popping both lists from a stack reverses both; the promise does not notice. */
  lemma ReverseBoth(verify: Verifier, keys: seq<bytes>, sigs: seq<bytes>)
    ensures Matchable(verify, Reverse(keys), Reverse(sigs)) <==> Matchable(verify, keys, sigs)
  {
    if Matchable(verify, keys, sigs) { ReverseOneWay(verify, keys, sigs); }
    if Matchable(verify, Reverse(keys), Reverse(sigs)) {
      ReverseOneWay(verify, Reverse(keys), Reverse(sigs));
      assert Reverse(Reverse(keys)) == keys && Reverse(Reverse(sigs)) == sigs;
    }
  }
}
