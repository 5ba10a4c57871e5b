/**
  The coordinator of the parallel multi-signature check. It holds a window [k1..k2] of keys and
  [s1..s2] of signatures, keeps one verification outstanding at either end, and closes the window
  as results come back, in whatever order they do.
 */
module MultisigPar {
  import opened Bytes
  import opened Matching

  /** What a worker reports: which signature was tried, and whether the key it was tried with made it. */
  datatype Verdict = Verdict(ok: bool, signum: int)

  /** The coordinator's variables. */
  datatype Coord = Coord(k1: int, k2: int, s1: int, s2: int, taskCount: int, sigok: bool)

  /** What the coordinator does with one result: wait for the other one, leave the loop, or send a task. */
  datatype Decision =
    | Wait(c: Coord)
    | Stop(c: Coord)
    | Send(c: Coord, key: int, signum: int)

  /** One turn of the coordinator's loop. */
  function OnResult(c0: Coord, r: Verdict): Decision
  {
    var c := c0.(taskCount := c0.taskCount - 1);
    var goingForward := r.signum != c.s2;
    if c.k1 + 1 == c.k2 then
      var c := c.(sigok := r.ok && c.s1 + 1 == c.s2);
      if c.taskCount != 0 && c.sigok then Wait(c) else Stop(c)
    else if r.ok && c.s1 + 1 == c.s2 then
      if c.taskCount != 0 && c.sigok then Wait(c) else Stop(c)
    else
      var s1 := if r.ok && goingForward then c.s1 + 1 else c.s1;
      var s2 := if r.ok && !goingForward then c.s2 - 1 else c.s2;
      var c := c.(s1 := s1, s2 := s2, taskCount := c.taskCount + 1);
      if goingForward then Send(c.(k1 := c.k1 + 1), c.k1 + 1, s1)
      else Send(c.(k2 := c.k2 - 1), c.k2 - 1, s2)
  }

  // ----- the invariant

  ghost predicate InBounds(keys: seq<bytes>, sigs: seq<bytes>, c: Coord) {
    0 <= c.k1 < c.k2 < |keys| && 0 <= c.s1 < c.s2 < |sigs|
  }

  /** The open window can be matched exactly when the whole problem can. */
  ghost predicate Window(verify: Verifier, keys: seq<bytes>, sigs: seq<bytes>, c: Coord)
    requires InBounds(keys, sigs, c)
  {
    Matchable(verify, keys[c.k1..c.k2 + 1], sigs[c.s1..c.s2 + 1]) <==> Matchable(verify, keys, sigs)
  }

  function VerdictOf(verify: Verifier, keys: seq<bytes>, sigs: seq<bytes>, key: int, signum: int): Verdict
    requires 0 <= key < |keys| && 0 <= signum < |sigs|
  {
    Verdict(verify(keys[key], sigs[signum]), signum)
  }

  /** A result still to come from one end of the window, if a task has been sent there and not come back. */
  datatype Slot = Free | Due(v: Verdict)

  function Count(front: Slot, back: Slot): int {
    (if front.Due? then 1 else 0) + (if back.Due? then 1 else 0)
  }

  /**
    Both ends of the window are being tried; or only two signatures are left, one of them has found its
    key, and the other one is being tried.
   */
  ghost predicate Outstanding(verify: Verifier, keys: seq<bytes>, sigs: seq<bytes>, c: Coord, front: Slot, back: Slot)
    requires InBounds(keys, sigs, c)
  {
    var fwd := VerdictOf(verify, keys, sigs, c.k1, c.s1);
    var bwd := VerdictOf(verify, keys, sigs, c.k2, c.s2);
    && (front == Due(fwd) || (front == Free && fwd.ok && c.s1 + 1 == c.s2 && back.Due?))
    && (back == Due(bwd) || (back == Free && bwd.ok && c.s1 + 1 == c.s2 && front.Due?))
  }

  ghost predicate Inv(verify: Verifier, keys: seq<bytes>, sigs: seq<bytes>, c: Coord, front: Slot, back: Slot) {
    && InBounds(keys, sigs, c)
    && Window(verify, keys, sigs, c)
    && Outstanding(verify, keys, sigs, c, front, back)
    && c.taskCount == Count(front, back)
    && c.sigok
  }

  // ----- closing the window

  lemma CloseFront(verify: Verifier, keys: seq<bytes>, sigs: seq<bytes>, c: Coord)
    requires InBounds(keys, sigs, c) && Window(verify, keys, sigs, c)
    requires c.k1 + 1 < c.k2
    ensures verify(keys[c.k1], sigs[c.s1]) && c.s1 + 1 < c.s2 ==>
              Window(verify, keys, sigs, c.(k1 := c.k1 + 1, s1 := c.s1 + 1))
    ensures !verify(keys[c.k1], sigs[c.s1]) ==> Window(verify, keys, sigs, c.(k1 := c.k1 + 1))
  {
    var ks, ss := keys[c.k1..c.k2 + 1], sigs[c.s1..c.s2 + 1];
    assert ks[1..] == keys[c.k1 + 1..c.k2 + 1] && ss[1..] == sigs[c.s1 + 1..c.s2 + 1];
    if verify(keys[c.k1], sigs[c.s1]) { TakeFirstKey(verify, ks, ss); } else { SkipFirstKey(verify, ks, ss); }
  }

  lemma CloseBack(verify: Verifier, keys: seq<bytes>, sigs: seq<bytes>, c: Coord)
    requires InBounds(keys, sigs, c) && Window(verify, keys, sigs, c)
    requires c.k1 + 1 < c.k2
    ensures verify(keys[c.k2], sigs[c.s2]) && c.s1 + 1 < c.s2 ==>
              Window(verify, keys, sigs, c.(k2 := c.k2 - 1, s2 := c.s2 - 1))
    ensures !verify(keys[c.k2], sigs[c.s2]) ==> Window(verify, keys, sigs, c.(k2 := c.k2 - 1))
  {
    var ks, ss := keys[c.k1..c.k2 + 1], sigs[c.s1..c.s2 + 1];
    assert ks[..|ks| - 1] == keys[c.k1..c.k2] && ss[..|ss| - 1] == sigs[c.s1..c.s2];
    if verify(keys[c.k2], sigs[c.s2]) { TakeLastKey(verify, ks, ss); } else { SkipLastKey(verify, ks, ss); }
  }

  /** Both ends found: a window with two signatures left is matched. */
  lemma BothEndsFound(verify: Verifier, keys: seq<bytes>, sigs: seq<bytes>, c: Coord)
    requires InBounds(keys, sigs, c) && Window(verify, keys, sigs, c)
    requires c.s1 + 1 == c.s2
    requires verify(keys[c.k1], sigs[c.s1]) && verify(keys[c.k2], sigs[c.s2])
    ensures Matchable(verify, keys, sigs)
  {
    assert IsAssignment(verify, keys[c.k1..c.k2 + 1], sigs[c.s1..c.s2 + 1], [0, c.k2 - c.k1]);
  }

  /** A window of two keys is matched only by two signatures, each by its own key. */
  lemma LastTwoKeys(verify: Verifier, keys: seq<bytes>, sigs: seq<bytes>, c: Coord)
    requires InBounds(keys, sigs, c) && Window(verify, keys, sigs, c)
    requires c.k1 + 1 == c.k2
    ensures Matchable(verify, keys, sigs) <==>
              c.s1 + 1 == c.s2 && verify(keys[c.k1], sigs[c.s1]) && verify(keys[c.k2], sigs[c.s2])
  {
    var ks, ss := keys[c.k1..c.k2 + 1], sigs[c.s1..c.s2 + 1];
    if Matchable(verify, keys, sigs) {
      TooFewKeys(verify, ks, ss);
      var f :| IsAssignment(verify, ks, ss, f);
      assert f[0] < f[1];
    } else if c.s1 + 1 == c.s2 && verify(keys[c.k1], sigs[c.s1]) && verify(keys[c.k2], sigs[c.s2]) {
      BothEndsFound(verify, keys, sigs, c);
    }
  }

  // ----- the loop keeps the invariant and stops with the right answer

  /**
    What a decision on a result from the front (or back) must give, with `front` and `back` what is left
    outstanding: the invariant again, over a shorter window if a task is sent, or the answer.
   */
  ghost predicate GoodDecision(verify: Verifier, keys: seq<bytes>, sigs: seq<bytes>, c: Coord, d: Decision,
                               forward: bool, front: Slot, back: Slot) {
    match d
    case Wait(c') =>
      && Inv(verify, keys, sigs, c', front, back)
      && c'.k1 == c.k1 && c'.k2 == c.k2
    case Stop(c') =>
      c'.sigok <==> Matchable(verify, keys, sigs)
    case Send(c', key, signum) =>
      && 0 <= key < |keys| && 0 <= signum < |sigs|
      && c'.k1 == (if forward then c.k1 + 1 else c.k1) && c'.k2 == (if forward then c.k2 else c.k2 - 1)
      && key == (if forward then c'.k1 else c'.k2)
      && var due := Due(VerdictOf(verify, keys, sigs, key, signum));
         Inv(verify, keys, sigs, c', if forward then due else front, if forward then back else due)
  }

  lemma FrontResult(verify: Verifier, keys: seq<bytes>, sigs: seq<bytes>, c: Coord, front: Slot, back: Slot)
    requires Inv(verify, keys, sigs, c, front, back) && front.Due?
    ensures front.v.signum != c.s2
    ensures GoodDecision(verify, keys, sigs, c, OnResult(c, front.v), true, Free, back)
  {
    if c.k1 + 1 == c.k2 {
      LastTwoKeys(verify, keys, sigs, c);
    } else if front.v.ok && c.s1 + 1 == c.s2 {
      if back.Free? { BothEndsFound(verify, keys, sigs, c); }
    } else {
      CloseFront(verify, keys, sigs, c);
    }
  }

  lemma BackResult(verify: Verifier, keys: seq<bytes>, sigs: seq<bytes>, c: Coord, front: Slot, back: Slot)
    requires Inv(verify, keys, sigs, c, front, back) && back.Due?
    ensures back.v.signum == c.s2
    ensures GoodDecision(verify, keys, sigs, c, OnResult(c, back.v), false, front, Free)
  {
    if c.k1 + 1 == c.k2 {
      LastTwoKeys(verify, keys, sigs, c);
    } else if back.v.ok && c.s1 + 1 == c.s2 {
      if front.Free? { BothEndsFound(verify, keys, sigs, c); }
    } else {
      CloseBack(verify, keys, sigs, c);
    }
  }

  /** Whichever outstanding result arrives, the coordinator keeps its invariant or stops with the right answer. */
  lemma AnyResult(verify: Verifier, keys: seq<bytes>, sigs: seq<bytes>, c: Coord, front: Slot, back: Slot,
                  fromFront: bool)
    requires Inv(verify, keys, sigs, c, front, back)
    requires if fromFront then front.Due? else back.Due?
    ensures var r := if fromFront then front.v else back.v;
            && (fromFront <==> r.signum != c.s2)
            && GoodDecision(verify, keys, sigs, c, OnResult(c, r), fromFront,
                            if fromFront then Free else front, if fromFront then back else Free)
  {
    if fromFront {
      FrontResult(verify, keys, sigs, c, front, back);
    } else {
      BackResult(verify, keys, sigs, c, front, back);
    }
  }

  /** The window before the loop is the whole problem. */
  lemma InvAtStart(verify: Verifier, keys: seq<bytes>, sigs: seq<bytes>)
    requires 2 <= |sigs| <= |keys|
    ensures var c := Coord(0, |keys| - 1, 0, |sigs| - 1, 2, true);
            Inv(verify, keys, sigs, c,
                Due(VerdictOf(verify, keys, sigs, c.k1, c.s1)), Due(VerdictOf(verify, keys, sigs, c.k2, c.s2)))
  {
    assert keys[0..|keys| - 1 + 1] == keys && sigs[0..|sigs| - 1 + 1] == sigs;
  }

  // ----- the code

  method CheckMultisig1(verify: Verifier, pkeys: seq<bytes>, sig: bytes) returns (ok: bool)
    ensures ok <==> exists i :: 0 <= i < |pkeys| && verify(pkeys[i], sig)
    ensures ok <==> Matchable(verify, pkeys, [sig])
  {
    for i := 0 to |pkeys|
      invariant forall j :: 0 <= j < i ==> !verify(pkeys[j], sig)
    {
      if verify(pkeys[i], sig) {
        OneSignature(verify, pkeys, sig);
        return true;
      }
    }
    OneSignature(verify, pkeys, sig);
    return false;
  }

  /**
    The parallel check. `front` and `back` are the results still to come from the two ends; which of
    them comes next is up to the scheduler. On every schedule the loop ends, and the answer is the promise.
   */
  method CheckMultisigPar(verify: Verifier, pkeys: seq<bytes>, sigs: seq<bytes>) returns (sigok: bool)
    requires 1 <= |sigs| <= |pkeys|
    ensures sigok <==> Matchable(verify, pkeys, sigs)
  {
    if |sigs| == 1 {
      sigok := CheckMultisig1(verify, pkeys, sigs[0]);
      assert sigs == [sigs[0]];
      return;
    }

    var k1, k2 := 0, |pkeys| - 1;
    var s1, s2 := 0, |sigs| - 1;
    var front := Due(VerdictOf(verify, pkeys, sigs, k1, s1));
    var back := Due(VerdictOf(verify, pkeys, sigs, k2, s2));
    sigok := true;
    var taskCount := 2;
    InvAtStart(verify, pkeys, sigs);

    while true
      invariant Inv(verify, pkeys, sigs, Coord(k1, k2, s1, s2, taskCount, sigok), front, back)
      decreases k2 - k1, taskCount
    {
      var fromFront: bool :| if fromFront then front.Due? else back.Due?;
      AnyResult(verify, pkeys, sigs, Coord(k1, k2, s1, s2, taskCount, sigok), front, back, fromFront);
      var r := if fromFront then front.v else back.v;
      front, back := if fromFront then Free else front, if fromFront then back else Free;

      var goingForward := true;
      taskCount := taskCount - 1;
      if r.signum == s2 {
        goingForward := false;
      }
      if k1 + 1 == k2 {
        sigok := r.ok && s1 + 1 == s2;
        if taskCount != 0 && sigok {
          continue;
        }
        return;
      } else if r.ok {
        if s1 + 1 == s2 {
          if taskCount != 0 && sigok {
            continue;
          }
          return;
        }
        if goingForward {
          s1 := s1 + 1;
        } else {
          s2 := s2 - 1;
        }
      }

      taskCount := taskCount + 1;
      if goingForward {
        k1 := k1 + 1;
        front := Due(VerdictOf(verify, pkeys, sigs, k1, s1));
      } else {
        k2 := k2 - 1;
        back := Due(VerdictOf(verify, pkeys, sigs, k2, s2));
      }
    }
  }

  /** Parallel, sequential and promised answers agree. */
  method CheckMultisigParIsGreedy(verify: Verifier, pkeys: seq<bytes>, sigs: seq<bytes>) returns (sigok: bool)
    requires 1 <= |sigs| <= |pkeys|
    ensures sigok <==> Greedy(verify, pkeys, sigs)
  {
    sigok := CheckMultisigPar(verify, pkeys, sigs);
    GreedyIsExact(verify, pkeys, sigs);
  }
}
