/**
  What runs of the stack opcodes do to the stacks, said without the functions that compute single opcodes: which
  items stay, which are copied and to where, and which opcodes are short for others.
 */
module StackLaws {
  import opened Options
  import opened Items
  import opened Conversions
  import opened NumberNames
  import opened SeqOps
  import opened StackOps
  import opened StackRuns

  /** The run goes through and turns p into q. */
  predicate Leads(code: seq<Instr>, p: Pair, q: Pair) { RunOf(code, p) == Some(q) }

  type int64 = i: int | -0x8000_0000_0000_0000 <= i < 0x8000_0000_0000_0000

  function Number(n: int64): Instr { Push(BigInteger(n)) }

  lemma RunOne(i: Instr, p: Pair)
    ensures RunOf([i], p) == Stepped(i, p)
  {
    assert [i][1..] == [];
  }

  lemma RunTwo(i: Instr, j: Instr, p: Pair)
    ensures RunOf([i, j], p) == match Stepped(i, p) case None => None case Some(q) => Stepped(j, q)
  {
    assert [i, j][1..] == [j];
    if Stepped(i, p) != None { RunOne(j, Stepped(i, p).value); }
  }

  lemma NumberIs(n: int64)
    ensures NumberOf(BigInteger(n)) == Some(n)
  {
  }

  lemma ShuffledAt(op: Shuffle, n: int64, s: seq<StackItem>)
    requires TakesNumber(op)
    ensures Shuffled(op, [BigInteger(n)] + s) == AtDepth(op, n, s)
  {
    NumberIs(n);
    assert ([BigInteger(n)] + s)[0] == BigInteger(n) && ([BigInteger(n)] + s)[1..] == s;
  }

  lemma Numbered(op: Shuffle, n: int64, p: Pair)
    requires TakesNumber(op)
    ensures RunOf([Number(n), OnEval(op)], p) ==
            match AtDepth(op, n, p.e) case None => None case Some(e) => Some(Pair(e, p.a))
  {
    RunTwo(Number(n), OnEval(op), p);
    ShuffledAt(op, n, p.e);
  }

  /** Any item that names the number will do. */
  lemma NumberedByAny(op: Shuffle, x: StackItem, n: int64, p: Pair)
    requires TakesNumber(op) && Names(x, n)
    ensures RunOf([Push(x), OnEval(op)], p) == RunOf([Number(n), OnEval(op)], p)
  {
    NamedNumber(x, n);
    Numbered(op, n, p);
    RunTwo(Push(x), OnEval(op), p);
    assert ([x] + p.e)[0] == x && ([x] + p.e)[1..] == p.e;
  }

  // ----- what is moved

  /** The items of both stacks. */
  ghost function Everything(p: Pair): multiset<StackItem> { multiset(p.e) + multiset(p.a) }

  /** The item d deep is taken out and goes in at the top; the others keep their order. */
  predicate Lifts(d: nat, s: seq<StackItem>, r: seq<StackItem>) {
    d < |s| == |r| && r[0] == s[d] && r[1..] == s[..d] + s[d + 1..]
  }

  /** A copy of the item d deep is put in at depth at; the others keep their order. */
  predicate Copies(d: nat, at: nat, s: seq<StackItem>, r: seq<StackItem>) {
    d < |s| && at <= |s| && |r| == |s| + 1 && r[at] == s[d] && r[..at] + r[at + 1..] == s
  }

  /** The item d deep goes. */
  predicate Loses(d: nat, s: seq<StackItem>, r: seq<StackItem>) { d < |s| && r == s[..d] + s[d + 1..] }

  /** The items d deep and on top change places. */
  predicate Exchanges(d: nat, s: seq<StackItem>, r: seq<StackItem>) {
    && d < |s| == |r| && r[0] == s[d] && r[d] == s[0]
    && forall i :: 0 < i < |s| && i != d ==> r[i] == s[i]
  }

  lemma LiftKeeps(d: nat, s: seq<StackItem>, r: seq<StackItem>)
    requires Lifts(d, s, r)
    ensures multiset(r) == multiset(s)
  {
    assert r == [r[0]] + r[1..];
    assert s == s[..d] + [s[d]] + s[d + 1..];
  }

  lemma ExchangeKeeps(d: nat, s: seq<StackItem>, r: seq<StackItem>)
    requires Exchanges(d, s, r)
    ensures multiset(r) == multiset(s)
  {
    assert r == s[d := s[0]][0 := s[d]];
  }

  lemma CopyAdds(d: nat, at: nat, s: seq<StackItem>, r: seq<StackItem>)
    requires Copies(d, at, s, r)
    ensures multiset(r) == multiset(s) + multiset{s[d]}
  {
    assert r == r[..at] + [r[at]] + r[at + 1..];
  }

  lemma LossTakes(d: nat, s: seq<StackItem>, r: seq<StackItem>)
    requires Loses(d, s, r)
    ensures multiset(s) == multiset(r) + multiset{s[d]}
  {
    assert s == s[..d] + [s[d]] + s[d + 1..];
  }

  // ----- single opcodes, with their number if they take one

  /** ROLL, SWAP, ROT and XSWAP move what is there, and go through exactly if it is. */
  lemma RollLaw(n: int64, p: Pair, q: Pair)
    ensures Leads([Number(n), OnEval(Roll)], p, q) <==> 0 <= n && Lifts(n, p.e, q.e) && q.a == p.a
  {
    Numbered(Roll, n, p);
    if 0 <= n < |p.e| { assert [p.e[n]] + p.e[..n] + p.e[n + 1..] == [p.e[n]] + (p.e[..n] + p.e[n + 1..]); }
    if 0 <= n && Lifts(n, p.e, q.e) { assert q.e == [q.e[0]] + q.e[1..]; }
  }

  lemma XSwapLaw(n: int64, p: Pair, q: Pair)
    ensures Leads([Number(n), OnEval(XSwap)], p, q) <==> 0 <= n && Exchanges(n, p.e, q.e) && q.a == p.a
  {
    Numbered(XSwap, n, p);
    if 0 <= n && Exchanges(n, p.e, q.e) { assert q.e == p.e[n := p.e[0]][0 := p.e[n]]; }
  }

  lemma SwapLaw(p: Pair, q: Pair)
    ensures Leads([OnEval(Swap)], p, q) <==> Exchanges(1, p.e, q.e) && q.a == p.a
  {
    RunOne(OnEval(Swap), p);
    if Exchanges(1, p.e, q.e) { assert q.e == [p.e[1], p.e[0]] + p.e[2..]; }
  }

  lemma RotLaw(p: Pair, q: Pair)
    ensures Leads([OnEval(Rot)], p, q) <==> Lifts(2, p.e, q.e) && q.a == p.a
  {
    RunOne(OnEval(Rot), p);
    if |p.e| >= 3 {
      var r := [p.e[2], p.e[0], p.e[1]] + p.e[3..];
      assert r[1..] == p.e[..2] + p.e[3..];
      if Lifts(2, p.e, q.e) { assert q.e == [q.e[0]] + q.e[1..] && r == [r[0]] + r[1..]; }
    }
  }

  /** PICK, DUP, OVER, TUCK and XTUCK put in a copy. */
  lemma PickLaw(n: int64, p: Pair, q: Pair)
    ensures Leads([Number(n), OnEval(Pick)], p, q) <==> 0 <= n && Copies(n, 0, p.e, q.e) && q.a == p.a
  {
    Numbered(Pick, n, p);
    CopiedOnTop(p.e, q.e);
  }

  lemma CopiedOnTop(s: seq<StackItem>, r: seq<StackItem>)
    ensures forall d: nat {:trigger Copies(d, 0, s, r)} :: Copies(d, 0, s, r) <==> d < |s| && r == [s[d]] + s
  {
    forall d: nat ensures Copies(d, 0, s, r) <==> d < |s| && r == [s[d]] + s {
      if Copies(d, 0, s, r) { assert r == [r[0]] + (r[..0] + r[1..]); }
      if d < |s| && r == [s[d]] + s { assert r[..0] + r[1..] == s; }
    }
  }

  lemma CopiedWithin(at: nat, s: seq<StackItem>, r: seq<StackItem>)
    requires at <= |s| && s != []
    ensures Copies(0, at, s, r) <==> r == s[..at] + [s[0]] + s[at..]
  {
    var u := s[..at] + [s[0]] + s[at..];
    assert u[..at] + u[at + 1..] == s;
    if Copies(0, at, s, r) {
      assert r == r[..at] + [r[at]] + r[at + 1..];
      assert (r[..at] + r[at + 1..])[..at] == r[..at] && (r[..at] + r[at + 1..])[at..] == r[at + 1..];
    }
  }

  lemma DupLaw(p: Pair, q: Pair)
    ensures Leads([OnEval(Dup)], p, q) <==> Copies(0, 0, p.e, q.e) && q.a == p.a
  {
    RunOne(OnEval(Dup), p);
    CopiedOnTop(p.e, q.e);
  }

  lemma OverLaw(p: Pair, q: Pair)
    ensures Leads([OnEval(Over)], p, q) <==> Copies(1, 0, p.e, q.e) && q.a == p.a
  {
    RunOne(OnEval(Over), p);
    CopiedOnTop(p.e, q.e);
  }

  lemma XTuckLaw(n: int64, p: Pair, q: Pair)
    ensures Leads([Number(n), OnEval(XTuck)], p, q) <==> 1 <= n && Copies(0, n, p.e, q.e) && q.a == p.a
  {
    Numbered(XTuck, n, p);
    if 1 <= n <= |p.e| { CopiedWithin(n, p.e, q.e); }
  }

  lemma TuckLaw(p: Pair, q: Pair)
    ensures Leads([OnEval(Tuck)], p, q) <==> Copies(0, 2, p.e, q.e) && q.a == p.a
  {
    RunOne(OnEval(Tuck), p);
    if |p.e| >= 2 {
      CopiedWithin(2, p.e, q.e);
      assert p.e[..2] + [p.e[0]] + p.e[2..] == [p.e[0], p.e[1], p.e[0]] + p.e[2..];
    }
  }

  /** DROP, NIP and XDROP take out one item. */
  lemma DropLaw(p: Pair, q: Pair)
    ensures Leads([OnEval(Drop)], p, q) <==> Loses(0, p.e, q.e) && q.a == p.a
  {
    RunOne(OnEval(Drop), p);
    if p.e != [] { assert p.e[..0] + p.e[1..] == p.e[1..]; }
  }

  lemma NipLaw(p: Pair, q: Pair)
    ensures Leads([OnEval(Nip)], p, q) <==> Loses(1, p.e, q.e) && q.a == p.a
  {
    RunOne(OnEval(Nip), p);
    if |p.e| >= 2 { assert p.e[..1] == [p.e[0]]; }
  }

  lemma XDropLaw(n: int64, p: Pair, q: Pair)
    ensures Leads([Number(n), OnEval(XDrop)], p, q) <==> 0 <= n && Loses(n, p.e, q.e) && q.a == p.a
  {
    Numbered(XDrop, n, p);
  }

  // ----- what is kept

  /** ROLL, XSWAP, SWAP, ROT and the moves between the stacks keep all items. */
  lemma MovesKeepAll(i: Instr, n: int64, p: Pair, q: Pair)
    requires i in {OnEval(Swap), OnEval(Rot), OnEval(Roll), OnEval(XSwap), ToAlt, FromAlt}
    requires Leads(if i in {OnEval(Roll), OnEval(XSwap)} then [Number(n), i] else [i], p, q)
    ensures Everything(q) == Everything(p)
  {
    RunOne(i, p);
    if i == OnEval(Roll) {
      RollLaw(n, p, q);
      LiftKeeps(n, p.e, q.e);
    } else if i == OnEval(XSwap) {
      XSwapLaw(n, p, q);
      ExchangeKeeps(n, p.e, q.e);
    } else if i == OnEval(Swap) {
      SwapLaw(p, q);
      ExchangeKeeps(1, p.e, q.e);
    } else if i == OnEval(Rot) {
      RotLaw(p, q);
      LiftKeeps(2, p.e, q.e);
    } else if i == ToAlt {
      assert p.e == [p.e[0]] + q.e;
    } else {
      assert p.a == [p.a[0]] + q.a;
    }
  }

  // ----- runs

  /** Opcodes that are short for others, on all stacks and also where they fault: copies, */
  lemma ShortCopies(p: Pair)
    ensures RunOf([Number(0), OnEval(Pick)], p) == RunOf([OnEval(Dup)], p)
    ensures RunOf([Number(1), OnEval(Pick)], p) == RunOf([OnEval(Over)], p)
  {
    Numbered(Pick, 0, p);
    Numbered(Pick, 1, p);
    RunOne(OnEval(Dup), p);
    RunOne(OnEval(Over), p);
  }

  lemma ShortTuck(p: Pair)
    ensures RunOf([Number(2), OnEval(XTuck)], p) == RunOf([OnEval(Tuck)], p)
  {
    Numbered(XTuck, 2, p);
    RunOne(OnEval(Tuck), p);
    if |p.e| >= 2 { assert p.e[..2] + [p.e[0]] + p.e[2..] == [p.e[0], p.e[1], p.e[0]] + p.e[2..]; }
  }

  /** ... moves, */
  lemma ShortMoves(p: Pair)
    ensures RunOf([Number(1), OnEval(Roll)], p) == RunOf([OnEval(Swap)], p)
    ensures RunOf([Number(2), OnEval(Roll)], p) == RunOf([OnEval(Rot)], p)
    ensures RunOf([Number(1), OnEval(XSwap)], p) == RunOf([OnEval(Swap)], p)
  {
    Numbered(Roll, 1, p);
    Numbered(Roll, 2, p);
    Numbered(XSwap, 1, p);
    RunOne(OnEval(Swap), p);
    RunOne(OnEval(Rot), p);
    SmallShuffles(p.e);
    if |p.e| >= 2 { assert [p.e[1]] + p.e[..1] + p.e[2..] == [p.e[1], p.e[0]] + p.e[2..]; }
    if |p.e| >= 3 { assert [p.e[2]] + p.e[..2] + p.e[3..] == [p.e[2], p.e[0], p.e[1]] + p.e[3..]; }
  }

  /** ... and losses. */
  lemma ShortLosses(p: Pair)
    ensures RunOf([Number(0), OnEval(XDrop)], p) == RunOf([OnEval(Drop)], p)
    ensures RunOf([Number(1), OnEval(XDrop)], p) == RunOf([OnEval(Nip)], p)
  {
    Numbered(XDrop, 0, p);
    Numbered(XDrop, 1, p);
    RunOne(OnEval(Drop), p);
    RunOne(OnEval(Nip), p);
    if |p.e| >= 2 { assert p.e[..1] + p.e[2..] == [p.e[0]] + p.e[2..]; }
    if |p.e| >= 1 { assert p.e[..0] + p.e[1..] == p.e[1..]; }
  }

  /** The code n times over. */
  function Repeated(code: seq<Instr>, n: nat): seq<Instr> { if n == 0 then [] else code + Repeated(code, n - 1) }

  lemma {:induction false} RunOfBoth(a: seq<Instr>, b: seq<Instr>, p: Pair)
    ensures RunOf(a + b, p) == match RunOf(a, p) case None => None case Some(q) => RunOf(b, q)
    decreases |a|
  {
    if a == [] {
      assert a + b == b;
    } else {
      assert (a + b)[1..] == a[1..] + b;
      if Stepped(a[0], p) != None { RunOfBoth(a[1..], b, Stepped(a[0], p).value); }
    }
  }

  /** The topmost m items brought k further round. */
  function Turned(s: seq<StackItem>, m: nat, k: nat): seq<StackItem>
    requires k <= m <= |s|
  {
    s[m - k..m] + s[..m - k] + s[m..]
  }

  lemma TurnedOnce(s: seq<StackItem>, m: nat, k: nat)
    requires k < m <= |s|
    ensures var r := Turned(s, m, k); [r[m - 1]] + r[..m - 1] + r[m..] == Turned(s, m, k + 1)
  {
    var r := Turned(s, m, k);
    assert r[m - 1] == s[m - k - 1];
    assert r[..m - 1] == s[m - k..m] + s[..m - k - 1];
    assert r[m..] == s[m..];
    assert s[m - k - 1..m] == [s[m - k - 1]] + s[m - k..m];
  }

  lemma {:induction false} RollsOn(n: int64, p: Pair, k: nat, left: nat)
    requires 0 <= n < |p.e| && k + left == n + 1
    ensures RunOf(Repeated([Number(n), OnEval(Roll)], left), Pair(Turned(p.e, n + 1, k), p.a)) ==
            Some(Pair(Turned(p.e, n + 1, n + 1), p.a))
    decreases left
  {
    if left > 0 {
      var code, q := [Number(n), OnEval(Roll)], Pair(Turned(p.e, n + 1, k), p.a);
      Numbered(Roll, n, q);
      TurnedOnce(p.e, n + 1, k);
      RunOfBoth(code, Repeated(code, left - 1), q);
      RollsOn(n, p, k + 1, left - 1);
    }
  }

  lemma TurnedRound(s: seq<StackItem>, m: nat)
    requires m <= |s|
    ensures Turned(s, m, 0) == s && Turned(s, m, m) == s
  {
  }

  /** ROLL by n, n + 1 times, leaves the stacks as they were. */
  lemma RollsRound(n: int64, p: Pair)
    requires 0 <= n < |p.e|
    ensures Leads(Repeated([Number(n), OnEval(Roll)], n + 1), p, p)
  {
    TurnedRound(p.e, n + 1);
    RollsOn(n, p, 0, n + 1);
  }

  /** What comes first is taken back. */
  lemma CopyDropped(p: Pair)
    ensures p.e != [] ==> Leads([OnEval(Dup), OnEval(Drop)], p, p)
    ensures |p.e| >= 2 ==> Leads([OnEval(Over), OnEval(Drop)], p, p)
    ensures Leads([OnEval(Depth), OnEval(Drop)], p, p)
  {
    RunTwo(OnEval(Dup), OnEval(Drop), p);
    RunTwo(OnEval(Over), OnEval(Drop), p);
    RunTwo(OnEval(Depth), OnEval(Drop), p);
  }

  lemma SwappedTwice(p: Pair)
    requires |p.e| >= 2
    ensures Leads([OnEval(Swap), OnEval(Swap)], p, p)
  {
    RunTwo(OnEval(Swap), OnEval(Swap), p);
    assert [p.e[0], p.e[1]] + p.e[2..] == p.e;
  }

  /** To the other stack and back. */
  lemma ThereAndBack(p: Pair)
    ensures p.e != [] ==> Leads([ToAlt, FromAlt], p, p)
    ensures p.a != [] ==> Leads([FromAlt, ToAlt], p, p) && Leads([DupFromAlt, OnEval(Drop)], p, p)
  {
    RunTwo(ToAlt, FromAlt, p);
    RunTwo(FromAlt, ToAlt, p);
    RunTwo(DupFromAlt, OnEval(Drop), p);
    if p.e != [] { assert [p.e[0]] + p.e[1..] == p.e; }
    if p.a != [] { assert [p.a[0]] + p.a[1..] == p.a; }
  }

  /** NIP drops below the top, TUCK copies below it. */
  lemma BelowTop(p: Pair)
    ensures RunOf([OnEval(Nip)], p) == RunOf([OnEval(Swap), OnEval(Drop)], p)
    ensures RunOf([OnEval(Tuck)], p) == RunOf([OnEval(Swap), OnEval(Over)], p)
  {
    RunTwo(OnEval(Swap), OnEval(Drop), p);
    RunTwo(OnEval(Swap), OnEval(Over), p);
    RunOne(OnEval(Nip), p);
    RunOne(OnEval(Tuck), p);
    if |p.e| >= 2 {
      var r := [p.e[1], p.e[0]] + p.e[2..];
      assert r[1..] == [p.e[0]] + p.e[2..] && [r[1]] + r == [p.e[0], p.e[1], p.e[0]] + p.e[2..];
    }
  }

  /** DEPTH counts the items of the evaluation stack. */
  lemma DepthLaw(p: Pair, q: Pair)
    ensures Leads([OnEval(Depth)], p, q) <==> |q.e| == |p.e| + 1 && q.e[0] == BigInteger(|p.e|) && q.e[1..] == p.e
                                              && q.a == p.a
  {
    RunOne(OnEval(Depth), p);
    if |q.e| == |p.e| + 1 { assert q.e == [q.e[0]] + q.e[1..]; }
  }
}
