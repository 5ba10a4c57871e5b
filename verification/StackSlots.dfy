/** All slots of all stacks of a VM, also of those that no frame knows any more: they stay counted. */
module StackSlots {
  import opened Items

  ghost function AllSlots(stacks: map<nat, seq<StackItem>>): multiset<StackItem>
    decreases |stacks|
  {
    if stacks == map[] then multiset{}
    else var id :| id in stacks; multiset(stacks[id]) + AllSlots(stacks - {id})
  }

  /** The sum does not depend on the order in which it is taken. */
  lemma {:induction false} OneApart(stacks: map<nat, seq<StackItem>>, id: nat)
    requires id in stacks
    ensures AllSlots(stacks) == multiset(stacks[id]) + AllSlots(stacks - {id})
    decreases |stacks|
  {
    var k :| k in stacks && AllSlots(stacks) == multiset(stacks[k]) + AllSlots(stacks - {k});
    if k != id {
      OneApart(stacks - {k}, id);
      OneApart(stacks - {id}, k);
      assert stacks - {k} - {id} == stacks - {id} - {k};
    }
  }

  lemma Rewritten(stacks: map<nat, seq<StackItem>>, id: nat, s: seq<StackItem>)
    requires id in stacks
    ensures AllSlots(stacks[id := s]) == multiset(s) + AllSlots(stacks - {id})
    ensures AllSlots(stacks) == multiset(stacks[id]) + AllSlots(stacks - {id})
  {
    OneApart(stacks, id);
    OneApart(stacks[id := s], id);
    assert stacks[id := s] - {id} == stacks - {id};
  }

  lemma NewStack(stacks: map<nat, seq<StackItem>>, id: nat)
    requires id !in stacks
    ensures AllSlots(stacks[id := []]) == AllSlots(stacks)
  {
    OneApart(stacks[id := []], id);
    assert stacks[id := []] - {id} == stacks;
  }

  function Without(s: seq<StackItem>, i: nat): seq<StackItem>
    requires i < |s|
  {
    s[..i] + s[i + 1..]
  }

  lemma OneTaken(stacks: map<nat, seq<StackItem>>, id: nat, i: nat)
    requires id in stacks && i < |stacks[id]|
    ensures stacks[id][i] in AllSlots(stacks)
    ensures AllSlots(stacks[id := Without(stacks[id], i)]) == AllSlots(stacks) - multiset{stacks[id][i]}
  {
    var s := stacks[id];
    Rewritten(stacks, id, Without(s, i));
    assert s == s[..i] + [s[i]] + s[i + 1..];
    assert multiset(s) == multiset(Without(s, i)) + multiset{s[i]};
  }

  lemma OnePut(stacks: map<nat, seq<StackItem>>, id: nat, x: StackItem)
    requires id in stacks
    ensures AllSlots(stacks[id := [x] + stacks[id]]) == AllSlots(stacks) + multiset{x}
  {
    Rewritten(stacks, id, [x] + stacks[id]);
  }

  lemma SameSlots(stacks: map<nat, seq<StackItem>>, id: nat, s: seq<StackItem>)
    requires id in stacks && multiset(s) == multiset(stacks[id])
    ensures AllSlots(stacks[id := s]) == AllSlots(stacks)
  {
    Rewritten(stacks, id, s);
  }

  /** No stack is higher than there are slots. */
  lemma HeightCounted(stacks: map<nat, seq<StackItem>>, id: nat)
    requires id in stacks
    ensures |stacks[id]| <= |AllSlots(stacks)|
  {
    OneApart(stacks, id);
  }

  /** Every container on a stack is in the snapshot. */
  ghost predicate StacksKnown(G: Graph, stacks: map<nat, seq<StackItem>>) {
    forall id {:trigger stacks[id]} :: id in stacks ==> Covers(G, stacks[id])
  }

  lemma StacksStillKnown(G: Graph, H: Graph, stacks: map<nat, seq<StackItem>>)
    requires StacksKnown(G, stacks) && G.Keys <= H.Keys
    ensures StacksKnown(H, stacks)
  {
    forall id | id in stacks ensures Covers(H, stacks[id]) {
      assert Covers(G, stacks[id]);
      forall x | x in stacks[id] && x.IsContainer() ensures x in H { assert x in G.Keys; }
    }
  }

  lemma KnownMember(G: Graph, stacks: map<nat, seq<StackItem>>, id: nat, i: nat)
    requires StacksKnown(G, stacks) && id in stacks && i < |stacks[id]|
    ensures stacks[id][i].IsContainer() ==> stacks[id][i] in G
  {
    assert Covers(G, stacks[id]) && stacks[id][i] in stacks[id];
  }

  lemma KnownWithout(G: Graph, stacks: map<nat, seq<StackItem>>, id: nat, i: nat)
    requires StacksKnown(G, stacks) && id in stacks && i < |stacks[id]|
    ensures StacksKnown(G, stacks[id := Without(stacks[id], i)])
  {
    var s := Without(stacks[id], i);
    assert Covers(G, stacks[id]);
    assert forall x :: x in s ==> x in stacks[id];
    assert Covers(G, s);
  }

  lemma KnownWith(G: Graph, stacks: map<nat, seq<StackItem>>, id: nat, x: StackItem)
    requires StacksKnown(G, stacks) && id in stacks && (x.IsContainer() ==> x in G)
    ensures StacksKnown(G, stacks[id := [x] + stacks[id]])
  {
    assert Covers(G, stacks[id]);
  }

  lemma KnownSame(G: Graph, stacks: map<nat, seq<StackItem>>, id: nat, s: seq<StackItem>)
    requires StacksKnown(G, stacks) && id in stacks && multiset(s) == multiset(stacks[id])
    ensures StacksKnown(G, stacks[id := s])
  {
    assert Covers(G, stacks[id]);
    forall x | x in s && x.IsContainer() ensures x in G { assert x in multiset(s); }
    assert Covers(G, s);
  }
}
