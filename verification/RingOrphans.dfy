/** Tokens without an owner: what a collision does to removal, and exactly when lookups name a node
    that does not exist. All of it holds for every hash. */
module RingOrphans {
  import opened Ring
  import opened RingOrder
  import opened RingHistory

  ghost predicate AllOwned(r: RingState) {
    forall t :: t in r.tokens ==> t in r.owner
  }

  /** The node owns a token that stands in the array more than once. */
  ghost predicate SharesToken(r: RingState, id: string) {
    exists t :: t in r.owner && r.owner[t] == id && multiset(r.tokens)[t] > 1
  }

  // ---------------------------------------------------------------- what removal leaves behind

  /** Of the copies of a token that the node owns, the removal loop drops exactly one. */
  lemma {:induction false} SweepDropsOne(tokens: seq<Token>, owner: map<Token, string>, id: string, t: Token)
    requires id != "" && t in owner && owner[t] == id
    ensures multiset(Sweep(tokens, owner, id).0)[t] == if t in tokens then multiset(tokens)[t] - 1 else 0
  {
    if tokens == [] {
    } else {
      var rest, x := tokens[..|tokens| - 1], tokens[|tokens| - 1];
      assert tokens == rest + [x];
      SweepDropsOne(rest, owner, id, t);
      SweepFacts(rest, owner, id);
    }
  }

  lemma OrphanAfterSharing(r: RingState, id: string)
    requires id != "" && id in r.nodes && SharesToken(r, id)
    ensures !AllOwned(Remove(r, id))
  {
    var t :| t in r.owner && r.owner[t] == id && multiset(r.tokens)[t] > 1;
    SweepDropsOne(r.tokens, r.owner, id, t);
    SweepFacts(r.tokens, r.owner, id);
    assert t in multiset(Remove(r, id).tokens);
  }

  lemma NoOrphanWithoutSharing(r: RingState, id: string)
    requires id != "" && id in r.nodes && AllOwned(r) && !SharesToken(r, id)
    ensures AllOwned(Remove(r, id))
  {
    SweepFacts(r.tokens, r.owner, id);
    forall t | t in Remove(r, id).tokens ensures t in Remove(r, id).owner {
      assert t in multiset(Remove(r, id).tokens);
      if OwnerOf(r.owner, t) == id {
        SweepDropsOne(r.tokens, r.owner, id, t);
      }
    }
  }

  lemma OrphansStay(r: RingState, id: string)
    requires id != "" && id in r.nodes && !AllOwned(r)
    ensures !AllOwned(Remove(r, id))
  {
    SweepFacts(r.tokens, r.owner, id);
    var t :| t in r.tokens && t !in r.owner;
    assert t in Remove(r, id).tokens;
  }

  /** Removing a member leaves every token owned exactly when it was so before and the member shares
      none of its tokens. */
  lemma RemovalOrphansIff(r: RingState, id: string)
    requires id != "" && id in r.nodes
    ensures AllOwned(Remove(r, id)) <==> AllOwned(r) && !SharesToken(r, id)
  {
    if !AllOwned(r) {
      OrphansStay(r, id);
    } else if SharesToken(r, id) {
      OrphanAfterSharing(r, id);
    } else {
      NoOrphanWithoutSharing(r, id);
    }
  }

  // ---------------------------------------------------------------- what lookups then name

  lemma WalkOwners(r: RingState, k: Token, x: string)
    ensures x in Owners(r.owner, Rotated(r.tokens, k)) <==> exists t :: t in r.tokens && OwnerOf(r.owner, t) == x
  {
    RotatedMembers(r.tokens, k);
    var walk := Rotated(r.tokens, k);
    if t :| t in r.tokens && OwnerOf(r.owner, t) == x {
      var i :| 0 <= i < |walk| && walk[i] == t;
      assert Owners(r.owner, walk)[i] == x;
    }
  }

  /** For every key: its list names only members exactly when every token has an owner; otherwise it
      names the empty ID. */
  lemma ListNamesMembersIff(p: Params, r: RingState, key: string)
    requires Inv(p, r)
    ensures AllOwned(r) <==> forall x :: x in Preference(p, r, key) ==> x in r.nodes
    ensures AllOwned(r) <==> "" !in Preference(p, r, key)
  {
    var k := HashOf(p, key);
    WalkOwners(r, k, "");
    if AllOwned(r) {
      forall x | x in Preference(p, r, key) ensures x in r.nodes {
        WalkOwners(r, k, x);
      }
    } else {
      var t :| t in r.tokens && t !in r.owner;
      assert OwnerOf(r.owner, t) == "";
    }
  }

  /** On a ring whose lookups are sound, removing a member keeps them sound for every key if it shares
      no token, and spoils every key's list if it does. */
  lemma RemovalSpoilsLookupsIff(p: Params, r: RingState, id: string, key: string)
    requires Inv(p, r) && AllOwned(r) && id in r.nodes
    ensures "" in Preference(p, Remove(r, id), key) <==> SharesToken(r, id)
  {
    RemovalOrphansIff(r, id);
    RemoveKeepsInv(p, r, id);
    ListNamesMembersIff(p, Remove(r, id), key);
  }

  // ---------------------------------------------------------------- whole runs

  lemma ExtendKeepsOwned(p: Params, r: RingState, id: string, addr: string)
    requires AllOwned(r)
    ensures AllOwned(Extend(p, r, id, addr))
  {
    ClaimFacts(p, id, p.vnodes, r.owner);
    var appended := r.tokens + VnodeTokens(p, id, p.vnodes);
    SortMembers(appended);
    forall t | t in Extend(p, r, id, addr).tokens ensures t in Extend(p, r, id, addr).owner {
      assert t in appended;
    }
  }

  /** The step removes no node that shares a token. */
  ghost predicate Unshared(r: RingState, op: Op) {
    match op
    case AddOp(id, addr) => IsPlaceholder(r, id, addr) ==> !SharesToken(r, addr)
    case RemoveOp(id) => id in r.nodes ==> !SharesToken(r, id)
  }

  lemma StepKeepsOwned(p: Params, r: RingState, op: Op)
    requires "" !in r.nodes && AllOwned(r) && Unshared(r, op)
    ensures AllOwned(Apply(p, r, op))
  {
    match op
    case AddOp(id, addr) =>
      if IsPlaceholder(r, id, addr) {
        RemovalOrphansIff(r, addr);
      }
      ExtendKeepsOwned(p, DropPlaceholder(r, id, addr), id, addr);
    case RemoveOp(id) =>
      if id in r.nodes {
        RemovalOrphansIff(r, id);
      }
  }

  ghost predicate UnsharedRun(p: Params, ops: seq<Op>) {
    forall i :: 0 <= i < |ops| ==> Unshared(Run(p, ops[..i]), ops[i])
  }

  lemma {:induction false} UnsharedRunKeepsOwned(p: Params, ops: seq<Op>)
    requires NamedNodes(ops) && UnsharedRun(p, ops)
    ensures AllOwned(Run(p, ops))
  {
    if ops == [] {
    } else {
      var before := ops[..|ops| - 1];
      assert UnsharedRun(p, before) by {
        forall i | 0 <= i < |before| ensures Unshared(Run(p, before[..i]), before[i]) {
          assert before[..i] == ops[..i];
        }
      }
      UnsharedRunKeepsOwned(p, before);
      EveryRunKeepsInv(p, before);
      StepKeepsOwned(p, Run(p, before), ops[|ops| - 1]);
    }
  }

  /** Tokens may collide: as long as no removed node shares a token at that moment, every lookup of
      every run names members only. */
  lemma LookupsNameMembers(p: Params, ops: seq<Op>, key: string)
    requires NamedNodes(ops) && UnsharedRun(p, ops)
    ensures forall x :: x in Preference(p, Run(p, ops), key) ==> x in Run(p, ops).nodes
  {
    UnsharedRunKeepsOwned(p, ops);
    EveryRunKeepsInv(p, ops);
    ListNamesMembersIff(p, Run(p, ops), key);
  }

  // ---------------------------------------------------------------- collisions do share tokens

  /** A node that joins with a token already on the ring shares it. */
  lemma JoiningShares(p: Params, r: RingState, id: string, addr: string, i: nat)
    requires id !in r.nodes && !IsPlaceholder(r, id, addr)
    requires i < p.vnodes && VnodeToken(p, id, i) in r.tokens
    ensures SharesToken(Add(p, r, id, addr), id)
  {
    var t, own := VnodeToken(p, id, i), VnodeTokens(p, id, p.vnodes);
    ClaimFacts(p, id, p.vnodes, r.owner);
    assert own[i] == t;
    assert t in multiset(r.tokens) && t in multiset(own);
    assert multiset(r.tokens + own)[t] > 1;
  }

  lemma JoiningPlaces(p: Params, r: RingState, id: string, addr: string, i: nat)
    requires id !in r.nodes && !IsPlaceholder(r, id, addr) && i < p.vnodes
    ensures VnodeToken(p, id, i) in Add(p, r, id, addr).tokens
  {
    var own := VnodeTokens(p, id, p.vnodes);
    SortMembers(r.tokens + own);
    assert own[i] == VnodeToken(p, id, i) && own[i] in own;
  }

  /** Whenever two nodes have a virtual node in common, letting both join and the second leave again
      makes every key's list name a node that does not exist, although only the first node joined. */
  lemma CollisionLosesMember(p: Params, r: RingState, a: string, b: string, addrA: string, addrB: string, i: nat,
                             j: nat, key: string)
    requires Inv(p, r) && a != "" && b != "" && a != b && a !in r.nodes && b !in r.nodes
    requires !IsPlaceholder(r, a, addrA) && addrB !in r.nodes + {a}
    requires i < p.vnodes && j < p.vnodes && VnodeToken(p, a, i) == VnodeToken(p, b, j)
    ensures var r' := Remove(Add(p, Add(p, r, a, addrA), b, addrB), b);
            r'.nodes == r.nodes + {a} && "" in Preference(p, r', key)
  {
    var r1 := Add(p, r, a, addrA);
    var r2 := Add(p, r1, b, addrB);
    JoiningPlaces(p, r, a, addrA, i);
    JoiningShares(p, r1, b, addrB, j);
    AddKeepsInv(p, r, a, addrA);
    AddKeepsInv(p, r1, b, addrB);
    RemovalOrphansIff(r2, b);
    RemoveKeepsInv(p, r2, b);
    ListNamesMembersIff(p, Remove(r2, b), key);
  }
}
