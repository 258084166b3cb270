/** Whole runs of membership changes: what every run keeps for every hash, and why runs that end
    with the same members route alike when no tokens collide. */
module RingHistory {
  import opened Ring
  import opened RingOrder

  datatype Op = AddOp(id: string, addr: string) | RemoveOp(id: string)

  function Apply(p: Params, r: RingState, op: Op): RingState {
    match op
    case AddOp(id, addr) => Add(p, r, id, addr)
    case RemoveOp(id) => Remove(r, id)
  }

  function Run(p: Params, ops: seq<Op>): RingState {
    if ops == [] then EMPTY_RING else Apply(p, Run(p, ops[..|ops| - 1]), ops[|ops| - 1])
  }

  ghost predicate NamedNodes(ops: seq<Op>) {
    forall i :: 0 <= i < |ops| && ops[i].AddOp? ==> ops[i].id != ""
  }

  function AddedIds(ops: seq<Op>): set<string> {
    set i | 0 <= i < |ops| && ops[i].AddOp? :: ops[i].id
  }

  /** For every hash, colliding or not: tokens stay sorted, no removed node owns a token, and there
      are at least `vnodes` tokens per member, so the capacity computed on removal is never negative. */
  lemma {:induction false} EveryRunKeepsInv(p: Params, ops: seq<Op>)
    requires NamedNodes(ops)
    ensures Inv(p, Run(p, ops))
    ensures Sorted(Run(p, ops).tokens)
    ensures forall t :: t in Run(p, ops).owner ==> Run(p, ops).owner[t] in Run(p, ops).nodes
    ensures forall id :: id in Run(p, ops).nodes ==> |Run(p, ops).tokens| - p.vnodes >= 0
  {
    if ops == [] {
      assert p.vnodes * 0 == 0;
    } else {
      var before, op := Run(p, ops[..|ops| - 1]), ops[|ops| - 1];
      EveryRunKeepsInv(p, ops[..|ops| - 1]);
      match op
      case AddOp(id, addr) => AddKeepsInv(p, before, id, addr);
      case RemoveOp(id) => RemoveKeepsInv(p, before, id);
    }
    forall id | id in Run(p, ops).nodes ensures |Run(p, ops).tokens| - p.vnodes >= 0 {
      CapacityIsNatural(p, Run(p, ops), id);
    }
  }

  /** After a removal, nothing on the ring belongs to that node. */
  lemma RemovedNodeOwnsNothing(p: Params, ops: seq<Op>, id: string)
    requires NamedNodes(ops)
    ensures var r := Run(p, ops + [RemoveOp(id)]);
            id !in r.nodes && forall t :: t in r.owner ==> r.owner[t] != id
  {
    var all := ops + [RemoveOp(id)];
    assert all[..|all| - 1] == ops;
    EveryRunKeepsInv(p, all);
    MembersAfterRemoval(Run(p, ops), id);
  }

  lemma AddedIdsSplit(ops: seq<Op>)
    requires ops != []
    ensures AddedIds(ops[..|ops| - 1]) <= AddedIds(ops)
    ensures ops[|ops| - 1].AddOp? ==> ops[|ops| - 1].id in AddedIds(ops)
  {
  }

  lemma ApplyKeepsCanon(p: Params, r: RingState, op: Op, ids: set<string>)
    requires Canon(p, r) && r.nodes <= ids && CollisionFree(p, ids)
    requires op.AddOp? ==> op.id != "" && op.id in ids
    ensures Canon(p, Apply(p, r, op))
  {
    match op
    case AddOp(id, addr) =>
      assert CollisionFree(p, r.nodes + {id});
      AddKeepsCanon(p, r, id, addr);
    case RemoveOp(id) =>
      RemoveKeepsCanon(p, r, id);
  }

  lemma ApplyMembers(p: Params, r: RingState, op: Op, ids: set<string>)
    requires r.nodes <= ids && (op.AddOp? ==> op.id in ids)
    ensures Apply(p, r, op).nodes <= ids
  {
  }

  lemma {:induction false} EveryRunIsCanon(p: Params, ops: seq<Op>, ids: set<string>)
    requires NamedNodes(ops) && AddedIds(ops) <= ids && CollisionFree(p, ids)
    ensures Canon(p, Run(p, ops))
    ensures Run(p, ops).nodes <= ids
  {
    if ops == [] {
      assert p.vnodes * 0 == 0;
    } else {
      var r, op := Run(p, ops[..|ops| - 1]), ops[|ops| - 1];
      AddedIdsSplit(ops);
      EveryRunIsCanon(p, ops[..|ops| - 1], ids);
      ApplyKeepsCanon(p, r, op, ids);
      ApplyMembers(p, r, op, ids);
    }
  }

  lemma {:induction false} SortedSize(a: seq<Token>)
    requires StrictlySorted(a)
    ensures |set t | t in a| == |a|
  {
    if a == [] {
      assert (set t | t in a) == {};
    } else {
      SortedSize(a[1..]);
      TailMembers(a);
      assert (set t | t in a) == (set t | t in a[1..]) + {a[0]};
    }
  }

  lemma SameSize(a: seq<Token>, b: seq<Token>)
    requires StrictlySorted(a) && StrictlySorted(b)
    requires forall t :: t in a <==> t in b
    ensures |a| == |b|
  {
    SortedSize(a);
    SortedSize(b);
    assert (set t | t in a) == (set t | t in b);
  }

  lemma HeadIsLeast(a: seq<Token>, t: Token)
    requires StrictlySorted(a) && t in a
    ensures a[0] <= t
  {
  }

  lemma {:induction false} SortedUnique(a: seq<Token>, b: seq<Token>)
    requires StrictlySorted(a) && StrictlySorted(b)
    requires forall t :: t in a <==> t in b
    ensures a == b
    decreases |a|
  {
    SameSize(a, b);
    if a == [] {
    } else {
      assert a[0] in a && b[0] in b;
      HeadIsLeast(a, b[0]);
      HeadIsLeast(b, a[0]);
      TailMembers(a);
      TailMembers(b);
      SortedUnique(a[1..], b[1..]);
      assert a == [a[0]] + a[1..] && b == [b[0]] + b[1..];
    }
  }

  lemma TailMembers(a: seq<Token>)
    requires StrictlySorted(a) && a != []
    ensures forall t :: t in a[1..] <==> t in a && t != a[0]
  {
  }

  lemma CanonMembers(p: Params, a: RingState, b: RingState, t: Token)
    requires Canon(p, a) && Canon(p, b) && a.nodes == b.nodes && t in a.owner
    ensures t in b.owner && b.owner[t] == a.owner[t]
  {
  }

  /** A collision-free ring is determined by its members. */
  lemma CanonUnique(p: Params, a: RingState, b: RingState)
    requires Canon(p, a) && Canon(p, b) && a.nodes == b.nodes
    ensures a.tokens == b.tokens && a.owner == b.owner
  {
    forall t | t in a.owner ensures t in b.owner && b.owner[t] == a.owner[t] {
      CanonMembers(p, a, b, t);
    }
    forall t | t in b.owner ensures t in a.owner {
      CanonMembers(p, b, a, t);
    }
    assert a.owner == b.owner;
    SortedUnique(a.tokens, b.tokens);
  }

  /** History independence: two runs that end with the same members, however they got there, have the
      same tokens and owners and send every key to the same nodes. */
  lemma HistoryIndependence(p: Params, ops: seq<Op>, ops': seq<Op>)
    requires NamedNodes(ops) && CollisionFree(p, AddedIds(ops))
    requires NamedNodes(ops') && CollisionFree(p, AddedIds(ops'))
    requires Run(p, ops).nodes == Run(p, ops').nodes
    ensures Run(p, ops).tokens == Run(p, ops').tokens
    ensures Run(p, ops).owner == Run(p, ops').owner
    ensures forall key, count: nat :: NodeIds(p, Run(p, ops), key, count) == NodeIds(p, Run(p, ops'), key, count)
  {
    EveryRunIsCanon(p, ops, AddedIds(ops));
    EveryRunIsCanon(p, ops', AddedIds(ops'));
    CanonUnique(p, Run(p, ops), Run(p, ops'));
  }

  // ---------------------------------------------------------------- building the ring from a peer list

  /** A configured peer list, registered in some order. */
  datatype Peer = Peer(id: string, addr: string)

  function Registrations(peers: seq<Peer>): (ops: seq<Op>)
    ensures |ops| == |peers|
    ensures forall i :: 0 <= i < |peers| ==> ops[i] == AddOp(peers[i].id, peers[i].addr)
  {
    seq(|peers|, i requires 0 <= i < |peers| => AddOp(peers[i].id, peers[i].addr))
  }

  function Ids(peers: seq<Peer>): set<string> {
    set x | x in peers :: x.id
  }

  /** No entry gives as its address the ID of another entry. */
  ghost predicate NoPlaceholders(peers: seq<Peer>) {
    forall x :: x in peers && x.id != x.addr ==> x.addr !in Ids(peers)
  }

  lemma {:induction false} RegistrationMembers(p: Params, peers: seq<Peer>, all: seq<Peer>)
    requires NoPlaceholders(all)
    requires forall x :: x in peers ==> x in all
    ensures Run(p, Registrations(peers)).nodes == Ids(peers)
  {
    if peers == [] {
    } else {
      var rest, x := peers[..|peers| - 1], peers[|peers| - 1];
      assert peers == rest + [x];
      RegistrationMembers(p, rest, all);
      var ops := Registrations(peers);
      assert ops[..|ops| - 1] == Registrations(rest);
      assert Ids(peers) == Ids(rest) + {x.id};
      var r := Run(p, Registrations(rest));
      assert x in peers;
      assert !IsPlaceholder(r, x.id, x.addr) by {
        forall y | y in rest ensures y.id in Ids(all) {
          assert y in all;
        }
      }
      MembersAfterAddition(p, r, x.id, x.addr);
    }
  }

  /** A peer list registered in two different orders, as a node and the gateway may do. */
  ghost predicate SameMembersAnyOrder(p: Params, peers: seq<Peer>) {
    forall a: seq<Peer>, b: seq<Peer> ::
      multiset(a) == multiset(peers) && multiset(b) == multiset(peers) ==>
        Run(p, Registrations(a)).nodes == Run(p, Registrations(b)).nodes
  }

  lemma PermutationMembers(a: seq<Peer>, b: seq<Peer>)
    requires multiset(a) == multiset(b)
    ensures forall x :: x in a <==> x in b
    ensures Ids(a) == Ids(b)
  {
    assert forall x :: x in a <==> x in multiset(a);
    assert forall x :: x in b <==> x in multiset(b);
  }

  /** The entry named by another entry's address survives or not, depending on which comes last. */
  lemma LastRegistrationWins(p: Params, rest: seq<Peer>, x: Peer, y: Peer)
    requires x.id != x.addr && x.addr == y.id
    ensures y.id !in Run(p, Registrations(rest + [y] + [x])).nodes
    ensures y.id in Run(p, Registrations(rest + [x] + [y])).nodes
  {
  }

  lemma PlaceholdersDependOnOrder(p: Params, peers: seq<Peer>, x: Peer, y: Peer)
    requires x in peers && y in peers && x.id != x.addr && x.addr == y.id
    ensures !SameMembersAnyOrder(p, peers)
  {
    var rest := SomeOrder(multiset(peers) - multiset{x, y});
    TwoOrders(peers, rest, x, y);
    LastRegistrationWins(p, rest, x, y);
    OrdersDisagree(p, peers, rest + [y] + [x], rest + [x] + [y]);
  }

  lemma OrdersDisagree(p: Params, peers: seq<Peer>, a: seq<Peer>, b: seq<Peer>)
    requires multiset(a) == multiset(peers) == multiset(b)
    requires Run(p, Registrations(a)).nodes != Run(p, Registrations(b)).nodes
    ensures !SameMembersAnyOrder(p, peers)
  {
  }

  lemma TwoOrders(peers: seq<Peer>, rest: seq<Peer>, x: Peer, y: Peer)
    requires x in peers && y in peers && x != y
    requires multiset(rest) == multiset(peers) - multiset{x, y}
    ensures multiset(rest + [y] + [x]) == multiset(peers) == multiset(rest + [x] + [y])
  {
  }

  ghost function SomeOrder(m: multiset<Peer>): (s: seq<Peer>)
    ensures multiset(s) == m
  {
    if m == multiset{} then
      []
    else
      var x :| x in m;
      SomeOrder(m - multiset{x}) + [x]
  }

  /** The order of registration is irrelevant exactly when the list names no placeholder, so a node
      that walks its peer map in random order agrees with the gateway. */
  lemma PeerOrderIrrelevantIff(p: Params, peers: seq<Peer>)
    ensures SameMembersAnyOrder(p, peers) <==> NoPlaceholders(peers)
  {
    if NoPlaceholders(peers) {
      forall a: seq<Peer>, b: seq<Peer> | multiset(a) == multiset(peers) && multiset(b) == multiset(peers)
        ensures Run(p, Registrations(a)).nodes == Run(p, Registrations(b)).nodes
      {
        PermutationMembers(a, peers);
        PermutationMembers(b, peers);
        RegistrationMembers(p, a, peers);
        RegistrationMembers(p, b, peers);
      }
    } else {
      var x :| x in peers && x.id != x.addr && x.addr in Ids(peers);
      var y :| y in peers && y.id == x.addr;
      PlaceholdersDependOnOrder(p, peers, x, y);
    }
  }

  /** A node and the gateway whose placeholder-free lists name the same IDs route every key alike, in
      whatever order and under whatever addresses each of them registers its peers and itself. */
  lemma NodesAgreeWithGateway(p: Params, node: seq<Peer>, gateway: seq<Peer>, key: string, count: nat)
    requires Ids(node) == Ids(gateway) && NoPlaceholders(node) && NoPlaceholders(gateway)
    requires "" !in Ids(gateway) && CollisionFree(p, Ids(gateway))
    ensures NodeIds(p, Run(p, Registrations(node)), key, count) ==
            NodeIds(p, Run(p, Registrations(gateway)), key, count)
  {
    RegistrationMembers(p, node, node);
    RegistrationMembers(p, gateway, gateway);
    RegisteredIds(node);
    RegisteredIds(gateway);
    HistoryIndependence(p, Registrations(node), Registrations(gateway));
  }

  lemma RegisteredIds(peers: seq<Peer>)
    ensures AddedIds(Registrations(peers)) == Ids(peers)
    ensures "" !in Ids(peers) ==> NamedNodes(Registrations(peers))
  {
  }
}
