/** Who is a member after a history of registrations and removals, and under which address lookups name
    it. All of it holds for every hash. */
module RingAddresses {
  import opened Ring
  import opened RingOrder
  import opened RingHistory

  // ---------------------------------------------------------------- one registration

  /** The members that a registration leaves besides the node itself: all but a placeholder for it. */
  function Companions(nodes: set<string>, id: string, addr: string): set<string> {
    nodes - {id} - (if addr != id then {addr} else {})
  }

  /** A registration makes the node a member under the given address, known or not. A member that stands under
      the new node's address as its own ID goes; every other member keeps its address. */
  lemma RegistrationSetsAddress(p: Params, r: RingState, id: string, addr: string)
    ensures var r' := Add(p, r, id, addr);
            && r'.nodes == Companions(r.nodes, id, addr) + {id}
            && AddrOf(r'.addrs, id) == addr
            && (forall x :: x in Companions(r.nodes, id, addr) ==> AddrOf(r'.addrs, x) == AddrOf(r.addrs, x))
  {
  }

  lemma RemovalKeepsOthers(r: RingState, id: string)
    ensures var r' := Remove(r, id);
            && r'.nodes == r.nodes - {id}
            && (forall x :: x in r.nodes - {id} ==> AddrOf(r'.addrs, x) == AddrOf(r.addrs, x))
  {
  }

  // ---------------------------------------------------------------- histories

  /** The last word of a history about a node: its registration, as long as neither its removal nor the
      registration of another node under that ID as address follows. */
  function Joined(ops: seq<Op>, id: string): bool {
    if ops == [] then
      false
    else
      match ops[|ops| - 1]
      case AddOp(x, addr) => x == id || (addr != id && Joined(ops[..|ops| - 1], id))
      case RemoveOp(x) => x != id && Joined(ops[..|ops| - 1], id)
  }

  /** The address of the last registration of a node. */
  function LastAddress(ops: seq<Op>, id: string): string {
    if ops == [] then
      ""
    else
      match ops[|ops| - 1]
      case AddOp(x, addr) => if x == id then addr else LastAddress(ops[..|ops| - 1], id)
      case RemoveOp(_) => LastAddress(ops[..|ops| - 1], id)
  }

  /** The state agrees with the history about a node. */
  ghost predicate Recorded(r: RingState, ops: seq<Op>, id: string) {
    (id in r.nodes <==> Joined(ops, id)) && (id in r.nodes ==> AddrOf(r.addrs, id) == LastAddress(ops, id))
  }

  lemma RecordedNext(p: Params, r: RingState, ops: seq<Op>, id: string)
    requires ops != [] && Recorded(r, ops[..|ops| - 1], id)
    ensures Recorded(Apply(p, r, ops[|ops| - 1]), ops, id)
  {
    match ops[|ops| - 1]
    case AddOp(x, addr) => RegistrationSetsAddress(p, r, x, addr);
    case RemoveOp(x) => RemovalKeepsOthers(r, x);
  }

  /** After every history the members are the nodes whose last word is a registration, each under the address
      that its last registration gave. */
  lemma {:induction false} MembersAreTheJoined(p: Params, ops: seq<Op>, id: string)
    ensures id in Run(p, ops).nodes <==> Joined(ops, id)
    ensures Joined(ops, id) ==> AddrOf(Run(p, ops).addrs, id) == LastAddress(ops, id)
  {
    if ops == [] {
    } else {
      MembersAreTheJoined(p, ops[..|ops| - 1], id);
      RecordedNext(p, Run(p, ops[..|ops| - 1]), ops, id);
    }
  }

  /** The address under which a lookup names a node: of a member, the one that it registered last; the ID that
      an ownerless token yields has none. */
  function AddressGiven(ops: seq<Op>, id: string): string {
    if Joined(ops, id) then LastAddress(ops, id) else ""
  }

  lemma TargetAddress(p: Params, ops: seq<Op>, id: string)
    requires NamedNodes(ops)
    ensures Target(Run(p, ops), id) == NodeTarget(id, AddressGiven(ops, id))
  {
    MembersAreTheJoined(p, ops, id);
    EveryRunKeepsInv(p, ops);
  }

  /** After every history and for every hash, each node that `GetNodes` returns comes with the address of its
      last registration. */
  lemma LookupsGiveLastAddress(p: Params, ops: seq<Op>, key: string, count: nat)
    requires NamedNodes(ops)
    ensures forall t :: t in TargetsIn(NodesFor(p, Run(p, ops), key, count)) ==> t.addr == AddressGiven(ops, t.nodeId)
  {
    var r := Run(p, ops);
    var ids := NodeIds(p, r, key, count);
    forall t | t in TargetsIn(NodesFor(p, r, key, count)) ensures t.addr == AddressGiven(ops, t.nodeId) {
      var i :| 0 <= i < |ids| && t == Targets(r, ids)[i];
      TargetAddress(p, ops, ids[i]);
    }
  }

  /** The same for `GetPrimaryNode`, whose answer is the target of a token's owner. */
  lemma PrimaryHasLastAddress(p: Params, ops: seq<Op>, key: string)
    requires NamedNodes(ops) && Run(p, ops).tokens != []
    ensures var r := Run(p, ops);
            var primary := Target(r, Owners(r.owner, Rotated(r.tokens, HashOf(p, key)))[0]);
            primary.addr == AddressGiven(ops, primary.nodeId)
  {
    var r := Run(p, ops);
    TargetAddress(p, ops, Owners(r.owner, Rotated(r.tokens, HashOf(p, key)))[0]);
  }

  lemma TargetIsListed(p: Params, r: RingState, key: string, count: nat, t: NodeTarget)
    requires t in TargetsIn(NodesFor(p, r, key, count))
    ensures t.nodeId in NodeIds(p, r, key, count)
  {
    var ids := NodeIds(p, r, key, count);
    var i :| 0 <= i < |ids| && t == Targets(r, ids)[i];
    assert ids[i] in ids;
  }

  /** Without collisions the node is a member, so the address is that of its last registration outright. */
  lemma RoutedAddresses(p: Params, ops: seq<Op>, key: string, count: nat)
    requires NamedNodes(ops) && CollisionFree(p, AddedIds(ops)) && p.vnodes > 0
    ensures forall t :: t in TargetsIn(NodesFor(p, Run(p, ops), key, count)) ==>
              Joined(ops, t.nodeId) && t.addr == LastAddress(ops, t.nodeId)
  {
    LookupsGiveLastAddress(p, ops, key, count);
    EveryRunIsCanon(p, ops, AddedIds(ops));
    GetNodesAnswers(p, Run(p, ops), key, count);
    forall t | t in TargetsIn(NodesFor(p, Run(p, ops), key, count)) ensures Joined(ops, t.nodeId) {
      TargetIsListed(p, Run(p, ops), key, count, t);
      MembersAreTheJoined(p, ops, t.nodeId);
    }
  }
}
