/** Routing on a ring without token collisions.

A lookup is a binary search and a walk over an array of tokens. Here it is compared with a
definition that has no array: the members sorted by clockwise distance to their nearest token.
Minimal disruption and history independence follow from that comparison.
*/
module RingOrder {
  import opened Ring

  // ---------------------------------------------------------------- collision-free rings

  ghost predicate OwnsAll(p: Params, r: RingState) {
    forall id, i: nat :: id in r.nodes && i < p.vnodes ==>
      VnodeToken(p, id, i) in r.owner && r.owner[VnodeToken(p, id, i)] == id
  }

  /** Every token is there once, and belongs to the node that hashed to it. */
  ghost predicate Canon(p: Params, r: RingState) {
    && Inv(p, r)
    && StrictlySorted(r.tokens)
    && OwnsAll(p, r)
    && forall t :: t in r.tokens <==> t in r.owner
  }

  lemma {:induction false} DistinctCounts(s: seq<Token>)
    requires forall i, j :: 0 <= i < j < |s| ==> s[i] != s[j]
    ensures forall t :: multiset(s)[t] <= 1
  {
    if s == [] {
    } else {
      var rest, x := s[..|s| - 1], s[|s| - 1];
      DistinctCounts(rest);
      assert s == rest + [x];
      assert x !in rest;
    }
  }

  lemma CountsDistinct(s: seq<Token>)
    requires Sorted(s) && forall t :: multiset(s)[t] <= 1
    ensures StrictlySorted(s)
  {
    forall i, j | 0 <= i < j < |s| ensures s[i] < s[j] {
      var a, b := s[..j], s[j..];
      assert s == a + b;
      assert a[i] == s[i] && b[0] == s[j];
      assert multiset(s)[s[i]] == multiset(a)[s[i]] + multiset(b)[s[i]];
    }
  }

  lemma {:induction false} SweepExact(tokens: seq<Token>, owner: map<Token, string>, id: string)
    requires id != "" && StrictlySorted(tokens)
    ensures forall t :: t in Sweep(tokens, owner, id).0 ==> OwnerOf(owner, t) != id
  {
    if tokens == [] {
    } else {
      var rest, t := tokens[..|tokens| - 1], tokens[|tokens| - 1];
      SweepExact(rest, owner, id);
      SweepFacts(rest, owner, id);
      assert t !in rest;
      assert OwnerOf(Sweep(rest, owner, id).1, t) == OwnerOf(owner, t);
    }
  }

  lemma RemoveKeepsCanon(p: Params, r: RingState, id: string)
    requires Canon(p, r)
    ensures Canon(p, Remove(r, id))
  {
    RemoveKeepsInv(p, r, id);
    if id in r.nodes {
      SweepSorted(r.tokens, r.owner, id);
      SweepFacts(r.tokens, r.owner, id);
      SweepExact(r.tokens, r.owner, id);
      var r' := Remove(r, id);
      forall t ensures t in r'.tokens <==> t in r'.owner {
      }
    }
  }

  lemma TokensDiffer(p: Params, r: RingState, id: string, i: nat, t: Token)
    requires OwnersCurrent(p, r) && CollisionFree(p, r.nodes + {id})
    requires t in r.owner && r.owner[t] != id && i < p.vnodes
    ensures VnodeToken(p, id, i) != t
  {
  }

  lemma ExtendDistinct(p: Params, r: RingState, id: string, addr: string)
    requires Canon(p, r) && id !in r.nodes && CollisionFree(p, r.nodes + {id})
    ensures StrictlySorted(Extend(p, r, id, addr).tokens)
  {
    var added := VnodeTokens(p, id, p.vnodes);
    AddedDistinct(p, r.nodes + {id}, id);
    forall t | t in r.tokens ensures t !in added {
      forall i | 0 <= i < |added| ensures added[i] != t {
        TokensDiffer(p, r, id, i, t);
      }
    }
    DisjointCounts(r.tokens, added);
    CountsDistinct(SortTokens(r.tokens + added));
  }

  lemma AddedDistinct(p: Params, ids: set<string>, id: string)
    requires id in ids && CollisionFree(p, ids)
    ensures var added := VnodeTokens(p, id, p.vnodes); forall i, j :: 0 <= i < j < |added| ==> added[i] != added[j]
  {
  }

  lemma DisjointCounts(a: seq<Token>, b: seq<Token>)
    requires forall i, j :: 0 <= i < j < |a| ==> a[i] != a[j]
    requires forall i, j :: 0 <= i < j < |b| ==> b[i] != b[j]
    requires forall t :: t in a ==> t !in b
    ensures forall t :: multiset(a + b)[t] <= 1
  {
    DistinctCounts(a);
    DistinctCounts(b);
    assert multiset(a + b) == multiset(a) + multiset(b);
    assert forall t :: t in multiset(a) ==> t in a;
    assert forall t :: t in multiset(b) ==> t in b;
  }

  lemma ExtendOwnsAll(p: Params, r: RingState, id: string, addr: string)
    requires Canon(p, r) && id !in r.nodes && CollisionFree(p, r.nodes + {id})
    ensures OwnsAll(p, Extend(p, r, id, addr))
  {
    var r' := Extend(p, r, id, addr);
    ClaimFacts(p, id, p.vnodes, r.owner);
    forall n, i: nat | n in r'.nodes && i < p.vnodes
      ensures VnodeToken(p, n, i) in r'.owner && r'.owner[VnodeToken(p, n, i)] == n
    {
      if n != id {
        var t := VnodeToken(p, n, i);
        assert t in r.owner && r.owner[t] == n;
        ClaimOrigin(p, id, p.vnodes, r.owner, t);
      }
    }
  }

  lemma ExtendKeepsCanon(p: Params, r: RingState, id: string, addr: string)
    requires Canon(p, r) && id != "" && id !in r.nodes && CollisionFree(p, r.nodes + {id})
    ensures Canon(p, Extend(p, r, id, addr))
  {
    var r' := Extend(p, r, id, addr);
    ExtendKeepsInv(p, r, id, addr);
    ExtendDistinct(p, r, id, addr);
    ExtendOwnsAll(p, r, id, addr);
    forall t ensures t in r'.tokens <==> t in r'.owner {
      if t in r'.tokens {
        SortMembers(r.tokens + VnodeTokens(p, id, p.vnodes));
        ClaimFacts(p, id, p.vnodes, r.owner);
      }
    }
  }

  lemma FewerCollideLess(p: Params, ids: set<string>, fewer: set<string>)
    requires CollisionFree(p, ids) && fewer <= ids
    ensures CollisionFree(p, fewer)
  {
  }

  lemma DropKeepsCanon(p: Params, r: RingState, id: string, addr: string)
    requires Canon(p, r)
    ensures Canon(p, DropPlaceholder(r, id, addr)) && DropPlaceholder(r, id, addr).nodes <= r.nodes
  {
    RemoveKeepsCanon(p, r, addr);
  }

  lemma AddKeepsCanon(p: Params, r: RingState, id: string, addr: string)
    requires Canon(p, r) && id != "" && CollisionFree(p, r.nodes + {id})
    ensures Canon(p, Add(p, r, id, addr))
  {
    var r1 := DropPlaceholder(r, id, addr);
    DropKeepsCanon(p, r, id, addr);
    if id !in r1.nodes {
      FewerCollideLess(p, r.nodes + {id}, r1.nodes + {id});
      ExtendKeepsCanon(p, r1, id, addr);
    } else {
      AddKeepsInv(p, r, id, addr);
      NewAddressKeepsCanon(p, r1, r1.addrs[id := addr]);
    }
  }

  lemma NewAddressKeepsCanon(p: Params, r: RingState, addrs: map<string, string>)
    requires Canon(p, r) && Inv(p, r.(addrs := addrs))
    ensures Canon(p, r.(addrs := addrs))
  {
  }

  // ---------------------------------------------------------------- the reference order

  /** Clockwise distance from `k` to `t`. */
  function Clockwise(k: Token, t: Token): int {
    (t - k) % TOKEN_SPACE
  }

  /** The distance from `k` to the nearest of the first `n` tokens of `id`. */
  function Nearest(p: Params, k: Token, id: string, n: nat): (d: int)
    requires n > 0
    ensures forall i :: 0 <= i < n ==> d <= Clockwise(k, VnodeToken(p, id, i))
    ensures exists i :: 0 <= i < n && d == Clockwise(k, VnodeToken(p, id, i))
  {
    var here := Clockwise(k, VnodeToken(p, id, n - 1));
    if n == 1 then
      here
    else
      var rest := Nearest(p, k, id, n - 1);
      if here < rest then here else rest
  }

  /** The distance of each node from `k`. */
  function Distance(p: Params, k: Token): string -> int
    requires p.vnodes > 0
  {
    (id: string) => Nearest(p, k, id, p.vnodes)
  }

  ghost predicate Ranked(rank: string -> int, s: seq<string>) {
    forall i, j :: 0 <= i < j < |s| ==> rank(s[i]) < rank(s[j])
  }

  /** `s` lists exactly the members in `nodes`, lowest rank first, with no ties. */
  ghost predicate IsOrder(rank: string -> int, nodes: set<string>, s: seq<string>) {
    Ranked(rank, s) && forall x :: x in s <==> x in nodes
  }

  lemma TailOrder(rank: string -> int, nodes: set<string>, a: seq<string>)
    requires a != []
    requires IsOrder(rank, nodes, a)
    ensures IsOrder(rank, nodes - {a[0]}, a[1..])
    ensures a[0] in nodes
  {
  }

  lemma {:induction false} OrderLength(rank: string -> int, nodes: set<string>, s: seq<string>)
    requires IsOrder(rank, nodes, s)
    ensures |s| == |nodes|
    decreases |s|
  {
    if s == [] {
      assert nodes == {};
    } else {
      TailOrder(rank, nodes, s);
      OrderLength(rank, nodes - {s[0]}, s[1..]);
    }
  }

  /** The first member of such a list is the nearest one. */
  lemma HeadIsNearest(rank: string -> int, nodes: set<string>, s: seq<string>, x: string)
    requires IsOrder(rank, nodes, s) && x in nodes
    ensures |s| > 0 && (x == s[0] || rank(s[0]) < rank(x))
  {
  }

  /** There is only one such list. */
  lemma {:induction false} OrderUnique(rank: string -> int, nodes: set<string>, a: seq<string>, b: seq<string>)
    requires IsOrder(rank, nodes, a) && IsOrder(rank, nodes, b)
    ensures a == b
    decreases |a|
  {
    OrderLength(rank, nodes, a);
    OrderLength(rank, nodes, b);
    if a == [] {
    } else {
      TailOrder(rank, nodes, a);
      TailOrder(rank, nodes, b);
      HeadIsNearest(rank, nodes, a, b[0]);
      HeadIsNearest(rank, nodes, b, a[0]);
      OrderUnique(rank, nodes - {a[0]}, a[1..], b[1..]);
      assert a == [a[0]] + a[1..] && b == [b[0]] + b[1..];
    }
  }

  // ---------------------------------------------------------------- the walk meets the reference order

  lemma RotatedPair(s: seq<Token>, k: Token, i: nat, j: nat)
    requires StrictlySorted(s) && 0 <= k < TOKEN_SPACE && i < j < |s|
    requires forall t :: t in s ==> 0 <= t < TOKEN_SPACE
    ensures var (a, b) := (Wrap(StartIndex(s, k) + i, |s|), Wrap(StartIndex(s, k) + j, |s|));
            a < |s| && b < |s| && Clockwise(k, s[a]) < Clockwise(k, s[b])
  {
    var a, b := Wrap(StartIndex(s, k) + i, |s|), Wrap(StartIndex(s, k) + j, |s|);
    assert s[a] in s && s[b] in s;
    StartSplits(s, k, a);
    StartSplits(s, k, b);
  }

  lemma RotatedIncreasing(s: seq<Token>, k: Token)
    requires StrictlySorted(s) && 0 <= k < TOKEN_SPACE
    requires forall t :: t in s ==> 0 <= t < TOKEN_SPACE
    ensures var r := Rotated(s, k); forall i, j :: 0 <= i < j < |r| ==> Clockwise(k, r[i]) < Clockwise(k, r[j])
  {
    var r := Rotated(s, k);
    forall i, j | 0 <= i < j < |r| ensures Clockwise(k, r[i]) < Clockwise(k, r[j]) {
      RotatedPair(s, k, i, j);
    }
  }

  /** From the start index on, tokens are at or after the key; before it, they are behind the key. */
  lemma StartSplits(s: seq<Token>, k: Token, i: nat)
    requires StrictlySorted(s) && i < |s|
    ensures LowerBound(s, k) < |s| ==> (s[i] >= k <==> i >= StartIndex(s, k))
    ensures LowerBound(s, k) == |s| ==> s[i] < k && StartIndex(s, k) == 0
  {
  }

  ghost predicate Walkable(p: Params, r: RingState, k: Token, walk: seq<Token>) {
    && Canon(p, r)
    && p.vnodes > 0
    && (forall t :: t in walk <==> t in r.owner)
    && forall i, j :: 0 <= i < j < |walk| ==> Clockwise(k, walk[i]) < Clockwise(k, walk[j])
  }

  lemma NotAmong(owners: seq<string>, n: nat, x: string)
    requires n <= |owners| && x !in owners[..n]
    ensures forall j :: 0 <= j < n ==> owners[j] != x
  {
    forall j | 0 <= j < n ensures owners[j] != x {
      assert owners[..n][j] == owners[j];
    }
  }

  lemma NearestAtMost(p: Params, r: RingState, k: Token, t: Token)
    requires Inv(p, r) && p.vnodes > 0 && t in r.owner
    ensures Nearest(p, k, r.owner[t], p.vnodes) <= Clockwise(k, t)
  {
    var x := r.owner[t];
    var i :| 0 <= i < p.vnodes && t == VnodeToken(p, x, i);
  }

  lemma NearestOwned(p: Params, r: RingState, k: Token, x: string) returns (t: Token)
    requires OwnsAll(p, r) && p.vnodes > 0 && x in r.nodes
    ensures t in r.owner && r.owner[t] == x && Nearest(p, k, x, p.vnodes) == Clockwise(k, t)
  {
    var i :| 0 <= i < p.vnodes && Nearest(p, k, x, p.vnodes) == Clockwise(k, VnodeToken(p, x, i));
    t := VnodeToken(p, x, i);
  }

  /** A token at least as near as position `n`, and not before it on the walk, is as near. */
  lemma NoNearerToken(k: Token, walk: seq<Token>, n: nat, t: Token)
    requires forall i, j :: 0 <= i < j < |walk| ==> Clockwise(k, walk[i]) < Clockwise(k, walk[j])
    requires n < |walk| && t in walk && Clockwise(k, t) <= Clockwise(k, walk[n])
    requires forall j :: 0 <= j < n ==> walk[j] != t
    ensures Clockwise(k, t) == Clockwise(k, walk[n])
  {
    var m :| 0 <= m < |walk| && walk[m] == t;
    assert n <= m;
  }

  lemma WalkOwners(p: Params, r: RingState, k: Token, walk: seq<Token>, i: nat)
    requires Walkable(p, r, k, walk) && i < |walk|
    ensures walk[i] in r.owner && r.owner[walk[i]] == Owners(r.owner, walk)[i] && r.owner[walk[i]] in r.nodes
  {
    assert walk[i] in walk;
  }

  /** When the walk meets a node for the first time, it stands on that node's nearest token. */
  lemma FirstMeeting(p: Params, r: RingState, k: Token, walk: seq<Token>, n: nat)
    requires Walkable(p, r, k, walk) && n < |walk|
    requires Owners(r.owner, walk)[n] !in Owners(r.owner, walk)[..n]
    ensures Distance(p, k)(Owners(r.owner, walk)[n]) == Clockwise(k, walk[n])
  {
    var owners := Owners(r.owner, walk);
    NotAmong(owners, n, owners[n]);
    WalkOwners(p, r, k, walk, n);
    NearestAtMost(p, r, k, walk[n]);
    var t := NearestOwned(p, r, k, owners[n]);
    forall j | 0 <= j < n ensures walk[j] != t {
      WalkOwners(p, r, k, walk, j);
    }
    NoNearerToken(k, walk, n, t);
  }

  /** In order of rank, and none above the bound. */
  ghost predicate RankedBelow(rank: string -> int, seen: seq<string>, bound: int) {
    Ranked(rank, seen) && forall i :: 0 <= i < |seen| ==> rank(seen[i]) <= bound
  }

  lemma MetNext(rank: string -> int, seen: seq<string>, before: int, x: string, now: int)
    requires RankedBelow(rank, seen, before) && before < now && (x in seen || rank(x) == now)
    ensures RankedBelow(rank, if x in seen then seen else seen + [x], now)
  {
  }

  function Distances(k: Token, walk: seq<Token>): (d: seq<int>)
    ensures |d| == |walk|
    ensures forall i :: 0 <= i < |walk| ==> d[i] == Clockwise(k, walk[i])
  {
    seq(|walk|, i requires 0 <= i < |walk| => Clockwise(k, walk[i]))
  }

  /** Distances grow along the walk, and a node met for the first time is met at its own distance. */
  ghost predicate MeetsAtRank(rank: string -> int, d: seq<int>, owners: seq<string>) {
    && |owners| == |d|
    && (forall i, j :: 0 <= i < j < |d| ==> d[i] < d[j])
    && (forall i :: 0 <= i < |owners| && owners[i] !in owners[..i] ==> rank(owners[i]) == d[i])
  }

  lemma MeetingsBefore(rank: string -> int, d: seq<int>, owners: seq<string>)
    requires MeetsAtRank(rank, d, owners) && owners != []
    ensures MeetsAtRank(rank, d[..|d| - 1], owners[..|owners| - 1])
  {
    var rest := owners[..|owners| - 1];
    forall i | 0 <= i < |rest| && rest[i] !in rest[..i] ensures rank(rest[i]) == d[i] {
      assert rest[..i] == owners[..i];
    }
  }

  lemma LastSeen(s: seq<string>)
    requires s != []
    ensures var (rest, x) := (s[..|s| - 1], s[|s| - 1]);
            && (x in FirstSeen(rest) <==> x in rest)
            && FirstSeen(s) == if x in FirstSeen(rest) then FirstSeen(rest) else FirstSeen(rest) + [x]
  {
  }

  lemma LastMeeting(rank: string -> int, d: seq<int>, owners: seq<string>)
    requires MeetsAtRank(rank, d, owners) && owners != []
    ensures var (rest, x) := (owners[..|owners| - 1], owners[|owners| - 1]); x in rest || rank(x) == d[|d| - 1]
  {
  }

  function LastOr(d: seq<int>, none: int): int {
    if d == [] then none else d[|d| - 1]
  }

  lemma {:induction false} MeetingsRanked(rank: string -> int, d: seq<int>, owners: seq<string>, none: int)
    requires MeetsAtRank(rank, d, owners) && (d != [] ==> none < d[0])
    ensures RankedBelow(rank, FirstSeen(owners), LastOr(d, none))
  {
    if owners == [] {
    } else {
      var rest, x, before := owners[..|owners| - 1], owners[|owners| - 1], d[..|d| - 1];
      MeetingsBefore(rank, d, owners);
      MeetingsRanked(rank, before, rest, none);
      LastMeeting(rank, d, owners);
      LastSeen(owners);
      MetNext(rank, FirstSeen(rest), LastOr(before, none), x, d[|d| - 1]);
    }
  }

  lemma RotatedMembers(s: seq<Token>, k: Token)
    ensures forall t :: t in Rotated(s, k) <==> t in s
  {
  }

  lemma TokenRange(p: Params, r: RingState)
    requires Canon(p, r)
    ensures forall t :: t in r.tokens ==> 0 <= t < TOKEN_SPACE
  {
  }

  lemma RotationWalkable(p: Params, r: RingState, k: Token)
    requires Canon(p, r) && p.vnodes > 0 && 0 <= k < TOKEN_SPACE
    ensures Walkable(p, r, k, Rotated(r.tokens, k))
  {
    TokenRange(p, r);
    RotatedIncreasing(r.tokens, k);
    RotatedMembers(r.tokens, k);
  }

  lemma WalkMembers(p: Params, r: RingState, k: Token, walk: seq<Token>)
    requires Walkable(p, r, k, walk)
    ensures forall x :: x in Owners(r.owner, walk) <==> x in r.nodes
  {
    var owners := Owners(r.owner, walk);
    forall x | x in owners ensures x in r.nodes {
      var i :| 0 <= i < |owners| && owners[i] == x;
      assert walk[i] in walk;
    }
    forall x | x in r.nodes ensures x in owners {
      var t := VnodeToken(p, x, 0);
      assert t in r.owner && r.owner[t] == x && t in walk;
      var i :| 0 <= i < |walk| && walk[i] == t;
      assert owners[i] == x;
    }
  }

  lemma WalkMeets(p: Params, r: RingState, k: Token, walk: seq<Token>)
    requires Walkable(p, r, k, walk)
    ensures MeetsAtRank(Distance(p, k), Distances(k, walk), Owners(r.owner, walk))
  {
    var owners := Owners(r.owner, walk);
    forall i | 0 <= i < |owners| && owners[i] !in owners[..i]
      ensures Distance(p, k)(owners[i]) == Distances(k, walk)[i]
    {
      FirstMeeting(p, r, k, walk, i);
    }
  }

  /** The walk order is the clockwise order of the members. */
  lemma PreferenceIsClockwise(p: Params, r: RingState, key: string)
    requires Canon(p, r) && p.vnodes > 0
    ensures IsOrder(Distance(p, HashOf(p, key)), r.nodes, Preference(p, r, key))
  {
    var k := HashOf(p, key);
    var walk := Rotated(r.tokens, k);
    RotationWalkable(p, r, k);
    WalkMeets(p, r, k, walk);
    var d := Distances(k, walk);
    MeetingsRanked(Distance(p, k), d, Owners(r.owner, walk), if d == [] then 0 else d[0] - 1);
    WalkMembers(p, r, k, walk);
  }

  lemma EmptyRing(p: Params, r: RingState)
    requires Canon(p, r) && p.vnodes > 0
    ensures r.tokens == [] <==> r.nodes == {}
  {
    if r.tokens != [] {
      assert r.tokens[0] in r.tokens;
    } else {
      forall x | x in r.nodes ensures VnodeToken(p, x, 0) in r.tokens {
      }
    }
  }

  /** The walk begins with the node that `GetPrimaryNode` reads off the array. */
  lemma WalkStartsAtPrimary(p: Params, r: RingState, key: string)
    requires r.tokens != []
    ensures |Preference(p, r, key)| > 0
    ensures Preference(p, r, key)[0] == Owners(r.owner, Rotated(r.tokens, HashOf(p, key)))[0]
  {
    var walk := Owners(r.owner, Rotated(r.tokens, HashOf(p, key)));
    FirstSeenPrefix(walk, 1);
    assert walk[..1] == [walk[0]];
    assert FirstSeen([walk[0]]) == [walk[0]];
  }

  lemma TakeDistinct(s: seq<string>, count: nat)
    requires forall i, j :: 0 <= i < j < |s| ==> s[i] != s[j]
    ensures forall i, j :: 0 <= i < j < |Take(s, count)| ==> Take(s, count)[i] != Take(s, count)[j]
  {
  }

  /** `GetNodes` refines the definition without arrays: the first `count` members in clockwise order,
      whatever array holds the ring. */
  lemma GetNodesRefinesClockwiseOrder(p: Params, r: RingState, key: string, count: nat, order: seq<string>)
    requires Canon(p, r) && p.vnodes > 0
    requires IsOrder(Distance(p, HashOf(p, key)), r.nodes, order)
    ensures NodesFor(p, r, key, count) == if r.nodes == {} then NoNodesInRing else Found(Targets(r, Take(order, count)))
  {
    PreferenceIsClockwise(p, r, key);
    OrderUnique(Distance(p, HashOf(p, key)), r.nodes, order, Preference(p, r, key));
    EmptyRing(p, r);
  }

  /** The answer has min(count, members) nodes, without repetition, all of them members. */
  lemma GetNodesAnswers(p: Params, r: RingState, key: string, count: nat)
    requires Canon(p, r) && p.vnodes > 0
    ensures |NodeIds(p, r, key, count)| == if count < |r.nodes| then count else |r.nodes|
    ensures forall i, j :: 0 <= i < j < |NodeIds(p, r, key, count)| ==>
      NodeIds(p, r, key, count)[i] != NodeIds(p, r, key, count)[j]
    ensures forall x :: x in NodeIds(p, r, key, count) ==> x in r.nodes
  {
    var order := Preference(p, r, key);
    PreferenceIsClockwise(p, r, key);
    OrderLength(Distance(p, HashOf(p, key)), r.nodes, order);
    RankedDistinct(Distance(p, HashOf(p, key)), order);
    TakeDistinct(order, count);
    forall x | x in NodeIds(p, r, key, count) ensures x in order {
    }
  }

  /** Asking for more nodes only extends the answer. */
  lemma GetNodesPrefix(p: Params, r: RingState, key: string, count: nat, more: nat)
    requires count <= more
    ensures NodeIds(p, r, key, count) <= NodeIds(p, r, key, more)
    ensures NodeIds(p, r, key, count) == Take(NodeIds(p, r, key, more), count)
  {
  }

  // ---------------------------------------------------------------- minimal disruption

  function Without(s: seq<string>, x: string): (r: seq<string>)
    ensures forall y :: y in r <==> y in s && y != x
  {
    if s == [] then []
    else if s[0] == x then Without(s[1..], x)
    else [s[0]] + Without(s[1..], x)
  }

  lemma {:induction false} WithoutRanked(rank: string -> int, s: seq<string>, x: string)
    requires Ranked(rank, s)
    ensures Ranked(rank, Without(s, x))
  {
    if s == [] {
    } else {
      var rest := s[1..];
      WithoutRanked(rank, rest, x);
      if s[0] != x {
        forall y | y in Without(rest, x) ensures rank(s[0]) < rank(y) {
          var m :| 0 <= m < |rest| && rest[m] == y;
          assert s[m + 1] == y;
        }
        ConsRanked(rank, s[0], Without(rest, x));
      }
    }
  }

  lemma ConsRanked(rank: string -> int, x: string, s: seq<string>)
    requires Ranked(rank, s)
    requires forall y :: y in s ==> rank(x) < rank(y)
    ensures Ranked(rank, [x] + s)
  {
  }

  lemma OrderWithout(rank: string -> int, nodes: set<string>, a: seq<string>, x: string, b: seq<string>)
    requires IsOrder(rank, nodes, a) && IsOrder(rank, nodes - {x}, b)
    ensures b == Without(a, x)
  {
    WithoutRanked(rank, a, x);
    OrderUnique(rank, nodes - {x}, b, Without(a, x));
  }

  /** Removing `x` deletes it from every key's order and moves nothing else. */
  lemma RemovalDisruption(p: Params, r: RingState, key: string, x: string)
    requires Canon(p, r) && p.vnodes > 0
    ensures Preference(p, Remove(r, x), key) == Without(Preference(p, r, key), x)
  {
    PreferenceIsClockwise(p, r, key);
    OrderAfterRemoval(p, r, key, x);
    OrderWithout(Distance(p, HashOf(p, key)), r.nodes, Preference(p, r, key), x, Preference(p, Remove(r, x), key));
  }

  lemma OrderAfterRemoval(p: Params, r: RingState, key: string, x: string)
    requires Canon(p, r) && p.vnodes > 0
    ensures IsOrder(Distance(p, HashOf(p, key)), r.nodes - {x}, Preference(p, Remove(r, x), key))
  {
    RemoveKeepsCanon(p, r, x);
    PreferenceIsClockwise(p, Remove(r, x), key);
    MembersAfterRemoval(r, x);
  }

  lemma MembersAfterRemoval(r: RingState, x: string)
    ensures Remove(r, x).nodes == r.nodes - {x}
  {
  }

  lemma MembersAfterAddition(p: Params, r: RingState, x: string, addr: string)
    ensures Add(p, r, x, addr).nodes == DropPlaceholder(r, x, addr).nodes + {x}
    ensures Add(p, r, x, addr).nodes - {x} == DropPlaceholder(r, x, addr).nodes - {x}
  {
  }

  lemma OrdersAgreeWithout(rank: string -> int, n1: set<string>, n2: set<string>, a: seq<string>, b: seq<string>,
                           x: string)
    requires IsOrder(rank, n1, a) && IsOrder(rank, n2, b) && n1 - {x} == n2 - {x}
    ensures Without(a, x) == Without(b, x)
  {
    WithoutRanked(rank, a, x);
    WithoutRanked(rank, b, x);
    OrderUnique(rank, n1 - {x}, Without(a, x), Without(b, x));
  }

  lemma SameRest(p: Params, r1: RingState, r2: RingState, key: string, x: string)
    requires Canon(p, r1) && Canon(p, r2) && p.vnodes > 0 && r1.nodes - {x} == r2.nodes - {x}
    ensures Without(Preference(p, r1, key), x) == Without(Preference(p, r2, key), x)
  {
    var a, b := Preference(p, r1, key), Preference(p, r2, key);
    PreferenceIsClockwise(p, r1, key);
    PreferenceIsClockwise(p, r2, key);
    OrdersAgreeWithout(Distance(p, HashOf(p, key)), r1.nodes, r2.nodes, a, b, x);
  }

  /** Adding `x` inserts it into every key's order and moves nothing else; when `addr` was a
      placeholder, that one disappears. */
  lemma AdditionDisruption(p: Params, r: RingState, key: string, x: string, addr: string)
    requires Canon(p, r) && p.vnodes > 0 && x != "" && CollisionFree(p, r.nodes + {x})
    ensures var before := Preference(p, r, key);
            Without(Preference(p, Add(p, r, x, addr), key), x)
            == Without(if IsPlaceholder(r, x, addr) then Without(before, addr) else before, x)
  {
    AdditionAfterPlaceholder(p, r, key, x, addr);
    if IsPlaceholder(r, x, addr) {
      RemovalDisruption(p, r, key, addr);
    }
  }

  lemma AdditionAfterPlaceholder(p: Params, r: RingState, key: string, x: string, addr: string)
    requires Canon(p, r) && p.vnodes > 0 && x != "" && CollisionFree(p, r.nodes + {x})
    ensures Without(Preference(p, Add(p, r, x, addr), key), x)
            == Without(Preference(p, DropPlaceholder(r, x, addr), key), x)
  {
    var r1, r2 := DropPlaceholder(r, x, addr), Add(p, r, x, addr);
    AddKeepsCanon(p, r, x, addr);
    RemoveKeepsCanon(p, r, addr);
    MembersAfterAddition(p, r, x, addr);
    SameRest(p, r2, r1, key, x);
  }

  lemma {:induction false} WithoutAt(s: seq<string>, m: nat)
    requires forall i, j :: 0 <= i < j < |s| ==> s[i] != s[j]
    requires m < |s|
    ensures Without(s, s[m]) == s[..m] + s[m + 1..]
  {
    if m == 0 {
      assert s[0] !in s[1..];
      WithoutAbsent(s[1..], s[0]);
    } else {
      WithoutAt(s[1..], m - 1);
      assert s[..m] == [s[0]] + s[1..][..m - 1];
    }
  }

  /** Cutting position `m` out of a list, then cutting the list to `count`. */
  lemma CutThenTake(s: seq<string>, m: nat, count: nat)
    requires m < |s|
    ensures m <= count ==> m < |Take(s, count + 1)|
    ensures var t := Take(s, count + 1);
            Take(s[..m] + s[m + 1..], count) == if m <= count then t[..m] + t[m + 1..] else s[..count]
  {
  }

  lemma TakeWithout(s: seq<string>, x: string, count: nat)
    requires forall i, j :: 0 <= i < j < |s| ==> s[i] != s[j]
    ensures Take(Without(s, x), count) == Take(Without(Take(s, count + 1), x), count)
  {
    var t := Take(s, count + 1);
    if x !in s {
      WithoutAbsent(s, x);
      WithoutAbsent(t, x);
    } else {
      var m :| 0 <= m < |s| && s[m] == x;
      WithoutAt(s, m);
      CutThenTake(s, m, count);
      if m <= count {
        WithoutAt(t, m);
      } else {
        WithoutAbsent(t, x);
        assert t == s[..count + 1];
      }
    }
  }

  lemma {:induction false} WithoutAbsent(s: seq<string>, x: string)
    requires x !in s
    ensures Without(s, x) == s
  {
    if s == [] {
    } else {
      WithoutAbsent(s[1..], x);
      assert s == [s[0]] + s[1..];
    }
  }

  lemma RankedDistinct(rank: string -> int, s: seq<string>)
    requires Ranked(rank, s)
    ensures forall i, j :: 0 <= i < j < |s| ==> s[i] != s[j]
  {
  }

  /** The same at every list length: without `x`, the first `count` nodes are the first `count + 1`
      with `x` struck out. */
  lemma RemovalDisruptionAtCount(p: Params, r: RingState, key: string, x: string, count: nat)
    requires Canon(p, r) && p.vnodes > 0
    ensures NodeIds(p, Remove(r, x), key, count) == Take(Without(NodeIds(p, r, key, count + 1), x), count)
  {
    RemovalDisruption(p, r, key, x);
    PreferenceIsClockwise(p, r, key);
    RankedDistinct(Distance(p, HashOf(p, key)), Preference(p, r, key));
    TakeWithout(Preference(p, r, key), x, count);
  }

  /** And for an addition of a fresh node: what was there before are the new first nodes with `x`
      struck out. */
  lemma AdditionDisruptionAtCount(p: Params, r: RingState, key: string, x: string, addr: string, count: nat)
    requires Canon(p, r) && p.vnodes > 0 && x != "" && CollisionFree(p, r.nodes + {x})
    requires x !in r.nodes && !IsPlaceholder(r, x, addr)
    ensures NodeIds(p, r, key, count) == Take(Without(NodeIds(p, Add(p, r, x, addr), key, count + 1), x), count)
  {
    AdditionDisruption(p, r, key, x, addr);
    NotInOrder(p, r, key, x);
    AddKeepsCanon(p, r, x, addr);
    DistinctOrder(p, Add(p, r, x, addr), key);
    TakeWithout(Preference(p, Add(p, r, x, addr), key), x, count);
  }

  lemma NotInOrder(p: Params, r: RingState, key: string, x: string)
    requires Canon(p, r) && p.vnodes > 0 && x !in r.nodes
    ensures Without(Preference(p, r, key), x) == Preference(p, r, key)
  {
    PreferenceIsClockwise(p, r, key);
    WithoutAbsent(Preference(p, r, key), x);
  }

  lemma DistinctOrder(p: Params, r: RingState, key: string)
    requires Canon(p, r) && p.vnodes > 0
    ensures forall i, j :: 0 <= i < j < |Preference(p, r, key)| ==> Preference(p, r, key)[i] != Preference(p, r, key)[j]
  {
    PreferenceIsClockwise(p, r, key);
    RankedDistinct(Distance(p, HashOf(p, key)), Preference(p, r, key));
  }

  /** The nodes that stay keep their addresses too. */
  lemma RemovalKeepsAddresses(r: RingState, x: string, y: string)
    requires x != y
    ensures Target(Remove(r, x), y) == Target(r, y)
  {
  }

  /** A fresh node takes keys for itself and moves no key between the others. */
  lemma AdditionMovesKeysOnlyToNewNode(p: Params, r: RingState, key: string, x: string, addr: string)
    requires Canon(p, r) && p.vnodes > 0 && x != "" && CollisionFree(p, r.nodes + {x})
    requires x !in r.nodes && !IsPlaceholder(r, x, addr) && r.nodes != {}
    ensures var (before, after) := (Preference(p, r, key), Preference(p, Add(p, r, x, addr), key));
            && |before| > 0 && |after| > 0
            && (after[0] == x || after[0] == before[0])
            && Without(after, x) == before
  {
    AdditionDisruption(p, r, key, x, addr);
    assert x !in Preference(p, r, key) && Preference(p, r, key) != [] by {
      PreferenceIsClockwise(p, r, key);
      var n :| n in r.nodes;
      assert n in Preference(p, r, key);
    }
    WithoutAbsent(Preference(p, r, key), x);
  }

  /** When the primary leaves, its keys go to the replica that reads already fail over to. */
  lemma ReplicaInheritsKeys(p: Params, r: RingState, key: string)
    requires Canon(p, r) && p.vnodes > 0 && |Preference(p, r, key)| >= 2
    ensures var before := Preference(p, r, key);
            var after := Preference(p, Remove(r, before[0]), key);
            |after| > 0 && after[0] == before[1]
  {
    var before := Preference(p, r, key);
    RemovalDisruption(p, r, key, before[0]);
    PreferenceIsClockwise(p, r, key);
    RankedDistinct(Distance(p, HashOf(p, key)), before);
    assert before[0] !in before[1..];
    WithoutAbsent(before[1..], before[0]);
  }
}
