/** The names of virtual nodes tell the nodes and their numbers apart, so tokens collide through the hash
    alone. */
module RingNames {
  import opened Ring

  /** What a string of decimal digits stands for. */
  function Value(digits: string): int {
    if digits == "" then 0
    else Value(digits[..|digits| - 1]) * 10 + (digits[|digits| - 1] as int - '0' as int)
  }

  predicate Digits(s: string) {
    s != "" && forall i :: 0 <= i < |s| ==> '0' <= s[i] <= '9'
  }

  lemma LastDigit(s: string, d: char)
    ensures Value(s + [d]) == Value(s) * 10 + (d as int - '0' as int)
  {
    assert (s + [d])[..|s|] == s;
  }

  lemma DigitReads(d: nat)
    requires d < 10
    ensures var c := "0123456789"[d]; '0' <= c <= '9' && c as int - '0' as int == d
  {
  }

  lemma MoreDigits(s: string, d: char)
    requires Digits(s) && '0' <= d <= '9'
    ensures Digits(s + [d])
  {
  }

  lemma {:induction false} ItoaReads(n: nat)
    ensures Digits(Itoa(n)) && Value(Itoa(n)) == n
  {
    if n < 10 {
      DigitReads(n);
      LastDigit([], "0123456789"[n]);
      assert [] + ["0123456789"[n]] == Itoa(n);
    } else {
      var d := "0123456789"[n % 10];
      DigitReads(n % 10);
      ItoaReads(n / 10);
      LastDigit(Itoa(n / 10), d);
      MoreDigits(Itoa(n / 10), d);
    }
  }

  /** The parts of `s` before and after its last `#`. */
  function SplitLast(s: string): (string, string) {
    if s == "" then ("", "")
    else if s[|s| - 1] == '#' then (s[..|s| - 1], "")
    else
      var (before, after) := SplitLast(s[..|s| - 1]);
      (before, after + [s[|s| - 1]])
  }

  lemma {:induction false} SplitAt(before: string, after: string)
    requires '#' !in after
    ensures SplitLast(before + "#" + after) == (before, after)
  {
    var s := before + "#" + after;
    if after == "" {
      assert s[..|s| - 1] == before;
    } else {
      var rest := after[..|after| - 1];
      SplitAt(before, rest);
      assert s[..|s| - 1] == before + "#" + rest && after == rest + [after[|after| - 1]];
    }
  }

  lemma NoHash(tag: string, digits: string)
    requires '#' !in tag && Digits(digits)
    ensures '#' !in tag + digits
  {
  }

  lemma Regroup(id: string, digits: string)
    ensures id + "#vnode:" + digits == id + "#" + ("vnode:" + digits)
  {
  }

  lemma NameSplits(id: string, i: nat)
    ensures SplitLast(VnodeName(id, i)) == (id, "vnode:" + Itoa(i))
  {
    ItoaReads(i);
    NoHash("vnode:", Itoa(i));
    SplitAt(id, "vnode:" + Itoa(i));
    Regroup(id, Itoa(i));
  }

  /** A virtual node's name gives back its node, whatever the ID contains, and its number. */
  lemma NameReadsBack(id: string, i: nat)
    ensures var (node, tag) := SplitLast(VnodeName(id, i));
            node == id && "vnode:" < tag && Digits(tag[6..]) && Value(tag[6..]) == i
  {
    NameSplits(id, i);
    ItoaReads(i);
    assert ("vnode:" + Itoa(i))[6..] == Itoa(i);
  }

  lemma NamesDiffer(a: string, i: nat, b: string, j: nat)
    ensures VnodeName(a, i) == VnodeName(b, j) <==> a == b && i == j
  {
    NameReadsBack(a, i);
    NameReadsBack(b, j);
  }

  /** Of a digest the ring keeps the low 32 bits and nothing else. */
  lemma HashIsTruncated(p: Params, s: string, p': Params, s': string)
    ensures 0 <= HashOf(p, s) < TOKEN_SPACE && (p.digest(s) - HashOf(p, s)) % TOKEN_SPACE == 0
    ensures HashOf(p, s) == HashOf(p', s') <==> (p.digest(s) - p'.digest(s')) % TOKEN_SPACE == 0
  {
    SameRemainder(p.digest(s), p'.digest(s'));
    SameRemainder(p.digest(s), HashOf(p, s));
  }

  lemma SameRemainder(a: int, b: int)
    ensures a % TOKEN_SPACE == b % TOKEN_SPACE <==> (a - b) % TOKEN_SPACE == 0
  {
    var (q, r) := (a / TOKEN_SPACE, b / TOKEN_SPACE);
    assert a - b == (q - r) * TOKEN_SPACE + (a % TOKEN_SPACE - b % TOKEN_SPACE);
  }

  /** No two different names of virtual nodes have the same hash. */
  ghost predicate HashSeparates(p: Params, ids: set<string>) {
    forall a, b, i: nat, j: nat ::
      a in ids && b in ids && i < p.vnodes && j < p.vnodes && VnodeName(a, i) != VnodeName(b, j) ==>
        HashOf(p, VnodeName(a, i)) != HashOf(p, VnodeName(b, j))
  }

  /** The nodes' tokens are free of collisions exactly when the hash keeps the names of their virtual nodes
      apart. */
  lemma CollisionFreeIff(p: Params, ids: set<string>)
    ensures CollisionFree(p, ids) <==> HashSeparates(p, ids)
  {
    if HashSeparates(p, ids) {
      forall a, b, i: nat, j: nat |
        a in ids && b in ids && i < p.vnodes && j < p.vnodes && VnodeToken(p, a, i) == VnodeToken(p, b, j)
        ensures a == b && i == j
      {
        NamesDiffer(a, i, b, j);
      }
    }
    if CollisionFree(p, ids) {
      forall a, b, i: nat, j: nat |
        a in ids && b in ids && i < p.vnodes && j < p.vnodes && VnodeName(a, i) != VnodeName(b, j)
        ensures HashOf(p, VnodeName(a, i)) != HashOf(p, VnodeName(b, j))
      {
        SeparateTokens(p, ids, a, i, b, j);
      }
    }
  }

  lemma SeparateTokens(p: Params, ids: set<string>, a: string, i: nat, b: string, j: nat)
    requires CollisionFree(p, ids) && a in ids && b in ids && i < p.vnodes && j < p.vnodes
    requires VnodeName(a, i) != VnodeName(b, j)
    ensures HashOf(p, VnodeName(a, i)) != HashOf(p, VnodeName(b, j))
  {
    assert VnodeToken(p, a, i) == VnodeToken(p, b, j) ==> a == b && i == j;
  }
}
