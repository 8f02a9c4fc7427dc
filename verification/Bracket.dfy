/**
 * The pairing bracket of a tournament (the recursive construction of
 * Torneo.cc's definir_emparejamientos) and the arithmetic its caller does to
 * size it. Seeds are 1-based; seed 1 is the strongest participant.
 */
module Bracket {
  import opened Trees

  function Pow2(k: nat): (r: nat)
    ensures r >= 1
  {
    if k == 0 then 1 else 2 * Pow2(k - 1)
  }

  lemma Pow2Monotone(i: nat, j: nat)
    requires i <= j
    ensures Pow2(i) <= Pow2(j)
    decreases j
  {
    if i < j {
      Pow2Monotone(i, j - 1);
    }
  }

  /** The exact value of ceil(log2 n): the least k with 2^k >= n. */
  function CeilLog2(n: nat): (k: nat)
    requires n >= 1
    ensures Pow2(k) >= n
    ensures k > 0 ==> Pow2(k - 1) < n
    decreases n
  {
    if n == 1 then 0 else 1 + CeilLog2((n + 1) / 2)
  }

  /** The height of the bracket for n participants, ceil(log2 n) + 1. */
  function Height(n: nat): (h: nat)
    requires n >= 1
    ensures h >= 1 && Pow2(h - 1) >= n
    ensures h > 1 ==> Pow2(h - 2) < n
  {
    CeilLog2(n) + 1
  }

  /** The number of byes, 2^(h-1) - n: the strongest seeds that skip the
      first round. Fewer than n, and at most half of the bracket's slots. */
  function Byes(n: nat): (x: int)
    requires n >= 1
    ensures 0 <= x < n
    ensures 2 * x <= Pow2(Height(n) - 1)
    ensures Pow2(Height(n) - 1) - x == n
  {
    Pow2(Height(n) - 1) - n
  }

  /** The bracket below a node at level `l` (the root is level 1) labelled
      with seed `a`, in a bracket of height `h` whose `x` strongest seeds have
      a bye. The sibling of seed a at level l is 2^l + 1 - a. */
  function DefinirEmparejamientos(h: int, l: int, a: int, x: int): (t: Tree<int>)
    requires 1 <= l <= h
    ensures t.Node? && t.value == a
    ensures l < h - 1 ==> !IsLeaf(t)
    decreases h - l
  {
    if l == h then Node(a, Empty, Empty)
    else if l == h - 1 && a <= x then Node(a, Empty, Empty)
    else
      var b := Pow2(l) + 1 - a;
      Node(a, DefinirEmparejamientos(h, l + 1, a, x), DefinirEmparejamientos(h, l + 1, b, x))
  }

  /** The seed at level `l` that seed `s` of the last level descends from:
      going up one level folds seed t onto 2^l + 1 - t. */
  function Up(l: nat, t: int): int
    requires l >= 1
  {
    if t <= Pow2(l - 1) then t else Pow2(l) + 1 - t
  }

  function Anc(h: int, l: int, s: int): int
    requires 1 <= l <= h
    decreases h - l
  {
    if l == h then s else Up(l, Anc(h, l + 1, s))
  }

  lemma {:induction false} AncRange(h: int, l: int, s: int)
    requires 1 <= l <= h
    requires 1 <= s <= Pow2(h - 1)
    ensures 1 <= Anc(h, l, s) <= Pow2(l - 1)
    decreases h - l
  {
    if l < h {
      AncRange(h, l + 1, s);
    }
  }

  /** The leaves below the node of seed `a` at level `l` are, each once, the
      seeds of the last level that descend from `a`, except the n+1..2^(h-1)
      that the byes remove. */
  lemma {:induction false} LeavesAt(h: int, l: int, a: int, x: int)
    requires 1 <= l <= h
    requires 1 <= a <= Pow2(l - 1)
    requires 0 <= x && 2 * x <= Pow2(h - 1)
    requires a <= Pow2(h - 1) - x
    ensures NoDup(LeafSeq(DefinirEmparejamientos(h, l, a, x)))
    ensures forall s :: s in LeafSeq(DefinirEmparejamientos(h, l, a, x)) <==>
              1 <= s <= Pow2(h - 1) - x && Anc(h, l, s) == a
    decreases h - l
  {
    var t := DefinirEmparejamientos(h, l, a, x);
    var N := Pow2(h - 1);
    if l == h {
      assert LeafSeq(t) == [a];
    } else if l == h - 1 && a <= x {
      assert LeafSeq(t) == [a];
      assert N == 2 * Pow2(h - 2);
      forall s ensures s in LeafSeq(t) <==> 1 <= s <= N - x && Anc(h, l, s) == a {
        assert Anc(h, l, s) == Up(l, s);
      }
    } else {
      var b := Pow2(l) + 1 - a;
      assert Pow2(l) == 2 * Pow2(l - 1);
      if l + 1 < h {
        Pow2Monotone(l, h - 2);
        assert N == 2 * Pow2(h - 2);
      }
      LeavesAt(h, l + 1, a, x);
      LeavesAt(h, l + 1, b, x);
      var L := LeafSeq(DefinirEmparejamientos(h, l + 1, a, x));
      var R := LeafSeq(DefinirEmparejamientos(h, l + 1, b, x));
      assert LeafSeq(t) == L + R;
      forall s ensures s in LeafSeq(t) <==> 1 <= s <= N - x && Anc(h, l, s) == a {
        if 1 <= s <= N - x {
          AncRange(h, l + 1, s);
        }
      }
      assert a != b;
      forall s | s in L ensures s !in R {
        assert Anc(h, l + 1, s) == a;
      }
      NoDupConcat(L, R);
    }
  }

  /** The bracket for n >= 1 participants has the seeds 1..n as its leaves,
      each exactly once. */
  lemma BracketLeaves(n: nat)
    requires n >= 1
    ensures var t := DefinirEmparejamientos(Height(n), 1, 1, Byes(n));
            NoDup(LeafSeq(t)) && forall s :: s in LeafSeq(t) <==> 1 <= s <= n
  {
    var h, x := Height(n), Byes(n);
    LeavesAt(h, 1, 1, x);
    forall s | 1 <= s <= n ensures Anc(h, 1, s) == 1 {
      AncRange(h, 1, s);
    }
  }

  /** Every internal node carries its left child's label. */
  predicate LeftLabelled(t: Tree<int>) {
    match t
    case Empty => true
    case Node(v, l, r) => (l.Node? ==> v == l.value) && LeftLabelled(l) && LeftLabelled(r)
  }

  /** The two children of a node at level `l` are seeds summing to 2^l + 1. */
  predicate SiblingsSum(t: Tree<int>, l: nat) {
    match t
    case Empty => true
    case Node(_, lt, rt) =>
      (lt.Node? && rt.Node? ==> lt.value + rt.value == Pow2(l) + 1) &&
      SiblingsSum(lt, l + 1) && SiblingsSum(rt, l + 1)
  }

  /** A leaf at level `l` is either a bye (level h-1, seed <= x) or a
      first-round player (level h, seed > x). */
  predicate LeafDepths(t: Tree<int>, l: nat, h: int, x: int) {
    match t
    case Empty => true
    case Node(v, lt, rt) =>
      (lt.Empty? && rt.Empty? ==> (l == h - 1 && v <= x) || (l == h && v > x)) &&
      LeafDepths(lt, l + 1, h, x) && LeafDepths(rt, l + 1, h, x)
  }

  lemma {:induction false} ShapeAt(h: int, l: int, a: int, x: int)
    requires 1 <= l <= h
    requires 1 <= a <= Pow2(l - 1)
    requires 0 <= x && 2 * x <= Pow2(h - 1)
    requires l == h ==> a > x
    ensures var t := DefinirEmparejamientos(h, l, a, x);
            t.Node? && t.value == a && Full(t) && LeftLabelled(t) &&
            SiblingsSum(t, l) && LeafDepths(t, l, h, x)
    decreases h - l
  {
    if l < h && !(l == h - 1 && a <= x) {
      var b := Pow2(l) + 1 - a;
      assert Pow2(l) == 2 * Pow2(l - 1);
      if l + 1 == h {
        assert Pow2(h - 1) == 2 * Pow2(h - 2);
      }
      ShapeAt(h, l + 1, a, x);
      ShapeAt(h, l + 1, b, x);
    }
  }

  /** The bracket for n >= 1 participants is full, labels each pairing with
      its left seed, pairs seeds summing to 2^l + 1 at level l, and has the
      x = Byes(n) strongest seeds as leaves at level h-1 and every other seed
      as a leaf at level h. */
  lemma BracketShape(n: nat)
    requires n >= 1
    ensures var t := DefinirEmparejamientos(Height(n), 1, 1, Byes(n));
            t.Node? && t.value == 1 && Full(t) && LeftLabelled(t) &&
            SiblingsSum(t, 1) && LeafDepths(t, 1, Height(n), Byes(n))
  {
    ShapeAt(Height(n), 1, 1, Byes(n));
  }

  /** Three participants: height 3, one bye, and seed 1 waits in round two
      for the winner of 2 against 3. */
  lemma ThreeParticipants()
    ensures Height(3) == 3 && Byes(3) == 1
    ensures DefinirEmparejamientos(3, 1, 1, 1) ==
            Node(1, Node(1, Empty, Empty), Node(2, Node(2, Empty, Empty), Node(3, Empty, Empty)))
  {
    assert CeilLog2(1) == 0;
    assert CeilLog2(2) == 1;
    assert CeilLog2(3) == 2;
    assert Pow2(1) == 2 && Pow2(2) == 4;
    assert DefinirEmparejamientos(3, 2, 1, 1) == Node(1, Empty, Empty);
    assert DefinirEmparejamientos(3, 2, 2, 1) == Node(2, Node(2, Empty, Empty), Node(3, Empty, Empty));
  }
}
