/**
 * Binary trees as the circuit uses them: the pairing bracket, the tree of
 * score tokens and the winner tree all share this one shape. A node with two
 * empty children is a leaf.
 */
module Trees {

  datatype Tree<T> = Empty | Node(value: T, left: Tree<T>, right: Tree<T>)

  predicate IsLeaf<T>(t: Tree<T>) {
    t.Node? && t.left.Empty? && t.right.Empty?
  }

  /** The labels of the leaves, left to right. */
  function LeafSeq<T>(t: Tree<T>): seq<T> {
    match t
    case Empty => []
    case Node(v, l, r) => if l.Empty? && r.Empty? then [v] else LeafSeq(l) + LeafSeq(r)
  }

  /** Every node is a leaf or has two non-empty children. */
  predicate Full<T>(t: Tree<T>) {
    match t
    case Empty => true
    case Node(_, l, r) => (l.Empty? && r.Empty?) || (l.Node? && r.Node? && Full(l) && Full(r))
  }

  predicate SameShape<A, B>(s: Tree<A>, t: Tree<B>) {
    match s
    case Empty => t.Empty?
    case Node(_, l, r) => t.Node? && SameShape(l, t.left) && SameShape(r, t.right)
  }

  /** Every label of the tree, leaves and internal nodes alike, lies in 1..n. */
  predicate LabelsIn(t: Tree<int>, n: int) {
    match t
    case Empty => true
    case Node(v, l, r) => 1 <= v <= n && LabelsIn(l, n) && LabelsIn(r, n)
  }

  predicate NoDup<T(==)>(s: seq<T>) {
    forall i, j :: 0 <= i < j < |s| ==> s[i] != s[j]
  }

  lemma NoDupConcat<T>(L: seq<T>, R: seq<T>)
    requires NoDup(L) && NoDup(R)
    requires forall s :: s in L ==> s !in R
    ensures NoDup(L + R)
  {
    forall i, j | 0 <= i < j < |L + R| ensures (L + R)[i] != (L + R)[j] {
      if i < |L| && j >= |L| {
        assert (L + R)[i] in L && (L + R)[j] in R;
      }
    }
  }

  /** In a list without repetitions every value occurs once or not at all. */
  lemma {:induction false} NoDupCount<T>(s: seq<T>, x: T)
    requires NoDup(s)
    ensures multiset(s)[x] == if x in s then 1 else 0
  {
    if s != [] {
      var t := s[1..];
      assert s == [s[0]] + t;
      assert NoDup(t) by {
        forall i, j | 0 <= i < j < |t| ensures t[i] != t[j] {
          assert t[i] == s[i + 1] && t[j] == s[j + 1];
        }
      }
      assert s[0] !in t by {
        forall j | 0 <= j < |t| ensures t[j] != s[0] {
          assert t[j] == s[j + 1];
        }
      }
      NoDupCount(t, x);
      assert multiset(s) == multiset([s[0]]) + multiset(t);
    }
  }
}
