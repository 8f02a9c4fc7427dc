/**
 * Finishing a tournament: the winner tree that Torneo.cc's proc_resultados
 * builds from the bracket and the tree of score tokens, and the list of
 * matches that actualizar_estadisticas plays, in the order it plays them.
 */
module Results {
  import opened Trees
  import opened Scores

  /** The score tokens fit the bracket: a token at every pairing and none
      below a leaf, the shape a well-formed results listing has. */
  predicate Fits(emp: Tree<int>, res: Tree<string>) {
    match emp
    case Empty => false
    case Node(_, l, r) =>
      if l.Empty? && r.Empty? then res.Empty?
      else res.Node? && l.Node? && r.Node? && Fits(l, res.left) && Fits(r, res.right)
  }

  /** The winner tree: a leaf keeps its seed, and a pairing holds the winner
      of the match between the winners of its two halves. */
  function ProcResultados(emp: Tree<int>, res: Tree<string>): (w: Tree<int>)
    requires Fits(emp, res)
    ensures w.Node?
  {
    if emp.left.Empty? && emp.right.Empty? then Node(emp.value, Empty, Empty)
    else
      var i := ProcResultados(emp.left, res.left);
      var d := ProcResultados(emp.right, res.right);
      Node(MatchWinner(i.value, d.value, res.value), i, d)
  }

  /** Every pairing of `w` holds the winner, under `res`, of its two
      children's values. */
  predicate Decided(w: Tree<int>, res: Tree<string>) {
    match w
    case Empty => true
    case Node(v, l, r) =>
      if l.Empty? && r.Empty? then true
      else l.Node? && r.Node? && res.Node? && v == MatchWinner(l.value, r.value, res.value) &&
           Decided(l, res.left) && Decided(r, res.right)
  }

  /** The winner tree has the bracket's shape and leaves, every pairing holds
      the winner of its two children, and the root (the champion) is one of
      the bracket's seeds. */
  lemma {:induction false} WinnerTree(emp: Tree<int>, res: Tree<string>)
    requires Fits(emp, res)
    ensures var w := ProcResultados(emp, res);
            SameShape(emp, w) && LeafSeq(w) == LeafSeq(emp) && Decided(w, res) &&
            w.value in LeafSeq(emp)
  {
    var w := ProcResultados(emp, res);
    if !(emp.left.Empty? && emp.right.Empty?) {
      WinnerTree(emp.left, res.left);
      WinnerTree(emp.right, res.right);
      var i := ProcResultados(emp.left, res.left);
      var d := ProcResultados(emp.right, res.right);
      assert LeafSeq(w) == LeafSeq(i) + LeafSeq(d);
      assert w.value == i.value || w.value == d.value;
    }
  }

  /** One call of act_stats: seeds `a` and `b` (1-based slots of the
      participant list), the score token and the level (the final is 1). */
  datatype Game = Game(a: int, b: int, res: string, nivel: int)

  /** The results tree reaches only pairings of `w`: below each token there
      are two children whose seeds can be read. */
  predicate Walkable(w: Tree<int>, res: Tree<string>) {
    match res
    case Empty => true
    case Node(_, rl, rr) =>
      w.Node? && w.left.Node? && w.right.Node? && Walkable(w.left, rl) && Walkable(w.right, rr)
  }

  /** The matches actualizar_estadisticas plays, in preorder: one per token,
      between the values of the two children, at the token's depth. */
  function Matches(w: Tree<int>, res: Tree<string>, nivel: int): (ms: seq<Game>)
    requires Walkable(w, res)
    ensures res.Empty? <==> ms == []
  {
    if res.Empty? then []
    else [Game(w.left.value, w.right.value, res.value, nivel)] +
         Matches(w.left, res.left, nivel + 1) + Matches(w.right, res.right, nivel + 1)
  }

  /** Whether the first player wins, decided as act_stats decides it: by
      the majority of sets when the token does not parse to exactly one set,
      and by that one set otherwise. */
  function FirstWon(res: string): (r: bool)
    ensures res == "1-0" ==> r
    ensures res == "0-1" ==> !r
    ensures r <==> 2 * FirstWins(SetScores(res)) > |SetScores(res)|
  {
    WalkoverScores();
    FirstWonSets(SetScores(res))
  }

  /** The same decision on the parsed sets. Both branches amount to the
      first player winning strictly more than half of the sets. */
  function FirstWonSets(v: seq<Pair>): (r: bool)
    ensures r <==> 2 * FirstWins(v) > |v|
  {
    if |v| != 1 then FirstWins(v) > |v| - FirstWins(v)
    else
      assert v[..0] == [];
      assert FirstWins(v) == if v[0].first > v[0].second then 1 else 0;
      v[0].first > v[0].second
  }

  /** The walkover tokens parse to a single set. */
  lemma WalkoverScores()
    ensures SetScores("1-0") == [Pair(1, 0)]
    ensures SetScores("0-1") == [Pair(0, 1)]
  {
    assert "1-0"[..2] == "1-" && "1-"[..1] == "1" && "1"[..0] == [];
    assert "0-1"[..2] == "0-" && "0-"[..1] == "0" && "0"[..0] == [];
    assert Digits("1-0") == [1, 0];
    assert Digits("0-1") == [0, 1];
  }

  /** act_stats and match agree on every token: the player act_stats
      credits with the win is the one match returns. */
  lemma FirstWonAgrees(a: int, b: int, res: string)
    ensures MatchWinner(a, b, res) == if FirstWon(res) then a else b
  {
    WalkoverScores();
    var v := SetScores(res);
    if |v| == 1 {
      assert v[..0] == [];
      assert FirstWins(v) == if v[0].first > v[0].second then 1 else 0;
    }
  }

  /** The seed act_stats credits with the match. */
  function Winner(g: Game): (s: int)
    ensures s == g.a || s == g.b
  {
    if FirstWon(g.res) then g.a else g.b
  }

  /** The other seed of the match. */
  function Loser(g: Game): (s: int)
    ensures s == g.a || s == g.b
    ensures g.a != g.b ==> s != Winner(g)
  {
    if FirstWon(g.res) then g.b else g.a
  }

  /** The seeds that receive category points in the matches `ms`, in order:
      each match's loser, and the winner too in the final. */
  function AwardedSeeds(ms: seq<Game>): (r: seq<int>)
    ensures |ms| <= |r| <= 2 * |ms|
  {
    if ms == [] then []
    else [Loser(ms[0])] + (if ms[0].nivel == 1 then [Winner(ms[0])] else []) + AwardedSeeds(ms[1..])
  }

  /** A single match pays its loser, and its winner too in the final. */
  lemma AwardedOne(gm: Game)
    ensures var first := FirstWon(gm.res);
            AwardedSeeds([gm]) == [if first then gm.b else gm.a] + if gm.nivel == 1 then [if first then gm.a else gm.b] else []
  {
    assert [gm][1..] == [];
  }

  lemma {:induction false} AwardedAppend(xs: seq<Game>, ys: seq<Game>)
    ensures AwardedSeeds(xs + ys) == AwardedSeeds(xs) + AwardedSeeds(ys)
    decreases |xs|
  {
    if xs == [] {
      assert xs + ys == ys;
    } else {
      assert (xs + ys)[1..] == xs[1..] + ys;
      AwardedAppend(xs[1..], ys);
    }
  }

  /** The loser of every match in `ms`, in order. */
  function Losers(ms: seq<Game>): (ls: seq<int>)
    ensures |ls| == |ms|
    ensures forall k :: 0 <= k < |ms| ==> ls[k] == Loser(ms[k])
  {
    if ms == [] then [] else [Loser(ms[0])] + Losers(ms[1..])
  }

  /** Away from the final only losers are paid. */
  lemma {:induction false} AwardedBelow(ms: seq<Game>, nivel: int)
    requires nivel >= 2 && forall k :: 0 <= k < |ms| ==> ms[k].nivel >= nivel
    ensures AwardedSeeds(ms) == Losers(ms)
    decreases |ms|
  {
    if ms != [] {
      AwardedBelow(ms[1..], nivel);
    }
  }

  /** Every match under a token at depth `nivel` is played at level
      `nivel` or deeper. */
  lemma {:induction false} MatchesLevels(w: Tree<int>, res: Tree<string>, nivel: int)
    requires Walkable(w, res)
    ensures forall k :: 0 <= k < |Matches(w, res, nivel)| ==> Matches(w, res, nivel)[k].nivel >= nivel
  {
    if res.Node? {
      MatchesLevels(w.left, res.left, nivel + 1);
      MatchesLevels(w.right, res.right, nivel + 1);
      var ml, mr := Matches(w.left, res.left, nivel + 1), Matches(w.right, res.right, nivel + 1);
      var g := Game(w.left.value, w.right.value, res.value, nivel);
      assert Matches(w, res, nivel) == [g] + ml + mr;
      forall k | 0 <= k < |Matches(w, res, nivel)| ensures Matches(w, res, nivel)[k].nivel >= nivel {
        if k > |ml| {
          assert Matches(w, res, nivel)[k] == mr[k - 1 - |ml|];
        } else if k > 0 {
          assert Matches(w, res, nivel)[k] == ml[k - 1];
        }
      }
    }
  }

  /** Used by LosersOfMatches to split the losers at a pairing. */
  lemma LosersAppend(xs: seq<Game>, ys: seq<Game>)
    ensures Losers(xs + ys) == Losers(xs) + Losers(ys)
  {
  }

  /** The losers of the matches under `res`, in preorder; the level a match
      is played at does not decide who loses it. */
  function TreeLosers(w: Tree<int>, res: Tree<string>): seq<int>
    requires Walkable(w, res)
  {
    if res.Empty? then []
    else [if FirstWon(res.value) then w.right.value else w.left.value] +
         TreeLosers(w.left, res.left) + TreeLosers(w.right, res.right)
  }

  lemma {:induction false} LosersOfMatches(w: Tree<int>, res: Tree<string>, nivel: int)
    requires Walkable(w, res)
    ensures Losers(Matches(w, res, nivel)) == TreeLosers(w, res)
  {
    if res.Node? {
      LosersOfMatches(w.left, res.left, nivel + 1);
      LosersOfMatches(w.right, res.right, nivel + 1);
      var ml, mr := Matches(w.left, res.left, nivel + 1), Matches(w.right, res.right, nivel + 1);
      var g := Game(w.left.value, w.right.value, res.value, nivel);
      assert Matches(w, res, nivel) == [g] + ml + mr;
      LosersAppend([g] + ml, mr);
      LosersAppend([g], ml);
    }
  }

  /** A winner tree below the final: every seed of the subtree except its
      winner loses exactly one match. */
  lemma {:induction false} LosersBelow(emp: Tree<int>, res: Tree<string>)
    requires Fits(emp, res)
    ensures var w := ProcResultados(emp, res);
            Walkable(w, res) &&
            AllBut(TreeLosers(w, res), LeafSeq(emp), w.value)
  {
    var w := ProcResultados(emp, res);
    WalkableWinners(emp, res);
    if emp.left.Empty? && emp.right.Empty? {
      assert LeafSeq(emp) == [emp.value];
    } else {
      LosersBelow(emp.left, res.left);
      LosersBelow(emp.right, res.right);
      var g := PairedWinners(emp, res);
      PaidBelowStep(LeafSeq(emp.left), LeafSeq(emp.right), g.a, g.b, Winner(g), Loser(g),
                    TreeLosers(w.left, res.left), TreeLosers(w.right, res.right));
    }
  }

  /** Below the final, the seeds paid are the seeds of the subtree except
      its winner, each once. */
  lemma AwardedBelowFinal(emp: Tree<int>, res: Tree<string>, nivel: int)
    requires Fits(emp, res) && nivel >= 2
    ensures var w := ProcResultados(emp, res);
            Walkable(w, res) &&
            AllBut(AwardedSeeds(Matches(w, res, nivel)), LeafSeq(emp), w.value)
  {
    var w := ProcResultados(emp, res);
    LosersBelow(emp, res);
    PaidBelowFinal(w, res, nivel);
    AllButSame(TreeLosers(w, res), AwardedSeeds(Matches(w, res, nivel)), LeafSeq(emp), w.value);
  }

  /** Below the final the seeds paid are exactly the losers. */
  lemma PaidBelowFinal(w: Tree<int>, res: Tree<string>, nivel: int)
    requires Walkable(w, res) && nivel >= 2
    ensures AwardedSeeds(Matches(w, res, nivel)) == TreeLosers(w, res)
  {
    LosersOfMatches(w, res, nivel);
    MatchesLevels(w, res, nivel);
    AwardedBelow(Matches(w, res, nivel), nivel);
  }

  /** Used by AwardedBelowFinal to carry AllBut across an equation. */
  lemma AllButSame(s: seq<int>, t: seq<int>, l: seq<int>, x: int)
    requires AllBut(s, l, x) && s == t
    ensures AllBut(t, l, x)
  {
  }

  /** At a pairing, the seeds paid are those of the pairing's own match (its
      loser, and its winner too in the final), then those of the two halves;
      the match is played between the winners of the halves, one from each
      side, and its winner is the winner of the pairing. */
  lemma PairingSplit(emp: Tree<int>, res: Tree<string>, nivel: int) returns (g: Game)
    requires Fits(emp, res) && !IsLeaf(emp)
    ensures var w := ProcResultados(emp, res);
            Walkable(w, res) && w.left == ProcResultados(emp.left, res.left) &&
            w.right == ProcResultados(emp.right, res.right) &&
            g == Game(w.left.value, w.right.value, res.value, nivel) &&
            Matches(w, res, nivel) == [g] + Matches(w.left, res.left, nivel + 1) + Matches(w.right, res.right, nivel + 1) &&
            AwardedSeeds(Matches(w, res, nivel)) ==
              [Loser(g)] + (if nivel == 1 then [Winner(g)] else []) +
              AwardedSeeds(Matches(w.left, res.left, nivel + 1)) +
              AwardedSeeds(Matches(w.right, res.right, nivel + 1))
    ensures g.a in LeafSeq(emp.left) && g.b in LeafSeq(emp.right)
    ensures LeafSeq(emp) == LeafSeq(emp.left) + LeafSeq(emp.right)
    ensures ProcResultados(emp, res).value == Winner(g)
    ensures (Winner(g) == g.a && Loser(g) == g.b) || (Winner(g) == g.b && Loser(g) == g.a)
  {
    var w := ProcResultados(emp, res);
    WalkableWinners(emp, res);
    g := Game(w.left.value, w.right.value, res.value, nivel);
    var ml, mr := Matches(w.left, res.left, nivel + 1), Matches(w.right, res.right, nivel + 1);
    assert Matches(w, res, nivel) == [g] + ml + mr;
    AwardedAppend([g] + ml, mr);
    AwardedAppend([g], ml);
    WinnerTree(emp.left, res.left);
    WinnerTree(emp.right, res.right);
    FirstWonAgrees(g.a, g.b, g.res);
  }

  /** At a pairing the match is played between the winners of the two
      halves, one from each side, and its winner is the winner of the
      pairing. */
  lemma PairedWinners(emp: Tree<int>, res: Tree<string>) returns (g: Game)
    requires Fits(emp, res) && !IsLeaf(emp)
    ensures var w := ProcResultados(emp, res);
            Walkable(w, res) && w.left == ProcResultados(emp.left, res.left) &&
            w.right == ProcResultados(emp.right, res.right) &&
            g == Game(w.left.value, w.right.value, res.value, 0) &&
            TreeLosers(w, res) == [Loser(g)] + TreeLosers(w.left, res.left) + TreeLosers(w.right, res.right)
    ensures g.a in LeafSeq(emp.left) && g.b in LeafSeq(emp.right)
    ensures LeafSeq(emp) == LeafSeq(emp.left) + LeafSeq(emp.right)
    ensures ProcResultados(emp, res).value == Winner(g)
    ensures (Winner(g) == g.a && Loser(g) == g.b) || (Winner(g) == g.b && Loser(g) == g.a)
  {
    var w := ProcResultados(emp, res);
    WalkableWinners(emp, res);
    g := Game(w.left.value, w.right.value, res.value, 0);
    WinnerTree(emp.left, res.left);
    WinnerTree(emp.right, res.right);
    FirstWonAgrees(g.a, g.b, g.res);
  }

  /** The winner tree can be walked along the score tokens. */
  lemma {:induction false} WalkableWinners(emp: Tree<int>, res: Tree<string>)
    requires Fits(emp, res)
    ensures Walkable(ProcResultados(emp, res), res)
  {
    if !(emp.left.Empty? && emp.right.Empty?) {
      WalkableWinners(emp.left, res.left);
      WalkableWinners(emp.right, res.right);
    }
  }

  /** `s` lists the seeds of `l` except one occurrence of `x`, in some order. */
  ghost predicate AllBut(s: seq<int>, l: seq<int>, x: int) {
    multiset(s) == multiset(l) - multiset{x}
  }

  /** The multiset bookkeeping of a pairing below the final: the halves pay
      all their seeds but their winners, and the pairing's match pays its
      loser. */
  lemma PaidBelowStep(L: seq<int>, R: seq<int>, wl: int, wr: int, win: int, lose: int,
                      SL: seq<int>, SR: seq<int>)
    requires wl in L && wr in R
    requires AllBut(SL, L, wl) && AllBut(SR, R, wr)
    requires (win == wl && lose == wr) || (win == wr && lose == wl)
    ensures AllBut([lose] + SL + SR, L + R, win)
  {
    calc {
      multiset(L + R);
      multiset(L) + multiset(R);
      multiset(SL) + multiset{wl} + multiset(SR) + multiset{wr};
      multiset([lose] + SL + SR) + multiset{win};
    }
  }

  /** The final also pays its winner. */
  lemma PaidFinalStep(L: seq<int>, R: seq<int>, wl: int, wr: int, win: int, lose: int,
                      SL: seq<int>, SR: seq<int>)
    requires wl in L && wr in R
    requires AllBut(SL, L, wl) && AllBut(SR, R, wr)
    requires (win == wl && lose == wr) || (win == wr && lose == wl)
    ensures multiset([lose] + [win] + SL + SR) == multiset(L + R)
  {
    calc {
      multiset(L + R);
      multiset(L) + multiset(R);
      multiset(SL) + multiset{wl} + multiset(SR) + multiset{wr};
      multiset([lose] + [win] + SL + SR);
    }
  }

  /** Every seed of the bracket gets category points exactly once when the
      tournament is played out: each loses one match, except the champion,
      who is paid in the final. */
  lemma AwardedOnce(emp: Tree<int>, res: Tree<string>)
    requires Fits(emp, res) && !IsLeaf(emp)
    ensures var w := ProcResultados(emp, res);
            Walkable(w, res) && multiset(AwardedSeeds(Matches(w, res, 1))) == multiset(LeafSeq(emp))
  {
    var w := ProcResultados(emp, res);
    AwardedBelowFinal(emp.left, res.left, 2);
    AwardedBelowFinal(emp.right, res.right, 2);
    var g := PairingSplit(emp, res, 1);
    PaidFinalStep(LeafSeq(emp.left), LeafSeq(emp.right), g.a, g.b, Winner(g), Loser(g),
                  AwardedSeeds(Matches(w.left, res.left, 2)),
                  AwardedSeeds(Matches(w.right, res.right, 2)));
  }

  lemma NoDupSplit<T>(L: seq<T>, R: seq<T>)
    requires NoDup(L + R)
    ensures NoDup(L) && NoDup(R)
    ensures forall s :: s in L ==> s !in R
  {
    forall i, j | 0 <= i < j < |L| ensures L[i] != L[j] {
      assert L[i] == (L + R)[i] && L[j] == (L + R)[j];
    }
    forall i, j | 0 <= i < j < |R| ensures R[i] != R[j] {
      assert R[i] == (L + R)[|L| + i] && R[j] == (L + R)[|L| + j];
    }
    forall i, j | 0 <= i < |L| && 0 <= j < |R| ensures L[i] != R[j] {
      assert L[i] == (L + R)[i] && R[j] == (L + R)[|L| + j];
    }
  }
}
