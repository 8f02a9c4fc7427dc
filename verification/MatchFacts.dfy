/**
 * What one match does to the registry and to the tournament's participant
 * copies, stated player by player, and what a whole results tree does to
 * the participants' tournament counters and points.
 */
module MatchFacts {
  import opened Trees
  import opened Scores
  import opened Players
  import opened Categories
  import opened Registry
  import opened Results
  import opened Tournament

  /** Record `j` credited with `sw` sets won, `sl` sets lost, `gw` games won,
      `gl` games lost and the match, won or lost as `won` says. */
  function Tally(j: Jugador, sw: int, sl: int, gw: int, gl: int, won: bool): Jugador {
    j.(setsGanados := j.setsGanados + sw, setsPerdidos := j.setsPerdidos + sl,
       juegosGanados := j.juegosGanados + gw, juegosPerdidos := j.juegosPerdidos + gl,
       partidosGanados := j.partidosGanados + (if won then 1 else 0),
       partidosPerdidos := j.partidosPerdidos + (if won then 0 else 1))
  }

  /** Crediting the sets one by one gives the first player every set it
      won and the second player every other set. */
  lemma {:induction false} SetsFoldEffect(m: map<string, Jugador>, na: string, nb: string, v: seq<Pair>)
    requires na in m && nb in m && na != nb
    ensures var r := SetsFold(m, na, nb, v);
            var x := FirstWins(v);
            r[na] == m[na].(setsGanados := m[na].setsGanados + x, setsPerdidos := m[na].setsPerdidos + (|v| - x)) &&
            r[nb] == m[nb].(setsGanados := m[nb].setsGanados + (|v| - x), setsPerdidos := m[nb].setsPerdidos + x)
    ensures forall k :: k in m && k != na && k != nb ==> SetsFold(m, na, nb, v)[k] == m[k]
  {
    if v != [] {
      SetsFoldEffect(m, na, nb, v[..|v| - 1]);
    }
  }

  /** Sets and games of a match with `v` not a single set. */
  lemma {:induction false} GamesEffect(m: map<string, Jugador>, na: string, nb: string, v: seq<Pair>)
    requires na in m && nb in m && na != nb
    ensures var r := CreditGames(SetsFold(m, na, nb, v), na, nb, SumFirst(v), SumSecond(v));
            var x := FirstWins(v);
            r[na] == Tally(m[na], x, |v| - x, SumFirst(v), SumSecond(v), true).(partidosGanados := m[na].partidosGanados) &&
            r[nb] == Tally(m[nb], |v| - x, x, SumSecond(v), SumFirst(v), true).(partidosGanados := m[nb].partidosGanados)
    ensures forall k :: k in m && k != na && k != nb ==>
              CreditGames(SetsFold(m, na, nb, v), na, nb, SumFirst(v), SumSecond(v))[k] == m[k]
  {
    SetsFoldEffect(m, na, nb, v);
    var x := FirstWins(v);
    GamesStep(m, SetsFold(m, na, nb, v), na, nb, SumFirst(v), SumSecond(v), x, |v| - x);
  }

  /** The games of a match on top of its sets. */
  lemma {:induction false} GamesStep(m: map<string, Jugador>, s: map<string, Jugador>, na: string, nb: string, ga: int, gb: int, x: int, y: int)
    requires na in m && nb in m && na != nb && na in s && nb in s
    requires s[na] == m[na].(setsGanados := m[na].setsGanados + x, setsPerdidos := m[na].setsPerdidos + y)
    requires s[nb] == m[nb].(setsGanados := m[nb].setsGanados + y, setsPerdidos := m[nb].setsPerdidos + x)
    requires forall k :: k in m && k != na && k != nb ==> k in s && s[k] == m[k]
    ensures var r := CreditGames(s, na, nb, ga, gb);
            r[na] == Tally(m[na], x, y, ga, gb, true).(partidosGanados := m[na].partidosGanados) &&
            r[nb] == Tally(m[nb], y, x, gb, ga, true).(partidosGanados := m[nb].partidosGanados)
    ensures forall k :: k in m && k != na && k != nb ==> CreditGames(s, na, nb, ga, gb)[k] == m[k]
  {
  }

  /** The statistics of one match between distinct players: sets and games
      count only when the token does not parse to exactly one set; the
      match counts as won for one side and lost for the other; nobody else
      changes. */
  lemma {:induction false} StatsEffect(m: map<string, Jugador>, na: string, nb: string, v: seq<Pair>, first: bool)
    requires na in m && nb in m && na != nb
    ensures var r := StatsOf(m, na, nb, v, first);
            var sv := if |v| != 1 then v else [];
            var x := FirstWins(sv);
            r[na] == Tally(m[na], x, |sv| - x, SumFirst(sv), SumSecond(sv), first) &&
            r[nb] == Tally(m[nb], |sv| - x, x, SumSecond(sv), SumFirst(sv), !first)
    ensures forall k :: k in m && k != na && k != nb ==> StatsOf(m, na, nb, v, first)[k] == m[k]
  {
    if |v| != 1 {
      var s := CreditGames(SetsFold(m, na, nb, v), na, nb, SumFirst(v), SumSecond(v));
      GamesEffect(m, na, nb, v);
      var x := FirstWins(v);
      MatchStep(m, s, na, nb, x, |v| - x, SumFirst(v), SumSecond(v), first);
    } else {
      assert m[na] == Tally(m[na], 0, 0, 0, 0, true).(partidosGanados := m[na].partidosGanados);
      assert m[nb] == Tally(m[nb], 0, 0, 0, 0, true).(partidosGanados := m[nb].partidosGanados);
      MatchStep(m, m, na, nb, 0, 0, 0, 0, first);
    }
  }

  /** The match itself on top of its sets and games. */
  lemma {:induction false} MatchStep(m: map<string, Jugador>, s: map<string, Jugador>, na: string, nb: string,
                                     x: int, y: int, ga: int, gb: int, first: bool)
    requires na in m && nb in m && na != nb && na in s && nb in s
    requires s[na] == Tally(m[na], x, y, ga, gb, true).(partidosGanados := m[na].partidosGanados)
    requires s[nb] == Tally(m[nb], y, x, gb, ga, true).(partidosGanados := m[nb].partidosGanados)
    requires forall k :: k in m && k != na && k != nb ==> k in s && s[k] == m[k]
    ensures var r := if first then CreditMatch(s, na, nb) else CreditMatch(s, nb, na);
            r[na] == Tally(m[na], x, y, ga, gb, first) && r[nb] == Tally(m[nb], y, x, gb, ga, !first)
    ensures forall k :: k in m && k != na && k != nb ==>
              (if first then CreditMatch(s, na, nb) else CreditMatch(s, nb, na))[k] == m[k]
  {
  }

  /** The participant copies after the payments: the loser's copy gains
      the points of the level below the match and then, in the final, the
      winner's copy gains the points of level 1; no other copy changes. */
  lemma {:induction false} PayPart(g: Ledger, a: int, b: int, first: bool, nivel: int)
    requires Placed(g.players, g.ranking)
    requires Seated(g.part, g.players, a) && Seated(g.part, g.players, b)
    ensures var ws, ls := if first then a else b, if first then b else a;
            var p1 := g.part[ls - 1 := g.part[ls - 1].SumPtos(Points(g.cat, nivel + 1))];
            Pay(g, a, b, first, nivel).part ==
              if nivel == 1 then p1[ws - 1 := p1[ws - 1].SumPtos(Points(g.cat, 1))] else p1
  {
    var ws, ls := if first then a else b, if first then b else a;
    var g1 := Award(g, ls, nivel + 1);
    if nivel == 1 {
      assert Pay(g, a, b, first, nivel).part == Award(g1, ws, 1).part;
    }
  }

  /** The registry after the payments, in the same terms. */
  lemma {:induction false} PayPlayers(g: Ledger, a: int, b: int, first: bool, nivel: int)
    requires Placed(g.players, g.ranking)
    requires Seated(g.part, g.players, a) && Seated(g.part, g.players, b)
    ensures var nw, nl := g.part[(if first then a else b) - 1].id, g.part[(if first then b else a) - 1].id;
            var m1 := g.players[nl := g.players[nl].SumPtos(Points(g.cat, nivel + 1))];
            Pay(g, a, b, first, nivel).players ==
              if nivel == 1 then m1[nw := m1[nw].SumPtos(Points(g.cat, 1))] else m1
  {
    var ws, ls := if first then a else b, if first then b else a;
    var g1 := Award(g, ls, nivel + 1);
    if nivel == 1 {
      assert g1.part[ws - 1].id == g.part[ws - 1].id;
      assert Pay(g, a, b, first, nivel).players == Award(g1, ws, 1).players;
    }
  }

  /** Record `j` after the payments of a match it `won` or lost: a loser
      gains `x` (the points of the level below the match), a winner gains
      `y` (the points of level 1) in the final (`fin`) and nothing otherwise. */
  function Paid(j: Jugador, won: bool, x: int, y: int, fin: bool): Jugador {
    if won then (if fin then j.SumPtos(y) else j) else j.SumPtos(x)
  }

  /** The payments read off player by player. */
  lemma PaidPlayers(p: seq<Jugador>, s: map<string, Jugador>, a: int, b: int, first: bool,
                    x: int, y: int, fin: bool, r: map<string, Jugador>)
    requires 1 <= a <= |p| && 1 <= b <= |p| && p[a - 1].id in s && p[b - 1].id in s
    requires p[a - 1].id != p[b - 1].id
    requires var nw, nl := p[(if first then a else b) - 1].id, p[(if first then b else a) - 1].id;
             var m1 := s[nl := s[nl].SumPtos(x)];
             r == if fin then m1[nw := m1[nw].SumPtos(y)] else m1
    ensures r[p[a - 1].id] == Paid(s[p[a - 1].id], first, x, y, fin)
    ensures r[p[b - 1].id] == Paid(s[p[b - 1].id], !first, x, y, fin)
    ensures forall k :: k in s && k != p[a - 1].id && k != p[b - 1].id ==> k in r && r[k] == s[k]
  {
  }

  /** A match between two distinct registered players with sets `v`, won
      by seed `a` exactly when `first`, read player by player: each gets the
      sets, games and match result StatsEffect states and then its payment;
      nobody else changes. PlayMatch plays a token this way with the sets it
      parses to and the winner FirstWon picks. */
  lemma PlayEffect(g: Ledger, a: int, b: int, v: seq<Pair>, first: bool, nivel: int)
    requires Placed(g.players, g.ranking)
    requires Seated(g.part, g.players, a) && Seated(g.part, g.players, b)
    requires g.part[a - 1].id != g.part[b - 1].id
    ensures var sv := if |v| != 1 then v else [];
            var w := FirstWins(sv);
            var na, nb := g.part[a - 1].id, g.part[b - 1].id;
            var x, y, fin := Points(g.cat, nivel + 1), Points(g.cat, 1), nivel == 1;
            var r := Play(g, a, b, v, first, nivel).players;
            r[na] == Paid(Tally(g.players[na], w, |sv| - w, SumFirst(sv), SumSecond(sv), first), first, x, y, fin) &&
            r[nb] == Paid(Tally(g.players[nb], |sv| - w, w, SumSecond(sv), SumFirst(sv), !first), !first, x, y, fin) &&
            forall k :: k in g.players && k != na && k != nb ==> r[k] == g.players[k]
  {
    var na, nb := g.part[a - 1].id, g.part[b - 1].id;
    var s := StatsOf(g.players, na, nb, v, first);
    StatsEffect(g.players, na, nb, v, first);
    PlacedFrame(g.players, s, g.ranking);
    var g1 := Ledger(s, g.ranking, g.cat, g.part);
    PayEffect(g1, a, b, first, nivel);
    assert Play(g, a, b, v, first, nivel).players == Pay(g1, a, b, first, nivel).players;
  }

  /** The payments alone, player by player. */
  lemma PayEffect(g: Ledger, a: int, b: int, first: bool, nivel: int)
    requires Placed(g.players, g.ranking)
    requires Seated(g.part, g.players, a) && Seated(g.part, g.players, b)
    requires g.part[a - 1].id != g.part[b - 1].id
    ensures var na, nb := g.part[a - 1].id, g.part[b - 1].id;
            var x, y, fin := Points(g.cat, nivel + 1), Points(g.cat, 1), nivel == 1;
            var r := Pay(g, a, b, first, nivel).players;
            r[na] == Paid(g.players[na], first, x, y, fin) &&
            r[nb] == Paid(g.players[nb], !first, x, y, fin) &&
            forall k :: k in g.players && k != na && k != nb ==> r[k] == g.players[k]
  {
    PayPlayers(g, a, b, first, nivel);
    PaidPlayers(g.part, g.players, a, b, first, Points(g.cat, nivel + 1), Points(g.cat, 1), nivel == 1,
                Pay(g, a, b, first, nivel).players);
  }

  /** Copies `q` are copies `p` with one more tournament for every
      occurrence of their seed in `s`, and nothing else about the count
      changes. */
  ghost predicate Gained(p: seq<Jugador>, q: seq<Jugador>, s: seq<int>) {
    |q| == |p| && forall i :: 0 <= i < |p| ==> q[i].torneos == p[i].torneos + multiset(s)[i + 1]
  }

  /** Used by PlayTreeTorneos to chain the counts of successive matches. */
  lemma GainedTrans(p: seq<Jugador>, q: seq<Jugador>, r: seq<Jugador>, s1: seq<int>, s2: seq<int>)
    requires Gained(p, q, s1) && Gained(q, r, s2)
    ensures Gained(p, r, s1 + s2)
  {
    assert multiset(s1 + s2) == multiset(s1) + multiset(s2);
  }

  /** One match counts one more tournament for each seed it pays: the loser,
      and the winner too in the final. */
  lemma MatchTorneos(g: Ledger, gm: Game)
    requires Placed(g.players, g.ranking)
    requires Seated(g.part, g.players, gm.a) && Seated(g.part, g.players, gm.b)
    ensures Gained(g.part, PlayMatch(g, gm).part, AwardedSeeds([gm]))
  {
    var first := FirstWon(gm.res);
    var s := StatsOf(g.players, g.part[gm.a - 1].id, g.part[gm.b - 1].id, SetScores(gm.res), first);
    PlacedFrame(g.players, s, g.ranking);
    var g1 := Ledger(s, g.ranking, g.cat, g.part);
    PayGained(g1, gm.a, gm.b, first, gm.nivel);
    AwardedOne(gm);
    assert PlayMatch(g, gm).part == Pay(g1, gm.a, gm.b, first, gm.nivel).part;
  }

  /** The same for the payments of a match given by its outcome. */
  lemma PayGained(g: Ledger, a: int, b: int, first: bool, nivel: int)
    requires Placed(g.players, g.ranking)
    requires Seated(g.part, g.players, a) && Seated(g.part, g.players, b)
    ensures Gained(g.part, Pay(g, a, b, first, nivel).part,
                   [if first then b else a] + if nivel == 1 then [if first then a else b] else [])
  {
    PayPart(g, a, b, first, nivel);
    PaidTorneos(g.part, Pay(g, a, b, first, nivel).part, a, b, first,
                Points(g.cat, nivel + 1), Points(g.cat, 1), nivel == 1);
  }

  /** The loser's copy, then in the final the winner's copy, each gain one
      tournament. */
  lemma PaidTorneos(p: seq<Jugador>, q: seq<Jugador>, a: int, b: int, first: bool, x: int, y: int, fin: bool)
    requires 1 <= a <= |p| && 1 <= b <= |p|
    requires var ws, ls := if first then a else b, if first then b else a;
             var p1 := p[ls - 1 := p[ls - 1].SumPtos(x)];
             q == if fin then p1[ws - 1 := p1[ws - 1].SumPtos(y)] else p1
    ensures Gained(p, q, [if first then b else a] + if fin then [if first then a else b] else [])
  {
  }

  /** Playing a results tree counts, for every seed, one more tournament per
      payment the tree's matches make to it. */
  lemma {:induction false} PlayTreeTorneos(g: Ledger, w: Tree<int>, res: Tree<string>, nivel: int)
    requires Placed(g.players, g.ranking) && Walkable(w, res) && SeatsIn(g.part, g.players, w, res)
    ensures Gained(g.part, PlayTree(g, w, res, nivel).part, AwardedSeeds(Matches(w, res, nivel)))
    decreases res
  {
    if res.Empty? {
      assert Gained(g.part, g.part, []);
    } else {
      var gm := Game(w.left.value, w.right.value, res.value, nivel);
      var g1 := PlayMatch(g, gm);
      MatchTorneos(g, gm);
      SeatsKept(g.part, g.players, g1.part, g1.players, w.left, res.left);
      SeatsKept(g.part, g.players, g1.part, g1.players, w.right, res.right);
      var g2 := PlayTree(g1, w.left, res.left, nivel + 1);
      PlayTreeTorneos(g1, w.left, res.left, nivel + 1);
      SeatsKept(g1.part, g1.players, g2.part, g2.players, w.right, res.right);
      PlayTreeTorneos(g2, w.right, res.right, nivel + 1);
      assert PlayTree(g, w, res, nivel).part == PlayTree(g2, w.right, res.right, nivel + 1).part;
      var ml, mr := Matches(w.left, res.left, nivel + 1), Matches(w.right, res.right, nivel + 1);
      assert Matches(w, res, nivel) == [gm] + ml + mr;
      AwardedAppend([gm], ml);
      AwardedAppend([gm] + ml, mr);
      GainedTrans(g.part, g1.part, g2.part, AwardedSeeds([gm]), AwardedSeeds(ml));
      GainedTrans(g.part, g2.part, PlayTree(g, w, res, nivel).part, AwardedSeeds([gm] + ml), AwardedSeeds(mr));
    }
  }

  /** A bracket whose seeds are all registered participants has every match
      of its results tree between registered participants. */
  lemma {:induction false} SeatsFromLeaves(part: seq<Jugador>, m: map<string, Jugador>, emp: Tree<int>, res: Tree<string>)
    requires Fits(emp, res)
    requires forall s :: s in LeafSeq(emp) ==> Seated(part, m, s)
    ensures Walkable(ProcResultados(emp, res), res)
    ensures SeatsIn(part, m, ProcResultados(emp, res), res)
  {
    WalkableWinners(emp, res);
    if !IsLeaf(emp) {
      assert LeafSeq(emp) == LeafSeq(emp.left) + LeafSeq(emp.right);
      WinnerTree(emp.left, res.left);
      WinnerTree(emp.right, res.right);
      SeatsFromLeaves(part, m, emp.left, res.left);
      SeatsFromLeaves(part, m, emp.right, res.right);
    }
  }

  /** actualizar_estadisticas from the final down over a bracket whose seeds
      are distinct registered participants: every seed's participant copy
      counts exactly one more tournament, and every other copy's count is
      unchanged. */
  lemma TorneosCounted(g: Ledger, emp: Tree<int>, res: Tree<string>)
    requires Placed(g.players, g.ranking)
    requires Fits(emp, res) && !IsLeaf(emp) && NoDup(LeafSeq(emp))
    requires forall s :: s in LeafSeq(emp) ==> Seated(g.part, g.players, s)
    ensures Walkable(ProcResultados(emp, res), res)
    ensures SeatsIn(g.part, g.players, ProcResultados(emp, res), res)
    ensures var r := PlayTree(g, ProcResultados(emp, res), res, 1);
            |r.part| == |g.part| &&
            forall i :: 0 <= i < |g.part| ==>
              r.part[i].torneos == g.part[i].torneos + if i + 1 in LeafSeq(emp) then 1 else 0
  {
    SeatsFromLeaves(g.part, g.players, emp, res);
    AwardedOnce(emp, res);
    TreeCounted(g, ProcResultados(emp, res), res, 1, LeafSeq(emp));
  }

  /** The same count for any walk whose awarded seeds are the members of a
      list without repetitions. */
  lemma TreeCounted(g: Ledger, w: Tree<int>, res: Tree<string>, nivel: int, l: seq<int>)
    requires Placed(g.players, g.ranking) && Walkable(w, res) && SeatsIn(g.part, g.players, w, res)
    requires multiset(AwardedSeeds(Matches(w, res, nivel))) == multiset(l) && NoDup(l)
    ensures |PlayTree(g, w, res, nivel).part| == |g.part|
    ensures forall i :: 0 <= i < |g.part| ==> PlayTree(g, w, res, nivel).part[i].torneos == g.part[i].torneos + if i + 1 in l then 1 else 0
  {
    PlayTreeTorneos(g, w, res, nivel);
    CountedOnce(g.part, PlayTree(g, w, res, nivel).part, AwardedSeeds(Matches(w, res, nivel)), l);
  }

  /** Gaining once per occurrence in a list with the same elements as a
      list without repetitions is gaining once per member. */
  lemma CountedOnce(p: seq<Jugador>, q: seq<Jugador>, s: seq<int>, l: seq<int>)
    requires Gained(p, q, s) && multiset(s) == multiset(l) && NoDup(l)
    ensures |q| == |p|
    ensures forall i :: 0 <= i < |p| ==> q[i].torneos == p[i].torneos + if i + 1 in l then 1 else 0
  {
    forall i | 0 <= i < |p| ensures q[i].torneos == p[i].torneos + if i + 1 in l then 1 else 0 {
      NoDupCount(l, i + 1);
    }
  }

  // ---------------------------------------------------------------------
  // Points moved by a results tree
  // ---------------------------------------------------------------------

  /** Registry `m1` and copies `p1` are `m0` and `p0` after the payments
      `s` (one seed per payment): a registered seed paid nowhere in `s` keeps
      its points in both views and its copy keeps the points of its edition;
      a registered seed paid once has gained, in both views, exactly the
      amount its copy now records as the points of its edition; a registered
      name that no copy carries keeps its points. */
  ghost predicate PointsMoved(m0: map<string, Jugador>, p0: seq<Jugador>,
                              m1: map<string, Jugador>, p1: seq<Jugador>, s: seq<int>) {
    SameIds(p1, p0) && m1.Keys == m0.Keys &&
    (forall i :: 0 <= i < |p0| && p0[i].id in m0 && multiset(s)[i + 1] == 0 ==>
       p1[i].ptos == p0[i].ptos && p1[i].ptosActual == p0[i].ptosActual &&
       m1[p0[i].id].ptos == m0[p0[i].id].ptos) &&
    (forall i :: 0 <= i < |p0| && p0[i].id in m0 && multiset(s)[i + 1] == 1 ==>
       p1[i].ptos == p0[i].ptos + p1[i].ptosActual &&
       m1[p0[i].id].ptos == m0[p0[i].id].ptos + p1[i].ptosActual) &&
    (forall k :: k in m0 && k !in Ids(p0) ==> m1[k].ptos == m0[k].ptos)
  }

  /** The names the copies carry. */
  ghost function Ids(p: seq<Jugador>): set<string> {
    set i | 0 <= i < |p| :: p[i].id
  }

  /** Used by PlayTreePoints to chain the points of successive matches. */
  lemma MovedTrans(m0: map<string, Jugador>, p0: seq<Jugador>, m1: map<string, Jugador>, p1: seq<Jugador>,
                   m2: map<string, Jugador>, p2: seq<Jugador>, s1: seq<int>, s2: seq<int>)
    requires PointsMoved(m0, p0, m1, p1, s1) && PointsMoved(m1, p1, m2, p2, s2)
    ensures PointsMoved(m0, p0, m2, p2, s1 + s2)
  {
  }

  /** Awarding the points of a level to one of several participants with
      distinct names moves points for that seed alone. */
  lemma AwardMoved(g: Ledger, s: int, nivel: int)
    requires Placed(g.players, g.ranking) && DistinctIds(g.part)
    requires 1 <= s <= |g.part| && g.part[s - 1].id in g.players
    ensures PointsMoved(g.players, g.part, Award(g, s, nivel).players, Award(g, s, nivel).part, [s])
  {
  }

  /** Statistics move no points. */
  lemma StatsMoved(m: map<string, Jugador>, s: map<string, Jugador>, p: seq<Jugador>)
    requires SamePosPtos(m, s)
    ensures PointsMoved(m, p, s, p, [])
  {
  }

  /** The payments of one match between participants with distinct names
      move points as PointsMoved says: the loser is paid, and the winner too
      in the final. */
  lemma PayMoved(g: Ledger, a: int, b: int, first: bool, nivel: int)
    requires Placed(g.players, g.ranking) && DistinctIds(g.part)
    requires Seated(g.part, g.players, a) && Seated(g.part, g.players, b)
    ensures PointsMoved(g.players, g.part, Pay(g, a, b, first, nivel).players, Pay(g, a, b, first, nivel).part,
                        [if first then b else a] + if nivel == 1 then [if first then a else b] else [])
  {
    var ws, ls := if first then a else b, if first then b else a;
    var g1 := Award(g, ls, nivel + 1);
    AwardMoved(g, ls, nivel + 1);
    if nivel == 1 {
      assert g1.part[ws - 1].id == g.part[ws - 1].id;
      assert DistinctIds(g1.part);
      AwardMoved(g1, ws, 1);
      assert Pay(g, a, b, first, nivel) == Award(g1, ws, 1);
      var g2 := Award(g1, ws, 1);
      MovedTrans(g.players, g.part, g1.players, g1.part, g2.players, g2.part, [ls], [ws]);
    } else {
      assert [ls] + [] == [ls];
    }
  }

  /** A match between participants with distinct names, won by `a`
      exactly when `first`: its statistics move no points, its payments move
      them as PayMoved says. */
  lemma PlayMoved(g: Ledger, a: int, b: int, v: seq<Pair>, first: bool, nivel: int)
    requires Placed(g.players, g.ranking) && DistinctIds(g.part)
    requires Seated(g.part, g.players, a) && Seated(g.part, g.players, b)
    ensures PointsMoved(g.players, g.part, Play(g, a, b, v, first, nivel).players, Play(g, a, b, v, first, nivel).part,
                        [if first then b else a] + if nivel == 1 then [if first then a else b] else [])
  {
    var s := StatsOf(g.players, g.part[a - 1].id, g.part[b - 1].id, v, first);
    PlacedFrame(g.players, s, g.ranking);
    var g1 := Ledger(s, g.ranking, g.cat, g.part);
    PayMovedAfter(g.players, g1, a, b, first, nivel);
    assert Play(g, a, b, v, first, nivel) == Pay(g1, a, b, first, nivel);
  }

  /** The payments of a match after statistics that moved no points. */
  lemma PayMovedAfter(m: map<string, Jugador>, g: Ledger, a: int, b: int, first: bool, nivel: int)
    requires SamePosPtos(m, g.players)
    requires Placed(g.players, g.ranking) && DistinctIds(g.part)
    requires Seated(g.part, g.players, a) && Seated(g.part, g.players, b)
    ensures PointsMoved(m, g.part, Pay(g, a, b, first, nivel).players, Pay(g, a, b, first, nivel).part,
                        [if first then b else a] + if nivel == 1 then [if first then a else b] else [])
  {
    var seeds := [if first then b else a] + if nivel == 1 then [if first then a else b] else [];
    StatsMoved(m, g.players, g.part);
    PayMoved(g, a, b, first, nivel);
    MovedTrans(m, g.part, g.players, g.part, Pay(g, a, b, first, nivel).players,
               Pay(g, a, b, first, nivel).part, [], seeds);
    assert [] + seeds == seeds;
  }

  /** One match of a results tree, decided by its token. */
  lemma MatchMoved(g: Ledger, gm: Game)
    requires Placed(g.players, g.ranking) && DistinctIds(g.part)
    requires Seated(g.part, g.players, gm.a) && Seated(g.part, g.players, gm.b)
    ensures PointsMoved(g.players, g.part, PlayMatch(g, gm).players, PlayMatch(g, gm).part, AwardedSeeds([gm]))
  {
    PlayMoved(g, gm.a, gm.b, SetScores(gm.res), FirstWon(gm.res), gm.nivel);
    AwardedOne(gm);
  }

  /** Playing a results tree moves points as PointsMoved says, for the
      payments its matches make. */
  lemma {:induction false} PlayTreePoints(g: Ledger, w: Tree<int>, res: Tree<string>, nivel: int)
    requires Placed(g.players, g.ranking) && Walkable(w, res) && SeatsIn(g.part, g.players, w, res)
    requires DistinctIds(g.part)
    ensures PointsMoved(g.players, g.part, PlayTree(g, w, res, nivel).players, PlayTree(g, w, res, nivel).part,
                        AwardedSeeds(Matches(w, res, nivel)))
    decreases res
  {
    if res.Empty? {
      assert PointsMoved(g.players, g.part, g.players, g.part, []);
    } else {
      var gm := Game(w.left.value, w.right.value, res.value, nivel);
      var g1 := PlayMatch(g, gm);
      MatchMoved(g, gm);
      SeatsKept(g.part, g.players, g1.part, g1.players, w.left, res.left);
      SeatsKept(g.part, g.players, g1.part, g1.players, w.right, res.right);
      var g2 := PlayTree(g1, w.left, res.left, nivel + 1);
      PlayTreePoints(g1, w.left, res.left, nivel + 1);
      SeatsKept(g1.part, g1.players, g2.part, g2.players, w.right, res.right);
      var g3 := PlayTree(g2, w.right, res.right, nivel + 1);
      PlayTreePoints(g2, w.right, res.right, nivel + 1);
      var ml, mr := Matches(w.left, res.left, nivel + 1), Matches(w.right, res.right, nivel + 1);
      assert Matches(w, res, nivel) == [gm] + ml + mr;
      AwardedAppend([gm], ml);
      AwardedAppend([gm] + ml, mr);
      MovedChain(g.players, g.part, g1.players, g1.part, g2.players, g2.part, g3.players, g3.part,
                 AwardedSeeds([gm]), AwardedSeeds(ml), AwardedSeeds(mr));
      assert PlayTree(g, w, res, nivel) == g3;
    }
  }

  /** Three successive runs of payments, as one. */
  lemma MovedChain(m0: map<string, Jugador>, p0: seq<Jugador>, m1: map<string, Jugador>, p1: seq<Jugador>,
                   m2: map<string, Jugador>, p2: seq<Jugador>, m3: map<string, Jugador>, p3: seq<Jugador>,
                   s1: seq<int>, s2: seq<int>, s3: seq<int>)
    requires PointsMoved(m0, p0, m1, p1, s1) && PointsMoved(m1, p1, m2, p2, s2) && PointsMoved(m2, p2, m3, p3, s3)
    ensures PointsMoved(m0, p0, m3, p3, s1 + s2 + s3)
  {
    MovedTrans(m0, p0, m1, p1, m2, p2, s1, s2);
    MovedTrans(m0, p0, m2, p2, m3, p3, s1 + s2, s3);
  }
}
