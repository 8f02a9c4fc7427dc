/**
 * A tournament (Torneo): its name, its category, the pairing bracket of the
 * current edition, the participant copies of the current edition and those
 * of the last finished edition. Like a player record it is a value: the
 * tournament set hands out copies, so the operations that change it return
 * the updated tournament.
 *
 * Playing a match changes the registry object in place; the methods here
 * are proved against PlayMatch and PlayTree, which play the same matches on
 * a Ledger value.
 */
module Tournament {
  import opened Trees
  import opened Scores
  import opened Players
  import opened Categories
  import opened Registry
  import opened Results

  datatype Torneo = Torneo(
    id: string,
    cat: Categoria,
    cuadro: Tree<int>,       // the pairing bracket of the current edition
    part: seq<Jugador>,      // participants of the current edition, by seed
    last: seq<Jugador>       // participants of the last finished edition
  )
  {
    /** Installs a new bracket and participant list; the last edition is kept. */
    function AsignarCuadroEmpParticipantes(arb: Tree<int>, r: seq<Jugador>): (t: Torneo)
      ensures t.cuadro == arb && t.part == r
      ensures t.id == id && t.cat == cat && t.last == last
    {
      this.(cuadro := arb, part := r)
    }

    /** Records `l` as the participants of the last edition. */
    function UltJugadores(l: seq<Jugador>): (t: Torneo)
      ensures t.last == l
      ensures t.id == id && t.cat == cat && t.cuadro == cuadro && t.part == part
    {
      this.(last := l)
    }
  }

  /** The default constructor: the name " ", an empty category and no editions. */
  function Default(): (t: Torneo)
    ensures t.id == " " && t.cat == Categories.Blank()
    ensures t.cuadro == Empty && t.part == [] && t.last == []
  {
    Torneo(" ", Categories.Blank(), Empty, [], [])
  }

  function WithId(id: string): (t: Torneo)
    ensures t.id == id && t.cat == Categories.Blank()
    ensures t.cuadro == Empty && t.part == [] && t.last == []
  {
    Torneo(id, Categories.Blank(), Empty, [], [])
  }

  function WithCat(id: string, c: Categoria): (t: Torneo)
    ensures t.id == id && t.cat == c
    ensures t.cuadro == Empty && t.part == [] && t.last == []
  {
    Torneo(id, c, Empty, [], [])
  }

  // ---------------------------------------------------------------------
  // One match, as a function on the ledger
  // ---------------------------------------------------------------------

  /** Seed `s` names a participant slot whose player is registered. */
  predicate Seated(part: seq<Jugador>, m: map<string, Jugador>, s: int) {
    1 <= s <= |part| && part[s - 1].id in m
  }

  /** The sets of `v` credited one by one: the first player `na` wins a set
      with strictly more games, otherwise `nb` wins it. */
  function SetsFold(m: map<string, Jugador>, na: string, nb: string, v: seq<Pair>): (r: map<string, Jugador>)
    requires na in m && nb in m
    ensures SamePosPtos(m, r)
  {
    if v == [] then m
    else
      var m1 := SetsFold(m, na, nb, v[..|v| - 1]);
      var p := v[|v| - 1];
      if p.first > p.second then CreditSet(m1, na, nb) else CreditSet(m1, nb, na)
  }

  /** Games won by the first player over all sets. */
  function SumFirst(v: seq<Pair>): int {
    if v == [] then 0 else SumFirst(v[..|v| - 1]) + v[|v| - 1].first
  }

  /** Games won by the second player over all sets. */
  function SumSecond(v: seq<Pair>): int {
    if v == [] then 0 else SumSecond(v[..|v| - 1]) + v[|v| - 1].second
  }

  /** The registry map after the statistics of a match: sets and games are
      credited only when the token does not parse to exactly one set, then
      the match itself goes to the winner. */
  function StatsOf(m: map<string, Jugador>, na: string, nb: string, v: seq<Pair>, first: bool): (r: map<string, Jugador>)
    requires na in m && nb in m
    ensures SamePosPtos(m, r) && r.Keys == m.Keys
  {
    var m1 := if |v| != 1 then CreditGames(SetsFold(m, na, nb, v), na, nb, SumFirst(v), SumSecond(v)) else m;
    if first then CreditMatch(m1, na, nb) else CreditMatch(m1, nb, na)
  }

  /** The match `gm` played on ledger `g`, decided by its token. */
  function PlayMatch(g: Ledger, gm: Game): (r: Ledger)
    requires Placed(g.players, g.ranking)
    requires Seated(g.part, g.players, gm.a) && Seated(g.part, g.players, gm.b)
    ensures Placed(r.players, r.ranking) && |r.ranking| == |g.ranking|
    ensures r.players.Keys == g.players.Keys
    ensures SameIds(r.part, g.part)
    ensures forall l :: Points(r.cat, l) == Points(g.cat, l)
  {
    Play(g, gm.a, gm.b, SetScores(gm.res), FirstWon(gm.res), gm.nivel)
  }

  /** The match between seeds `a` and `b` with sets `v`, won by `a` exactly
      when `first`, at level `nivel`: statistics as StatsOf says, then the
      payments as Pay says. */
  function Play(g: Ledger, a: int, b: int, v: seq<Pair>, first: bool, nivel: int): (r: Ledger)
    requires Placed(g.players, g.ranking)
    requires Seated(g.part, g.players, a) && Seated(g.part, g.players, b)
    ensures Placed(r.players, r.ranking) && |r.ranking| == |g.ranking|
    ensures r.players.Keys == g.players.Keys
    ensures SameIds(r.part, g.part)
    ensures forall l :: Points(r.cat, l) == Points(g.cat, l)
  {
    var m := StatsOf(g.players, g.part[a - 1].id, g.part[b - 1].id, v, first);
    PlacedFrame(g.players, m, g.ranking);
    Pay(Ledger(m, g.ranking, g.cat, g.part), a, b, first, nivel)
  }

  /** The payments of a match won by `a` exactly when `first`, at level
      `nivel`: the loser is paid the points of level `nivel`+1, and in the
      final (level 1) the winner is then paid the points of level 1. */
  function Pay(g: Ledger, a: int, b: int, first: bool, nivel: int): (r: Ledger)
    requires Placed(g.players, g.ranking)
    requires Seated(g.part, g.players, a) && Seated(g.part, g.players, b)
    ensures Placed(r.players, r.ranking) && |r.ranking| == |g.ranking|
    ensures r.players.Keys == g.players.Keys
    ensures SameIds(r.part, g.part)
    ensures forall l :: Points(r.cat, l) == Points(g.cat, l)
  {
    var ws, ls := if first then a else b, if first then b else a;
    var g1 := Award(g, ls, nivel + 1);
    if nivel == 1 then
      assert g1.part[ws - 1].id == g.part[ws - 1].id;
      Award(g1, ws, 1)
    else g1
  }

  // ---------------------------------------------------------------------
  // One match, played on the registry object (act_stats)
  // ---------------------------------------------------------------------

  /** The set loop of act_stats: credits each set of `v` to its winner and
      counts the sets the first player won and the games of each side. */
  method PlaySets(a: int, b: int, v: seq<Pair>, part: seq<Jugador>, reg: ConjuntoJugadores)
    returns (x: int, y: int, ja: int, jb: int)
    requires reg.Valid() && Seated(part, reg.mapJug, a) && Seated(part, reg.mapJug, b)
    modifies reg
    ensures reg.Valid() && reg.rank == old(reg.rank) && reg.njug == old(reg.njug)
    ensures reg.mapJug == SetsFold(old(reg.mapJug), part[a - 1].id, part[b - 1].id, v)
    ensures x == FirstWins(v) && y == |v| - x
    ensures ja == SumFirst(v) && jb == SumSecond(v)
  {
    x, y, ja, jb := 0, 0, 0, 0;
    var n := |v|;
    ghost var m0 := reg.mapJug;
    ghost var na, nb := part[a - 1].id, part[b - 1].id;
    for i := 0 to n
      invariant reg.Valid() && reg.rank == old(reg.rank) && reg.njug == old(reg.njug)
      invariant reg.mapJug == SetsFold(m0, na, nb, v[..i])
      invariant x == FirstWins(v[..i]) && y == i - x
      invariant ja == SumFirst(v[..i]) && jb == SumSecond(v[..i])
    {
      assert v[..i + 1][..i] == v[..i];
      ja := ja + v[i].first;
      jb := jb + v[i].second;
      if v[i].first > v[i].second {
        reg.SumarRestarSet(a, b, part);
        x := x + 1;
      } else {
        reg.SumarRestarSet(b, a, part);
        y := y + 1;
      }
    }
    assert v[..n] == v;
  }

  /** The statistics half of act_stats: sets and games when the token
      does not parse to exactly one set, then the match; `first` says
      whether seed `a` won. */
  method CreditStats(a: int, b: int, v: seq<Pair>, part: seq<Jugador>, reg: ConjuntoJugadores)
    returns (first: bool)
    requires reg.Valid() && Seated(part, reg.mapJug, a) && Seated(part, reg.mapJug, b)
    modifies reg
    ensures reg.Valid() && reg.rank == old(reg.rank) && reg.njug == old(reg.njug)
    ensures first == FirstWonSets(v)
    ensures reg.mapJug == StatsOf(old(reg.mapJug), part[a - 1].id, part[b - 1].id, v, first)
  {
    var n := |v|;
    if n != 1 {
      var x, y, ja, jb := PlaySets(a, b, v, part, reg);
      reg.SumarRestarJuegos(a, b, ja, jb, part);
      first := x > y;
    } else {
      first := v[0].first > v[0].second;
    }
    if first {
      reg.SumarRestarPartido(a, b, part);
    } else {
      reg.SumarRestarPartido(b, a, part);
    }
  }

  /** act_stats: plays the match between seeds `a` and `b` with token `res`
      at level `nivel` on the registry, and returns the tournament with the
      category and participant copies the payments left. */
  method ActStats(t: Torneo, a: int, b: int, res: string, reg: ConjuntoJugadores, nivel: int)
    returns (t': Torneo)
    requires reg.Valid() && Seated(t.part, reg.mapJug, a) && Seated(t.part, reg.mapJug, b)
    modifies reg
    ensures reg.Valid() && reg.njug == old(reg.njug) && Placed(old(reg.mapJug), old(reg.rank))
    ensures Ledger(reg.mapJug, reg.rank, t'.cat, t'.part) ==
            PlayMatch(Ledger(old(reg.mapJug), old(reg.rank), t.cat, t.part), Game(a, b, res, nivel))
    ensures t' == t.(cat := t'.cat, part := t'.part)
  {
    SyncedPlaced(reg.mapJug, reg.rank);
    var v := Conv(res);
    var cat, part := PlayOn(t.cat, t.part, a, b, v, reg, nivel);
    t' := t.(cat := cat, part := part);
  }

  /** The body of act_stats once the token is parsed into `v`. */
  method PlayOn(cat0: Categoria, part0: seq<Jugador>, a: int, b: int, v: seq<Pair>, reg: ConjuntoJugadores, nivel: int)
    returns (cat: Categoria, part: seq<Jugador>)
    requires reg.Valid() && Seated(part0, reg.mapJug, a) && Seated(part0, reg.mapJug, b)
    modifies reg
    ensures reg.Valid() && reg.njug == old(reg.njug) && Placed(old(reg.mapJug), old(reg.rank))
    ensures Ledger(reg.mapJug, reg.rank, cat, part) ==
            Play(Ledger(old(reg.mapJug), old(reg.rank), cat0, part0), a, b, v, FirstWonSets(v), nivel)
  {
    SyncedPlaced(reg.mapJug, reg.rank);
    var first := CreditStats(a, b, v, part0, reg);
    cat, part := PayOn(cat0, part0, a, b, first, reg, nivel);
  }

  /** The payments half of act_stats: the loser is paid for level
      `nivel`+1, and in the final the winner for level 1. */
  method PayOn(cat0: Categoria, part0: seq<Jugador>, a: int, b: int, first: bool, reg: ConjuntoJugadores, nivel: int)
    returns (cat: Categoria, part: seq<Jugador>)
    requires reg.Valid() && Seated(part0, reg.mapJug, a) && Seated(part0, reg.mapJug, b)
    modifies reg
    ensures reg.Valid() && reg.njug == old(reg.njug) && Placed(old(reg.mapJug), old(reg.rank))
    ensures Ledger(reg.mapJug, reg.rank, cat, part) ==
            Pay(Ledger(old(reg.mapJug), old(reg.rank), cat0, part0), a, b, first, nivel)
  {
    SyncedPlaced(reg.mapJug, reg.rank);
    var ws, ls := if first then a else b, if first then b else a;
    cat, part := PayLoserOn(cat0, part0, ls, ws, reg, nivel);
    if nivel == 1 {
      cat, part := reg.SumarPuntos(cat, 1, ws, part);
    }
  }

  /** The loser's payment, for level `nivel`+1. */
  method PayLoserOn(cat0: Categoria, part0: seq<Jugador>, ls: int, ws: int, reg: ConjuntoJugadores, nivel: int)
    returns (cat: Categoria, part: seq<Jugador>)
    requires reg.Valid() && Seated(part0, reg.mapJug, ls) && Seated(part0, reg.mapJug, ws)
    modifies reg
    ensures reg.Valid() && reg.njug == old(reg.njug) && Placed(old(reg.mapJug), old(reg.rank))
    ensures Ledger(reg.mapJug, reg.rank, cat, part) == Award(Ledger(old(reg.mapJug), old(reg.rank), cat0, part0), ls, nivel + 1)
    ensures Seated(part, reg.mapJug, ws)
  {
    SyncedPlaced(reg.mapJug, reg.rank);
    cat, part := reg.SumarPuntos(cat0, nivel + 1, ls, part0);
    assert part[ws - 1].id == part0[ws - 1].id;
  }

  // ---------------------------------------------------------------------
  // The matches of a results tree (actualizar_estadisticas)
  // ---------------------------------------------------------------------

  /** Both seeds of every match of the results tree `res` on the winner
      tree `w` name registered participants. */
  predicate SeatsIn(part: seq<Jugador>, m: map<string, Jugador>, w: Tree<int>, res: Tree<string>)
    requires Walkable(w, res)
  {
    res.Node? ==>
      Seated(part, m, w.left.value) && Seated(part, m, w.right.value) &&
      SeatsIn(part, m, w.left, res.left) && SeatsIn(part, m, w.right, res.right)
  }

  /** Seats depend only on the names in the slots and the registered names. */
  lemma {:induction false} SeatsKept(p: seq<Jugador>, m: map<string, Jugador>, p': seq<Jugador>, m': map<string, Jugador>,
                                     w: Tree<int>, res: Tree<string>)
    requires Walkable(w, res) && SeatsIn(p, m, w, res) && SameIds(p', p) && m'.Keys == m.Keys
    ensures SeatsIn(p', m', w, res)
  {
    if res.Node? {
      assert p'[w.left.value - 1].id == p[w.left.value - 1].id;
      assert p'[w.right.value - 1].id == p[w.right.value - 1].id;
      SeatsKept(p, m, p', m', w.left, res.left);
      SeatsKept(p, m, p', m', w.right, res.right);
    }
  }

  /** The matches of the results tree played as actualizar_estadisticas
      plays them: the root's match at level `nivel`, then the left
      subtree's matches one level down, then the right subtree's. */
  function PlayTree(g: Ledger, w: Tree<int>, res: Tree<string>, nivel: int): (r: Ledger)
    requires Placed(g.players, g.ranking) && Walkable(w, res) && SeatsIn(g.part, g.players, w, res)
    ensures Placed(r.players, r.ranking) && |r.ranking| == |g.ranking|
    ensures r.players.Keys == g.players.Keys
    ensures SameIds(r.part, g.part)
    ensures forall l :: Points(r.cat, l) == Points(g.cat, l)
    decreases res, 1
  {
    if res.Empty? then g
    else
      var g1 := PlayMatch(g, Game(w.left.value, w.right.value, res.value, nivel));
      SeatsKept(g.part, g.players, g1.part, g1.players, w.left, res.left);
      SeatsKept(g.part, g.players, g1.part, g1.players, w.right, res.right);
      PlayBelow(g1, w, res, nivel)
  }

  /** The two subtrees of a pairing, left then right, one level down. */
  function PlayBelow(g: Ledger, w: Tree<int>, res: Tree<string>, nivel: int): (r: Ledger)
    requires Placed(g.players, g.ranking) && Walkable(w, res) && res.Node?
    requires SeatsIn(g.part, g.players, w.left, res.left) && SeatsIn(g.part, g.players, w.right, res.right)
    ensures Placed(r.players, r.ranking) && |r.ranking| == |g.ranking|
    ensures r.players.Keys == g.players.Keys
    ensures SameIds(r.part, g.part)
    ensures forall l :: Points(r.cat, l) == Points(g.cat, l)
    decreases res, 0
  {
    var g1 := PlayTree(g, w.left, res.left, nivel + 1);
    SeatsKept(g.part, g.players, g1.part, g1.players, w.right, res.right);
    PlayTree(g1, w.right, res.right, nivel + 1)
  }

  /** actualizar_estadisticas, on the winner tree `w`. */
  method ActualizarEstadisticas(t: Torneo, w: Tree<int>, res: Tree<string>, nivel: int, reg: ConjuntoJugadores)
    returns (t': Torneo)
    requires reg.Valid() && Walkable(w, res) && SeatsIn(t.part, reg.mapJug, w, res)
    modifies reg
    decreases res
    ensures reg.Valid() && reg.njug == old(reg.njug)
    ensures Ledger(reg.mapJug, reg.rank, t'.cat, t'.part) ==
            PlayTree(Ledger(old(reg.mapJug), old(reg.rank), t.cat, t.part), w, res, nivel)
    ensures t' == t.(cat := t'.cat, part := t'.part)
  {
    SyncedPlaced(reg.mapJug, reg.rank);
    if res.Empty? {
      t' := t;
    } else {
      var t1 := ActStats(t, w.left.value, w.right.value, res.value, reg, nivel);
      SeatsKept(t.part, old(reg.mapJug), t1.part, reg.mapJug, w.left, res.left);
      SeatsKept(t.part, old(reg.mapJug), t1.part, reg.mapJug, w.right, res.right);
      ghost var m1 := reg.mapJug;
      var t2 := ActualizarEstadisticas(t1, w.left, res.left, nivel + 1, reg);
      SeatsKept(t1.part, m1, t2.part, reg.mapJug, w.right, res.right);
      t' := ActualizarEstadisticas(t2, w.right, res.right, nivel + 1, reg);
    }
  }

  // ---------------------------------------------------------------------
  // Withdrawing the last edition's points (restar_puntos)
  // ---------------------------------------------------------------------

  /** The registry after subtracting, for each participant of `l` in turn,
      the points it won in that edition (clamped at 0). */
  function DeductAll(m: map<string, Jugador>, r: seq<Jugador>, l: seq<Jugador>): (res: (map<string, Jugador>, seq<Jugador>))
    requires Placed(m, r)
    ensures Placed(res.0, res.1) && |res.1| == |r|
    ensures res.0.Keys == m.Keys
  {
    if l == [] then (m, r)
    else
      var p := DeductAll(m, r, l[..|l| - 1]);
      Deduct(p.0, p.1, l[|l| - 1].id, l[|l| - 1].ptosActual)
  }

  /** restar_puntos: every participant of the last edition loses the points
      that edition gave it. */
  method RestarPuntos(t: Torneo, reg: ConjuntoJugadores)
    requires reg.Valid()
    modifies reg
    ensures reg.Valid() && reg.njug == old(reg.njug)
    ensures (reg.mapJug, reg.rank) == DeductAll(old(reg.mapJug), old(reg.rank), t.last)
  {
    SyncedPlaced(reg.mapJug, reg.rank);
    var n := |t.last|;
    if n != 0 {
      for i := 0 to n
        invariant reg.Valid() && reg.njug == old(reg.njug)
        invariant (reg.mapJug, reg.rank) == DeductAll(old(reg.mapJug), old(reg.rank), t.last[..i])
      {
        assert t.last[..i + 1][..i] == t.last[..i];
        var idP := t.last[i].id;
        var x := t.last[i].ptosActual;
        reg.Restar(idP, x);
      }
      assert t.last[..n] == t.last;
    }
  }

  /** Record `j`, registered under name `k`, after every entry of `l`
      naming `k` has had its points subtracted, in order. */
  function RestFor(j: Jugador, k: string, l: seq<Jugador>): (r: Jugador)
    ensures r.(ptos := j.ptos) == j
    ensures j.ptos >= 0 ==> r.ptos >= 0
  {
    if l == [] then j
    else
      var e := l[|l| - 1];
      var j1 := RestFor(j, k, l[..|l| - 1]);
      if e.id == k then j1.Rest(e.ptosActual) else j1
  }

  lemma RestForSnoc(j: Jugador, k: string, l: seq<Jugador>)
    requires l != []
    ensures var e := l[|l| - 1];
            RestFor(j, k, l) == if e.id == k then RestFor(j, k, l[..|l| - 1]).Rest(e.ptosActual) else RestFor(j, k, l[..|l| - 1])
  {
  }

  /** Each registered player ends as RestFor says. */
  lemma {:induction false} DeductAllAt(m: map<string, Jugador>, r: seq<Jugador>, l: seq<Jugador>, k: string)
    requires Placed(m, r) && k in m
    ensures DeductAll(m, r, l).0[k] == RestFor(m[k], k, l)
  {
    if l != [] {
      var l' := l[..|l| - 1];
      var e := l[|l| - 1];
      DeductAllAt(m, r, l', k);
      RestForSnoc(m[k], k, l);
      var p := DeductAll(m, r, l');
      assert DeductAll(m, r, l) == Deduct(p.0, p.1, e.id, e.ptosActual);
    }
  }

  lemma {:induction false} RestForOnce(j: Jugador, l: seq<Jugador>, i: int)
    requires DistinctIds(l) && 0 <= i < |l|
    ensures RestFor(j, l[i].id, l) == j.Rest(l[i].ptosActual)
  {
    var l' := l[..|l| - 1];
    if i < |l| - 1 {
      assert DistinctIds(l') && l'[i] == l[i];
      RestForOnce(j, l', i);
    } else {
      RestForNone(j, l[i].id, l');
    }
  }

  lemma {:induction false} RestForNone(j: Jugador, k: string, l: seq<Jugador>)
    requires forall i :: 0 <= i < |l| ==> l[i].id != k
    ensures RestFor(j, k, l) == j
  {
    if l != [] {
      var l' := l[..|l| - 1];
      assert forall i :: 0 <= i < |l'| ==> l'[i] == l[i];
      RestForNone(j, k, l');
    }
  }

  /** With distinct names in the last edition, each of its registered
      players loses exactly the points recorded for it there, and every
      other registered player is untouched. */
  lemma DeductAllEffect(m: map<string, Jugador>, r: seq<Jugador>, l: seq<Jugador>)
    requires Placed(m, r) && DistinctIds(l)
    ensures forall i :: 0 <= i < |l| && l[i].id in m ==>
              DeductAll(m, r, l).0[l[i].id] == m[l[i].id].Rest(l[i].ptosActual)
    ensures forall k :: k in m && (forall i :: 0 <= i < |l| ==> l[i].id != k) ==> DeductAll(m, r, l).0[k] == m[k]
  {
    forall i | 0 <= i < |l| && l[i].id in m
      ensures DeductAll(m, r, l).0[l[i].id] == m[l[i].id].Rest(l[i].ptosActual)
    {
      DeductAllAt(m, r, l, l[i].id);
      RestForOnce(m[l[i].id], l, i);
    }
    forall k | k in m && (forall i :: 0 <= i < |l| ==> l[i].id != k)
      ensures DeductAll(m, r, l).0[k] == m[k]
    {
      DeductAllAt(m, r, l, k);
      RestForNone(m[k], k, l);
    }
  }
}
