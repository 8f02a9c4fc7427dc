/**
 * The circuit's commands that chain several operations: starting a
 * tournament (its bracket from the participant count), finishing it (undo
 * the last edition's points, play the results, record the participants,
 * re-rank) and withdrawing it (undo the last edition's points, re-rank,
 * erase). Reading the participants and the results, and every line of
 * output, are left to the caller: the participants and the result tree are
 * parameters.
 */
module Circuit {
  import opened Trees
  import opened Players
  import opened Registry
  import opened Bracket
  import opened Results
  import opened Tournament
  import opened TournamentSet
  import opened MatchFacts

  /** Every seed of the bracket is the seed of a participant whose name is
      one of `names`. */
  ghost predicate LeavesSeated(emp: Tree<int>, part: seq<Jugador>, names: set<string>) {
    forall s :: s in LeafSeq(emp) ==> 1 <= s <= |part| && part[s - 1].id in names
  }

  /** The ledger after the results `res` of the bracket `emp` have been
      played from the final down. With at least one match and distinct seeds,
      exactly the seeded participant copies count one more tournament. */
  function Finish(g: Ledger, emp: Tree<int>, res: Tree<string>): (r: Ledger)
    requires Placed(g.players, g.ranking) && Fits(emp, res) && LeavesSeated(emp, g.part, g.players.Keys)
    ensures Placed(r.players, r.ranking) && r.players.Keys == g.players.Keys && SameIds(r.part, g.part)
    ensures !IsLeaf(emp) && NoDup(LeafSeq(emp)) ==>
              |r.part| == |g.part| &&
              forall i :: 0 <= i < |g.part| ==> r.part[i].torneos == g.part[i].torneos + if i + 1 in LeafSeq(emp) then 1 else 0
  {
    assert forall s :: s in LeafSeq(emp) ==> Seated(g.part, g.players, s);
    SeatsFromLeaves(g.part, g.players, emp, res);
    if !IsLeaf(emp) && NoDup(LeafSeq(emp)) then
      TorneosCounted(g, emp, res);
      PlayTree(g, ProcResultados(emp, res), res, 1)
    else
      PlayTree(g, ProcResultados(emp, res), res, 1)
  }

  /** Finishing an edition and then withdrawing it, as the next
      finalizar_torneo or baja_torneo does with the participant copies the
      edition left, gives every registered player back the points it had
      before the edition. This needs the bracket to seat every participant
      once (as iniciar_torneo builds it), at least one match, distinct
      participant names and no negative points beforehand. */
  lemma FinishThenWithdraw(g: Ledger, emp: Tree<int>, res: Tree<string>)
    requires Placed(g.players, g.ranking) && Fits(emp, res) && LeavesSeated(emp, g.part, g.players.Keys)
    requires !IsLeaf(emp) && NoDup(LeafSeq(emp)) && forall s :: s in LeafSeq(emp) <==> 1 <= s <= |g.part|
    requires DistinctIds(g.part)
    requires forall k :: k in g.players ==> g.players[k].ptos >= 0
    ensures var f := Finish(g, emp, res);
            var d := DeductAll(f.players, f.ranking, f.part);
            forall k :: k in g.players ==> d.0[k].ptos == g.players[k].ptos
  {
    var w := ProcResultados(emp, res);
    assert forall s :: s in LeafSeq(emp) ==> Seated(g.part, g.players, s);
    SeatsFromLeaves(g.part, g.players, emp, res);
    AwardedOnce(emp, res);
    PlayTreePoints(g, w, res, 1);
    var f := Finish(g, emp, res);
    assert f == PlayTree(g, w, res, 1);
    PaidOnceEach(AwardedSeeds(Matches(w, res, 1)), LeafSeq(emp), |g.part|);
    WithdrawRestores(g.players, g.part, f.players, f.ranking, f.part, AwardedSeeds(Matches(w, res, 1)));
  }

  /** A list of payments with the same members as a list of the seeds
      `1..n` without repetitions pays each of those seeds once. */
  lemma PaidOnceEach(s: seq<int>, l: seq<int>, n: int)
    requires multiset(s) == multiset(l) && NoDup(l) && forall x :: x in l <==> 1 <= x <= n
    ensures forall x :: 1 <= x <= n ==> multiset(s)[x] == 1
  {
    forall x | 1 <= x <= n ensures multiset(s)[x] == 1 {
      NoDupCount(l, x);
    }
  }

  /** Withdrawing, copy by copy, the points of an edition that paid every
      registered participant once restores every registered player's
      points, provided names are distinct and no points were negative. */
  lemma WithdrawRestores(m0: map<string, Jugador>, p0: seq<Jugador>,
                         m1: map<string, Jugador>, r1: seq<Jugador>, p1: seq<Jugador>, s: seq<int>)
    requires PointsMoved(m0, p0, m1, p1, s) && Placed(m1, r1) && DistinctIds(p0)
    requires forall x :: 1 <= x <= |p0| ==> multiset(s)[x] == 1
    requires forall k :: k in m0 ==> m0[k].ptos >= 0
    ensures forall k :: k in m0 ==> DeductAll(m1, r1, p1).0[k].ptos == m0[k].ptos
  {
    assert DistinctIds(p1);
    DeductAllEffect(m1, r1, p1);
    var d := DeductAll(m1, r1, p1);
    forall k | k in m0 ensures d.0[k].ptos == m0[k].ptos {
      if k in Ids(p0) {
        var i :| 0 <= i < |p0| && p0[i].id == k;
        assert multiset(s)[i + 1] == 1;
        assert p1[i].id == k;
      } else {
        assert forall i :: 0 <= i < |p1| ==> p1[i].id != k;
      }
    }
  }

  /** iniciar_torneo: when `id` names a tournament, the bracket for its
      `n` >= 1 participants `r` is stored with them; otherwise nothing
      changes (and no participants are read). */
  method IniciarTorneo(torneos: ConjuntoTorneos, id: string, r: seq<Jugador>)
    requires id in torneos.mapTor ==> |r| >= 1
    modifies torneos
    ensures torneos.ntor == old(torneos.ntor)
    ensures id !in old(torneos.mapTor) ==> torneos.mapTor == old(torneos.mapTor)
    ensures id in old(torneos.mapTor) ==>
              torneos.mapTor == old(torneos.mapTor)[id := old(torneos.mapTor)[id].AsignarCuadroEmpParticipantes(
                DefinirEmparejamientos(Height(|r|), 1, 1, Byes(|r|)), r)]
    ensures id in old(torneos.mapTor) ==>
              var emp := torneos.mapTor[id].cuadro;
              NoDup(LeafSeq(emp)) && forall s :: s in LeafSeq(emp) <==> 1 <= s <= |torneos.mapTor[id].part|
  {
    var b := torneos.ExisteTorneo(id);
    if b {
      var n := |r|;
      var h := Height(n);
      var j := Byes(n);
      var arb := DefinirEmparejamientos(h, 1, 1, j);
      torneos.DefinirCuadroYParticipantes(id, arb, r);
      BracketLeaves(n);
    }
  }

  /** The registry part of finalizar_torneo on tournament `torn`: the points
      of its last edition are withdrawn, then the results are played on its
      bracket; the tournament with its updated participant copies is
      returned. */
  method Jugar(torn: Torneo, jugadores: ConjuntoJugadores, res: Tree<string>) returns (torn': Torneo)
    requires jugadores.Valid()
    requires Fits(torn.cuadro, res) && LeavesSeated(torn.cuadro, torn.part, jugadores.mapJug.Keys)
    modifies jugadores
    ensures jugadores.Valid() && jugadores.njug == old(jugadores.njug)
    ensures var d := DeductAll(old(jugadores.mapJug), old(jugadores.rank), torn.last);
            var g := Finish(Ledger(d.0, d.1, torn.cat, torn.part), torn.cuadro, res);
            jugadores.mapJug == g.players && jugadores.rank == g.ranking && torn'.part == g.part
    ensures torn' == torn.(cat := torn'.cat, part := torn'.part)
  {
    var emp := torn.cuadro;
    var a := ProcResultados(emp, res);
    RestarPuntos(torn, jugadores);
    assert forall s :: s in LeafSeq(emp) ==> Seated(torn.part, jugadores.mapJug, s);
    SeatsFromLeaves(torn.part, jugadores.mapJug, emp, res);
    ghost var g0 := Ledger(jugadores.mapJug, jugadores.rank, torn.cat, torn.part);
    torn' := ActualizarEstadisticas(torn, a, res, 1, jugadores);
    ghost var g := PlayTree(g0, a, res, 1);
    assert jugadores.mapJug == g.players && jugadores.rank == g.ranking && torn'.part == g.part;
  }

  /** finalizar_torneo: when `id` names a tournament, the points its last
      edition gave are withdrawn, the results are played on its bracket, the
      participant copies so produced become its last edition, and the
      ranking is refreshed; otherwise nothing changes. */
  method FinalizarTorneo(torneos: ConjuntoTorneos, jugadores: ConjuntoJugadores, id: string, res: Tree<string>)
    requires torneos.Valid() && jugadores.Valid()
    requires id in torneos.mapTor ==>
               var t := torneos.mapTor[id];
               Fits(t.cuadro, res) && LeavesSeated(t.cuadro, t.part, jugadores.mapJug.Keys)
    modifies torneos, jugadores
    ensures torneos.Valid() && jugadores.Valid() && torneos.ntor == old(torneos.ntor)
    ensures id !in old(torneos.mapTor) ==>
              torneos.mapTor == old(torneos.mapTor) &&
              jugadores.mapJug == old(jugadores.mapJug) && jugadores.rank == old(jugadores.rank)
    ensures id in old(torneos.mapTor) ==>
              var t := old(torneos.mapTor)[id];
              var d := DeductAll(old(jugadores.mapJug), old(jugadores.rank), t.last);
              var g := Finish(Ledger(d.0, d.1, t.cat, t.part), t.cuadro, res);
              torneos.mapTor == old(torneos.mapTor)[id := t.UltJugadores(g.part)] &&
              Refreshed(g.players, g.ranking, jugadores.mapJug, jugadores.rank)
  {
    var b := torneos.ExisteTorneo(id);
    if b {
      var torn := torneos.ConsultarTorneo(id);
      var torn' := Jugar(torn, jugadores, res);
      torneos.DefinirUltJugadores(id, torn');
      jugadores.ActualizarRanking();
    }
  }

  /** baja_torneo: when `id` names a tournament, the points its last
      edition gave are withdrawn, the ranking is refreshed and the
      tournament is erased; otherwise nothing changes. */
  method BajaTorneo(torneos: ConjuntoTorneos, jugadores: ConjuntoJugadores, id: string)
    requires torneos.Valid() && jugadores.Valid()
    modifies torneos, jugadores
    ensures torneos.Valid() && jugadores.Valid()
    ensures id !in old(torneos.mapTor) ==>
              torneos.mapTor == old(torneos.mapTor) && torneos.ntor == old(torneos.ntor) &&
              jugadores.mapJug == old(jugadores.mapJug) && jugadores.rank == old(jugadores.rank)
    ensures id in old(torneos.mapTor) ==>
              var d := DeductAll(old(jugadores.mapJug), old(jugadores.rank), old(torneos.mapTor)[id].last);
              Refreshed(d.0, d.1, jugadores.mapJug, jugadores.rank) &&
              torneos.mapTor == old(torneos.mapTor) - {id} && torneos.ntor == old(torneos.ntor) - 1
  {
    var b := torneos.ExisteTorneo(id);
    if b {
      var torn := torneos.ConsultarTorneo(id);
      RestarPuntos(torn, jugadores);
      jugadores.ActualizarRanking();
      torneos.BajaTorneo(id);
    }
  }
}
