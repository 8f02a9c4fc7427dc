/**
 * A player record (Jugador). The record is a value: the registry keeps one
 * copy in its name-keyed map and another in its ranking vector, and a
 * tournament keeps further copies of its participants, each copy updated on
 * its own. Every modifier therefore returns the updated record.
 */
module Players {

  datatype Jugador = Jugador(
    id: string,
    pos: int,                // position in the ranking, 1-based
    ptos: int,               // points accumulated in the circuit
    torneos: int,            // tournaments played
    partidosGanados: int,
    partidosPerdidos: int,
    setsGanados: int,
    setsPerdidos: int,
    juegosGanados: int,
    juegosPerdidos: int,
    ptosActual: int          // points won in the current or last edition
  )
  {
    /** Adds `x` points, records `x` (overwriting) as the points of this
        edition and counts one more tournament played. */
    function SumPtos(x: int): (r: Jugador)
      ensures r.ptos == ptos + x
      ensures r.ptosActual == x
      ensures r.torneos == torneos + 1
      ensures r.(ptos := ptos, ptosActual := ptosActual, torneos := torneos) == this
      ensures r.id == id && r.pos == pos
    {
      this.(ptos := ptos + x, ptosActual := x, torneos := torneos + 1)
    }

    /** Subtracts `x` points, never going below zero; nothing else changes. */
    function Rest(x: int): (r: Jugador)
      ensures r.ptos >= 0
      ensures ptos >= x ==> r.ptos == ptos - x
      ensures ptos < x ==> r.ptos == 0
      ensures r.(ptos := ptos) == this
      ensures r.id == id && r.pos == pos
    {
      var p := ptos - x;
      this.(ptos := if p < 0 then 0 else p)
    }

    function ModificarPosicion(x: int): (r: Jugador)
      ensures r.pos == x
      ensures r.(pos := pos) == this
      ensures r.id == id && r.ptos == ptos
    {
      this.(pos := x)
    }

    function SumarJuegos(x: int): (r: Jugador)
      ensures r.juegosGanados == juegosGanados + x
      ensures r.(juegosGanados := juegosGanados) == this
      ensures r.id == id && r.pos == pos && r.ptos == ptos
    {
      this.(juegosGanados := juegosGanados + x)
    }

    /** Counts `x` more games lost (the counter only grows). */
    function RestarJuegos(x: int): (r: Jugador)
      ensures r.juegosPerdidos == juegosPerdidos + x
      ensures r.(juegosPerdidos := juegosPerdidos) == this
      ensures r.id == id && r.pos == pos && r.ptos == ptos
    {
      this.(juegosPerdidos := juegosPerdidos + x)
    }

    function SumarSet(): (r: Jugador)
      ensures r.setsGanados == setsGanados + 1
      ensures r.(setsGanados := setsGanados) == this
      ensures r.id == id && r.pos == pos && r.ptos == ptos
    {
      this.(setsGanados := setsGanados + 1)
    }

    /** Counts one more set lost (the counter only grows). */
    function RestarSet(): (r: Jugador)
      ensures r.setsPerdidos == setsPerdidos + 1
      ensures r.(setsPerdidos := setsPerdidos) == this
      ensures r.id == id && r.pos == pos && r.ptos == ptos
    {
      this.(setsPerdidos := setsPerdidos + 1)
    }

    function SumarPartido(): (r: Jugador)
      ensures r.partidosGanados == partidosGanados + 1
      ensures r.(partidosGanados := partidosGanados) == this
      ensures r.id == id && r.pos == pos && r.ptos == ptos
    {
      this.(partidosGanados := partidosGanados + 1)
    }

    /** Counts one more match lost (the counter only grows). */
    function RestarPartido(): (r: Jugador)
      ensures r.partidosPerdidos == partidosPerdidos + 1
      ensures r.(partidosPerdidos := partidosPerdidos) == this
      ensures r.id == id && r.pos == pos && r.ptos == ptos
    {
      this.(partidosPerdidos := partidosPerdidos + 1)
    }
  }

  /** Points and every statistic are zero. */
  predicate ZeroStats(j: Jugador) {
    j.ptos == 0 && j.torneos == 0 && j.partidosGanados == 0 && j.partidosPerdidos == 0 &&
    j.setsGanados == 0 && j.setsPerdidos == 0 && j.juegosGanados == 0 &&
    j.juegosPerdidos == 0 && j.ptosActual == 0
  }

  /** The default constructor: a placeholder named " " at position 0. */
  function Blank(): (j: Jugador)
    ensures j.id == " " && j.pos == 0 && ZeroStats(j)
  {
    Jugador(" ", 0, 0, 0, 0, 0, 0, 0, 0, 0, 0)
  }

  /** The constructor from a name: position 0. */
  function Named(id: string): (j: Jugador)
    ensures j.id == id && j.pos == 0 && ZeroStats(j)
  {
    Jugador(id, 0, 0, 0, 0, 0, 0, 0, 0, 0, 0)
  }

  /** The constructor from a name and a ranking position. */
  function Ranked(id: string, i: int): (j: Jugador)
    ensures j.id == id && j.pos == i && ZeroStats(j)
  {
    Jugador(id, i, 0, 0, 0, 0, 0, 0, 0, 0, 0)
  }

  /** Adding points and then subtracting the same amount restores the points
      of a player whose points were not negative. */
  lemma SumThenRest(j: Jugador, x: int)
    requires j.ptos >= 0 && x >= 0
    ensures j.SumPtos(x).Rest(x).ptos == j.ptos
  {
  }
}
