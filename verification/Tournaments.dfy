/**
 * The tournaments of the circuit (ConjuntoTorneos): the tournaments by name,
 * and a counter kept beside them. The counter is adjusted on every insertion
 * and removal whether or not the map changed, so it agrees with the map only
 * while callers respect the documented preconditions (no duplicate name on
 * insertion, an existing name on removal).
 *
 * Tournaments are values: the set hands out copies, and `operator[]` on a
 * missing name stores a default tournament under that name.
 */
module TournamentSet {
  import opened Trees
  import opened Players
  import opened Categories
  import opened Tournament

  /** map_tor[id]: the stored tournament, or a default one, which is then
      stored under `id`. */
  function Subscript(m: map<string, Torneo>, id: string): (r: (map<string, Torneo>, Torneo))
    ensures r.0.Keys == m.Keys + {id}
    ensures id in m ==> r.0 == m && r.1 == m[id]
    ensures id !in m ==> r.1 == Default() && forall k :: k in m ==> r.0[k] == m[k]
    ensures r.0[id] == r.1
  {
    if id in m then (m, m[id]) else (m[id := Default()], Default())
  }

  /** Removing a stored name removes exactly one tournament. */
  lemma EraseCount(m: map<string, Torneo>, id: string)
    requires id in m
    ensures |m - {id}| == |m| - 1
  {
    var k := m.Keys;
    assert (m - {id}).Keys == k - {id};
    assert k == (k - {id}) + {id};
  }

  class ConjuntoTorneos {
    var mapTor: map<string, Torneo>
    var ntor: int

    /** The counter is the number of stored tournaments. */
    ghost predicate Valid()
      reads this
    {
      ntor == |mapTor|
    }

    /** An empty set. */
    constructor ()
      ensures Valid()
      ensures mapTor == map[] && ntor == 0
    {
      mapTor := map[];
      ntor := 0;
    }

    /** An empty map with the counter preset to `t`, the number of
        tournaments about to be read in. */
    constructor Inicializado(t: int)
      ensures mapTor == map[] && ntor == t
    {
      mapTor := map[];
      ntor := t;
    }

    /** Inserts a fresh tournament `id` of category `cat`; a tournament
        already stored under `id` is left as it is. The counter always grows. */
    method NuevoTorneo(id: string, cat: Categoria)
      modifies this
      ensures id in old(mapTor) ==> mapTor == old(mapTor)
      ensures id !in old(mapTor) ==> mapTor == old(mapTor)[id := WithCat(id, cat)]
      ensures ntor == old(ntor) + 1
      ensures old(Valid()) && id !in old(mapTor) ==> Valid()
    {
      var torn := WithCat(id, cat);
      if id !in mapTor {
        mapTor := mapTor[id := torn];
      }
      ntor := ntor + 1;
    }

    /** Erases `id`; the counter always shrinks. */
    method BajaTorneo(id: string)
      modifies this
      ensures mapTor == old(mapTor) - {id}
      ensures id !in mapTor && forall k :: k in old(mapTor) && k != id ==> k in mapTor && mapTor[k] == old(mapTor)[k]
      ensures ntor == old(ntor) - 1
      ensures old(Valid()) && id in old(mapTor) ==> Valid()
    {
      if id in mapTor {
        EraseCount(mapTor, id);
      }
      mapTor := mapTor - {id};
      ntor := ntor - 1;
    }

    /** Installs bracket `arb` and participants `r` in the tournament stored
        under `id` (a default one if there is none). */
    method DefinirCuadroYParticipantes(id: string, arb: Tree<int>, r: seq<Jugador>)
      modifies this
      ensures mapTor == Subscript(old(mapTor), id).0[id := Subscript(old(mapTor), id).1.AsignarCuadroEmpParticipantes(arb, r)]
      ensures ntor == old(ntor)
      ensures old(Valid()) && id in old(mapTor) ==> Valid()
    {
      var s := Subscript(mapTor, id);
      mapTor := s.0[id := s.1.AsignarCuadroEmpParticipantes(arb, r)];
    }

    /** Records the current participants of `torn` as the last edition of
        the tournament stored under `id` (a default one if there is none). */
    method DefinirUltJugadores(id: string, torn: Torneo)
      modifies this
      ensures mapTor == Subscript(old(mapTor), id).0[id := Subscript(old(mapTor), id).1.UltJugadores(torn.part)]
      ensures ntor == old(ntor)
      ensures old(Valid()) && id in old(mapTor) ==> Valid()
    {
      var last := torn.part;
      var s := Subscript(mapTor, id);
      mapTor := s.0[id := s.1.UltJugadores(last)];
    }

    method ExisteTorneo(id: string) returns (b: bool)
      ensures b <==> id in mapTor
    {
      b := id in mapTor;
    }

    method NumeroTorneos() returns (n: int)
      ensures n == ntor
    {
      n := ntor;
    }

    /** A copy of the tournament stored under `id`. */
    method ConsultarTorneo(id: string) returns (t: Torneo)
      requires id in mapTor
      ensures t == mapTor[id]
    {
      t := Subscript(mapTor, id).1;
    }
  }
}
