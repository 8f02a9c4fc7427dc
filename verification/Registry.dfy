/**
 * The player registry (ConjuntoJugadores): a name-keyed map of player records
 * and a ranking vector holding a second copy of each record. The two views
 * are kept in step: the map entry of the player at ranking index i says
 * position i+1 and has the same points as the ranking copy.
 */
module Registry {
  import opened Players
  import opened Categories

  // ---------------------------------------------------------------------
  // The ranking order and the sort that establishes it
  // ---------------------------------------------------------------------

  /** `a` ranks before `b`: more points, or equal points and a smaller
      prior position. */
  function Cmp(a: Jugador, b: Jugador): (r: bool)
    ensures a.ptos > b.ptos ==> r
    ensures r ==> a.ptos >= b.ptos
  {
    if a.ptos != b.ptos then a.ptos > b.ptos else a.pos < b.pos
  }

  /** Cmp is a strict order, total on records whose (points, position)
      differ; so its "not before" is a total preorder. */
  lemma CmpOrder(a: Jugador, b: Jugador, c: Jugador)
    ensures !Cmp(a, a)
    ensures Cmp(a, b) ==> !Cmp(b, a)
    ensures Cmp(a, b) && Cmp(b, c) ==> Cmp(a, c)
    ensures !Cmp(a, b) && !Cmp(b, c) ==> !Cmp(a, c)
    ensures (a.ptos != b.ptos || a.pos != b.pos) ==> Cmp(a, b) || Cmp(b, a)
  {
  }

  /** No record ranks before one placed ahead of it. */
  ghost predicate Sorted(s: seq<Jugador>) {
    forall i, j :: 0 <= i < j < |s| ==> !Cmp(s[j], s[i])
  }

  ghost predicate DistinctIds(s: seq<Jugador>) {
    forall i, j :: 0 <= i < j < |s| ==> s[i].id != s[j].id
  }

  /** Inserts `e` before the first record it ranks before. */
  function Insert(e: Jugador, s: seq<Jugador>): seq<Jugador> {
    if s == [] then [e]
    else if Cmp(e, s[0]) then [e] + s
    else [s[0]] + Insert(e, s[1..])
  }

  lemma {:induction false} InsertBasic(e: Jugador, s: seq<Jugador>)
    ensures |Insert(e, s)| == |s| + 1
    ensures multiset(Insert(e, s)) == multiset(s) + multiset{e}
    ensures forall x :: x in Insert(e, s) <==> x == e || x in s
  {
    if s != [] && !Cmp(e, s[0]) {
      InsertBasic(e, s[1..]);
      assert s == [s[0]] + s[1..];
    }
  }

  /** Everything `Insert(e, s)` places after the head of `s` is `e` or a
      later record of `s`. */
  lemma InsertTail(e: Jugador, s: seq<Jugador>, j: int)
    requires s != [] && !Cmp(e, s[0])
    requires 0 <= j < |Insert(e, s[1..])|
    ensures Insert(e, s[1..])[j] == e || exists k :: 1 <= k < |s| && s[k] == Insert(e, s[1..])[j]
  {
    var u := Insert(e, s[1..]);
    InsertBasic(e, s[1..]);
    assert u[j] in u;
    if u[j] != e {
      var k :| 0 <= k < |s[1..]| && s[1..][k] == u[j];
      assert s[k + 1] == u[j];
    }
  }

  lemma {:induction false} InsertSorted(e: Jugador, s: seq<Jugador>)
    requires Sorted(s)
    ensures Sorted(Insert(e, s))
  {
    if s == [] {
    } else if Cmp(e, s[0]) {
      var t := [e] + s;
      forall i, j | 0 <= i < j < |t| ensures !Cmp(t[j], t[i]) {
        if i == 0 {
          CmpOrder(t[j], e, s[0]);
          CmpOrder(e, s[0], t[j]);
        }
      }
    } else {
      var u := Insert(e, s[1..]);
      InsertSorted(e, s[1..]);
      var t := [s[0]] + u;
      forall j | 0 <= j < |u| ensures !Cmp(u[j], s[0]) {
        InsertTail(e, s, j);
      }
      forall i, j | 0 <= i < j < |t| ensures !Cmp(t[j], t[i]) {
        if i == 0 {
          assert t[j] == u[j - 1];
        } else {
          assert t[i] == u[i - 1] && t[j] == u[j - 1];
        }
      }
    }
  }

  lemma {:induction false} InsertDistinct(e: Jugador, s: seq<Jugador>)
    ensures DistinctIds(s) && (forall x :: x in s ==> x.id != e.id) ==> DistinctIds(Insert(e, s))
  {
    if !DistinctIds(s) || !(forall x :: x in s ==> x.id != e.id) {
    } else if s == [] {
    } else if Cmp(e, s[0]) {
      var t := [e] + s;
      forall i, j | 0 <= i < j < |t| ensures t[i].id != t[j].id {
        if i == 0 {
          assert t[j] in s;
        }
      }
    } else {
      var u := Insert(e, s[1..]);
      InsertDistinct(e, s[1..]);
      var t := [s[0]] + u;
      forall j | 0 <= j < |u| ensures u[j].id != s[0].id {
        InsertTail(e, s, j);
        assert s[0] in s;
      }
      forall i, j | 0 <= i < j < |t| ensures t[i].id != t[j].id {
        if i == 0 {
          assert t[j] == u[j - 1];
        } else {
          assert t[i] == u[i - 1] && t[j] == u[j - 1];
        }
      }
    }
  }

  /** The ranking order the registry establishes: an insertion sort by Cmp,
      placing each record after every record it does not rank before. */
  function SortRank(s: seq<Jugador>): (r: seq<Jugador>)
    ensures |r| == |s|
  {
    if s == [] then []
    else
      InsertBasic(s[|s| - 1], SortRank(s[..|s| - 1]));
      Insert(s[|s| - 1], SortRank(s[..|s| - 1]))
  }

  /** The sort yields a sorted permutation of its input, and keeps player
      names distinct when they were. */
  lemma {:induction false} SortRankSpec(s: seq<Jugador>)
    ensures multiset(SortRank(s)) == multiset(s)
    ensures forall x :: x in SortRank(s) <==> x in s
    ensures Sorted(SortRank(s))
    ensures DistinctIds(s) ==> DistinctIds(SortRank(s))
  {
    if s != [] {
      var p := s[..|s| - 1];
      var e := s[|s| - 1];
      var t := SortRank(p);
      SortRankSpec(p);
      assert s == p + [e];
      assert DistinctIds(s) ==> forall x :: x in t ==> x.id != e.id;
      InsertBasic(e, t);
      InsertSorted(e, t);
      InsertDistinct(e, t);
    }
  }

  lemma {:induction false} InsertAtEnd(e: Jugador, s: seq<Jugador>)
    requires forall x :: x in s ==> !Cmp(e, x)
    ensures Insert(e, s) == s + [e]
  {
    if s != [] {
      assert s[0] in s;
      InsertAtEnd(e, s[1..]);
      assert s == [s[0]] + s[1..];
    }
  }

  /** Sorting an already sorted ranking leaves it as it is: the sort is
      stable. */
  lemma {:induction false} SortedFixed(s: seq<Jugador>)
    requires Sorted(s)
    ensures SortRank(s) == s
  {
    if s != [] {
      var p := s[..|s| - 1];
      var e := s[|s| - 1];
      assert Sorted(p);
      SortedFixed(p);
      forall x | x in p ensures !Cmp(e, x) {
        var k :| 0 <= k < |p| && p[k] == x;
      }
      InsertAtEnd(e, p);
      assert s == p + [e];
    }
  }

  /** Writes position i+1 into the record at index i. */
  function Renumber(s: seq<Jugador>): (r: seq<Jugador>)
    ensures |r| == |s|
    ensures forall i :: 0 <= i < |s| ==> r[i] == s[i].ModificarPosicion(i + 1)
  {
    seq(|s|, i requires 0 <= i < |s| => s[i].ModificarPosicion(i + 1))
  }

  /** The ranking after a refresh: sorted, then renumbered. */
  function Refresh(s: seq<Jugador>): (r: seq<Jugador>)
    ensures |r| == |s|
    ensures forall i :: 0 <= i < |r| ==> r[i].pos == i + 1
  {
    Renumber(SortRank(s))
  }

  /** A refreshed ranking is sorted, a permutation of the old one up to
      positions, and has position i+1 at index i. */
  lemma RefreshFacts(s: seq<Jugador>)
    ensures Sorted(Refresh(s))
    ensures |Refresh(s)| == |s|
    ensures forall i :: 0 <= i < |s| ==> Refresh(s)[i].pos == i + 1
    ensures forall i :: 0 <= i < |s| ==> Refresh(s)[i].(pos := SortRank(s)[i].pos) == SortRank(s)[i]
  {
    var t := SortRank(s);
    SortRankSpec(s);
    var r := Renumber(t);
    forall i, j | 0 <= i < j < |r| ensures !Cmp(r[j], r[i]) {
      assert !Cmp(t[j], t[i]);
    }
  }

  /** Refreshing twice is refreshing once. */
  lemma RefreshIdempotent(s: seq<Jugador>)
    ensures Refresh(Refresh(s)) == Refresh(s)
  {
    var r := Refresh(s);
    RefreshFacts(s);
    SortedFixed(r);
    assert Renumber(r) == r;
  }

  // ---------------------------------------------------------------------
  // The two views and what keeps them in step
  // ---------------------------------------------------------------------

  /** The map entry of the record at ranking index i names position i+1 and
      agrees with it on points; every map entry has a record in the ranking. */
  ghost predicate Synced(m: map<string, Jugador>, r: seq<Jugador>) {
    (forall i :: 0 <= i < |r| ==> r[i].id in m && m[r[i].id].pos == i + 1 && m[r[i].id].ptos == r[i].ptos) &&
    (forall k :: k in m ==> exists i :: 0 <= i < |r| && r[i].id == k)
  }

  /** So the position in a map entry is the 1-based index of its record. */
  lemma SyncedPos(m: map<string, Jugador>, r: seq<Jugador>, k: string)
    requires Synced(m, r) && k in m
    ensures 1 <= m[k].pos <= |r| && r[m[k].pos - 1].id == k
  {
    var i :| 0 <= i < |r| && r[i].id == k;
  }

  lemma SyncedDistinct(m: map<string, Jugador>, r: seq<Jugador>)
    requires Synced(m, r)
    ensures DistinctIds(r)
  {
    forall i, j | 0 <= i < j < |r| ensures r[i].id != r[j].id {
      assert m[r[i].id].pos == i + 1 && m[r[j].id].pos == j + 1;
    }
  }

  /** Replacing one player's map entry and its ranking copy keeps the views
      in step when position, points and name still agree. */
  lemma SyncedPoint(m: map<string, Jugador>, r: seq<Jugador>, k: string, mk: Jugador, rk: Jugador)
    requires Synced(m, r) && k in m
    requires mk.pos == m[k].pos && mk.ptos == rk.ptos && rk.id == k
    ensures 1 <= m[k].pos <= |r|
    ensures Synced(m[k := mk], r[m[k].pos - 1 := rk])
  {
    SyncedPos(m, r, k);
    SyncedDistinct(m, r);
    var p := m[k].pos - 1;
    var m', r' := m[k := mk], r[p := rk];
    forall kk | kk in m' ensures exists q :: 0 <= q < |r'| && r'[q].id == kk {
      var i :| 0 <= i < |r| && r[i].id == kk;
      assert r'[i].id == kk;
    }
  }

  /** Appending a new player at the last position keeps the views in step. */
  lemma SyncedAppend(m: map<string, Jugador>, r: seq<Jugador>, e: Jugador)
    requires Synced(m, r) && e.id !in m && e.pos == |r| + 1
    ensures Synced(m[e.id := e], r + [e])
  {
    var m', r' := m[e.id := e], r + [e];
    forall i | 0 <= i < |r'|
      ensures r'[i].id in m' && m'[r'[i].id].pos == i + 1 && m'[r'[i].id].ptos == r'[i].ptos
    {
      if i < |r| {
        assert r'[i] == r[i];
      }
    }
    forall kk | kk in m' ensures exists q :: 0 <= q < |r'| && r'[q].id == kk {
      if kk == e.id {
        assert r'[|r|].id == kk;
      } else {
        var q :| 0 <= q < |r| && r[q].id == kk;
        assert r'[q].id == kk;
      }
    }
  }

  /** `m2` differs from `m1` at most in statistics other than position and
      points. */
  ghost predicate SamePosPtos(m1: map<string, Jugador>, m2: map<string, Jugador>) {
    (forall k :: k in m1 <==> k in m2) &&
    (forall k :: k in m1 ==> m2[k].pos == m1[k].pos && m2[k].ptos == m1[k].ptos)
  }

  lemma SyncedFrame(m1: map<string, Jugador>, m2: map<string, Jugador>, r: seq<Jugador>)
    requires Synced(m1, r) && SamePosPtos(m1, m2)
    ensures Synced(m2, r)
  {
  }

  /** One set: `nw` wins it, `nl` loses it. */
  function CreditSet(m: map<string, Jugador>, nw: string, nl: string): (r: map<string, Jugador>)
    requires nw in m && nl in m
    ensures SamePosPtos(m, r)
  {
    var m1 := m[nw := m[nw].SumarSet()];
    m1[nl := m1[nl].RestarSet()]
  }

  /** One match: `nw` wins it, `nl` loses it. */
  function CreditMatch(m: map<string, Jugador>, nw: string, nl: string): (r: map<string, Jugador>)
    requires nw in m && nl in m
    ensures SamePosPtos(m, r)
  {
    var m1 := m[nw := m[nw].SumarPartido()];
    m1[nl := m1[nl].RestarPartido()]
  }

  /** Games: `na` won `x` and lost `y`; `nb` won `y` and lost `x`. */
  function CreditGames(m: map<string, Jugador>, na: string, nb: string, x: int, y: int): (r: map<string, Jugador>)
    requires na in m && nb in m
    ensures SamePosPtos(m, r)
  {
    var m1 := m[na := m[na].SumarJuegos(x).RestarJuegos(y)];
    m1[nb := m1[nb].SumarJuegos(y).RestarJuegos(x)]
  }

  /** What awarding points touches: the registry's two views, the category
      (whose lookup may insert a level) and the tournament's participants. */
  datatype Ledger = Ledger(players: map<string, Jugador>, ranking: seq<Jugador>, cat: Categoria, part: seq<Jugador>)

  /** Participant lists with the same names in the same slots. */
  ghost predicate SameIds(p: seq<Jugador>, q: seq<Jugador>) {
    |p| == |q| && forall i :: 0 <= i < |p| ==> p[i].id == q[i].id
  }

  /** Every registered player's position names an index of the ranking,
      which is what the point updates below need to be defined. */
  ghost predicate Placed(m: map<string, Jugador>, r: seq<Jugador>) {
    forall k :: k in m ==> 1 <= m[k].pos <= |r|
  }

  /** Statistics other than position and points do not move anyone. */
  lemma PlacedFrame(m1: map<string, Jugador>, m2: map<string, Jugador>, r: seq<Jugador>)
    requires Placed(m1, r) && SamePosPtos(m1, m2)
    ensures Placed(m2, r)
  {
  }

  lemma SyncedPlaced(m: map<string, Jugador>, r: seq<Jugador>)
    requires Synced(m, r)
    ensures Placed(m, r)
  {
    forall k | k in m ensures 1 <= m[k].pos <= |r| {
      SyncedPos(m, r, k);
    }
  }

  /** Adds `x` points to the registered player `id` in both views: its map
      entry and its ranking copy, found through the map's position. */
  function Credit(m: map<string, Jugador>, r: seq<Jugador>, id: string, x: int): (res: (map<string, Jugador>, seq<Jugador>))
    requires Placed(m, r) && id in m
    ensures Placed(res.0, res.1) && |res.1| == |r|
    ensures res.0.Keys == m.Keys
    ensures res.0[id] == m[id].SumPtos(x)
    ensures forall k :: k in m && k != id ==> res.0[k] == m[k]
    ensures res.1[m[id].pos - 1] == r[m[id].pos - 1].SumPtos(x)
    ensures forall q :: 0 <= q < |r| && q != m[id].pos - 1 ==> res.1[q] == r[q]
  {
    var i := m[id].pos;
    (m[id := m[id].SumPtos(x)], r[i - 1 := r[i - 1].SumPtos(x)])
  }

  /** Crediting keeps the two views in step. */
  lemma CreditSynced(m: map<string, Jugador>, r: seq<Jugador>, id: string, x: int)
    requires Synced(m, r) && id in m
    ensures Placed(m, r) && Synced(Credit(m, r, id, x).0, Credit(m, r, id, x).1)
  {
    SyncedPlaced(m, r);
    SyncedPos(m, r, id);
    var i := m[id].pos;
    SyncedPoint(m, r, id, m[id].SumPtos(x), r[i - 1].SumPtos(x));
    assert Credit(m, r, id, x) == (m[id := m[id].SumPtos(x)], r[i - 1 := r[i - 1].SumPtos(x)]);
  }

  /** Awards the points of level `nivel` to participant `s`: its map entry,
      its ranking record (at the position its map entry gives) and its
      participant copy each gain them; nothing else in the three changes. */
  function Award(g: Ledger, s: int, nivel: int): (r: Ledger)
    requires Placed(g.players, g.ranking)
    requires 1 <= s <= |g.part| && g.part[s - 1].id in g.players
    ensures Placed(r.players, r.ranking) && |r.ranking| == |g.ranking|
    ensures r.players.Keys == g.players.Keys
    ensures SameIds(r.part, g.part)
    ensures forall l :: Points(r.cat, l) == Points(g.cat, l)
    ensures var nom := g.part[s - 1].id;
            r.players == g.players[nom := g.players[nom].SumPtos(Points(g.cat, nivel))]
    ensures r.part == g.part[s - 1 := g.part[s - 1].SumPtos(Points(g.cat, nivel))]
    ensures var i := g.players[g.part[s - 1].id].pos;
            r.ranking == g.ranking[i - 1 := g.ranking[i - 1].SumPtos(Points(g.cat, nivel))]
  {
    var c := ConsultarPuntos(g.cat, nivel);
    var nom := g.part[s - 1].id;
    var v := Credit(g.players, g.ranking, nom, c.0);
    Ledger(v.0, v.1, c.1, g.part[s - 1 := g.part[s - 1].SumPtos(c.0)])
  }

  /** Awarding keeps the registry's two views in step. */
  lemma AwardSynced(g: Ledger, s: int, nivel: int)
    requires Synced(g.players, g.ranking)
    requires 1 <= s <= |g.part| && g.part[s - 1].id in g.players
    ensures Placed(g.players, g.ranking)
    ensures Synced(Award(g, s, nivel).players, Award(g, s, nivel).ranking)
  {
    CreditSynced(g.players, g.ranking, g.part[s - 1].id, Points(g.cat, nivel));
  }

  /** Subtracts `pt` points, clamped at 0, from the registered player `id`
      in both views; an unknown name changes nothing. */
  function Deduct(m: map<string, Jugador>, r: seq<Jugador>, id: string, pt: int): (res: (map<string, Jugador>, seq<Jugador>))
    requires Placed(m, r)
    ensures Placed(res.0, res.1) && |res.1| == |r|
    ensures res.0.Keys == m.Keys
    ensures id !in m ==> res == (m, r)
    ensures id in m ==> res.0[id] == m[id].Rest(pt)
    ensures forall k :: k in m && k != id ==> res.0[k] == m[k]
  {
    if id in m then
      var i := m[id].pos;
      (m[id := m[id].Rest(pt)], r[i - 1 := r[i - 1].Rest(pt)])
    else (m, r)
  }

  /** Deducting keeps the two views in step. */
  lemma DeductSynced(m: map<string, Jugador>, r: seq<Jugador>, id: string, pt: int)
    requires Synced(m, r)
    ensures Placed(m, r) && Synced(Deduct(m, r, id, pt).0, Deduct(m, r, id, pt).1)
  {
    SyncedPlaced(m, r);
    if id in m {
      DeductAt(m, r, id, pt);
    }
  }

  /** Deducting from a registered player rewrites its map entry and its
      ranking record, and keeps the two views in step. */
  lemma DeductAt(m: map<string, Jugador>, r: seq<Jugador>, id: string, pt: int)
    requires Synced(m, r) && id in m
    ensures Placed(m, r)
    ensures Deduct(m, r, id, pt).0 == m[id := m[id].Rest(pt)]
    ensures Deduct(m, r, id, pt).1 == r[m[id].pos - 1 := r[m[id].pos - 1].Rest(pt)]
    ensures Synced(m[id := m[id].Rest(pt)], r[m[id].pos - 1 := r[m[id].pos - 1].Rest(pt)])
  {
    SyncedPlaced(m, r);
    SyncedPos(m, r, id);
    var i := m[id].pos;
    SyncedPoint(m, r, id, m[id].Rest(pt), r[i - 1].Rest(pt));
  }

  /** Player `id` left ranking `r0` at index k = its position - 1: the new
      ranking is `r0` without index k, the new map lacks `id`, every player
      ahead of k keeps its entry and every player behind k has its map entry
      moved one place up. */
  ghost predicate Removed(m0: map<string, Jugador>, r0: seq<Jugador>, id: string,
                          m1: map<string, Jugador>, r1: seq<Jugador>) {
    id in m0 &&
    var k := m0[id].pos - 1;
    0 <= k < |r0| && r1 == r0[..k] + r0[k + 1..] && m1.Keys == m0.Keys - {id} &&
    (forall p :: 0 <= p < k ==> r0[p].id in m1 && m1[r0[p].id] == m0[r0[p].id]) &&
    (forall p :: k < p < |r0| ==> r0[p].id in m1 && m1[r0[p].id] == m0[r0[p].id].ModificarPosicion(p))
  }

  /** The ranking `r1` is `r0` refreshed, and the map entry of the player at
      index i of it is the old entry with position i+1. */
  ghost predicate Refreshed(m0: map<string, Jugador>, r0: seq<Jugador>,
                            m1: map<string, Jugador>, r1: seq<Jugador>) {
    r1 == Refresh(r0) && Repositioned(m0, m1, r1)
  }

  /** The map `m1` is `m0` with the entry of the player at index i of `r1`
      given position i+1, which `r1` itself records. */
  ghost predicate Repositioned(m0: map<string, Jugador>, m1: map<string, Jugador>, r1: seq<Jugador>) {
    m1.Keys == m0.Keys &&
    forall i :: 0 <= i < |r1| ==>
      r1[i].id in m0 && m1[r1[i].id] == m0[r1[i].id].ModificarPosicion(i + 1) && r1[i].pos == i + 1
  }

  // ---------------------------------------------------------------------
  // The registry object
  // ---------------------------------------------------------------------

  class ConjuntoJugadores {
    var mapJug: map<string, Jugador>
    var rank: seq<Jugador>
    var njug: int

    ghost predicate Valid()
      reads this
    {
      Synced(mapJug, rank) && njug == |rank|
    }

    constructor ()
      ensures Valid()
      ensures mapJug == map[] && rank == [] && njug == 0
    {
      mapJug := map[];
      rank := [];
      njug := 0;
    }

    /** No players, with the counter preset to `p`, the number of players
        about to be read in. */
    constructor Inicializado(p: int)
      ensures mapJug == map[] && rank == [] && njug == p
    {
      mapJug := map[];
      rank := [];
      njug := p;
    }

    /** Registers a new player with zero statistics at the last position. */
    method NuevoJugador(id: string)
      requires Valid() && id !in mapJug
      modifies this
      ensures Valid()
      ensures njug == old(njug) + 1
      ensures mapJug == old(mapJug)[id := Ranked(id, njug)]
      ensures rank == old(rank) + [Ranked(id, njug)]
    {
      njug := njug + 1;
      var jug := Ranked(id, njug);
      SyncedAppend(mapJug, rank, jug);
      mapJug := mapJug[id := jug];
      rank := rank + [jug];
    }

    /** Exchanges the records at indices x and y of a ranking. */
    static method Swap(r: seq<Jugador>, x: int, y: int) returns (s: seq<Jugador>)
      requires 0 <= x < |r| && 0 <= y < |r|
      ensures |s| == |r| && s[x] == r[y] && s[y] == r[x]
      ensures forall q :: 0 <= q < |r| && q != x && q != y ==> s[q] == r[q]
    {
      s := r;
      var aux := s[y];
      s := s[y := s[x]];
      s := s[x := aux];
    }

    /** Removes player `id`: the player is bubbled to the end of the ranking
        and dropped; every player behind it moves up one place, and the map
        entries (not the ranking copies) get their new position. */
    method BajaJugador(id: string)
      requires Valid() && id in mapJug
      modifies this
      ensures Valid()
      ensures njug == old(njug) - 1
      ensures Removed(old(mapJug), old(rank), id, mapJug, rank)
    {
      var r, m := Unrank(rank, mapJug, id);
      njug, mapJug, rank := njug - 1, m, r;
    }

    /** The map without `id`, and the ranking after the search loop and the
        final pop. */
    static method Unrank(r0: seq<Jugador>, m0: map<string, Jugador>, id: string)
      returns (r: seq<Jugador>, m: map<string, Jugador>)
      requires Synced(m0, r0) && id in m0
      ensures |r| == |r0| - 1
      ensures Synced(m, r) && Removed(m0, r0, id, m, r)
    {
      SyncedPos(m0, r0, id);
      ghost var k := m0[id].pos - 1;
      RemovalStart(m0, r0, id, k);
      var r1, m1 := Sink(r0, m0 - {id}, id, k);
      RemovalFacts(m0, r0, id, k);
      m := m1;
      r := r1[..|r1| - 1];
    }

    /** The search loop of BajaJugador: finds `id` in the ranking at index
        k and swaps it step by step to the end, giving each player it passes
        its new position in the map. */
    static method Sink(r0: seq<Jugador>, m1: map<string, Jugador>, id: string, ghost k: int)
      returns (r: seq<Jugador>, m: map<string, Jugador>)
      requires 0 <= k < |r0| && r0[k].id == id
      requires forall p :: 0 <= p < |r0| && r0[p].id == id ==> p == k
      requires forall p :: k < p < |r0| ==> r0[p].id in m1
      ensures r == Bubbled(r0, k, |r0| - 1) && m == ShiftMap(m1, r0, k, |r0| - 1)
    {
      r, m := r0, m1;
      var n := |r|;
      var i := 0;
      var trobat := false;
      while i < n - 1 && !trobat
        invariant 0 <= i <= n
        invariant !trobat ==> i <= k && r == r0 && m == m1
        invariant trobat ==> r == Bubbled(r0, k, n - 1) && m == ShiftMap(m1, r0, k, n - 1)
      {
        if r[i].id == id {
          trobat := true;
          r, m := SwapToEnd(r0, m1, i);
        }
        i := i + 1;
      }
      if !trobat {
        BubbledEnds(r0, k);
      }
    }

    /** The inner loop of BajaJugador: swaps the record at index k step by
        step to the end, giving each record it passes its new position in the
        map. */
    static method SwapToEnd(r0: seq<Jugador>, m1: map<string, Jugador>, k: int)
      returns (r: seq<Jugador>, m: map<string, Jugador>)
      requires 0 <= k < |r0|
      requires forall p :: k < p < |r0| ==> r0[p].id in m1
      ensures r == Bubbled(r0, k, |r0| - 1) && m == ShiftMap(m1, r0, k, |r0| - 1)
    {
      r, m := r0, m1;
      BubbledEnds(r0, k);
      for j := k to |r0| - 1
        invariant r == Bubbled(r0, k, j) && m == ShiftMap(m1, r0, k, j)
      {
        ShiftStep(m1, r0, k, j);
        r := Swap(r, j, j + 1);
        BubbleStep(r0, k, j, r);
        var x := r[j].id;
        m := m[x := m[x].ModificarPosicion(j + 1)];
      }
    }

    /** Sorts the ranking by Cmp and renumbers both views: afterwards the
        record at index i, and its map entry, say position i+1. */
    method ActualizarRanking()
      requires Valid()
      modifies this
      ensures Valid()
      ensures njug == old(njug)
      ensures Refreshed(old(mapJug), old(rank), mapJug, rank)
    {
      var r, m := Rerank(rank, mapJug);
      mapJug, rank := m, r;
    }

    /** The body of ActualizarRanking on the two views: sort, then renumber. */
    static method Rerank(r0: seq<Jugador>, m0: map<string, Jugador>)
      returns (r: seq<Jugador>, m: map<string, Jugador>)
      requires Synced(m0, r0)
      ensures |r| == |r0|
      ensures Synced(m, r) && Refreshed(m0, r0, m, r)
    {
      var s := SortRank(r0);
      SortedIdsIn(m0, r0);
      r, m := RenumberFrom(s, m0);
      RefreshViews(m0, r0);
    }

    /** The loop of ActualizarRanking over the sorted ranking `s`: the record
        at index i, and its map entry, get position i+1. */
    static method RenumberFrom(s: seq<Jugador>, m0: map<string, Jugador>)
      returns (r: seq<Jugador>, m: map<string, Jugador>)
      requires forall q :: 0 <= q < |s| ==> s[q].id in m0
      ensures r == RenumberPrefix(s, |s|) && m == RenumberMap(m0, s, |s|)
    {
      r, m := s, m0;
      assert r == RenumberPrefix(s, 0);
      var i := 0;
      while i < |r|
        invariant 0 <= i <= |r| == |s|
        invariant r == RenumberPrefix(s, i)
        invariant m == RenumberMap(m0, s, i)
      {
        var x := r[i].id;
        RenumberStep(m0, s, i);
        m := m[x := m[x].ModificarPosicion(i + 1)];
        r := r[i := r[i].ModificarPosicion(i + 1)];
        i := i + 1;
      }
    }

    /** Player `a` won `x` games and lost `y`; player `b` the reverse. */
    method SumarRestarJuegos(a: int, b: int, x: int, y: int, part: seq<Jugador>)
      requires Valid()
      requires 1 <= a <= |part| && 1 <= b <= |part|
      requires part[a - 1].id in mapJug && part[b - 1].id in mapJug
      modifies this
      ensures Valid() && rank == old(rank) && njug == old(njug)
      ensures mapJug == CreditGames(old(mapJug), part[a - 1].id, part[b - 1].id, x, y)
    {
      var m := mapJug;
      var na, nb := part[a - 1].id, part[b - 1].id;
      m := m[na := m[na].SumarJuegos(x).RestarJuegos(y)];
      m := m[nb := m[nb].SumarJuegos(y).RestarJuegos(x)];
      SyncedFrame(mapJug, m, rank);
      mapJug := m;
    }

    /** Player `a` won a set that player `b` lost. */
    method SumarRestarSet(a: int, b: int, part: seq<Jugador>)
      requires Valid()
      requires 1 <= a <= |part| && 1 <= b <= |part|
      requires part[a - 1].id in mapJug && part[b - 1].id in mapJug
      modifies this
      ensures Valid() && rank == old(rank) && njug == old(njug)
      ensures mapJug == CreditSet(old(mapJug), part[a - 1].id, part[b - 1].id)
    {
      var m := mapJug;
      var nom := part[a - 1].id;
      m := m[nom := m[nom].SumarSet()];
      nom := part[b - 1].id;
      m := m[nom := m[nom].RestarSet()];
      SyncedFrame(mapJug, m, rank);
      mapJug := m;
    }

    /** Player `a` won a match that player `b` lost. */
    method SumarRestarPartido(a: int, b: int, part: seq<Jugador>)
      requires Valid()
      requires 1 <= a <= |part| && 1 <= b <= |part|
      requires part[a - 1].id in mapJug && part[b - 1].id in mapJug
      modifies this
      ensures Valid() && rank == old(rank) && njug == old(njug)
      ensures mapJug == CreditMatch(old(mapJug), part[a - 1].id, part[b - 1].id)
    {
      var m := mapJug;
      var nom := part[a - 1].id;
      m := m[nom := m[nom].SumarPartido()];
      nom := part[b - 1].id;
      m := m[nom := m[nom].RestarPartido()];
      SyncedFrame(mapJug, m, rank);
      mapJug := m;
    }

    /** Awards participant `a` the points of level `nivel` of `cat`, in the
        map, in the ranking copy at the map's position, and in the
        participant copy. */
    method SumarPuntos(cat: Categoria, nivel: int, a: int, part: seq<Jugador>)
      returns (cat': Categoria, part': seq<Jugador>)
      requires Valid()
      requires 1 <= a <= |part| && part[a - 1].id in mapJug
      modifies this
      ensures Valid() && njug == old(njug) && Placed(old(mapJug), old(rank))
      ensures Ledger(mapJug, rank, cat', part') == Award(Ledger(old(mapJug), old(rank), cat, part), a, nivel)
    {
      SyncedPlaced(mapJug, rank);
      var x;
      x, cat' := ConsultarPuntos(cat, nivel).0, ConsultarPuntos(cat, nivel).1;
      var nom := part[a - 1].id;
      SyncedPos(mapJug, rank, nom);
      var i := mapJug[nom].pos;
      SyncedPoint(mapJug, rank, nom, mapJug[nom].SumPtos(x), rank[i - 1].SumPtos(x));
      var r := rank[i - 1 := rank[i - 1].SumPtos(x)];
      var m := mapJug[nom := mapJug[nom].SumPtos(x)];
      part' := part[a - 1 := part[a - 1].SumPtos(x)];
      rank, mapJug := r, m;
    }

    /** Subtracts `pt` points, clamped at 0, from player `id` in both views,
        when `id` is registered. */
    method Restar(id: string, pt: int)
      requires Valid()
      modifies this
      ensures Valid() && njug == old(njug) && Placed(old(mapJug), old(rank))
      ensures mapJug == Deduct(old(mapJug), old(rank), id, pt).0
      ensures rank == Deduct(old(mapJug), old(rank), id, pt).1
    {
      SyncedPlaced(mapJug, rank);
      if id in mapJug {
        DeductAt(mapJug, rank, id, pt);
        var i := mapJug[id].pos;
        mapJug, rank := mapJug[id := mapJug[id].Rest(pt)], rank[i - 1 := rank[i - 1].Rest(pt)];
      }
    }

    method ExisteJugador(id: string) returns (b: bool)
      ensures b <==> id in mapJug
    {
      b := id in mapJug;
    }

    /** The record at ranking position `x` (1-based). */
    method ConsultarJugadorRank(x: int) returns (j: Jugador)
      requires Valid() && 1 <= x <= njug
      ensures j == rank[x - 1]
      ensures j.id in mapJug && mapJug[j.id].pos == x
    {
      j := rank[x - 1];
    }
  }

  /** The ranking while player k is bubbled towards the end: it has
      reached index j, and the records at k+1..j have moved up one place. */
  function Bubbled(r: seq<Jugador>, k: int, j: int): (b: seq<Jugador>)
    requires 0 <= k <= j < |r|
    ensures |b| == |r|
  {
    seq(|r|, q requires 0 <= q < |r| => if q < k || j < q then r[q] else if q < j then r[q + 1] else r[k])
  }

  /** Swapping indices j and j+1 of the ranking moves player k one step on. */
  lemma BubbleStep(r: seq<Jugador>, k: int, j: int, s: seq<Jugador>)
    requires 0 <= k <= j < |r| - 1
    requires |s| == |r| && s[j] == Bubbled(r, k, j)[j + 1] && s[j + 1] == Bubbled(r, k, j)[j]
    requires forall q :: 0 <= q < |r| && q != j && q != j + 1 ==> s[q] == Bubbled(r, k, j)[q]
    ensures s == Bubbled(r, k, j + 1)
  {
  }

  /** The map once the players at ranking indices k+1..j have each been
      given position p, one place up. */
  function ShiftMap(m: map<string, Jugador>, r: seq<Jugador>, k: int, j: int): (res: map<string, Jugador>)
    requires 0 <= k <= j < |r|
    requires forall p :: k < p <= j ==> r[p].id in m
    ensures res.Keys == m.Keys
    decreases j - k
  {
    if j == k then m
    else
      var m' := ShiftMap(m, r, k, j - 1);
      m'[r[j].id := m'[r[j].id].ModificarPosicion(j)]
  }

  lemma {:induction false} ShiftMapAt(m: map<string, Jugador>, r: seq<Jugador>, k: int, j: int)
    requires 0 <= k <= j < |r|
    requires forall p :: k < p <= j ==> r[p].id in m
    requires forall p :: 0 <= p < |r| && r[p].id in m ==> m[r[p].id].pos == p + 1
    ensures forall p :: k < p <= j ==> ShiftMap(m, r, k, j)[r[p].id] == m[r[p].id].ModificarPosicion(p)
    ensures forall p :: 0 <= p < |r| && (p <= k || j < p) && r[p].id in m ==> ShiftMap(m, r, k, j)[r[p].id] == m[r[p].id]
    decreases j - k
  {
    if j > k {
      ShiftMapAt(m, r, k, j - 1);
    }
  }

  lemma ShiftStep(m: map<string, Jugador>, r: seq<Jugador>, k: int, j: int)
    requires 0 <= k <= j < |r| - 1
    requires forall p :: k < p < |r| ==> r[p].id in m
    ensures Bubbled(r, k, j + 1)[j].id == r[j + 1].id
    ensures var mm := ShiftMap(m, r, k, j);
            mm[r[j + 1].id := mm[r[j + 1].id].ModificarPosicion(j + 1)] == ShiftMap(m, r, k, j + 1)
  {
  }

  lemma BubbledEnds(r: seq<Jugador>, k: int)
    requires 0 <= k < |r|
    ensures Bubbled(r, k, k) == r
    ensures Bubbled(r, k, |r| - 1)[..|r| - 1] == r[..k] + r[k + 1..]
  {
  }

  /** Dropping ranking index k and moving every player behind it one place
      up in the map keeps the two views in step. */
  lemma SyncedRemoval(m0: map<string, Jugador>, r0: seq<Jugador>, k: int, m2: map<string, Jugador>)
    requires Synced(m0, r0) && 0 <= k < |r0|
    requires m2.Keys == m0.Keys - {r0[k].id}
    requires forall p :: 0 <= p < |r0| && p != k ==>
               r0[p].id in m2 && m2[r0[p].id].pos == (if p < k then p + 1 else p) &&
               m2[r0[p].id].ptos == r0[p].ptos
    ensures Synced(m2, r0[..k] + r0[k + 1..])
  {
    RemovalEntries(r0, k, m2);
    RemovalCovers(m0, r0, k, m2);
  }

  lemma RemovalEntries(r0: seq<Jugador>, k: int, m2: map<string, Jugador>)
    requires 0 <= k < |r0|
    requires forall p :: 0 <= p < |r0| && p != k ==>
               r0[p].id in m2 && m2[r0[p].id].pos == (if p < k then p + 1 else p) &&
               m2[r0[p].id].ptos == r0[p].ptos
    ensures var r1 := r0[..k] + r0[k + 1..];
            forall q :: 0 <= q < |r1| ==> r1[q].id in m2 && m2[r1[q].id].pos == q + 1 && m2[r1[q].id].ptos == r1[q].ptos
  {
    var r1 := r0[..k] + r0[k + 1..];
    forall q | 0 <= q < |r1|
      ensures r1[q].id in m2 && m2[r1[q].id].pos == q + 1 && m2[r1[q].id].ptos == r1[q].ptos
    {
      var p := if q < k then q else q + 1;
      assert r1[q] == r0[p];
    }
  }

  lemma RemovalCovers(m0: map<string, Jugador>, r0: seq<Jugador>, k: int, m2: map<string, Jugador>)
    requires Synced(m0, r0) && 0 <= k < |r0|
    requires m2.Keys == m0.Keys - {r0[k].id}
    ensures var r1 := r0[..k] + r0[k + 1..];
            forall kk :: kk in m2 ==> exists q :: 0 <= q < |r1| && r1[q].id == kk
  {
    var r1 := r0[..k] + r0[k + 1..];
    forall kk | kk in m2 ensures exists q :: 0 <= q < |r1| && r1[q].id == kk {
      var p :| 0 <= p < |r0| && r0[p].id == kk;
      if p < k {
        assert r1[p] == r0[p];
      } else {
        assert r1[p - 1] == r0[p];
      }
    }
  }

  lemma RemovalStart(m0: map<string, Jugador>, r0: seq<Jugador>, id: string, k: int)
    requires Synced(m0, r0) && id in m0 && k == m0[id].pos - 1
    ensures 0 <= k < |r0| && r0[k].id == id && Bubbled(r0, k, k) == r0
    ensures forall p :: k < p < |r0| ==> r0[p].id in m0 - {id}
    ensures forall p :: 0 <= p < |r0| && r0[p].id == id ==> p == k
  {
    SyncedPos(m0, r0, id);
    SyncedDistinct(m0, r0);
    BubbledEnds(r0, k);
  }

  /** What removing player `id`, at ranking index k, leaves: the ranking
      without index k and the map without `id`, the players behind k one
      place up, and the two views still in step. */
  lemma RemovedShift(m0: map<string, Jugador>, r0: seq<Jugador>, id: string, k: int)
    requires 0 <= k < |r0| && id in m0 && m0[id].pos == k + 1 && r0[k].id == id
    requires forall p :: 0 <= p < |r0| && p != k ==>
               r0[p].id in m0 && r0[p].id != id && m0[r0[p].id].pos == p + 1
    ensures forall p :: k < p < |r0| ==> r0[p].id in m0 - {id}
    ensures Removed(m0, r0, id, ShiftMap(m0 - {id}, r0, k, |r0| - 1), Bubbled(r0, k, |r0| - 1)[..|r0| - 1])
  {
    var m1 := m0 - {id};
    assert m1.Keys == m0.Keys - {id};
    var m2 := ShiftMap(m1, r0, k, |r0| - 1);
    BubbledEnds(r0, k);
    forall p | 0 <= p < |r0| && r0[p].id in m1 ensures m1[r0[p].id].pos == p + 1 {
    }
    ShiftMapAt(m1, r0, k, |r0| - 1);
    forall p | 0 <= p < k ensures r0[p].id in m2 && m2[r0[p].id] == m0[r0[p].id] {
      assert r0[p].id in m1;
    }
    forall p | k < p < |r0| ensures r0[p].id in m2 && m2[r0[p].id] == m0[r0[p].id].ModificarPosicion(p) {
      assert r0[p].id in m1 && m1[r0[p].id] == m0[r0[p].id];
    }
  }

  lemma RemovalFacts(m0: map<string, Jugador>, r0: seq<Jugador>, id: string, k: int)
    requires Synced(m0, r0) && id in m0 && k == m0[id].pos - 1
    requires 0 <= k < |r0| && forall p :: k < p < |r0| ==> r0[p].id in m0 - {id}
    ensures var m2, r2 := ShiftMap(m0 - {id}, r0, k, |r0| - 1), Bubbled(r0, k, |r0| - 1)[..|r0| - 1];
            Synced(m2, r2) && Removed(m0, r0, id, m2, r2)
  {
    RemovedShift(m0, r0, id, k);
    var m2 := ShiftMap(m0 - {id}, r0, k, |r0| - 1);
    forall p | 0 <= p < |r0| && p != k
      ensures r0[p].id in m2 && m2[r0[p].id].pos == (if p < k then p + 1 else p) && m2[r0[p].id].ptos == r0[p].ptos
    {
    }
    SyncedRemoval(m0, r0, k, m2);
  }

  /** The ranking while it is renumbered: indices below i already hold
      position i+1. */
  function RenumberPrefix(s: seq<Jugador>, i: int): (r: seq<Jugador>)
    requires 0 <= i <= |s|
    ensures |r| == |s|
  {
    seq(|s|, q requires 0 <= q < |s| => if q < i then s[q].ModificarPosicion(q + 1) else s[q])
  }

  /** The map once the players at ranking indices below i have been given
      position index+1. */
  function RenumberMap(m: map<string, Jugador>, s: seq<Jugador>, i: int): (res: map<string, Jugador>)
    requires 0 <= i <= |s|
    requires forall q :: 0 <= q < |s| ==> s[q].id in m
    ensures res.Keys == m.Keys
  {
    if i == 0 then m
    else
      var m' := RenumberMap(m, s, i - 1);
      m'[s[i - 1].id := m'[s[i - 1].id].ModificarPosicion(i)]
  }

  lemma {:induction false} RenumberMapAt(m: map<string, Jugador>, s: seq<Jugador>, i: int)
    requires 0 <= i <= |s|
    requires forall q :: 0 <= q < |s| ==> s[q].id in m
    requires DistinctIds(s)
    ensures forall q :: 0 <= q < i ==> RenumberMap(m, s, i)[s[q].id] == m[s[q].id].ModificarPosicion(q + 1)
    ensures forall q :: i <= q < |s| ==> RenumberMap(m, s, i)[s[q].id] == m[s[q].id]
  {
    if i > 0 {
      RenumberMapAt(m, s, i - 1);
    }
  }

  /** What a refresh of the ranking `r0` leaves: the renumbered sorted
      ranking, every map entry renumbered to match, and the views in step. */
  lemma SortedIdsIn(m0: map<string, Jugador>, r0: seq<Jugador>)
    requires Synced(m0, r0)
    ensures var s := SortRank(r0);
            (forall q :: 0 <= q < |s| ==> s[q].id in m0) && RenumberPrefix(s, 0) == s
  {
    var s := SortRank(r0);
    SortRankSpec(r0);
    forall q | 0 <= q < |s| ensures s[q].id in m0 {
      assert s[q] in r0;
    }
  }

  lemma RenumberStep(m: map<string, Jugador>, s: seq<Jugador>, i: int)
    requires 0 <= i < |s|
    requires forall q :: 0 <= q < |s| ==> s[q].id in m
    ensures RenumberPrefix(s, i)[i].id == s[i].id
    ensures RenumberPrefix(s, i)[i := RenumberPrefix(s, i)[i].ModificarPosicion(i + 1)] == RenumberPrefix(s, i + 1)
    ensures var mm := RenumberMap(m, s, i);
            mm[s[i].id := mm[s[i].id].ModificarPosicion(i + 1)] == RenumberMap(m, s, i + 1)
  {
  }

  /** What a refresh of the ranking `r0` leaves: the renumbered sorted
      ranking, every map entry renumbered to match, and the views in step. */
  lemma RefreshViews(m0: map<string, Jugador>, r0: seq<Jugador>)
    requires Synced(m0, r0)
    requires forall q :: 0 <= q < |SortRank(r0)| ==> SortRank(r0)[q].id in m0
    ensures var s := SortRank(r0);
            var m2, r2 := RenumberMap(m0, s, |s|), RenumberPrefix(s, |s|);
            Synced(m2, r2) && Refreshed(m0, r0, m2, r2)
  {
    var s := SortRank(r0);
    SortedViewFacts(m0, r0, s);
    RenumberedViews(m0, s);
  }

  /** Renumbering a ranking `s` whose ids are distinct and are exactly the
      keys of `m0` leaves the two views in step. */
  lemma RenumberedViews(m0: map<string, Jugador>, s: seq<Jugador>)
    requires DistinctIds(s)
    requires forall q :: 0 <= q < |s| ==> s[q].id in m0 && m0[s[q].id].ptos == s[q].ptos
    requires forall kk :: kk in m0 ==> exists q :: 0 <= q < |s| && s[q].id == kk
    ensures var m2, r2 := RenumberMap(m0, s, |s|), RenumberPrefix(s, |s|);
            r2 == Renumber(s) && Synced(m2, r2) && Repositioned(m0, m2, r2)
  {
    RenumberedEntries(m0, s);
    var r1 := Renumber(s);
    var m2 := RenumberMap(m0, s, |s|);
    forall kk | kk in m2 ensures exists q :: 0 <= q < |r1| && r1[q].id == kk {
      var q :| 0 <= q < |s| && s[q].id == kk;
      assert r1[q].id == kk;
    }
  }

  lemma RenumberedEntries(m0: map<string, Jugador>, s: seq<Jugador>)
    requires DistinctIds(s)
    requires forall q :: 0 <= q < |s| ==> s[q].id in m0 && m0[s[q].id].ptos == s[q].ptos
    ensures var m2, r2 := RenumberMap(m0, s, |s|), RenumberPrefix(s, |s|);
            r2 == Renumber(s) && Repositioned(m0, m2, r2) &&
            forall i :: 0 <= i < |r2| ==> r2[i].id in m2 && m2[r2[i].id].pos == i + 1 && m2[r2[i].id].ptos == r2[i].ptos
  {
    RenumberMapAt(m0, s, |s|);
    var r1 := Renumber(s);
    assert RenumberPrefix(s, |s|) == r1;
    var m2 := RenumberMap(m0, s, |s|);
    forall i | 0 <= i < |r1|
      ensures r1[i].id in m2 && m2[r1[i].id].pos == i + 1 && m2[r1[i].id].ptos == r1[i].ptos
      ensures m2[r1[i].id] == m0[r1[i].id].ModificarPosicion(i + 1) && r1[i].pos == i + 1
    {
      assert r1[i].id == s[i].id;
    }
  }

  lemma SortedViewFacts(m0: map<string, Jugador>, r0: seq<Jugador>, s: seq<Jugador>)
    requires Synced(m0, r0)
    requires s == SortRank(r0)
    ensures DistinctIds(s)
    ensures forall q :: 0 <= q < |s| ==> s[q].id in m0 && m0[s[q].id].ptos == s[q].ptos
    ensures forall kk :: kk in m0 ==> exists q :: 0 <= q < |s| && s[q].id == kk
  {
    SyncedDistinct(m0, r0);
    SortRankSpec(r0);
    SortedEntries(m0, r0, s);
    SortedCovers(m0, r0, s);
  }

  lemma SortedEntries(m0: map<string, Jugador>, r0: seq<Jugador>, s: seq<Jugador>)
    requires Synced(m0, r0)
    requires forall x :: x in s ==> x in r0
    ensures forall q :: 0 <= q < |s| ==> s[q].id in m0 && m0[s[q].id].ptos == s[q].ptos
  {
    forall q | 0 <= q < |s| ensures s[q].id in m0 && m0[s[q].id].ptos == s[q].ptos {
      assert s[q] in s;
      var p :| 0 <= p < |r0| && r0[p] == s[q];
    }
  }

  lemma SortedCovers(m0: map<string, Jugador>, r0: seq<Jugador>, s: seq<Jugador>)
    requires Synced(m0, r0)
    requires forall x :: x in r0 ==> x in s
    ensures forall kk :: kk in m0 ==> exists q :: 0 <= q < |s| && s[q].id == kk
  {
    forall kk | kk in m0 ensures exists q :: 0 <= q < |s| && s[q].id == kk {
      SyncedPos(m0, r0, kk);
      var p := m0[kk].pos - 1;
      assert r0[p] in r0;
      var q :| 0 <= q < |s| && s[q] == r0[p];
    }
  }
}
