/**
 * A category (Categoria): an identifier, a display name and the points it
 * awards per level of a tournament. Like a player record it is a value that
 * every tournament of the category holds a copy of.
 */
module Categories {

  datatype Categoria = Categoria(id: int, name: string, ptosPorNivel: map<int, int>)

  /** The default constructor: identifier 0, no name, no points. */
  function Blank(): (c: Categoria)
    ensures c.id == 0 && c.name == "" && c.ptosPorNivel == map[]
  {
    Categoria(0, "", map[])
  }

  /** The constructor from a name: identifier 0. */
  function Named(name: string): (c: Categoria)
    ensures c.id == 0 && c.name == name && c.ptosPorNivel == map[]
  {
    Categoria(0, name, map[])
  }

  /** The constructor from a name and an identifier. */
  function Numbered(name: string, x: int): (c: Categoria)
    ensures c.id == x && c.name == name && c.ptosPorNivel == map[]
  {
    Categoria(x, name, map[])
  }

  /** The points a lookup by level yields: the stored value, or 0 for a
      level that was never set (the value a map subscript default-inserts). */
  function Points(c: Categoria, nivel: int): int {
    if nivel in c.ptosPorNivel then c.ptosPorNivel[nivel] else 0
  }

  /** The lookup as the category performs it: a subscript that inserts the
      level with 0 points when it is missing. The insertion changes no answer
      any later lookup gives. */
  function ConsultarPuntos(c: Categoria, nivel: int): (r: (int, Categoria))
    ensures nivel in c.ptosPorNivel ==> r.0 == c.ptosPorNivel[nivel]
    ensures nivel !in c.ptosPorNivel ==> r.0 == 0
    ensures r.1.id == c.id && r.1.name == c.name
    ensures r.1.ptosPorNivel.Keys == c.ptosPorNivel.Keys + {nivel}
    ensures forall l :: Points(r.1, l) == Points(c, l)
  {
    if nivel in c.ptosPorNivel then (c.ptosPorNivel[nivel], c)
    else (0, c.(ptosPorNivel := c.ptosPorNivel[nivel := 0]))
  }

  /** Assigns `vals[i-1]` to each level i in 1..|vals|, in order. The map is
      filled by insertion, so a level already present keeps its first value. */
  method AsignarPuntos(c: Categoria, vals: seq<int>) returns (r: Categoria)
    ensures r.id == c.id && r.name == c.name
    ensures forall l :: l in r.ptosPorNivel <==> l in c.ptosPorNivel || 1 <= l <= |vals|
    ensures forall l :: l in c.ptosPorNivel ==> r.ptosPorNivel[l] == c.ptosPorNivel[l]
    ensures forall l :: 1 <= l <= |vals| && l !in c.ptosPorNivel ==> r.ptosPorNivel[l] == vals[l - 1]
  {
    r := c;
    var i := 1;
    while i <= |vals|
      invariant 1 <= i <= |vals| + 1
      invariant r.id == c.id && r.name == c.name
      invariant forall l :: l in r.ptosPorNivel <==> l in c.ptosPorNivel || 1 <= l < i
      invariant forall l :: l in c.ptosPorNivel ==> r.ptosPorNivel[l] == c.ptosPorNivel[l]
      invariant forall l :: 1 <= l < i && l !in c.ptosPorNivel ==> r.ptosPorNivel[l] == vals[l - 1]
    {
      if i !in r.ptosPorNivel {
        r := r.(ptosPorNivel := r.ptosPorNivel[i := vals[i - 1]]);
      }
      i := i + 1;
    }
  }
}
