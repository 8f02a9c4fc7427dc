# Tennis circuit: brackets, results, points and ranking

This project models the engine of a tennis circuit simulator:

- the player record (`Jugador`);
- the category points table (`Categoria`);
- the tournament (`Torneo`) with its bracket builder, score parser, winner tree and statistics and points propagation;
- the player registry (`ConjuntoJugadores`), which keeps a name-keyed map and a ranking vector in step;
- the tournament set (`ConjuntoTorneos`);
- the three circuit commands that chain them: starting, finishing and withdrawing a tournament.

Players, categories and tournaments are values in the source. The registry hands out copies of players, the tournament set hands out copies of tournaments, and the participant list of an edition is a vector of player copies. They are therefore Dafny datatypes here, and each modifier is a member function that returns the updated record. The two sets are updated in place, so they are classes:

- `Registry.ConjuntoJugadores` has fields `mapJug`, `rank` and `njug`. Its invariant `Valid` says the map and the ranking agree (`Synced`) and that `njug` counts the ranking.
- `TournamentSet.ConjuntoTorneos` has fields `mapTor` and `ntor`.

The methods that play a tournament (`ActStats`, `ActualizarEstadisticas`, `RestarPuntos`) change the registry object. Each is proved equal to a function on a `Ledger` value: the registry map, the ranking, the tournament's category and its participant copies. The lemmas about the circuit are stated on those functions:

- the bracket for `n` seeds has exactly the seeds `1..n` as leaves, each once;
- the winner tree keeps the bracket's shape, and each pairing holds one of its two children;
- a finished tournament with at least one match pays every seeded participant exactly once (its `torneos` counter grows by exactly one);
- a refreshed ranking is a sorted permutation and refreshing is idempotent;
- withdrawing a finished edition, through the participant copies it leaves as the last edition, gives every registered player back the points it had before the edition (`Circuit.FinishThenWithdraw`).

Trees of the course library (`BinTree`) are the datatype `Trees.Tree`. The score pairs (`ParInt`) are `Scores.Pair`.

Two behaviours of the code that the model keeps as they are:

- **Points.** The loser of a match at level `nivel` is paid the points of level `nivel + 1`. Only in the final (`nivel == 1`) is the winner also paid, with the level-1 points (Torneo.cc:149-163, Torneo.cc:167-179). A winner below the final is paid nothing for that match. Its points come from the match it later loses, or from the final.
- **Removing a player.** The position of each shifted player is rewritten only in the map. The copies in the ranking vector keep their old position field until the next refresh (ConjuntoJugadores.cc:56-60). `Registry.Removed` states this exactly.

The exactly-once payment holds only when the bracket has at least one match. With a single participant nothing is played. The participant copy then keeps the points of the last tournament it was paid in, because it was copied from the ranking. Withdrawing that edition later subtracts points it never awarded. `MatchFacts.TorneosCounted` and `Circuit.Finish` therefore state the property for brackets that are not a single leaf.

The points round trip rests on the same exactly-once payment. It holds under four conditions:

- the bracket seats every participant slot once, as the bracket iniciar_torneo builds does;
- there is at least one match;
- participant names are distinct;
- no registered player has negative points beforehand.

Each payment overwrites the copy's `ptosActual` with the amount added (Jugador.cc:50-54). A copy paid once therefore records exactly what its player gained, and `restar` takes that amount back without clamping. `MatchFacts.PointsMoved` tracks this through every match.

## Model

| member | source | states |
|---|---|---|
| Players.Jugador.SumPtos | Jugador.cc:50-54 | adds `x` to the points, sets the last-edition points to `x` (overwritten, not accumulated), counts one more tournament, and changes no other field |
| Players.Jugador.Rest | Jugador.cc:56-59 | points become `ptos - x`, clamped at 0; the result is never negative and no other field changes |
| Players.Jugador.ModificarPosicion | Jugador.cc:61-63 | only the ranking position changes, to `x` |
| Players.Jugador.SumarJuegos | Jugador.cc:65-67 | games won grow by `x`; nothing else changes |
| Players.Jugador.RestarJuegos | Jugador.cc:69-71 | games lost grow by `x` (the counter is never decremented); nothing else changes |
| Players.Jugador.SumarSet | Jugador.cc:73-75 | sets won grow by one; nothing else changes |
| Players.Jugador.RestarSet | Jugador.cc:77-79 | sets lost grow by one; nothing else changes |
| Players.Jugador.SumarPartido | Jugador.cc:81-83 | matches won grow by one; nothing else changes |
| Players.Jugador.RestarPartido | Jugador.cc:85-87 | matches lost grow by one; nothing else changes |
| Players.Blank | Jugador.cc:8-20 | the default player: name " ", position 0, every counter and points field 0 |
| Players.Named | Jugador.cc:22-34 | the given name, position 0, every counter 0 |
| Players.Ranked | Jugador.cc:36-48 | the given name and position, every counter 0 |
| Players.SumThenRest | Jugador.cc:50-59 | with non-negative points and amount, awarding `x` then withdrawing `x` restores the points |
| Categories.Blank | Categoria.cc:7-9 | the default category has id 0, an empty name and no levels |
| Categories.Named | Categoria.cc:11-14 | id 0, the given name, no levels |
| Categories.Numbered | Categoria.cc:16-19 | the given name and id, no levels |
| Categories.AsignarPuntos | Categoria.cc:21-27 | levels `1..k` are added with the supplied values in order; a level already present keeps its first value (insert does not overwrite); name and id are kept |
| Categories.ConsultarPuntos | Categoria.cc:33-35 | returns the stored points of the level, or 0 for a missing level, which is then inserted; no later lookup changes its answer |
| Scores.Conv | Torneo.cc:12-32 | the loop returns the set scores of the token: its digits '0'..'7' in order, paired two at a time |
| Scores.SetScoresShape | Torneo.cc:18-31 | the number of sets is half the number of digits '0'..'7' (an unpaired last digit is dropped); each set is the next two digits, each in 0..7 |
| Scores.DigitsAppend | Torneo.cc:18-24 | scanning a concatenation gives the digits of each part in order |
| Scores.RenderRoundTrip | Torneo.cc:12-32 | writing sets as "x-y" tokens and parsing them back gives the same sets |
| Scores.MatchWinner | Torneo.cc:34-53 | the winner is `a` or `b`; "1-0" gives `a` and "0-1" gives `b`; otherwise `a` exactly when it won strictly more than half of the parsed sets (a tied set counts for `b`; no sets gives `b`) |
| Scores.Match | Torneo.cc:34-53 | the counting loop returns MatchWinner |
| Scores.ThreeSetExample | Torneo.cc:34-53 | example (one input): "6-4 3-6 6-2" parses to three sets and seed 1 wins it |
| Bracket.DefinirEmparejamientos | Torneo.cc:71-93 | every subtree built is a node labelled with its own seed, and none above level `h-1` is a leaf; its leaves and shape are stated by BracketLeaves and BracketShape |
| Bracket.CeilLog2 | program.cc:168 | the least `k` with `2^k >= n` |
| Bracket.Height | program.cc:168 | the height `ceil(log2 n) + 1`, as the least `h >= 1` with `2^(h-1) >= n` |
| Bracket.Byes | program.cc:172 | the bye count `2^(h-1) - n` is in `0..n-1` and at most half of the last level |
| Bracket.AncRange | Torneo.cc:85 | the ancestor seed of a last-level slot at level `l` is in `1..2^(l-1)` |
| Bracket.LeavesAt | Torneo.cc:71-93 | the subtree built at level `l` for seed `a` holds, each once, exactly the seeds `1..2^(h-1)-x` whose ancestor at level `l` is `a` |
| Bracket.BracketLeaves | Torneo.cc:71-93 | for `n >= 1` participants, the bracket's leaves are exactly `1..n`, each once |
| Bracket.ShapeAt | Torneo.cc:74-91 | every node built is a leaf or has two children, carries its left child's seed, has children summing to `2^l + 1`, and its leaves are byes (seed `<= x`, level `h-1`) or first-round players (level `h`) |
| Bracket.BracketShape | Torneo.cc:71-93 | the whole bracket is rooted at seed 1 and has the shape ShapeAt describes |
| Bracket.ThreeParticipants | program.cc:168-177 | example (one input): for three participants the height is 3 and there is one bye: seed 1 waits in the final while seeds 2 and 3 play the first round |
| Results.ProcResultados | Torneo.cc:100-124 | the winner tree is never empty; its shape, leaves and pairings are stated by WinnerTree |
| Results.WinnerTree | Torneo.cc:100-124 | the winner tree has the bracket's shape and leaves, each pairing holds the match winner of its two children, and the champion is one of the bracket's seeds |
| Results.Matches | Torneo.cc:184-191 | the matches played in preorder, with the level of each (1 for the final); none below an empty result node |
| Results.MatchesLevels | Torneo.cc:184-191 | every match below level `nivel` is played at level `>= nivel` |
| Results.WalkoverScores | Torneo.cc:165-181 | the walkover tokens parse to exactly one set, so they take the single-set branch |
| Results.FirstWonAgrees | Torneo.cc:126-182 | the statistics pass credits the match to the same seed that the match rule picks |
| Results.FirstWon | Torneo.cc:133-179 | the win test of act_stats: "1-0" credits the first seed and "0-1" the second; every token credits the first seed exactly when it won strictly more than half of the parsed sets |
| Results.FirstWonSets | Torneo.cc:133-179 | the two branches (one parsed set, or a count over the sets) both amount to the first seed winning strictly more than half of the sets |
| Results.Winner | Torneo.cc:149-162 | the winner of a game is one of its two seeds |
| Results.Loser | Torneo.cc:149-162 | the loser is one of the two seeds, and it is not the winner when the seeds differ |
| Results.AwardedSeeds | Torneo.cc:149-179 | the seeds paid by a run of matches, in order: each match pays one or two seeds (the loser, and the winner in the final) |
| Results.AwardedOne | Torneo.cc:149-163 | one match pays its loser, and also its winner in the final |
| Results.AwardedAppend | Torneo.cc:184-191 | the seeds paid over two runs of matches are those of each run in order |
| Results.AwardedBelow | Torneo.cc:149-163 | below the final only losers are paid |
| Results.LosersOfMatches | Torneo.cc:184-191 | the losers of the matches played are the losers the winner tree records |
| Results.LosersBelow | Torneo.cc:100-124 | in a winner tree every seed except the subtree's winner loses exactly one match |
| Results.AwardedBelowFinal | Torneo.cc:184-191 | below the final every seed of a subtree except its winner is paid exactly once |
| Results.PaidBelowFinal | Torneo.cc:149-163 | below the final the seeds paid are exactly the losers |
| Results.AwardedOnce | Torneo.cc:184-191 | over a whole tournament with at least one match, the multiset of seeds paid is the multiset of the bracket's leaves |
| Tournament.Torneo.AsignarCuadroEmpParticipantes | Torneo.cc:95-98 | only the bracket and the current participants change, to the given ones |
| Tournament.Torneo.UltJugadores | Torneo.cc:205-207 | only the last-edition participants change, to the given list |
| Tournament.Default | Torneo.cc:58-60 | the default tournament: name " ", default category, empty bracket and lists |
| Tournament.WithId | Torneo.cc:62-64 | the given name, default category, empty bracket and lists |
| Tournament.WithCat | Torneo.cc:66-69 | the given name and category, empty bracket and lists |
| Tournament.SetsFold | Torneo.cc:133-146 | crediting sets one by one keeps every registered player's position and points |
| Tournament.StatsOf | Torneo.cc:133-181 | the statistics of a match keep every position and point total and the set of names |
| Tournament.PlayMatch | Torneo.cc:126-182 | one match keeps the ranking placed and its length, the names, the participants' names and the category's answers |
| Tournament.Play | Torneo.cc:133-181 | statistics then payments keep positions placed, names and category answers |
| Tournament.Pay | Torneo.cc:149-163 | the payments keep positions placed, names and category answers |
| Tournament.PlaySets | Torneo.cc:133-146 | the set loop credits SetsFold and returns the sets won by each side and the games of each side |
| Tournament.CreditStats | Torneo.cc:128-173 | the statistics part of a match leaves the registry map equal to StatsOf and reports whether the first seed won |
| Tournament.PlayOn | Torneo.cc:126-182 | the registry and participant copies after one match equal Play |
| Tournament.PayOn | Torneo.cc:149-163 | the registry and participant copies after the payments equal Pay |
| Tournament.PayLoserOn | Torneo.cc:151-155 | paying the loser equals Award at level `nivel + 1` |
| Tournament.ActStats | Torneo.cc:126-182 | the registry and the tournament's category and participants after act_stats equal PlayMatch; nothing else in the tournament changes |
| Tournament.SeatsKept | Torneo.cc:184-191 | the matches stay playable after statistics that keep names |
| Tournament.PlayTree | Torneo.cc:184-191 | playing the result tree keeps the ranking placed and its length, the names, the participants' names and the category's answers |
| Tournament.ActualizarEstadisticas | Torneo.cc:184-191 | the recursion leaves the registry and the tournament equal to PlayTree; nothing else in the tournament changes |
| Tournament.DeductAll | Torneo.cc:193-203 | withdrawing the last edition's points keeps positions placed, the ranking length and the names |
| Tournament.RestarPuntos | Torneo.cc:193-203 | the loop leaves the registry equal to DeductAll and keeps it synchronised |
| Tournament.RestFor | Torneo.cc:197-201 | a player record after the last-edition entries under its name are withdrawn: only its points change, and they stay non-negative |
| Tournament.DeductAllAt | Torneo.cc:193-203 | a player's entry after the loop is its entry with every matching last-edition amount withdrawn in order |
| Tournament.RestForOnce | Torneo.cc:197-201 | with distinct names, a listed player loses exactly its own last-edition points |
| Tournament.RestForNone | Torneo.cc:197-201 | an unlisted player is untouched |
| Tournament.DeductAllEffect | Torneo.cc:193-203 | every listed registered player has its last-edition points withdrawn (clamped at 0); every other player is unchanged |
| MatchFacts.SetsFoldEffect | Torneo.cc:133-146 | the first seed gains the sets it won and loses the rest; the second seed the reverse; nobody else changes |
| MatchFacts.GamesEffect | Torneo.cc:133-147 | after sets and games, each seed carries the set and game totals of its side; nobody else changes |
| MatchFacts.StatsEffect | Torneo.cc:133-181 | with other than one parsed set both seeds get sets, games and one match each; with exactly one set (a walkover) only the match counters change |
| MatchFacts.PayPart | Torneo.cc:149-163 | the participant copies: the loser gains level `nivel+1` points and, in the final, the winner level-1 points |
| MatchFacts.PayPlayers | Torneo.cc:149-163 | the registry map: the same two payments |
| MatchFacts.PlayEffect | Torneo.cc:126-182 | one match as each of the two registered players sees it: statistics then payment; every other player unchanged |
| MatchFacts.PayEffect | Torneo.cc:149-163 | the payments as each of the two players sees them; every other player unchanged |
| MatchFacts.MatchTorneos | Torneo.cc:149-179 | one match adds one tournament to each seed it pays |
| MatchFacts.PayGained | Torneo.cc:149-163 | the payments add one tournament to the loser and, in the final, to the winner |
| MatchFacts.PlayTreeTorneos | Torneo.cc:184-191 | the whole tree adds to each participant copy one tournament per time its seed is paid |
| MatchFacts.SeatsFromLeaves | Torneo.cc:100-124 | when every leaf seed is a registered participant, every match of the winner tree can be played |
| MatchFacts.TorneosCounted | Torneo.cc:184-191 | a finished bracket with at least one match and distinct seeds adds exactly one tournament to each seeded participant and none to any other |
| MatchFacts.TreeCounted | Torneo.cc:184-191 | the same count from a list of distinct seeds paid |
| MatchFacts.AwardMoved | ConjuntoJugadores.cc:107-116 | with distinct participant names, one award moves points for its seed alone: its map entry and its copy gain what the copy now records as the edition's points |
| MatchFacts.PayMoved | Torneo.cc:149-163 | the payments of one match move points for the loser, and for the winner too in the final, and for nobody else |
| MatchFacts.PlayMoved | Torneo.cc:133-179 | a whole act_stats moves points exactly as its payments do: the statistics move none |
| MatchFacts.MatchMoved | Torneo.cc:133-179 | the same for a match decided by its token, with the seeds AwardedSeeds lists |
| MatchFacts.PlayTreePoints | Torneo.cc:184-191 | playing a results tree moves points as PointsMoved says for the seeds its matches pay |
| Registry.Cmp | ConjuntoJugadores.cc:17-21 | the ranking order: more points always rank first, and a record ranks before another only with at least as many points (ties broken by smaller prior position); its order laws are stated by CmpOrder |
| Registry.CmpOrder | ConjuntoJugadores.cc:17-21 | the ranking order (points descending, then prior position ascending) is irreflexive, asymmetric and transitive, and total on records whose (points, position) differ |
| Registry.InsertSorted | ConjuntoJugadores.cc:70 | inserting into a sorted ranking keeps it sorted |
| Registry.SortRank | ConjuntoJugadores.cc:70 | the sort keeps the length; SortRankSpec proves it a sorted permutation |
| Registry.SortRankSpec | ConjuntoJugadores.cc:70 | the sort returns a sorted permutation of the ranking and keeps names distinct |
| Registry.SortedFixed | ConjuntoJugadores.cc:70 | an already sorted ranking is returned unchanged |
| Registry.Renumber | ConjuntoJugadores.cc:74-78 | each record gets position index+1 |
| Registry.Refresh | ConjuntoJugadores.cc:67-79 | the refreshed ranking keeps the length and has position i+1 at index i; RefreshFacts adds that it is sorted and the sorted ranking up to positions |
| Registry.RefreshFacts | ConjuntoJugadores.cc:67-79 | a refreshed ranking is sorted, has position i+1 at index i, and is the sorted ranking up to positions |
| Registry.RefreshIdempotent | ConjuntoJugadores.cc:67-79 | refreshing twice equals refreshing once |
| Registry.SyncedPos | ConjuntoJugadores.cc:110-112 | in a synchronised registry a player's map position indexes its own ranking record |
| Registry.SyncedAppend | ConjuntoJugadores.cc:34-39 | appending a new player at the next position keeps the registry synchronised |
| Registry.CreditSet | ConjuntoJugadores.cc:91-97 | crediting a set keeps every position and point total |
| Registry.CreditMatch | ConjuntoJugadores.cc:99-105 | crediting a match keeps every position and point total |
| Registry.CreditGames | ConjuntoJugadores.cc:81-89 | crediting games keeps every position and point total |
| Registry.Credit | ConjuntoJugadores.cc:110-113 | adding points changes only the player's map entry and its ranking record at its position, each by SumPtos |
| Registry.CreditSynced | ConjuntoJugadores.cc:110-113 | adding points keeps the registry synchronised |
| Registry.Award | ConjuntoJugadores.cc:107-116 | the participant's map entry, its ranking record at the position the map entry gives, and its participant copy each gain the category's points of the level; nothing else in the three changes; names and category answers are kept |
| Registry.AwardSynced | ConjuntoJugadores.cc:107-116 | awarding keeps the registry synchronised |
| Registry.Deduct | ConjuntoJugadores.cc:118-129 | an unknown name leaves everything unchanged; a known one gets Rest in its map entry and nowhere else in the map |
| Registry.DeductSynced | ConjuntoJugadores.cc:118-129 | withdrawing keeps the registry synchronised |
| Registry.DeductAt | ConjuntoJugadores.cc:123-127 | for a known name, the map entry and the ranking record at its position both get Rest |
| Registry.ConjuntoJugadores.constructor | ConjuntoJugadores.cc:26-28 | an empty, synchronised registry with no players |
| Registry.ConjuntoJugadores.Inicializado | ConjuntoJugadores.cc:30-32 | an empty map and ranking with the counter preset to `p` |
| Registry.ConjuntoJugadores.NuevoJugador | ConjuntoJugadores.cc:34-39 | the counter grows by one and the new zero-stat player, at that position, is added to the map and appended to the ranking; the registry stays synchronised |
| Registry.ConjuntoJugadores.Swap | ConjuntoJugadores.cc:11-15 | exchanges two ranking records and keeps the rest |
| Registry.ConjuntoJugadores.BajaJugador | ConjuntoJugadores.cc:41-65 | the player leaves the map and the ranking; the others keep their order; each player after it gets its new position in the map only; the counter drops by one; the registry stays synchronised |
| Registry.ConjuntoJugadores.Unrank | ConjuntoJugadores.cc:50-64 | the search, bubble and pop on values yield the Removed views, synchronised |
| Registry.ConjuntoJugadores.SwapToEnd | ConjuntoJugadores.cc:56-60 | the swap loop moves the record to the end and renumbers the map entries it passes |
| Registry.ConjuntoJugadores.Sink | ConjuntoJugadores.cc:53-63 | the search loop stops at the removed player and sinks it to the end |
| Registry.ConjuntoJugadores.ActualizarRanking | ConjuntoJugadores.cc:67-79 | the ranking becomes the refreshed ranking and each map entry gets its new position; the registry stays synchronised |
| Registry.ConjuntoJugadores.Rerank | ConjuntoJugadores.cc:67-79 | the sort and renumbering on values yield the Refreshed views, synchronised |
| Registry.ConjuntoJugadores.RenumberFrom | ConjuntoJugadores.cc:74-78 | the renumbering loop gives each ranking record and its map entry position index+1 |
| Registry.ConjuntoJugadores.SumarRestarJuegos | ConjuntoJugadores.cc:81-89 | the map becomes CreditGames; the ranking is untouched |
| Registry.ConjuntoJugadores.SumarRestarSet | ConjuntoJugadores.cc:91-97 | the map becomes CreditSet; the ranking is untouched |
| Registry.ConjuntoJugadores.SumarRestarPartido | ConjuntoJugadores.cc:99-105 | the map becomes CreditMatch; the ranking is untouched |
| Registry.ConjuntoJugadores.SumarPuntos | ConjuntoJugadores.cc:107-116 | the registry, category and participant copies become Award |
| Registry.ConjuntoJugadores.Restar | ConjuntoJugadores.cc:118-129 | the registry becomes Deduct, synchronised |
| Registry.ConjuntoJugadores.ExisteJugador | ConjuntoJugadores.cc:131-135 | true exactly when the name is registered |
| Registry.ConjuntoJugadores.ConsultarJugadorRank | ConjuntoJugadores.cc:145-147 | the record at ranking position `x`, whose map entry has position `x` |
| TournamentSet.Subscript | ConjuntoTorneos.cc:28 | a stored name gives its tournament with the map unchanged; a missing one gives and stores the default tournament, keeping every other entry |
| TournamentSet.EraseCount | ConjuntoTorneos.cc:20-23 | erasing a stored name removes exactly one tournament |
| TournamentSet.ConjuntoTorneos.constructor | ConjuntoTorneos.cc:6-8 | an empty set with counter 0 |
| TournamentSet.ConjuntoTorneos.Inicializado | ConjuntoTorneos.cc:10-12 | an empty map with the counter preset to `t` |
| TournamentSet.ConjuntoTorneos.NuevoTorneo | ConjuntoTorneos.cc:14-18 | a new name gets a fresh tournament of the category; an existing one is left as it is; the counter always grows, so it keeps counting only under the documented precondition |
| TournamentSet.ConjuntoTorneos.BajaTorneo | ConjuntoTorneos.cc:20-23 | the name is erased and every other tournament kept; the counter always shrinks, so it keeps counting only when the name was stored |
| TournamentSet.ConjuntoTorneos.DefinirCuadroYParticipantes | ConjuntoTorneos.cc:25-29 | the tournament stored under the name (a default one if missing) gets the bracket and participants; nothing else changes |
| TournamentSet.ConjuntoTorneos.DefinirUltJugadores | ConjuntoTorneos.cc:31-36 | the stored tournament's last edition becomes the given tournament's current participants; nothing else changes |
| TournamentSet.ConjuntoTorneos.ExisteTorneo | ConjuntoTorneos.cc:38-42 | true exactly when the name is stored |
| TournamentSet.ConjuntoTorneos.NumeroTorneos | ConjuntoTorneos.cc:44-46 | the counter |
| TournamentSet.ConjuntoTorneos.ConsultarTorneo | ConjuntoTorneos.cc:48-50 | a copy of the stored tournament |
| Circuit.Finish | program.cc:220-221 | withdrawing then playing keeps the ranking placed and the names; with at least one match and distinct seeds, exactly the seeded participants count one more tournament |
| Circuit.FinishThenWithdraw | program.cc:217-221 | with every participant seated once, at least one match, distinct names and no negative points, withdrawing the finished edition through its participant copies restores every registered player's points |
| Circuit.WithdrawRestores | Torneo.cc:193-203 | withdrawing, copy by copy, an edition that paid each participant once restores every registered player's points |
| Circuit.IniciarTorneo | program.cc:146-187 | for a stored tournament: it gets the bracket built from the participant count and the participants, and its leaves are exactly the participant slots, each once; for an unknown name nothing changes |
| Circuit.Jugar | program.cc:220-221 | the registry and participant copies after withdrawing the last edition and playing the results equal Finish |
| Circuit.FinalizarTorneo | program.cc:196-229 | for a stored tournament: last edition withdrawn, results played, the new participant copies recorded as the last edition, ranking refreshed; otherwise nothing changes |
| Circuit.BajaTorneo | program.cc:136-141 | for a stored tournament: last edition withdrawn, ranking refreshed, tournament erased and counter decremented; otherwise nothing changes |

## Left out

- Reading and printing: `leer_jugadores`, `leer_torneos`, `leer_participantes`, `leer_resultados`, the read in `asignar_puntos`, and every `listar_*` and `imprimir_*` routine. Participants, result trees and point values are parameters instead. The command loop of program.cc is reduced to the three commands in `Circuit`.
- `consultar_jugador`, `numero_jugadores`, `consultar_nombre_categoria` and the plain field readers: trivial getters, read directly as fields.
- `std::sort`: modelled as a stable insertion sort (`Registry.SortRank`) proved to return a sorted permutation.
- Registry.ConjuntoJugadores.ActualizarRanking: commits to the stable order when two ranking records tie under `cmp`. `std::sort` is not stable and may order such records either way, so the model's ranking is one of the rankings the source can produce, not the only one.
  - Ties do arise. After `baja_jugador` the ranking copies keep stale positions (ConjuntoJugadores.cc:56-60), and a player added before the next refresh can repeat one of them.
  - Example: A, B and C hold positions 1, 2 and 3 with equal points. Removing A leaves B (position 2) and C (position 3). Adding N gives it position 3, the same as C.
  - While the positions in the ranking copies are distinct, `cmp` is total (`Registry.CmpOrder`) and every correct sort gives the same ranking.
- `log2` and `pow` in floating point: replaced by exact integer powers of two (`Bracket.Pow2`, `Bracket.Height`, `Bracket.Byes`).
- 32-bit `int` overflow of points and counters: integers are unbounded.
- In-place update of player and tournament records through references: modelled by returning the updated record. That is the source's own behaviour for the copies it keeps.
- Undefined behaviour is excluded by preconditions, as the headers document:
  - a participant removed from the registry mid-tournament (`Seated`, `LeavesSeated`);
  - an empty result node where a match is read (`Results.Fits`);
  - `baja_jugador` on an unknown name;
  - `consultar_torneo` on an unknown name.
- Registry.ConjuntoJugadores.NuevoJugador: requires the name to be new, as its header does. On a duplicate the source would still append to the ranking and break the synchronisation.
- Results.ProcResultados: its own contract states only that the result is a node; its meaning is stated by `Results.WinnerTree`.
- Registry.CreditSet: its own contract states only that positions and points are kept; the per-player effect is stated by `MatchFacts.SetsFoldEffect` and `MatchFacts.StatsEffect`.
- Registry.CreditMatch: as for CreditSet; the effect is stated by `MatchFacts.StatsEffect`.
- Registry.CreditGames: as for CreditSet; the effect is stated by `MatchFacts.GamesEffect`.
- Circuit.FinishThenWithdraw: states the round trip on the registry map, with the withdrawal applied directly after the edition. The re-ranking that finalizar_torneo runs in between moves only positions, and the withdrawal of a map entry does not read positions (`Tournament.DeductAllAt`). The round trip is not stated across that re-ranking, nor across other editions played in between.
- Circuit.FinalizarTorneo: the levels that `consultar_puntos` inserts into the local copy of the tournament's category are discarded, as in the source, which stores back only the participant list.
