# War territory game — verified model of the rules core

This project models the rules of a small terminal game of territory conquest,
in the style of "War". The game exists in two variants:

- **Batalha.c** is the basic variant. Any army may attack any other.
- **Missao_estrategica.c** is the mission variant. The player owns the colour
  "AZUL", colours are stored upper-case, attacks must start from one of the
  player's territories, and a secret mission drawn from a catalogue of five
  decides victory.

The model has three modules:

- `Territorios` (`territorios.dfy`) holds what both C files share.
  - The `Territorio` record (`nome`, `cor`, `tropas`).
  - The map: class `Mapa` around an `array<Territorio>`, updated in place.
  - The die (`RolarDado`) and the troop clamp applied at registration (`TropasIniciais`).
  - One round of battle: `Mapa.Atacar`, specified by the pure `Rodada`/`Combate`.
  - The count of territories of one colour (`ContaCor`).
  - The `atacar` functions of the two files have the same statements, so they are modelled once.
- `Batalha` (`batalha.dfy`) holds the basic variant's map size rule, registration, attack validation and attack phase.
- `MissaoEstrategica` (`missao_estrategica.dfy`) holds the mission variant.
  - Its map size rule, `toUpperString`, registration with upper-casing, and validation with the player-colour check.
  - The mission catalogue and `atribuirMissao` (`strncpy` into a 100-character buffer).
  - `verificarMissao`: its three counting loops, and the dispatch on the mission text.

Dice and `rand()` values are method or function parameters (a die is `1..6`,
a `rand()` value is non-negative). Terminal input becomes parameters too: the
typed IDs, and a sequence of registration entries. A troop count that could
not be read is `None`.

The C code differs from a plain reading of the game rules in several places.
The model follows the code each time:

- The defender loses troops only when it has more than 0. A defender that already has 0 or fewer is conquered without losing any.
- In the basic variant, colours are compared exactly as typed. No case normalisation happens.
- If the input ends early, the territories not yet registered keep `calloc`'s zeroes: empty name, empty colour, 0 troops. So "every territory has at least 1 troop" holds only after a complete registration.
- Mission dispatch is a substring search (`strstr`) in a fixed order. The VERDE wording is searched for first.
- The "4 seguidos" mission counts territories. It does not check that they are adjacent.

## Model

| member | source | states |
|---|---|---|
| `Territorios.RolarDado` | Batalha.c:195-197 | the die is in 1..6 and equals `rand() % 6 + 1`; the same function is `rolarDado` at Missao_estrategica.c:295-297 |
| `Territorios.TropasIniciais` | Batalha.c:156-159 | registered troops are at least 1; a readable positive value is kept; anything else becomes 1 |
| `Territorios.TropasPerdidas` | Batalha.c:263-265 | the loss is ceil(t/2), between 1 and t, and leaves floor(t/2) |
| `Territorios.Rodada` | Missao_estrategica.c:356-381 | one round keeps both names and the attacker's colour; the attacker loses 0 or 1 troop; the defender keeps its colour or takes the attacker's; a defender with at least 1 troop ends with between 1 and its old count |
| `Territorios.Combate` | Batalha.c:242-292 | a round on the map changes only the attacker's and defender's entries, keeps the length, and never changes a name |
| `Territorios.VitoriaSemConquista` | Missao_estrategica.c:356-363 | attacker's die strictly higher and defender with t ≥ 2: the defender drops to t/2 and keeps its colour; the attacker is unchanged |
| `Territorios.ConquistaTerritorio` | Missao_estrategica.c:365-375 | attacker's die strictly higher and defender with at most 1 troop: the defender takes the attacker's colour and holds exactly 1 troop; the attacker loses 1 |
| `Territorios.DerrotaOuEmpate` | Batalha.c:281-288 | on a tie or a lower attacker die, the attacker loses exactly 1 troop and the defender is unchanged |
| `Territorios.CombatePreservaMinimo` | Batalha.c:232-235 | if every territory has at least 1 troop and the attacker has more than 1, every territory still has at least 1 after the round |
| `Territorios.ContaCor` | Missao_estrategica.c:189-194 | the player's territory count never exceeds the map size |
| `Territorios.ContaCorAtualiza` | Missao_estrategica.c:370 | replacing one territory changes a colour's count by exactly what left and what arrived |
| `Territorios.ContaCorTotal` | Missao_estrategica.c:207-208 | a colour's count equals the map size iff every territory has that colour |
| `Territorios.Int32` | Batalha.c:20 | two's-complement wrap-around, one possible outcome of the undefined signed overflow of a C `int`: the result fits 32 bits and is congruent to the input |
| `Territorios.DivC` | Batalha.c:264 | C division truncates toward zero: the remainder `a - b*q` has the dividend's sign and is smaller in size than the divisor, also for negative dividends |
| `Territorios.TropasRestantesInt32` | Batalha.c:264-265 | the defender's remaining troops as computed with 32-bit `int` arithmetic; the result fits 32 bits |
| `Territorios.Int32NoIntervalo` | Batalha.c:264-265 | a value that fits a C `int` is not changed by the wrap-around |
| `Territorios.TropasRestantesInt32Concorda` | Batalha.c:264-265 | below `INT_MAX`, the 32-bit computation agrees with the unbounded one and leaves t/2 |
| `Territorios.TropasMaximasConquistadas` | Batalha.c:264-269 | at `INT_MAX` troops the computation overflows and leaves −2^30−1, so the defender is conquered; the unbounded rule leaves a positive count |
| `Territorios.Mapa.constructor` | Batalha.c:116-119 | `alocarMapa`: a fresh map of the requested size, every territory zeroed |
| `Territorios.Mapa.Atacar` | Batalha.c:250-292 | `atacar` updates the map in place to exactly `Combate` of the old map, for both variants (also Missao_estrategica.c:348-385) |
| `Batalha.TamanhoDoMapa` | Batalha.c:59-63 | the game goes on only with a readable positive size, and then uses that size |
| `Batalha.CadastrarTerritorios` | Batalha.c:140-162 | registration writes entry k to territory k, with troops clamped and the colour as typed; the rest stay as they were; after a complete registration every territory has at least 1 troop |
| `Batalha.Validar` | Batalha.c:204-239 | an attack is accepted iff both IDs are in 1..tamanho, they differ, the attacker has more than 1 troop, and the colours differ; never for a player-colour reason |
| `Batalha.ValidarOrdem` | Batalha.c:209-239 | each rejection reason is reported exactly when its check is the first one to fail, in source order |
| `Batalha.QualquerCorAtaca` | Batalha.c:227-239 | renaming any army to a fresh colour never changes the verdict, so no colour is privileged; the renaming is the helper `Recolorir` |
| `Batalha.FaseDeAtaque` | Batalha.c:204-243 | the verdict is `Validar` on the old map; a rejection leaves the map unchanged; an acceptance applies exactly one `Combate`; at least 1 troop everywhere is preserved |
| `MissaoEstrategica.TamanhoDoMapa` | Missao_estrategica.c:77-81 | the map has at least 5 territories; a readable size of 5 or more is kept; anything else becomes 5 |
| `MissaoEstrategica.Maiuscula` | Missao_estrategica.c:242 | `toupper` on ASCII: the result is never lower-case; letters become upper-case; a lower-case letter moves down by 32; other characters are kept |
| `MissaoEstrategica.Strlen` | Missao_estrategica.c:241 | the C string length is the position of the first NUL, or the buffer length if there is none |
| `MissaoEstrategica.MaiusculasAteNul` | Missao_estrategica.c:240-244 | the buffer keeps its length; each character before the first NUL is upper-cased; the NUL and everything after it are unchanged |
| `MissaoEstrategica.MaiusculasIdempotente` | Missao_estrategica.c:240-244 | upper-casing twice gives the same buffer as upper-casing once |
| `MissaoEstrategica.MaiusculasSemMinusculas` | Missao_estrategica.c:240-244 | after upper-casing, no character of the C string is lower-case, and every letter is upper-case |
| `MissaoEstrategica.StrlenMaiusculas` | Missao_estrategica.c:240-244 | upper-casing neither creates nor removes a NUL, so the C string keeps its length |
| `MissaoEstrategica.CorRegistradaMaiuscula` | Missao_estrategica.c:261-262 | a colour upper-cased at registration has no lower-case letter before its NUL |
| `MissaoEstrategica.CorDoJogadorRegistravel` | Missao_estrategica.c:66-67 | the player's colour "AZUL" is upper-case, and any mix of cases of "azul" typed at registration is stored as exactly the player's colour |
| `MissaoEstrategica.ToUpperString` | Missao_estrategica.c:240-244 | the in-place loop leaves exactly `MaiusculasAteNul` of the old buffer |
| `MissaoEstrategica.CadastrarTerritorios` | Missao_estrategica.c:249-271 | registration writes entry k to territory k, with the colour upper-cased by `ToUpperString` and troops clamped; the rest stay as they were; after a complete registration every territory has at least 1 troop and every colour is upper-case; a map whose colours are upper-case keeps them so |
| `MissaoEstrategica.RegistroPreservaInvariantes` | Missao_estrategica.c:249-271 | after registering a prefix of the map, every registered colour is upper-case, an upper-case map stays so, and a complete registration leaves every territory with at least 1 troop and an upper-case colour |
| `MissaoEstrategica.Validar` | Missao_estrategica.c:303-343 | an attack is accepted iff both IDs are in 1..tamanho, they differ, the attacker has the player's colour and more than 1 troop, and the colours differ |
| `MissaoEstrategica.ValidarOrdem` | Missao_estrategica.c:308-343 | each rejection reason is reported exactly when its check is the first one to fail, in source order |
| `MissaoEstrategica.ValidarEstendeBatalha` | Missao_estrategica.c:330-334 | the mission variant gives the basic variant's verdict, except when the player-colour check fails first; it accepts iff the basic variant accepts and the attacker is the player's |
| `MissaoEstrategica.AtaqueValidoPreservaMinimo` | Missao_estrategica.c:335-345 | a validated attack on a map where every territory has at least 1 troop leaves every territory with at least 1 |
| `MissaoEstrategica.ContagemDoJogador` | Missao_estrategica.c:365-375 | after a validated attack, the player's territory count equals the old count, plus 1 exactly on conquest |
| `MissaoEstrategica.CombatePreservaMaiusculas` | Missao_estrategica.c:369-370 | a conquest copies only the attacker's colour, so a map whose colours are all upper-case stays so after any round |
| `MissaoEstrategica.AtaqueAceito` | Missao_estrategica.c:331-345 | a validated attack never lowers the player's territory count, and it preserves the 1-troop minimum and upper-case colours |
| `MissaoEstrategica.FaseDeAtaque` | Missao_estrategica.c:303-346 | the verdict is `Validar` on the old map; a rejection leaves the map unchanged; an acceptance applies exactly one `Combate`; the 1-troop minimum and upper-case colours are preserved, and the player's count never drops |
| `MissaoEstrategica.Contem` | Missao_estrategica.c:196 | `strstr` finds the pattern at some position of the text; a pattern that is found is never longer than the text |
| `MissaoEstrategica.ContemNoInicio` | Missao_estrategica.c:196 | as with `strstr`, the empty pattern is found in every text, and every text is found in itself |
| `MissaoEstrategica.Classificar` | Missao_estrategica.c:196-228 | the ordered dispatch of `verificarMissao`; a text is unknown (the final `return 0`) exactly when none of the five searches succeeds |
| `MissaoEstrategica.Cumprida` | Missao_estrategica.c:204-225 | the five return expressions: no VERDE territory; the player's count equals the map size; at least 3 of the player's; at least 3 with more than 5 troops; at least 4. An unknown mission is never met; the high-troops mission implies 3 territories of the player; the whole-map mission on a non-empty map implies at least one |
| `MissaoEstrategica.ClassificarPorBusca` | Missao_estrategica.c:196-228 | a mission kind is chosen exactly when its text is found and no earlier text is; a text with none of the five is unknown |
| `MissaoEstrategica.VerdeTemPrioridade` | Missao_estrategica.c:196-205 | a text containing the VERDE wording is met iff no territory's colour is "VERDE", whatever else it contains |
| `MissaoEstrategica.ContaTropasAltas` | Missao_estrategica.c:215-220 | the territories of the player with more than 5 troops are never more than the player's territories |
| `MissaoEstrategica.DominarSsePossuiTudo` | Missao_estrategica.c:207-209 | "Dominar o mapa inteiro" is met iff the player holds every territory |
| `MissaoEstrategica.DominarImplicaContagens` | Missao_estrategica.c:207-226 | on a map of at least 5 territories, meeting the whole-map mission also meets the 3-territory and 4-territory missions |
| `MissaoEstrategica.ContagemPersiste` | Missao_estrategica.c:211-226 | a territory-count mission that is met stays met after any validated attack |
| `MissaoEstrategica.ContarTerritoriosJogador` | Missao_estrategica.c:189-194 | the counting loop returns the number of the player's territories |
| `MissaoEstrategica.ExisteCor` | Missao_estrategica.c:197-203 | the search with early exit reports true iff some territory has the colour |
| `MissaoEstrategica.ContarTropasAltas` | Missao_estrategica.c:215-220 | the loop counts the player's territories with more than 5 troops |
| `MissaoEstrategica.VerificarMissao` | Missao_estrategica.c:184-229 | the verdict is `Cumprida` of the mission kind that the first matching search selects in the buffer's C string (up to its first NUL); unknown text is never met |
| `MissaoEstrategica.TextoC` | Missao_estrategica.c:172-173 | the C string held by a buffer is the prefix before its first NUL: it has no NUL, and the buffer either ends there or holds a NUL right after it |
| `MissaoEstrategica.Strncpy` | Missao_estrategica.c:172 | `strncpy` writes exactly n characters, and the C string it leaves is the source text cut to n characters |
| `MissaoEstrategica.StrlenExato` | Missao_estrategica.c:172-173 | a buffer whose first NUL is at n (or which has none and length n) has C-string length n |
| `MissaoEstrategica.AtribuirMissao` | Missao_estrategica.c:169-174 | the drawn index is `rand() % totalMissoes`, in range; the buffer holds the entry cut to 99 characters and NUL-terminated |
| `MissaoEstrategica.NaoContem` | Missao_estrategica.c:196 | `strstr` cannot find a pattern whose first character does not occur in the text |
| `MissaoEstrategica.CatalogoSeguidos` | Missao_estrategica.c:60 | catalogue entry 0 has no NUL and is classified as the 4-territory mission |
| `MissaoEstrategica.CatalogoVerde` | Missao_estrategica.c:61 | catalogue entry 1 has no NUL and is classified as the eliminate-VERDE mission |
| `MissaoEstrategica.CatalogoTotalDeTres` | Missao_estrategica.c:62 | catalogue entry 2 has no NUL and is classified as the 3-territory mission |
| `MissaoEstrategica.TropasAltasNaoEhOutra` | Missao_estrategica.c:63 | catalogue entry 3 contains none of the three texts that are searched before its own |
| `MissaoEstrategica.CatalogoTropasAltas` | Missao_estrategica.c:63 | catalogue entry 3 has no NUL and is classified as the high-troops mission |
| `MissaoEstrategica.CatalogoDominar` | Missao_estrategica.c:64 | catalogue entry 4 has no NUL and is classified as the whole-map mission |
| `MissaoEstrategica.CatalogoClassificado` | Missao_estrategica.c:59-65 | every catalogue entry fits the 99-character copy whole, and names the mission its wording suggests; none is unknown |
| `MissaoEstrategica.MissaoAtribuidaClassificada` | Missao_estrategica.c:169-174 | the buffer filled from any catalogue entry holds that entry whole, and its C string is judged as the mission the entry names |

## Findings

| source | as written | input that shows it | evidently intended | confidence | as-written member | corrected member |
|---|---|---|---|---|---|---|
| Batalha.c:264-265 (same at Missao_estrategica.c:360-361) | `(defensor->tropas + 1) / 2` and the subtraction are computed in `int` | a defender registered with 2147483647 troops loses a round: `tropas + 1` overflows, the computed loss is −2^30, and the defender is left with −2^30−1 troops, so it is conquered at once | the defender keeps floor(t/2) troops, which is 1073741823 here, so there is no conquest | medium: signed overflow is undefined in C, and the values shown are what two's-complement wrap-around gives; not executed | `Territorios.TropasMaximasConquistadas` | `Territorios.TropasPerdidas` |

## Left out

- Terminal I/O: the prompts and messages, `scanf`/`fgets` parsing, `limparBufferEntrada`, `exibirMapa`, `exibirMissao`, the "press ENTER" pause, and the menu loops of both `main` functions. Only the decisions are modelled: the verdicts, the map updates and the size rules.
- Randomness: `srand`/`rand` and the uniform distribution of dice and mission draws. The raw values are parameters, and no probability is modelled.
- Memory: allocation failure of `calloc`/`malloc`, and `liberarMemoria`. Dafny allocation replaces them.
- Embedded NUL characters in names and colours: a name or colour is the content of its C string, and `strcmp` is `==` on it. A line typed with a NUL byte in it, which `strcmp` would cut short, is not modelled.
- C buffer limits: `MAX_STRING`/`MAX_COR` and `fgets` truncation of names and colours. Names and colours are unbounded strings. The 100-character mission buffer is modelled.
- Partial registration: when `fgets` fails after a name was read but before the colour was, the C code has already stored that name. In the model an entry is written whole or not at all.
- `toupper` locale behaviour: only ASCII `a`–`z` is mapped.
- Territorio.c is not part of this model. It reads and prints five records and has no game rule.
- Territorios.Mapa.Atacar: uses the unbounded integer rule and does not reproduce the 32-bit overflow at `INT_MAX` troops. That overflow is modelled separately under Findings. Every other troop value in the model is an unbounded `int`.
- Territorios.Mapa.Atacar: needs the two indices to differ. The C function, given the same territory as attacker and defender, would update one record through two aliases. Both callers rule this out beforehand.
