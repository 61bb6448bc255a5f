/*
 * The mission variant of the game (Missao_estrategica.c): the player plays
 * one colour, colours are stored upper-case, attacks must start from one of
 * the player's territories, and a secret mission drawn from a catalogue of
 * five decides victory.
 */
module MissaoEstrategica {
  import opened Territorios
  import Batalha

  // ---------------------------------------------------------------------------
  // Setup: map size, upper-casing, registration
  // ---------------------------------------------------------------------------

  /** The player's colour, stored upper-case like every registered colour. */
  const COR_JOGADOR := "AZUL"

  /** Map size asked of the player: anything unreadable or below 5 becomes 5. */
  function TamanhoDoMapa(lido: Option<int>): (n: int)
    ensures n >= 5
    ensures lido.Some? && lido.value >= 5 ==> n == lido.value
    ensures lido.None? || lido.value < 5 ==> n == 5
  {
    if lido.None? || lido.value < 5 then 5 else lido.value
  }

  predicate EhMinuscula(c: char) { 'a' <= c <= 'z' }
  predicate EhMaiuscula(c: char) { 'A' <= c <= 'Z' }

  /** `toupper` restricted to ASCII: `a`..`z` map to `A`..`Z`, every other character is kept. */
  function Maiuscula(c: char): (u: char)
    ensures !EhMinuscula(u)
    ensures EhMinuscula(c) || EhMaiuscula(c) ==> EhMaiuscula(u)
    ensures EhMinuscula(c) ==> u as int == c as int - 32
    ensures !EhMinuscula(c) ==> u == c
  {
    if EhMinuscula(c) then (c as int - 32) as char else c
  }

  /** `strlen`: the number of characters before the first NUL of a buffer (all of them if none). */
  function Strlen(s: seq<char>): (n: nat)
    ensures n <= |s|
    ensures forall k :: 0 <= k < n ==> s[k] != '\0'
    ensures n < |s| ==> s[n] == '\0'
  {
    if s == [] || s[0] == '\0' then 0 else 1 + Strlen(s[1..])
  }

  /**
   * What `toUpperString` leaves in a character buffer: every character
   * before the first NUL upper-cased, the NUL and what follows it untouched.
   */
  function MaiusculasAteNul(s: seq<char>): (r: seq<char>)
    ensures |r| == |s|
    ensures forall k :: 0 <= k < |s| ==> r[k] == if k < Strlen(s) then Maiuscula(s[k]) else s[k]
  {
    if s == [] || s[0] == '\0' then s
    else [Maiuscula(s[0])] + MaiusculasAteNul(s[1..])
  }

  /** Upper-casing twice is upper-casing once. */
  lemma {:induction false} MaiusculasIdempotente(s: seq<char>)
    ensures MaiusculasAteNul(MaiusculasAteNul(s)) == MaiusculasAteNul(s)
  {
    if s != [] && s[0] != '\0' {
      MaiusculasIdempotente(s[1..]);
      assert MaiusculasAteNul(s)[1..] == MaiusculasAteNul(s[1..]);
    }
  }

  /** After upper-casing, no character of the C string is a lower-case letter, and every letter is upper-case. */
  lemma MaiusculasSemMinusculas(s: seq<char>, k: nat)
    requires k < Strlen(s)
    ensures !EhMinuscula(MaiusculasAteNul(s)[k])
    ensures EhMinuscula(s[k]) || EhMaiuscula(s[k]) ==> EhMaiuscula(MaiusculasAteNul(s)[k])
  {
  }

  /** Upper-casing never creates or removes a NUL, so the C string keeps its length. */
  lemma StrlenMaiusculas(s: seq<char>)
    ensures Strlen(MaiusculasAteNul(s)) == Strlen(s)
  {
    StrlenExato(MaiusculasAteNul(s), Strlen(s));
  }

  /** A stored colour is upper-case: no lower-case letter before its NUL. */
  predicate CorMaiuscula(cor: string)
  {
    forall j :: 0 <= j < Strlen(cor) ==> !EhMinuscula(cor[j])
  }

  /** Every colour on the map is stored upper-case. */
  predicate CoresMaiusculas(m: seq<Territorio>)
  {
    forall k :: 0 <= k < |m| ==> CorMaiuscula(m[k].cor)
  }

  /** A colour upper-cased at registration is stored upper-case. */
  lemma CorRegistradaMaiuscula(cor: string)
    ensures CorMaiuscula(MaiusculasAteNul(cor))
  {
    StrlenMaiusculas(cor);
  }

  /**
   * The player's colour is stored upper-case, and whatever mix of cases of
   * "azul" is typed at registration is stored as the player's colour.
   */
  lemma CorDoJogadorRegistravel(cor: string)
    requires |cor| == |COR_JOGADOR| && forall j :: 0 <= j < |cor| ==> Maiuscula(cor[j]) == COR_JOGADOR[j]
    ensures CorMaiuscula(COR_JOGADOR)
    ensures MaiusculasAteNul(cor) == COR_JOGADOR
  {
    StrlenExato(cor, |cor|);
    StrlenExato(COR_JOGADOR, |COR_JOGADOR|);
  }

  /** `toUpperString`: upper-cases the buffer in place up to its NUL terminator. */
  method ToUpperString(str: array<char>)
    modifies str
    ensures str[..] == MaiusculasAteNul(old(str[..]))
  {
    var i := 0;
    while i < str.Length && str[i] != '\0'
      invariant i <= Strlen(old(str[..]))
      invariant forall k :: 0 <= k < i ==> str[k] == Maiuscula(old(str[k]))
      invariant forall k :: i <= k < str.Length ==> str[k] == old(str[k])
    {
      str[i] := Maiuscula(str[i]);
      i := i + 1;
    }
  }

  /** The territory stored for one registration entry: colour upper-cased, troops clamped to at least 1. */
  function Registro(e: Entrada): Territorio
  {
    Territorio(e.nome, MaiusculasAteNul(e.cor), TropasIniciais(e.tropas))
  }

  /**
   * `cadastrarTerritorios`: fills the map in order from the entries; when the
   * input ends early the remaining territories keep their zeroed state.
   */
  method CadastrarTerritorios(mapa: Mapa, entradas: seq<Entrada>)
    modifies mapa.territorios
    ensures forall k :: 0 <= k < mapa.territorios.Length ==>
      mapa.territorios[k] == if k < |entradas| then Registro(entradas[k]) else old(mapa.territorios[k])
    ensures |entradas| >= mapa.territorios.Length ==> TropasPositivas(mapa.Estado())
    ensures |entradas| >= mapa.territorios.Length ==> CoresMaiusculas(mapa.Estado())
    ensures CoresMaiusculas(old(mapa.Estado())) ==> CoresMaiusculas(mapa.Estado())
  {
    var i := 0;
    while i < mapa.territorios.Length && i < |entradas|
      invariant 0 <= i <= mapa.territorios.Length && i <= |entradas|
      invariant forall k :: 0 <= k < mapa.territorios.Length ==>
        mapa.territorios[k] == if k < i then Registro(entradas[k]) else old(mapa.territorios[k])
    {
      var e := entradas[i];
      var cor := new char[|e.cor|](j requires 0 <= j < |e.cor| => e.cor[j]);
      assert cor[..] == e.cor;
      ToUpperString(cor);
      mapa.territorios[i] := Territorio(e.nome, cor[..], TropasIniciais(e.tropas));
      i := i + 1;
    }
    RegistroPreservaInvariantes(old(mapa.Estado()), mapa.Estado(), entradas);
  }

  /**
   * A map whose first entries were registered and whose other entries were
   * left as they were: the registered colours are upper-case, and a
   * complete registration leaves every territory with troops.
   */
  lemma RegistroPreservaInvariantes(antes: seq<Territorio>, depois: seq<Territorio>, entradas: seq<Entrada>)
    requires |depois| == |antes|
    requires forall k :: 0 <= k < |depois| ==>
      depois[k] == if k < |entradas| then Registro(entradas[k]) else antes[k]
    ensures |entradas| >= |depois| ==> TropasPositivas(depois)
    ensures |entradas| >= |depois| ==> CoresMaiusculas(depois)
    ensures CoresMaiusculas(antes) ==> CoresMaiusculas(depois)
  {
    forall k | 0 <= k < |depois| && k < |entradas| ensures CorMaiuscula(depois[k].cor) {
      CorRegistradaMaiuscula(entradas[k].cor);
    }
  }

  // ---------------------------------------------------------------------------
  // Attack phase
  // ---------------------------------------------------------------------------

  /** Every check of the attack phase passes. */
  predicate AtaqueValido(m: seq<Territorio>, idAtacante: int, idDefensor: int, corJogador: string)
  {
    && 1 <= idAtacante <= |m| && 1 <= idDefensor <= |m|
    && idAtacante != idDefensor
    && m[idAtacante - 1].cor == corJogador
    && m[idAtacante - 1].tropas > 1
    && m[idAtacante - 1].cor != m[idDefensor - 1].cor
  }

  /** The validation chain of `faseDeAtaque`, with the 1-based IDs typed by the player. */
  function Validar(m: seq<Territorio>, idAtacante: int, idDefensor: int, corJogador: string): (r: Validacao)
    ensures r.Aceito? <==> AtaqueValido(m, idAtacante, idDefensor, corJogador)
    ensures r.Aceito? ==> r.ia == idAtacante - 1 && r.id == idDefensor - 1
  {
    if idAtacante < 1 || idAtacante > |m| then Rejeitado(AtacanteInvalido)
    else if idDefensor < 1 || idDefensor > |m| then Rejeitado(DefensorInvalido)
    else
      var ia := idAtacante - 1;
      var id := idDefensor - 1;
      if ia == id then Rejeitado(ProprioTerritorio)
      else if m[ia].cor != corJogador then Rejeitado(NaoEhDoJogador)
      else if m[ia].tropas <= 1 then Rejeitado(TropasInsuficientes)
      else if m[ia].cor == m[id].cor then Rejeitado(MesmoExercito)
      else Aceito(ia, id)
  }

  /** Each reason is reported exactly when its check is the first to fail. */
  lemma ValidarOrdem(m: seq<Territorio>, idA: int, idD: int, jogador: string)
    ensures Validar(m, idA, idD, jogador) == Rejeitado(AtacanteInvalido)
      <==> !(1 <= idA <= |m|)
    ensures Validar(m, idA, idD, jogador) == Rejeitado(DefensorInvalido)
      <==> 1 <= idA <= |m| && !(1 <= idD <= |m|)
    ensures Validar(m, idA, idD, jogador) == Rejeitado(ProprioTerritorio)
      <==> 1 <= idA <= |m| && 1 <= idD <= |m| && idA == idD
    ensures Validar(m, idA, idD, jogador) == Rejeitado(NaoEhDoJogador)
      <==> 1 <= idA <= |m| && 1 <= idD <= |m| && idA != idD && m[idA - 1].cor != jogador
    ensures Validar(m, idA, idD, jogador) == Rejeitado(TropasInsuficientes)
      <==> 1 <= idA <= |m| && 1 <= idD <= |m| && idA != idD && m[idA - 1].cor == jogador
           && m[idA - 1].tropas <= 1
    ensures Validar(m, idA, idD, jogador) == Rejeitado(MesmoExercito)
      <==> 1 <= idA <= |m| && 1 <= idD <= |m| && idA != idD && m[idA - 1].cor == jogador
           && m[idA - 1].tropas > 1 && m[idA - 1].cor == m[idD - 1].cor
  {
  }

  /**
   * The mission variant validates as the basic one with the player-colour
   * check added: it gives the basic verdict unless that check is the first
   * to fail, and accepts exactly when the basic one does and the attacker is
   * the player's.
   */
  lemma ValidarEstendeBatalha(m: seq<Territorio>, idA: int, idD: int, jogador: string)
    ensures Validar(m, idA, idD, jogador) == Rejeitado(NaoEhDoJogador)
         || Validar(m, idA, idD, jogador) == Batalha.Validar(m, idA, idD)
    ensures Validar(m, idA, idD, jogador).Aceito?
        <==> Batalha.Validar(m, idA, idD).Aceito? && m[idA - 1].cor == jogador
  {
  }

  /** A validated attack keeps every territory at 1 troop or more. */
  lemma AtaqueValidoPreservaMinimo(m: seq<Territorio>, idA: int, idD: int, jogador: string, dadoA: int, dadoD: int)
    requires TropasPositivas(m) && AtaqueValido(m, idA, idD, jogador)
    ensures TropasPositivas(Combate(m, idA - 1, idD - 1, dadoA, dadoD))
  {
    CombatePreservaMinimo(m, idA - 1, idD - 1, dadoA, dadoD);
  }

  /**
   * A validated attack never lowers the player's territory count, and raises
   * it by exactly one when the defender is conquered.
   */
  lemma {:induction false} ContagemDoJogador(m: seq<Territorio>, idA: int, idD: int, jogador: string, dadoA: int, dadoD: int)
    requires AtaqueValido(m, idA, idD, jogador)
    ensures ContaCor(Combate(m, idA - 1, idD - 1, dadoA, dadoD), jogador)
         == ContaCor(m, jogador) + (if HaConquista(m[idD - 1], dadoA, dadoD) then 1 else 0)
  {
    var ia, id := idA - 1, idD - 1;
    var novos := Rodada(m[ia], m[id], dadoA, dadoD);
    ContaCorAtualiza(m, ia, novos.0, jogador);
    ContaCorAtualiza(m[ia := novos.0], id, novos.1, jogador);
    if HaConquista(m[id], dadoA, dadoD) {
      ConquistaTerritorio(m[ia], m[id], dadoA, dadoD);
    } else if dadoA > dadoD {
      VitoriaSemConquista(m[ia], m[id], dadoA, dadoD);
    } else {
      DerrotaOuEmpate(m[ia], m[id], dadoA, dadoD);
    }
  }

  /** What the attack phase promises of an accepted attack, in one place. */
  lemma AtaqueAceito(m: seq<Territorio>, idA: int, idD: int, jogador: string, dadoA: int, dadoD: int)
    requires AtaqueValido(m, idA, idD, jogador)
    ensures TropasPositivas(m) ==> TropasPositivas(Combate(m, idA - 1, idD - 1, dadoA, dadoD))
    ensures ContaCor(Combate(m, idA - 1, idD - 1, dadoA, dadoD), jogador) >= ContaCor(m, jogador)
    ensures CoresMaiusculas(m) ==> CoresMaiusculas(Combate(m, idA - 1, idD - 1, dadoA, dadoD))
  {
    if TropasPositivas(m) {
      AtaqueValidoPreservaMinimo(m, idA, idD, jogador, dadoA, dadoD);
    }
    ContagemDoJogador(m, idA, idD, jogador, dadoA, dadoD);
    if CoresMaiusculas(m) {
      CombatePreservaMaiusculas(m, idA - 1, idD - 1, dadoA, dadoD);
    }
  }

  /**
   * A round only ever copies the attacker's colour onto the defender, so a
   * map whose colours are all upper-case stays so after any round.
   */
  lemma CombatePreservaMaiusculas(m: seq<Territorio>, ia: nat, id: nat, dadoA: int, dadoD: int)
    requires ia < |m| && id < |m| && ia != id
    requires CoresMaiusculas(m)
    ensures CoresMaiusculas(Combate(m, ia, id, dadoA, dadoD))
  {
    var r := Combate(m, ia, id, dadoA, dadoD);
    forall k | 0 <= k < |r| ensures CorMaiuscula(r[k].cor) {
      assert r[k].cor == m[k].cor || r[k].cor == m[ia].cor;
    }
  }

  /**
   * `faseDeAtaque` without its terminal I/O: validates the typed IDs and,
   * when every check passes, runs one round with the given dice.
   */
  method FaseDeAtaque(mapa: Mapa, idAtacante: int, idDefensor: int, corJogador: string, dadoA: int, dadoD: int)
    returns (r: Validacao)
    requires 1 <= dadoA <= 6 && 1 <= dadoD <= 6
    modifies mapa.territorios
    ensures r == Validar(old(mapa.Estado()), idAtacante, idDefensor, corJogador)
    ensures r.Rejeitado? ==> mapa.Estado() == old(mapa.Estado())
    ensures r.Aceito? ==> mapa.Estado() == Combate(old(mapa.Estado()), r.ia, r.id, dadoA, dadoD)
    ensures TropasPositivas(old(mapa.Estado())) ==> TropasPositivas(mapa.Estado())
    ensures ContaCor(mapa.Estado(), corJogador) >= ContaCor(old(mapa.Estado()), corJogador)
    ensures CoresMaiusculas(old(mapa.Estado())) ==> CoresMaiusculas(mapa.Estado())
  {
    var tamanho := mapa.territorios.Length;
    if idAtacante < 1 || idAtacante > tamanho {
      r := Rejeitado(AtacanteInvalido);
    } else if idDefensor < 1 || idDefensor > tamanho {
      r := Rejeitado(DefensorInvalido);
    } else {
      var ia := idAtacante - 1;
      var id := idDefensor - 1;
      if ia == id {
        r := Rejeitado(ProprioTerritorio);
      } else if mapa.territorios[ia].cor != corJogador {
        r := Rejeitado(NaoEhDoJogador);
      } else if mapa.territorios[ia].tropas <= 1 {
        r := Rejeitado(TropasInsuficientes);
      } else if mapa.territorios[ia].cor == mapa.territorios[id].cor {
        r := Rejeitado(MesmoExercito);
      } else {
        AtaqueAceito(mapa.Estado(), idAtacante, idDefensor, corJogador, dadoA, dadoD);
        mapa.Atacar(ia, id, dadoA, dadoD);
        r := Aceito(ia, id);
      }
    }
  }

  // ---------------------------------------------------------------------------
  // Missions
  // ---------------------------------------------------------------------------

  /** The texts `verificarMissao` searches for, in the order it searches. */
  const TEXTO_VERDE := "Eliminar todas as tropas da cor VERDE"
  const TEXTO_DOMINAR := "Dominar o mapa inteiro"
  const TEXTO_TOTAL_3 := "Conquistar um total de 3 territorios"
  const TEXTO_TROPAS := "territorios tenham mais de 5 tropas"
  const TEXTO_SEGUIDOS := "Conquistar 4 territorios seguidos"

  /**
   * The five mission texts, in catalogue order. Each is written as the text
   * `verificarMissao` searches for plus the rest of the sentence; the
   * strings are the catalogue's own.
   */
  const MISSOES: seq<string> := [
    TEXTO_SEGUIDOS + ".",
    TEXTO_VERDE + ".",
    TEXTO_TOTAL_3 + " no mapa.",
    "Garantir que pelo menos 3 de seus " + TEXTO_TROPAS + ".",
    TEXTO_DOMINAR + " (todos os territorios)."
  ]

  /** Size of the mission buffer; `strncpy` copies at most one less. */
  const MAX_MISSAO_LEN := 100

  /** The kinds of mission, and a text that is none of them. */
  datatype Missao = QuatroSeguidos | EliminarVerde | TotalDeTres | TropasAltas | DominarMapa | Desconhecida

  /** `strstr(texto, padrao) != NULL`. */
  predicate Contem(texto: string, padrao: string)
    ensures Contem(texto, padrao) ==> |padrao| <= |texto|
  {
    exists k :: 0 <= k <= |texto| - |padrao| && OcorreEm(texto, padrao, k)
  }

  /** Like `strstr`, the empty pattern is found in every text, and every text is found in itself. */
  lemma ContemNoInicio(texto: string, padrao: string)
    requires padrao == [] || padrao == texto
    ensures Contem(texto, padrao)
  {
    assert OcorreEm(texto, padrao, 0);
  }

  /** `padrao` appears in `texto` starting at position `k`. */
  predicate OcorreEm(texto: string, padrao: string, k: int)
  {
    0 <= k && k + |padrao| <= |texto| && texto[k..k + |padrao|] == padrao
  }

  /** The mission a text stands for, by the first of the five searches that succeeds. */
  function Classificar(texto: string): (r: Missao)
    ensures r == Desconhecida <==>
      && !Contem(texto, TEXTO_VERDE) && !Contem(texto, TEXTO_DOMINAR) && !Contem(texto, TEXTO_TOTAL_3)
      && !Contem(texto, TEXTO_TROPAS) && !Contem(texto, TEXTO_SEGUIDOS)
  {
    if Contem(texto, TEXTO_VERDE) then EliminarVerde
    else if Contem(texto, TEXTO_DOMINAR) then DominarMapa
    else if Contem(texto, TEXTO_TOTAL_3) then TotalDeTres
    else if Contem(texto, TEXTO_TROPAS) then TropasAltas
    else if Contem(texto, TEXTO_SEGUIDOS) then QuatroSeguidos
    else Desconhecida
  }

  /** Each kind is chosen exactly when its text is found and no earlier text is. */
  lemma ClassificarPorBusca(texto: string)
    ensures Classificar(texto) == EliminarVerde <==> Contem(texto, TEXTO_VERDE)
    ensures Classificar(texto) == DominarMapa
      <==> !Contem(texto, TEXTO_VERDE) && Contem(texto, TEXTO_DOMINAR)
    ensures Classificar(texto) == TotalDeTres
      <==> !Contem(texto, TEXTO_VERDE) && !Contem(texto, TEXTO_DOMINAR) && Contem(texto, TEXTO_TOTAL_3)
    ensures Classificar(texto) == TropasAltas
      <==> !Contem(texto, TEXTO_VERDE) && !Contem(texto, TEXTO_DOMINAR) && !Contem(texto, TEXTO_TOTAL_3)
           && Contem(texto, TEXTO_TROPAS)
    ensures Classificar(texto) == QuatroSeguidos
      <==> !Contem(texto, TEXTO_VERDE) && !Contem(texto, TEXTO_DOMINAR) && !Contem(texto, TEXTO_TOTAL_3)
           && !Contem(texto, TEXTO_TROPAS) && Contem(texto, TEXTO_SEGUIDOS)
    ensures Classificar(texto) == Desconhecida
      <==> !Contem(texto, TEXTO_VERDE) && !Contem(texto, TEXTO_DOMINAR) && !Contem(texto, TEXTO_TOTAL_3)
           && !Contem(texto, TEXTO_TROPAS) && !Contem(texto, TEXTO_SEGUIDOS)
  {
  }

  /**
   * The VERDE search runs first: a text that contains it is judged only by
   * whether some territory is still VERDE, whatever else it contains.
   */
  lemma VerdeTemPrioridade(texto: string, m: seq<Territorio>, jogador: string)
    requires Contem(texto, TEXTO_VERDE)
    ensures Cumprida(Classificar(texto), m, jogador) <==> forall k :: 0 <= k < |m| ==> m[k].cor != "VERDE"
  {
  }

  /** Territories of colour `cor` holding more than 5 troops (the `count_tropas_altas` loop). */
  function ContaTropasAltas(m: seq<Territorio>, cor: string): (n: nat)
    ensures n <= ContaCor(m, cor)
  {
    if |m| == 0 then 0
    else
      var ultimo := m[|m| - 1];
      ContaTropasAltas(m[..|m| - 1], cor) + (if ultimo.cor == cor && ultimo.tropas > 5 then 1 else 0)
  }

  /** Whether a mission of the given kind is met by the map for the player's colour. */
  predicate Cumprida(missao: Missao, m: seq<Territorio>, jogador: string)
    ensures Cumprida(missao, m, jogador) ==> missao != Desconhecida
    ensures Cumprida(missao, m, jogador) && missao == TropasAltas ==> ContaCor(m, jogador) >= 3
    ensures Cumprida(missao, m, jogador) && missao == DominarMapa && |m| > 0 ==> ContaCor(m, jogador) > 0
  {
    match missao
    case EliminarVerde => forall k :: 0 <= k < |m| ==> m[k].cor != "VERDE"
    case DominarMapa => ContaCor(m, jogador) == |m|
    case TotalDeTres => ContaCor(m, jogador) >= 3
    case TropasAltas => ContaTropasAltas(m, jogador) >= 3
    case QuatroSeguidos => ContaCor(m, jogador) >= 4
    case Desconhecida => false
  }

  /** "Dominar o mapa inteiro" holds exactly when the player holds every territory. */
  lemma DominarSsePossuiTudo(m: seq<Territorio>, jogador: string)
    ensures Cumprida(DominarMapa, m, jogador) <==> forall k :: 0 <= k < |m| ==> m[k].cor == jogador
  {
    ContaCorTotal(m, jogador);
  }

  /** Dominating a map of 5 or more territories also meets both territory-count missions. */
  lemma DominarImplicaContagens(m: seq<Territorio>, jogador: string)
    requires |m| >= 5 && Cumprida(DominarMapa, m, jogador)
    ensures Cumprida(TotalDeTres, m, jogador) && Cumprida(QuatroSeguidos, m, jogador)
  {
  }

  /** A territory-count mission once met stays met after any validated attack. */
  lemma ContagemPersiste(missao: Missao, m: seq<Territorio>, idA: int, idD: int, jogador: string, dadoA: int, dadoD: int)
    requires missao == TotalDeTres || missao == QuatroSeguidos
    requires AtaqueValido(m, idA, idD, jogador) && Cumprida(missao, m, jogador)
    ensures Cumprida(missao, Combate(m, idA - 1, idD - 1, dadoA, dadoD), jogador)
  {
    ContagemDoJogador(m, idA, idD, jogador, dadoA, dadoD);
  }

  /** The `count_territorios_jogador` loop of `verificarMissao`. */
  method ContarTerritoriosJogador(m: array<Territorio>, corJogador: string) returns (count: nat)
    ensures count == ContaCor(m[..], corJogador)
  {
    count := 0;
    var i := 0;
    while i < m.Length
      invariant 0 <= i <= m.Length
      invariant count == ContaCor(m[..i], corJogador)
    {
      assert m[..i + 1][..i] == m[..i];
      if m[i].cor == corJogador {
        count := count + 1;
      }
      i := i + 1;
    }
    assert m[..i] == m[..];
  }

  /** The `inimigo_verde_existe` search of `verificarMissao`, which stops at the first match. */
  method ExisteCor(m: array<Territorio>, cor: string) returns (existe: bool)
    ensures existe <==> exists k :: 0 <= k < m.Length && m[k].cor == cor
  {
    existe := false;
    var i := 0;
    while i < m.Length
      invariant 0 <= i <= m.Length && !existe
      invariant forall k :: 0 <= k < i ==> m[k].cor != cor
    {
      if m[i].cor == cor {
        existe := true;
        break;
      }
      i := i + 1;
    }
  }

  /** The `count_tropas_altas` loop of `verificarMissao`. */
  method ContarTropasAltas(m: array<Territorio>, corJogador: string) returns (count: nat)
    ensures count == ContaTropasAltas(m[..], corJogador)
  {
    count := 0;
    var i := 0;
    while i < m.Length
      invariant 0 <= i <= m.Length
      invariant count == ContaTropasAltas(m[..i], corJogador)
    {
      assert m[..i + 1][..i] == m[..i];
      if m[i].cor == corJogador && m[i].tropas > 5 {
        count := count + 1;
      }
      i := i + 1;
    }
    assert m[..i] == m[..];
  }

  /**
   * `verificarMissao`: counts the player's territories, then runs the
   * searches in order and evaluates the first mission whose text is found;
   * a text matching none of them is never met. `strstr` reads the mission
   * buffer only up to its first NUL.
   */
  method VerificarMissao(missao: seq<char>, mapa: Mapa, corJogador: string) returns (cumprida: bool)
    ensures cumprida == Cumprida(Classificar(TextoC(missao)), mapa.Estado(), corJogador)
  {
    var tamanho := mapa.territorios.Length;
    var countTerritoriosJogador := ContarTerritoriosJogador(mapa.territorios, corJogador);
    var texto := TextoC(missao);

    if Contem(texto, TEXTO_VERDE) {
      var inimigoVerdeExiste := ExisteCor(mapa.territorios, "VERDE");
      return !inimigoVerdeExiste;
    }
    if Contem(texto, TEXTO_DOMINAR) {
      return countTerritoriosJogador == tamanho;
    }
    if Contem(texto, TEXTO_TOTAL_3) {
      return countTerritoriosJogador >= 3;
    }
    if Contem(texto, TEXTO_TROPAS) {
      var countTropasAltas := ContarTropasAltas(mapa.territorios, corJogador);
      return countTropasAltas >= 3;
    }
    if Contem(texto, TEXTO_SEGUIDOS) {
      return countTerritoriosJogador >= 4;
    }
    return false;
  }

  // ---------------------------------------------------------------------------
  // Mission assignment
  // ---------------------------------------------------------------------------

  /** The C string held by a buffer: its characters up to the first NUL. */
  function TextoC(s: seq<char>): (t: seq<char>)
    ensures '\0' !in t
    ensures |t| <= |s| && t == s[..|t|]
    ensures |t| < |s| ==> s[|t|] == '\0'
  {
    s[..Strlen(s)]
  }

  function Min(a: int, b: int): int { if a <= b then a else b }

  /**
   * The `n` characters `strncpy` writes: the source text, cut to `n`
   * characters, padded with NULs.
   */
  function Strncpy(origem: seq<char>, n: nat): (r: seq<char>)
    ensures |r| == n
    ensures TextoC(r) == TextoC(origem)[..Min(Strlen(origem), n)]
  {
    var r := seq(n, k requires 0 <= k < n => if k < Strlen(origem) then origem[k] else '\0');
    StrlenExato(r, Min(Strlen(origem), n));
    r
  }

  /** A buffer whose first NUL is at `n` (or that has none and length `n`) has length `n` as a C string. */
  lemma StrlenExato(s: seq<char>, n: nat)
    requires n <= |s| && forall k :: 0 <= k < n ==> s[k] != '\0'
    requires n < |s| ==> s[n] == '\0'
    ensures Strlen(s) == n
  {
  }

  /**
   * `atribuirMissao`: draws the catalogue index `rand() % totalMissoes` and
   * copies that mission into the 100-character buffer, cut to 99 characters
   * and NUL-terminated.
   */
  method AtribuirMissao(destino: array<char>, missoes: seq<string>, aleatorio: int) returns (indice: nat)
    requires destino.Length == MAX_MISSAO_LEN
    requires |missoes| > 0 && aleatorio >= 0
    modifies destino
    ensures indice < |missoes| && indice == aleatorio % |missoes|
    ensures destino[..] == Strncpy(missoes[indice], MAX_MISSAO_LEN - 1) + ['\0']
    ensures TextoC(destino[..]) == TextoC(missoes[indice])[..Min(Strlen(missoes[indice]), MAX_MISSAO_LEN - 1)]
  {
    indice := aleatorio % |missoes|;
    var origem := missoes[indice];
    var n := MAX_MISSAO_LEN - 1;
    var j := 0;
    while j < n && j < |origem| && origem[j] != '\0'
      invariant j <= n && j <= Strlen(origem)
      invariant forall k :: 0 <= k < j ==> destino[k] == origem[k]
    {
      destino[j] := origem[j];
      j := j + 1;
    }
    while j < n
      invariant j <= n
      invariant forall k :: 0 <= k < j ==> destino[k] == Strncpy(origem, n)[k]
    {
      destino[j] := '\0';
      j := j + 1;
    }
    destino[n] := '\0';
    assert destino[..] == Strncpy(origem, n) + ['\0'];
    StrlenExato(destino[..], Strlen(Strncpy(origem, n)));
  }

  /** A pattern whose first character does not occur in a text is not found in it. */
  lemma NaoContem(texto: string, padrao: string)
    requires |padrao| > 0 && forall k :: 0 <= k < |texto| ==> texto[k] != padrao[0]
    ensures !Contem(texto, padrao)
  {
    forall k | 0 <= k <= |texto| - |padrao| ensures !OcorreEm(texto, padrao, k) {
      assert texto[k..k + |padrao|][0] == texto[k];
    }
  }

  /** "Conquistar 4 territorios seguidos." is the four-territories mission. */
  lemma CatalogoSeguidos()
    ensures Strlen(MISSOES[0]) == |MISSOES[0]|
    ensures Classificar(MISSOES[0]) == QuatroSeguidos
  {
    var texto := MISSOES[0];
    assert forall k :: 0 <= k < |texto| ==> texto[k] != '\0' && texto[k] != 'D';
    StrlenExato(texto, |texto|);
    NaoContem(texto, TEXTO_DOMINAR);
    assert OcorreEm(texto, TEXTO_SEGUIDOS, 0);
  }

  /** "Eliminar todas as tropas da cor VERDE." is the eliminate-green mission. */
  lemma CatalogoVerde()
    ensures Strlen(MISSOES[1]) == |MISSOES[1]|
    ensures Classificar(MISSOES[1]) == EliminarVerde
  {
    var texto := MISSOES[1];
    assert forall k :: 0 <= k < |texto| ==> texto[k] != '\0';
    StrlenExato(texto, |texto|);
    assert OcorreEm(texto, TEXTO_VERDE, 0);
  }

  /** "Conquistar um total de 3 territorios no mapa." is the three-territories mission. */
  lemma CatalogoTotalDeTres()
    ensures Strlen(MISSOES[2]) == |MISSOES[2]|
    ensures Classificar(MISSOES[2]) == TotalDeTres
  {
    var texto := MISSOES[2];
    assert forall k :: 0 <= k < |texto| ==> texto[k] != '\0' && texto[k] != 'D' && texto[k] != 'E';
    StrlenExato(texto, |texto|);
    NaoContem(texto, TEXTO_VERDE);
    NaoContem(texto, TEXTO_DOMINAR);
    assert OcorreEm(texto, TEXTO_TOTAL_3, 0);
  }

  /** The high-troops mission text contains none of the three texts searched before its own. */
  lemma TropasAltasNaoEhOutra()
    ensures !Contem(MISSOES[3], TEXTO_VERDE)
    ensures !Contem(MISSOES[3], TEXTO_DOMINAR)
    ensures !Contem(MISSOES[3], TEXTO_TOTAL_3)
  {
    var texto := MISSOES[3];
    var prefixo := "Garantir que pelo menos 3 de seus ";
    assert forall k :: 0 <= k < |prefixo| ==> prefixo[k] != 'C' && prefixo[k] != 'D' && prefixo[k] != 'E';
    assert forall k :: 0 <= k < |TEXTO_TROPAS| ==>
      TEXTO_TROPAS[k] != 'C' && TEXTO_TROPAS[k] != 'D' && TEXTO_TROPAS[k] != 'E';
    NaoContem(texto, TEXTO_VERDE);
    NaoContem(texto, TEXTO_DOMINAR);
    NaoContem(texto, TEXTO_TOTAL_3);
  }

  /** "Garantir que pelo menos 3 de seus territorios tenham mais de 5 tropas." is the high-troops mission. */
  lemma CatalogoTropasAltas()
    ensures Strlen(MISSOES[3]) == |MISSOES[3]|
    ensures Classificar(MISSOES[3]) == TropasAltas
  {
    var texto := MISSOES[3];
    assert forall k :: 0 <= k < |texto| ==> texto[k] != '\0';
    StrlenExato(texto, |texto|);
    TropasAltasNaoEhOutra();
    assert OcorreEm(texto, TEXTO_TROPAS, |"Garantir que pelo menos 3 de seus "|);
  }

  /** "Dominar o mapa inteiro (todos os territorios)." is the whole-map mission. */
  lemma CatalogoDominar()
    ensures Strlen(MISSOES[4]) == |MISSOES[4]|
    ensures Classificar(MISSOES[4]) == DominarMapa
  {
    var texto := MISSOES[4];
    assert forall k :: 0 <= k < |texto| ==> texto[k] != '\0' && texto[k] != 'E';
    StrlenExato(texto, |texto|);
    NaoContem(texto, TEXTO_VERDE);
    assert OcorreEm(texto, TEXTO_DOMINAR, 0);
  }

  /**
   * Each catalogue entry is copied whole into the mission buffer and names
   * the mission its wording suggests; in particular none is unknown.
   */
  lemma CatalogoClassificado(i: nat)
    requires i < |MISSOES|
    ensures Strlen(MISSOES[i]) == |MISSOES[i]| < MAX_MISSAO_LEN - 1
    ensures Classificar(MISSOES[i]) == [QuatroSeguidos, EliminarVerde, TotalDeTres, TropasAltas, DominarMapa][i]
  {
    if i == 0 {
      CatalogoSeguidos();
    } else if i == 1 {
      CatalogoVerde();
    } else if i == 2 {
      CatalogoTotalDeTres();
    } else if i == 3 {
      CatalogoTropasAltas();
    } else {
      CatalogoDominar();
    }
  }

  /**
   * The mission buffer `atribuirMissao` fills from any catalogue entry holds
   * that entry whole, so `verificarMissao` judges it as the mission it names.
   */
  lemma MissaoAtribuidaClassificada(i: nat)
    requires i < |MISSOES|
    ensures TextoC(Strncpy(MISSOES[i], MAX_MISSAO_LEN - 1) + ['\0']) == MISSOES[i]
    ensures Classificar(TextoC(Strncpy(MISSOES[i], MAX_MISSAO_LEN - 1) + ['\0']))
      == [QuatroSeguidos, EliminarVerde, TotalDeTres, TropasAltas, DominarMapa][i]
  {
    CatalogoClassificado(i);
    var r := Strncpy(MISSOES[i], MAX_MISSAO_LEN - 1);
    StrlenExato(r + ['\0'], Strlen(r));
    StrlenExato(MISSOES[i], |MISSOES[i]|);
  }
}
