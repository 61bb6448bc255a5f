/*
 * The basic variant of the game (Batalha.c): no player colour and no
 * mission; any army may attack any other, and colours are stored as typed.
 */
module Batalha {
  import opened Territorios

  /** Map size asked of the player: unreadable or not positive ends the program (None). */
  function TamanhoDoMapa(lido: Option<int>): (r: Option<nat>)
    ensures r.Some? <==> lido.Some? && lido.value > 0
    ensures r.Some? ==> r.value == lido.value
  {
    if lido.None? || lido.value <= 0 then None else Some(lido.value)
  }

  /** The territory stored for one registration entry: troops clamped to at least 1. */
  function Registro(e: Entrada): Territorio
  {
    Territorio(e.nome, e.cor, TropasIniciais(e.tropas))
  }

  /**
   * `cadastrarTerritorios`: fills the map in order from the entries; when the
   * input ends early the remaining territories keep their zeroed state.
   */
  method CadastrarTerritorios(mapa: Mapa, entradas: seq<Entrada>)
    modifies mapa.territorios
    ensures forall k :: 0 <= k < mapa.territorios.Length ==>
      mapa.territorios[k] == if k < |entradas| then Registro(entradas[k]) else old(mapa.territorios[k])
    ensures |entradas| >= mapa.territorios.Length ==> TropasPositivas(mapa.Estado())
  {
    var i := 0;
    while i < mapa.territorios.Length && i < |entradas|
      invariant 0 <= i <= mapa.territorios.Length && i <= |entradas|
      invariant forall k :: 0 <= k < mapa.territorios.Length ==>
        mapa.territorios[k] == if k < i then Registro(entradas[k]) else old(mapa.territorios[k])
    {
      var e := entradas[i];
      mapa.territorios[i] := Territorio(e.nome, e.cor, TropasIniciais(e.tropas));
      i := i + 1;
    }
  }

  /** Every check of the attack phase passes; the attacker's colour is not constrained. */
  predicate AtaqueValido(m: seq<Territorio>, idAtacante: int, idDefensor: int)
  {
    && 1 <= idAtacante <= |m| && 1 <= idDefensor <= |m|
    && idAtacante != idDefensor
    && m[idAtacante - 1].tropas > 1
    && m[idAtacante - 1].cor != m[idDefensor - 1].cor
  }

  /** The validation chain of `faseDeAtaque`, with the 1-based IDs typed by the player. */
  function Validar(m: seq<Territorio>, idAtacante: int, idDefensor: int): (r: Validacao)
    ensures r.Aceito? <==> AtaqueValido(m, idAtacante, idDefensor)
    ensures r.Aceito? ==> r.ia == idAtacante - 1 && r.id == idDefensor - 1
    ensures r != Rejeitado(NaoEhDoJogador)
  {
    if idAtacante < 1 || idAtacante > |m| then Rejeitado(AtacanteInvalido)
    else if idDefensor < 1 || idDefensor > |m| then Rejeitado(DefensorInvalido)
    else
      var ia := idAtacante - 1;
      var id := idDefensor - 1;
      if ia == id then Rejeitado(ProprioTerritorio)
      else if m[ia].tropas <= 1 then Rejeitado(TropasInsuficientes)
      else if m[ia].cor == m[id].cor then Rejeitado(MesmoExercito)
      else Aceito(ia, id)
  }

  /** Each reason is reported exactly when its check is the first to fail. */
  lemma ValidarOrdem(m: seq<Territorio>, idA: int, idD: int)
    ensures Validar(m, idA, idD) == Rejeitado(AtacanteInvalido)
      <==> !(1 <= idA <= |m|)
    ensures Validar(m, idA, idD) == Rejeitado(DefensorInvalido)
      <==> 1 <= idA <= |m| && !(1 <= idD <= |m|)
    ensures Validar(m, idA, idD) == Rejeitado(ProprioTerritorio)
      <==> 1 <= idA <= |m| && 1 <= idD <= |m| && idA == idD
    ensures Validar(m, idA, idD) == Rejeitado(TropasInsuficientes)
      <==> 1 <= idA <= |m| && 1 <= idD <= |m| && idA != idD && m[idA - 1].tropas <= 1
    ensures Validar(m, idA, idD) == Rejeitado(MesmoExercito)
      <==> 1 <= idA <= |m| && 1 <= idD <= |m| && idA != idD && m[idA - 1].tropas > 1
           && m[idA - 1].cor == m[idD - 1].cor
  {
  }

  /**
   * Any army may attack: recolouring every territory of one army with a
   * fresh colour does not change the verdict.
   */
  lemma QualquerCorAtaca(m: seq<Territorio>, idA: int, idD: int, antiga: string, nova: string)
    requires forall k :: 0 <= k < |m| ==> m[k].cor != nova
    ensures Validar(m, idA, idD) == Validar(Recolorir(m, antiga, nova), idA, idD)
  {
  }

  /** The map with the army `antiga` renamed `nova`. */
  function Recolorir(m: seq<Territorio>, antiga: string, nova: string): (r: seq<Territorio>)
    ensures |r| == |m|
    ensures forall k :: 0 <= k < |m| ==>
      r[k].nome == m[k].nome && r[k].tropas == m[k].tropas
      && (m[k].cor == antiga ==> r[k].cor == nova) && (m[k].cor != antiga ==> r[k].cor == m[k].cor)
  {
    seq(|m|, k requires 0 <= k < |m| => if m[k].cor == antiga then m[k].(cor := nova) else m[k])
  }

  /**
   * `faseDeAtaque` without its terminal I/O: validates the typed IDs and,
   * when every check passes, runs one round with the given dice.
   */
  method FaseDeAtaque(mapa: Mapa, idAtacante: int, idDefensor: int, dadoA: int, dadoD: int) returns (r: Validacao)
    requires 1 <= dadoA <= 6 && 1 <= dadoD <= 6
    modifies mapa.territorios
    ensures r == Validar(old(mapa.Estado()), idAtacante, idDefensor)
    ensures r.Rejeitado? ==> mapa.Estado() == old(mapa.Estado())
    ensures r.Aceito? ==> mapa.Estado() == Combate(old(mapa.Estado()), r.ia, r.id, dadoA, dadoD)
    ensures TropasPositivas(old(mapa.Estado())) ==> TropasPositivas(mapa.Estado())
  {
    var tamanho := mapa.territorios.Length;
    if idAtacante < 1 || idAtacante > tamanho {
      r := Rejeitado(AtacanteInvalido);
    } else if idDefensor < 1 || idDefensor > tamanho {
      r := Rejeitado(DefensorInvalido);
    } else {
      var ia := idAtacante - 1;
      var id := idDefensor - 1;
      if ia == id {
        r := Rejeitado(ProprioTerritorio);
      } else if mapa.territorios[ia].tropas <= 1 {
        r := Rejeitado(TropasInsuficientes);
      } else if mapa.territorios[ia].cor == mapa.territorios[id].cor {
        r := Rejeitado(MesmoExercito);
      } else {
        if TropasPositivas(mapa.Estado()) {
          CombatePreservaMinimo(mapa.Estado(), ia, id, dadoA, dadoD);
        }
        mapa.Atacar(ia, id, dadoA, dadoD);
        r := Aceito(ia, id);
      }
    }
  }
}
