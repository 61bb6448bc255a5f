/*
 * Shared core of both variants of the "War" territory game: the territory
 * record, the map (a fixed-length array of territories owned by one session),
 * the die, the troop clamp used at registration, one round of battle, and the
 * count of territories held by a colour.
 *
 * Batalha.c and Missao_estrategica.c each declare the same `Territorio`
 * struct, the same `rolarDado` and an `atacar` with the same statements; they are
 * modelled once here and used by both variant modules.
 */
module Territorios {

  datatype Option<T> = None | Some(value: T)

  /** A territory: its name, the colour of the army holding it, its troops (a C `int`). */
  datatype Territorio = Territorio(nome: string, cor: string, tropas: int)

  /** One territory as typed at registration; `tropas` is None when the number could not be read. */
  datatype Entrada = Entrada(nome: string, cor: string, tropas: Option<int>)

  /** Why an attack was cancelled, in the order the checks run. */
  datatype Motivo =
    | AtacanteInvalido     // attacker ID outside 1..tamanho
    | DefensorInvalido     // defender ID outside 1..tamanho
    | ProprioTerritorio    // a territory attacking itself
    | NaoEhDoJogador       // attacker not of the player's colour (mission variant only)
    | TropasInsuficientes  // attacker has 1 troop or fewer
    | MesmoExercito        // attacker and defender of the same colour

  /** Outcome of attack validation: the two 0-based indices, or the reason for cancelling. */
  datatype Validacao = Aceito(ia: nat, id: nat) | Rejeitado(motivo: Motivo)

  // ---------------------------------------------------------------------------
  // Die and registration clamp
  // ---------------------------------------------------------------------------

  /** `rolarDado`: a die face from a raw `rand()` value, which is never negative. */
  function RolarDado(aleatorio: int): (d: int)
    requires aleatorio >= 0
    ensures 1 <= d <= 6
    ensures d - 1 == aleatorio % 6
  {
    aleatorio % 6 + 1
  }

  /** Troops stored at registration: a value that could not be read, or is not positive, becomes 1. */
  function TropasIniciais(lido: Option<int>): (t: int)
    ensures t >= 1
    ensures lido.Some? && lido.value > 0 ==> t == lido.value
    ensures lido.None? || lido.value <= 0 ==> t == 1
  {
    if lido.None? || lido.value <= 0 then 1 else lido.value
  }

  // ---------------------------------------------------------------------------
  // Battle
  // ---------------------------------------------------------------------------

  /**
   * Troops a defender loses when the attacker wins a round: half its troops,
   * rounded up, written `(t + 1) / 2` (C division truncates toward zero, which
   * agrees with Dafny's for the positive operands used here).
   */
  function TropasPerdidas(t: int): (p: int)
    requires t > 0
    ensures 1 <= p <= t
    ensures 2 * p - 1 <= t <= 2 * p
    ensures t - p == t / 2
  {
    (t + 1) / 2
  }

  /** Bounds of a C `int` on the usual 32-bit two's-complement targets. */
  const INT_MIN := -0x8000_0000
  const INT_MAX := 0x7fff_ffff

  /** A value reduced to a 32-bit two's-complement `int`: what wrap-around gives, one possible outcome of the undefined signed overflow. */
  function Int32(x: int): (r: int)
    ensures INT_MIN <= r <= INT_MAX
    ensures (r - x) % 0x1_0000_0000 == 0
  {
    var u := x % 0x1_0000_0000;
    if u > INT_MAX then u - 0x1_0000_0000 else u
  }

  /** C integer division by a positive divisor, truncating toward zero. */
  function DivC(a: int, b: int): (q: int)
    requires b > 0
    ensures a >= 0 ==> 0 <= a - b * q < b
    ensures a < 0 ==> -b < a - b * q <= 0
  {
    if a >= 0 then a / b else -((-a) / b)
  }

  /**
   * Troops a defender keeps after a lost round, as the C `int` code computes
   * it: `tropas -= (tropas + 1) / 2` with both operations wrapping at 32 bits.
   */
  function TropasRestantesInt32(t: int): (r: int)
    requires 0 < t <= INT_MAX
    ensures INT_MIN <= r <= INT_MAX
  {
    Int32(t - DivC(Int32(t + 1), 2))
  }

  /** Below `INT_MAX` the 32-bit computation agrees with the unbounded one: the defender keeps half. */
  lemma TropasRestantesInt32Concorda(t: int)
    requires 0 < t < INT_MAX
    ensures TropasRestantesInt32(t) == t - TropasPerdidas(t) == t / 2
  {
    Int32NoIntervalo(t + 1);
    Int32NoIntervalo(t - (t + 1) / 2);
  }

  /** A value that fits in a C `int` is not changed by the wrap-around. */
  lemma Int32NoIntervalo(x: int)
    requires INT_MIN <= x <= INT_MAX
    ensures Int32(x) == x
  {
    if x < 0 {
      assert x % 0x1_0000_0000 == x + 0x1_0000_0000;
    }
  }

  /**
   * At `INT_MAX` troops, `tropas + 1` overflows: the computed loss is
   * negative, the subtraction overflows again and the defender is left with
   * a negative count, so a single won round conquers it.
   */
  lemma TropasMaximasConquistadas()
    ensures TropasRestantesInt32(INT_MAX) == -0x4000_0001
    ensures TropasRestantesInt32(INT_MAX) <= 0 < INT_MAX - TropasPerdidas(INT_MAX)
  {
    assert Int32(INT_MAX + 1) == INT_MIN;
    assert DivC(INT_MIN, 2) == -0x4000_0000;
    assert Int32(INT_MAX + 0x4000_0000) == -0x4000_0001;
  }

  /** True when the attacker's round is won and the defender is left with no troops. */
  predicate HaConquista(d: Territorio, dadoA: int, dadoD: int)
  {
    dadoA > dadoD && d.tropas <= 1
  }

  /**
   * One round of `atacar` on the attacker `a` and the defender `d` with the
   * two dice already rolled: the new attacker and the new defender.
   */
  function Rodada(a: Territorio, d: Territorio, dadoA: int, dadoD: int): (r: (Territorio, Territorio))
    ensures r.0.nome == a.nome && r.0.cor == a.cor
    ensures r.1.nome == d.nome
    ensures r.0.tropas == a.tropas || r.0.tropas == a.tropas - 1
    ensures r.1.cor == d.cor || r.1.cor == a.cor
    ensures d.tropas >= 1 ==> 1 <= r.1.tropas <= d.tropas
  {
    if dadoA > dadoD then
      var ferido := if d.tropas > 0 then d.(tropas := d.tropas - TropasPerdidas(d.tropas)) else d;
      if ferido.tropas <= 0 then
        (a.(tropas := a.tropas - 1), ferido.(cor := a.cor, tropas := 1))
      else
        (a, ferido)
    else
      (a.(tropas := a.tropas - 1), d)
  }

  /** The whole map after one round between the territories at `ia` and `id`. */
  function Combate(m: seq<Territorio>, ia: nat, id: nat, dadoA: int, dadoD: int): (r: seq<Territorio>)
    requires ia < |m| && id < |m| && ia != id
    ensures |r| == |m|
    ensures forall k :: 0 <= k < |m| && k != ia && k != id ==> r[k] == m[k]
    ensures forall k :: 0 <= k < |m| ==> r[k].nome == m[k].nome
  {
    var novos := Rodada(m[ia], m[id], dadoA, dadoD);
    m[ia := novos.0][id := novos.1]
  }

  /** The attacker wins the round and the defender keeps troops: it drops to half, rounded down. */
  lemma VitoriaSemConquista(a: Territorio, d: Territorio, dadoA: int, dadoD: int)
    requires dadoA > dadoD && d.tropas >= 2
    ensures Rodada(a, d, dadoA, dadoD) == (a, d.(tropas := d.tropas / 2))
  {
  }

  /**
   * The attacker wins the round against a defender with 1 troop (or none):
   * the territory changes colour, holds exactly 1 troop, and the attacker
   * moves one troop into it.
   */
  lemma ConquistaTerritorio(a: Territorio, d: Territorio, dadoA: int, dadoD: int)
    requires HaConquista(d, dadoA, dadoD)
    ensures Rodada(a, d, dadoA, dadoD) == (a.(tropas := a.tropas - 1), d.(cor := a.cor, tropas := 1))
  {
  }

  /** A tie or a lower attacker die: the attacker loses exactly one troop, the defender nothing. */
  lemma DerrotaOuEmpate(a: Territorio, d: Territorio, dadoA: int, dadoD: int)
    requires dadoA <= dadoD
    ensures Rodada(a, d, dadoA, dadoD) == (a.(tropas := a.tropas - 1), d)
  {
  }

  /** Every territory has at least one troop. */
  predicate TropasPositivas(m: seq<Territorio>)
  {
    forall k :: 0 <= k < |m| ==> m[k].tropas >= 1
  }

  /**
   * A round whose attacker had at least 2 troops keeps every territory at 1
   * troop or more, if all had at least 1 before.
   */
  lemma CombatePreservaMinimo(m: seq<Territorio>, ia: nat, id: nat, dadoA: int, dadoD: int)
    requires ia < |m| && id < |m| && ia != id
    requires TropasPositivas(m) && m[ia].tropas > 1
    ensures TropasPositivas(Combate(m, ia, id, dadoA, dadoD))
  {
  }

  // ---------------------------------------------------------------------------
  // Counting territories by colour
  // ---------------------------------------------------------------------------

  /** Number of territories of colour `cor` (the `count_territorios_jogador` loop). */
  function ContaCor(m: seq<Territorio>, cor: string): (n: nat)
    ensures n <= |m|
  {
    if |m| == 0 then 0
    else ContaCor(m[..|m| - 1], cor) + (if m[|m| - 1].cor == cor then 1 else 0)
  }

  /** Replacing one territory changes the count of a colour only by what left and what arrived. */
  lemma {:induction false} ContaCorAtualiza(m: seq<Territorio>, i: nat, t: Territorio, cor: string)
    requires i < |m|
    ensures ContaCor(m[i := t], cor)
         == ContaCor(m, cor) - (if m[i].cor == cor then 1 else 0) + (if t.cor == cor then 1 else 0)
  {
    var n := |m| - 1;
    if i == n {
      assert m[i := t][..n] == m[..n];
    } else {
      assert m[i := t][..n] == m[..n][i := t];
      ContaCorAtualiza(m[..n], i, t, cor);
    }
  }

  /** A colour holds every territory exactly when its count is the size of the map. */
  lemma {:induction false} ContaCorTotal(m: seq<Territorio>, cor: string)
    ensures ContaCor(m, cor) == |m| <==> forall k :: 0 <= k < |m| ==> m[k].cor == cor
  {
    if |m| > 0 {
      var n := |m| - 1;
      ContaCorTotal(m[..n], cor);
      assert forall k :: 0 <= k < n ==> m[..n][k] == m[k];
    }
  }

  // ---------------------------------------------------------------------------
  // The map
  // ---------------------------------------------------------------------------

  /** The territory `calloc` yields: empty name and colour, no troops. */
  const VAZIO := Territorio("", "", 0)

  /** The map of one session: a fixed number of territories, updated in place. */
  class Mapa {
    const territorios: array<Territorio>

    /** Snapshot of the map, in ID order. */
    function Estado(): seq<Territorio>
      reads this, territorios
    {
      territorios[..]
    }

    /** `alocarMapa`: `tamanho` zeroed territories. */
    constructor (tamanho: nat)
      ensures fresh(territorios) && territorios.Length == tamanho
      ensures forall k :: 0 <= k < tamanho ==> territorios[k] == VAZIO
    {
      territorios := new Territorio[tamanho](_ => VAZIO);
    }

    /**
     * `atacar`: one round between the territories at `ia` and `id`, with the
     * dice rolled by the caller; writes only those two entries.
     */
    method Atacar(ia: nat, id: nat, dadoA: int, dadoD: int)
      requires ia < territorios.Length && id < territorios.Length && ia != id
      requires 1 <= dadoA <= 6 && 1 <= dadoD <= 6
      modifies territorios
      ensures Estado() == Combate(old(Estado()), ia, id, dadoA, dadoD)
    {
      if dadoA > dadoD {
        if territorios[id].tropas > 0 {
          var perdidas := (territorios[id].tropas + 1) / 2;
          territorios[id] := territorios[id].(tropas := territorios[id].tropas - perdidas);
        }
        if territorios[id].tropas <= 0 {
          territorios[id] := territorios[id].(cor := territorios[ia].cor);
          territorios[ia] := territorios[ia].(tropas := territorios[ia].tropas - 1);
          territorios[id] := territorios[id].(tropas := 1);
        }
      } else {
        territorios[ia] := territorios[ia].(tropas := territorios[ia].tropas - 1);
      }
    }
  }
}
