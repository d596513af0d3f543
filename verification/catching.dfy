/**
 The catch decision of commandCatch in cmd/main.go and the record kept for
 a caught Pokémon.

 The random number is an input: a roll in [0, 100), as rand.Intn(100) gives.
 */
module Catching {

  /** A value of rand.Intn(100). */
  type Roll = r: int | 0 <= r < 100

  /** The lowest catch chance, in percent. */
  const MinChance := 10

  /** One entry of the decoded "stats" list: stat.name and base_stat. */
  datatype StatSlot = StatSlot(statName: string, baseStat: int)

  /** The decoded fields of a Pokémon response. */
  datatype PokemonData = PokemonData(
    name: string,
    baseExperience: int,
    height: int,
    weight: int,
    stats: seq<StatSlot>,
    types: seq<string>)   // the type.name of each entry of "types"

  datatype Stat = Stat(name: string, value: int)

  /** CaughtPokemon: what inspect later shows. */
  datatype CaughtPokemon = CaughtPokemon(
    name: string,
    height: int,
    weight: int,
    stats: seq<Stat>,
    types: seq<string>)

  /** chance = max(10, 100 - base_experience): lower experience, easier catch. */
  function CatchChance(baseExperience: int): (chance: int)
    ensures chance >= MinChance
    ensures chance >= 100 - baseExperience
    ensures chance == MinChance || chance == 100 - baseExperience
  {
    var chance := 100 - baseExperience;
    if chance < MinChance then MinChance else chance
  }

  /** The attempt succeeds when the roll falls below the chance. */
  function Succeeds(baseExperience: int, roll: Roll): (caught: bool)
    ensures baseExperience <= 0 ==> caught
    ensures baseExperience >= 90 ==> (caught <==> roll < MinChance)
    ensures 0 < baseExperience < 90 ==> (caught <==> roll + baseExperience < 100)
  {
    roll < CatchChance(baseExperience)
  }

  /** The record stored for a caught Pokémon, copied from the decoded data. */
  function Record(d: PokemonData): (p: CaughtPokemon)
    ensures p.name == d.name && p.height == d.height && p.weight == d.weight
    ensures |p.stats| == |d.stats|
    ensures forall i :: 0 <= i < |d.stats| ==> p.stats[i] == Stat(d.stats[i].statName, d.stats[i].baseStat)
    ensures p.types == d.types
  {
    CaughtPokemon(d.name, d.height, d.weight, seq(|d.stats|, i requires 0 <= i < |d.stats| => Stat(d.stats[i].statName, d.stats[i].baseStat)), d.types)
  }

  /** The two copy loops of commandCatch, which fill slices of the decoded lengths. */
  method BuildRecord(d: PokemonData) returns (p: CaughtPokemon)
    ensures p == Record(d)
  {
    var stats: seq<Stat> := [];
    var i := 0;
    while i < |d.stats|
      invariant 0 <= i <= |d.stats| && |stats| == i
      invariant forall j :: 0 <= j < i ==> stats[j] == Stat(d.stats[j].statName, d.stats[j].baseStat)
    {
      stats := stats + [Stat(d.stats[i].statName, d.stats[i].baseStat)];
      i := i + 1;
    }
    var types: seq<string> := [];
    i := 0;
    while i < |d.types|
      invariant 0 <= i <= |d.types| && types == d.types[..i]
    {
      types := types + [d.types[i]];
      i := i + 1;
    }
    assert types == d.types;
    p := CaughtPokemon(d.name, d.height, d.weight, stats, types);
  }

  // ---------------------------------------------------------------------
  // Properties of the chance

  /** More base experience never makes a catch easier. */
  lemma ChanceNonIncreasing(b: int, b': int)
    requires b <= b'
    ensures CatchChance(b') <= CatchChance(b)
  {
  }

  /** From base experience 90 on, the chance is the floor of 10. */
  lemma ChanceFloor(b: int)
    ensures CatchChance(b) == MinChance <==> b >= 90
  {
  }

  /** A Pokémon with no base experience or less is always caught. */
  lemma AlwaysCaught(b: int, roll: Roll)
    requires b <= 0
    ensures Succeeds(b, roll)
  {
  }

  /** The integers 0 .. n - 1. */
  function Below(n: nat): (s: set<int>)
    ensures forall r :: r in s ==> 0 <= r < n
    decreases n
  {
    if n == 0 then {} else Below(n - 1) + {n - 1}
  }

  lemma {:induction false} BelowContents(n: nat, r: int)
    requires 0 <= r < n
    ensures r in Below(n)
    decreases n
  {
    if r < n - 1 {
      BelowContents(n - 1, r);
    }
  }

  lemma {:induction false} BelowSize(n: nat)
    ensures |Below(n)| == n
    decreases n
  {
    if n > 0 {
      BelowSize(n - 1);
    }
  }

  /** Out of the 100 equally likely rolls, exactly min(chance, 100) catch. */
  lemma CatchOdds(b: int)
    ensures |set r: Roll | Succeeds(b, r)| == if CatchChance(b) < 100 then CatchChance(b) else 100
  {
    var n := if CatchChance(b) < 100 then CatchChance(b) else 100;
    var wins := set r: Roll | Succeeds(b, r);
    forall r: int | 0 <= r < n ensures r in wins {
      assert Succeeds(b, r as Roll);
    }
    forall r: int | 0 <= r < n ensures r in Below(n) {
      BelowContents(n, r);
    }
    assert wins == Below(n);
    BelowSize(n);
  }

  // ---------------------------------------------------------------------
  // The chance with Go's 64-bit int arithmetic

  const TwoTo63: int := 0x8000_0000_0000_0000

  /** Go's int on the 64-bit targets: the decoded base_experience fits in it. */
  newtype int64 = x: int | -TwoTo63 <= x < TwoTo63

  /** Two's-complement wrap-around of an exact result into int64. */
  function Wrap(x: int): (w: int64)
    ensures (w as int - x) % (2 * TwoTo63) == 0
  {
    var m := (x + TwoTo63) % (2 * TwoTo63);
    (m - TwoTo63) as int64
  }

  /** The chance as main.go computes it: `100 - BaseExperience` wraps around. */
  function CatchChanceAsWritten(baseExperience: int64): (chance: int64)
    ensures chance >= 10
    ensures baseExperience >= 90 ==> chance == 10
  {
    var chance := Wrap(100 - baseExperience as int);
    if chance < 10 then 10 else chance
  }

  /** Within the range where 100 - b does not overflow, the code computes the intended chance. */
  lemma AsWrittenAgrees(b: int64)
    requires b as int > 100 - TwoTo63
    ensures CatchChanceAsWritten(b) as int == CatchChance(b as int)
  {
    assert -TwoTo63 <= 100 - b as int < TwoTo63;
  }

  /** For the 101 smallest base experiences 100 - b wraps round to a negative number, so the chance is the floor. */
  lemma AsWrittenWrapRange(b: int64)
    requires b as int <= 100 - TwoTo63
    ensures CatchChanceAsWritten(b) == 10
  {
    var x := 100 - b as int;
    assert TwoTo63 <= x <= TwoTo63 + 100;
    assert (x + TwoTo63) % (2 * TwoTo63) == x - TwoTo63;
    assert Wrap(x) as int == x - 2 * TwoTo63;
  }

  /** The code gives the floor chance exactly for b >= 90 and for the wrapping range: the latter is the discrepancy. */
  lemma AsWrittenFloor(b: int64)
    ensures CatchChanceAsWritten(b) == 10 <==> b >= 90 || b as int <= 100 - TwoTo63
    ensures CatchChance(b as int) == MinChance <==> b >= 90
  {
    if b as int <= 100 - TwoTo63 {
      AsWrittenWrapRange(b);
    } else {
      AsWrittenAgrees(b);
    }
  }

  /** The smallest base experience wraps round to the floor chance: such a Pokémon escapes 90 rolls in 100. */
  lemma AsWrittenOverflow()
    ensures CatchChanceAsWritten(-TwoTo63 as int64) == 10
    ensures CatchChance(-TwoTo63) > 100
  {
    assert Wrap(100 + TwoTo63) as int == 100 - TwoTo63;
  }
}
