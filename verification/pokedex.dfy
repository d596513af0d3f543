/**
 The name-keyed Pokémon store of internal/pokedex/pokedex.go.

 A store only ever receives entries through AddPokemon, which files each
 Pokémon under its own name; `Valid` states that invariant and every
 operation keeps it.
 */
module Pokedex {

  datatype Pokemon = Pokemon(name: string, kind: string, ability: string)

  /** The zero value Go returns for a missing entry. */
  const Missing := Pokemon("", "", "")

  datatype Pokedex = Pokedex(entries: map<string, Pokemon>) {
    /** Every entry is filed under its own name. */
    ghost predicate Valid() {
      forall k :: k in entries ==> entries[k].name == k
    }
  }

  /** NewPokedex */
  function NewPokedex(): (d: Pokedex)
    ensures d.Valid()
    ensures forall name :: GetPokemon(d, name) == (Missing, false)
  {
    Pokedex(map[])
  }

  /** AddPokemon: file p under its name, replacing any earlier entry of that name. */
  function AddPokemon(d: Pokedex, p: Pokemon): (d': Pokedex)
    ensures d.Valid() ==> d'.Valid()
    ensures GetPokemon(d', p.name) == (p, true)
    ensures forall name :: name != p.name ==> GetPokemon(d', name) == GetPokemon(d, name)
    ensures d'.entries.Keys == d.entries.Keys + {p.name}
  {
    Pokedex(d.entries[p.name := p])
  }

  /** GetPokemon: the entry and true, or the zero value and false. */
  function GetPokemon(d: Pokedex, name: string): (r: (Pokemon, bool))
    ensures r.1 <==> name in d.entries
    ensures r.1 ==> r.0 == d.entries[name]
    ensures !r.1 ==> r.0 == Missing
  {
    if name in d.entries then (d.entries[name], true) else (Missing, false)
  }

  /**
   ListPokemons: every stored Pokémon once, in the unspecified order of Go's
   map iteration (the choice of the next key is left open here).
   */
  method ListPokemons(d: Pokedex) returns (r: seq<Pokemon>)
    ensures |r| == |d.entries|
    ensures forall i :: 0 <= i < |r| ==> r[i] in d.entries.Values
    ensures forall k :: k in d.entries ==> d.entries[k] in r
    ensures d.Valid() ==> forall i :: 0 <= i < |r| ==> GetPokemon(d, r[i].name) == (r[i], true)
    ensures d.Valid() ==> forall i, j :: 0 <= i < j < |r| ==> r[i].name != r[j].name
  {
    r := [];
    var remaining := d.entries.Keys;
    ghost var listed: seq<string> := [];
    while remaining != {}
      invariant remaining <= d.entries.Keys
      invariant |r| == |listed| && |r| + |remaining| == |d.entries|
      invariant forall i :: 0 <= i < |listed| ==> listed[i] in d.entries && listed[i] !in remaining
      invariant forall i :: 0 <= i < |r| ==> r[i] == d.entries[listed[i]]
      invariant forall k :: k in d.entries && k !in remaining ==> k in listed
      invariant forall i, j :: 0 <= i < j < |listed| ==> listed[i] != listed[j]
      decreases remaining
    {
      var k :| k in remaining;
      r := r + [d.entries[k]];
      listed := listed + [k];
      remaining := remaining - {k};
    }
    forall k | k in d.entries ensures d.entries[k] in r {
      var i :| 0 <= i < |listed| && listed[i] == k;
      assert r[i] == d.entries[k];
    }
  }

  // ---------------------------------------------------------------------
  // Properties

  /** A fresh Pokédex lists nothing. */
  method ListNew() returns (r: seq<Pokemon>)
    ensures r == []
  {
    r := ListPokemons(NewPokedex());
  }

  /** Adding Pokémon in any order with distinct names gives the same store. */
  lemma AddPokemonCommutes(d: Pokedex, p: Pokemon, q: Pokemon)
    requires p.name != q.name
    ensures AddPokemon(AddPokemon(d, p), q) == AddPokemon(AddPokemon(d, q), p)
  {
  }

  /** Adding the same name twice keeps only the later Pokémon. */
  lemma AddPokemonOverwrites(d: Pokedex, p: Pokemon, q: Pokemon)
    requires p.name == q.name
    ensures AddPokemon(AddPokemon(d, p), q) == AddPokemon(d, q)
  {
  }

  /** A store built by adding Pokémon to a fresh one satisfies the invariant. */
  lemma {:induction false} BuiltStoresValid(ps: seq<Pokemon>)
    ensures AddAll(NewPokedex(), ps).Valid()
    ensures AddAll(NewPokedex(), ps).entries.Keys == set p | p in ps :: p.name
    decreases |ps|
  {
    if ps != [] {
      BuiltStoresValid(ps[..|ps| - 1]);
      assert ps == ps[..|ps| - 1] + [ps[|ps| - 1]];
    }
  }

  /** AddPokemon applied to each Pokémon of ps in turn. */
  function AddAll(d: Pokedex, ps: seq<Pokemon>): Pokedex
    decreases |ps|
  {
    if ps == [] then d else AddPokemon(AddAll(d, ps[..|ps| - 1]), ps[|ps| - 1])
  }
}
