# Pokedex REPL in Dafny

A model of the command-line Pokédex: a read-eval loop that cleans each
input line, looks the first word up in a table of eight commands, and runs
the command's callback. Three commands talk to the PokéAPI: `map`/`mapb`
page through location areas with a window of three URLs, `explore` lists the
Pokémon met in one area, and `catch` rolls a die against a chance derived
from the Pokémon's base experience and files a record that `inspect` shows
later. Every request goes through a read-through response cache. The
separate name-keyed `Pokedex` store of `internal/pokedex` is modelled as
well; the command loop does not use it (it keeps its own map of caught
Pokémon).

The model is functional. The program's package-level variables become a
`Session` value (page URLs, cache, caught Pokémon), and every callback is a
function from a session to a new session and an `Outcome` that says what
would be printed. The network, JSON decoding and the random roll are
parameters.

Modules:

- `Base`: `Option`, `Result`, bytes.
- `Text`: `unicode.IsSpace`, ASCII lower-casing, `strings.TrimSpace`,
  `strings.Fields` (as a left-to-right scan, `Split`) and `cleanInput`.
- `ResponseCache`: the cache-or-fetch block repeated at the three network
  sites, and the decode that follows it.
- `Catching`: the catch chance, the roll and the record stored on a catch.
  It also holds a 64-bit version of the chance, used by the finding below.
- `Commands`: the callbacks as session transitions.
- `Loops`: the shape of the read loop, whatever one line does: lines run in order, each from the state the previous one left, until one stops the program.
- `Repl`: the command table, the dispatch of one line and the loop.
- `Pokedex`: `NewPokedex`, `AddPokemon`, `GetPokemon`, `ListPokemons`.

## Model

| member | source | states |
|---|---|---|
| Text.Split | cmd/main.go:363 | the whitespace splitter yields only non-empty words that contain no whitespace; the proof rests on the contract of its own recursive calls; where it splits is stated by Text.FieldsSplitsAtSpace and Text.FieldsOfWord |
| Text.CleanInput | cmd/main.go:362-365 | every word of a cleaned line is non-empty, free of whitespace and free of upper-case letters |
| Text.LowerFixes | cmd/main.go:363 | lower-casing leaves a string unchanged exactly when it has no upper-case letter |
| Text.LowerIdempotent | cmd/main.go:363 | lower-casing twice is lower-casing once |
| Text.SpaceChars | cmd/main.go:363 | the whitespace predicate agrees with unicode.IsSpace on ASCII (exactly tab, newline, vertical tab, form feed, carriage return, space) and never holds for an ASCII letter or digit |
| Text.Lower | cmd/main.go:363 | lower-casing keeps the length and maps each character on its own, A-Z to a-z and everything else to itself |
| Text.TrimSplits | cmd/main.go:363 | trimming removes only leading and trailing whitespace (the input is whitespace + trimmed + whitespace), and it removes all of it: the trimmed text neither starts nor ends with whitespace |
| Text.DropSpaceStops | cmd/main.go:363 | the leading-whitespace scan stops at the first non-whitespace character |
| Text.DropTrailingSpaceStops | cmd/main.go:363 | the trailing-whitespace scan stops at the last non-whitespace character and keeps the first character |
| Text.SplitKeepsText | cmd/main.go:363 | the words of the splitter, concatenated, are exactly the non-whitespace characters of the input in order |
| Text.SplitEmpty | cmd/main.go:363 | the splitter yields no word exactly when nothing is pending and the rest is all whitespace |
| Text.FieldsOfWord | cmd/main.go:363 | a single non-empty run of non-whitespace is exactly one field |
| Text.FieldsSplitsAtSpace | cmd/main.go:363 | any non-empty run of whitespace, of any length, ends the word before it: the fields of word + whitespace + rest are the word followed by the fields of the rest |
| Text.FieldsOfJoin | cmd/main.go:363 | splitting words joined by single spaces gives back the words (Fields inverts Join) |
| Text.TrimIrrelevant | cmd/main.go:363 | trimming before lower-casing and splitting makes no difference to the words |
| Text.CleanInputIsFieldsOfLower | cmd/main.go:363 | cleanInput equals splitting the lower-cased line |
| Text.CleanInputBlank | cmd/main.go:362-365 | a line gives no words if and only if it is all whitespace |
| Text.CleanInputKeepsText | cmd/main.go:362-365 | no character is lost or invented: the words concatenate to the lower-cased line without its whitespace |
| Text.CleanInputIgnoresCase | cmd/main.go:362-365 | lines that agree after lower-casing give the same words |
| Text.CleanInputIgnoresPadding | cmd/main.go:362-365 | whitespace added around a line changes nothing |
| Text.CleanInputOfJoin | cmd/main.go:362-365 | lower-case words joined by spaces clean back to themselves |
| Text.CleanInputIdempotent | cmd/main.go:362-365 | cleaning the space-joined words of a cleaned line gives the same words |
| Text.CleanInputTwoWords | cmd/repl_test.go:13 | "hello world" cleans to ["hello", "world"] |
| Text.CleanInputMixedCase | cmd/repl_test.go:14 | "Charmander Bulbasaur PIKACHU" cleans to the three lower-case names |
| Text.CleanInputPadded | cmd/repl_test.go:15 | "   leading and trailing   " cleans to ["leading", "and", "trailing"] |
| Text.CleanInputEmptyLines | cmd/repl_test.go:16-17 | the empty line and a line of three spaces clean to no words |
| ResponseCache.ReadThrough | cmd/main.go:57-72 | a hit happens exactly when the URL is cached, and it returns the cached body and leaves the cache alone; a miss stores a body that was read under its URL, and a failed request or read stores nothing; no existing entry ever changes |
| ResponseCache.LoadAndDecode | cmd/main.go:57-83 | decoding succeeds exactly when a body was obtained and it decodes; a load error is passed on; a body that does not decode is a parse error; the cache is the load's cache even when decoding fails |
| ResponseCache.HitIgnoresFetch | cmd/main.go:58-60 | a cached URL is served without consulting the network |
| ResponseCache.LoadTouchesOnlyItsUrl | cmd/main.go:57-72 | a load changes no entry other than its own URL's and never removes an entry |
| ResponseCache.LoadThenHit | cmd/main.go:58-71 | after a load that produced a body, the same URL is a hit with that body whatever the network does next |
| ResponseCache.FailedLoadKeepsCache | cmd/main.go:62-70 | a load that produced no body was a miss and left the cache as it was |
| ResponseCache.UndecodableBodyIsCached | cmd/main.go:71-83 | a body that arrives but does not decode is still cached, and the result is a parse failure |
| Catching.CatchChance | cmd/main.go:232-237 | the chance is at least 10, at least 100 - base_experience, and equal to one of the two |
| Catching.Succeeds | cmd/main.go:239-240 | a roll catches every Pokémon with base experience 0 or less; from base experience 90 on only the rolls below 10 catch; in between a roll catches exactly when roll + base_experience < 100 |
| Catching.ChanceNonIncreasing | cmd/main.go:232-237 | more base experience never gives a higher chance |
| Catching.ChanceFloor | cmd/main.go:234-237 | the chance is the floor of 10 exactly when base_experience is 90 or more |
| Catching.AlwaysCaught | cmd/main.go:234-240 | with base_experience 0 or less every roll catches |
| Catching.CatchOdds | cmd/main.go:234-240 | of the 100 possible rolls, exactly min(chance, 100) catch |
| Catching.Record | cmd/main.go:243-261 | the stored record copies the name, height, weight and types, and the stats entry by entry |
| Catching.BuildRecord | cmd/main.go:243-261 | the two copy loops build exactly that record |
| Catching.Wrap | cmd/main.go:234 | the 64-bit result is congruent to the exact result modulo 2^64 |
| Catching.AsWrittenAgrees | cmd/main.go:234-237 | when 100 - base_experience does not overflow, the 64-bit computation gives the intended chance |
| Catching.CatchChanceAsWritten | cmd/main.go:234-237 | the chance computed in 64-bit arithmetic is never below the floor of 10, and is the floor for base_experience 90 or more |
| Catching.AsWrittenOverflow | cmd/main.go:234-237 | for the smallest 64-bit base_experience the code computes chance 10 where the intended chance exceeds 100 |
| Catching.AsWrittenWrapRange | cmd/main.go:234-237 | for every base_experience from -2^63 to -2^63 + 100 the subtraction wraps and the code computes chance 10 |
| Catching.AsWrittenFloor | cmd/main.go:234-237 | the code gives chance 10 exactly when base_experience is 90 or more or lies in the wrapping range, while the intended chance is 10 exactly when it is 90 or more |
| Commands.FetchLocations | cmd/main.go:56-89 | a cached page is decoded from the cache without touching it; a failed request or read on a miss changes nothing and is a load error; a body read on a miss is cached and then decoded; the page returned is the decoding of the cached or fetched body, and that body is the one now cached; a failed request, a failed read and an undecodable body each give their own error |
| Commands.MapForward | cmd/main.go:91-100 | on success the window moves forward by one (previous := current, current := next, next := the page's next link) and the page's names are shown; on failure the URLs stay and the fetch's error is reported; the caught map is untouched |
| Commands.MapBack | cmd/main.go:102-115 | with no previous page nothing changes; otherwise on success the window moves back by one (next := current, current := previous, previous := the page's previous link); on failure the URLs stay and the fetch's error is reported |
| Commands.MapThenMapBack | cmd/main.go:91-115 | a successful map followed by a successful mapb restores the current and next URLs |
| Commands.FirstMap | cmd/main.go:29-35 | the first successful map after start-up keeps the first page as the current page and also makes it the previous one |
| Commands.Explore | cmd/main.go:117-164 | fewer than two words print the usage; otherwise the area's URL is loaded through the cache and the encounters are listed or the error is reported; the page URLs and the caught map stay |
| Commands.AreaUrlInjective | cmd/main.go:123 | different area names use different cache entries |
| Commands.PokemonUrlInjective | cmd/main.go:189 | different Pokémon names use different cache entries |
| Commands.Catch | cmd/main.go:178-267 | a name already caught is refused before any request; otherwise the URL is loaded through the cache (hit or miss alike); no usable response reads as not found and changes only the cache; with a decoded response the Pokémon is caught exactly when the roll succeeds against its base experience, and then its record, built from the decoded data, is filed under the decoded name; otherwise it escapes and the caught map stays; caught names are never removed |
| Commands.CatchSmallerRollCatches | cmd/main.go:239-240 | a roll that catches is beaten by every smaller roll, with the same resulting session |
| Commands.CatchFilesUnderDecodedName | cmd/main.go:191-261 | a fresh fetch that decodes and a winning roll cache the body and file the record under the name in the response |
| Commands.CatchByAliasReplaces | cmd/main.go:184-187 | a catch under a typed name that differs from the decoded name already caught replaces that record, so the map does not grow |
| Commands.CatchNetworkFailureKeepsSession | cmd/main.go:195-206 | a failed request or read leaves the whole session unchanged and reports the name as not found |
| Commands.Inspect | cmd/main.go:269-292 | fewer than two words print the usage; otherwise the record is shown exactly when the name has been caught |
| Commands.ListCaught | cmd/main.go:166-176 | the listing names exactly the caught Pokémon |
| Repl.Call | cmd/main.go:294-335 | each callback runs its own command (map moves forward, mapb back, explore, catch, inspect and pokedex on the line's words; help and exit change nothing); no callback removes a caught Pokémon or changes a cached body, and only the exit callback says goodbye |
| Repl.Dispatch | cmd/main.go:345-357 | an empty line is skipped, an unknown first word is rejected, and both change nothing; a known first word runs the callback of the table's command on all the words, and the session and outcome are that callback's |
| Repl.StepLine | cmd/main.go:344-357 | one line never removes a caught Pokémon or changes a cached body |
| Repl.Run | cmd/main.go:337-359 | the loop handles at most one step per line and the first step is the first line's; caught Pokémon and cached bodies persist; no step before the last is an exit; stopping before the input ends means the last step was an exit |
| Repl.RunOne | cmd/main.go:339-358 | a single line is exactly one step of the loop |
| Repl.RunAppend | cmd/main.go:339-358 | lines after a stretch that ran without exit start from the session that stretch left behind, and their steps follow its steps |
| Loops.Loop | cmd/main.go:339-358 | the loop records at most one step per line |
| Loops.LoopShape | cmd/main.go:339-358 | no step before the last stops the loop; the loop ends early only on a stopping step; the first step is the first line's |
| Loops.LoopCons | cmd/main.go:339-358 | a line that does not stop hands its state to the rest of the lines |
| Loops.RunsThroughTail | cmd/main.go:339-358 | when lines run through without stopping, so do all but the first, from the first line's state |
| Loops.LoopAppend | cmd/main.go:339-358 | running a + b is running a and then b from the state a left, when a ran to its end without stopping |
| Loops.LoopKeeps | cmd/main.go:339-358 | a reflexive, transitive relation that every single step keeps between states holds between the loop's first and last state |
| Repl.TableKeyedByName | cmd/main.go:294-335 | every command is filed under its own name |
| Repl.TableContents | cmd/main.go:294-335 | the table holds exactly the eight commands, each with a different callback |
| Repl.TableCallbacks | cmd/main.go:294-335 | which callback each of the eight command names runs |
| Repl.CatchLine | cmd/main.go:349-357 | a line that cleans to "catch" and a name runs the catch command on those two words |
| Repl.ExploreLine | cmd/main.go:349-357 | a line that cleans to "explore" and an area runs the explore command on those two words |
| Repl.MapLine | cmd/main.go:349-357 | a line that cleans to "map" moves the page window forward |
| Repl.MapBackLine | cmd/main.go:349-357 | a line that cleans to "mapb" moves the page window back |
| Repl.BlankLineSkipped | cmd/main.go:345-348 | an all-whitespace line runs nothing and changes nothing |
| Repl.UnknownCommandIgnored | cmd/main.go:349-354 | a line whose first word is no command changes nothing |
| Repl.CommandIsFirstWord | cmd/main.go:349-350 | the command run is the one named by the cleaned first word |
| Repl.LineCaseInsensitive | cmd/main.go:345-350 | lines that agree after lower-casing do the same thing |
| Repl.LinePaddingIrrelevant | cmd/main.go:345 | whitespace added around a line does not change what it does |
| Repl.ExitStopsTheLoop | cmd/main.go:37-41 | after an exit line no further line is read and the session is unchanged |
| Pokedex.NewPokedex | internal/pokedex/pokedex.go:13-17 | a new store satisfies the invariant and answers every lookup with the zero value and false |
| Pokedex.AddPokemon | internal/pokedex/pokedex.go:19-21 | adding keeps the invariant, the added Pokémon is found under its name, every other lookup is unchanged, and the names grow by exactly that one |
| Pokedex.GetPokemon | internal/pokedex/pokedex.go:23-26 | the flag is true exactly when the name is stored; the result is then the stored entry and otherwise the zero value |
| Pokedex.ListPokemons | internal/pokedex/pokedex.go:28-34 | the list has one element per entry, holds every stored Pokémon and nothing else, and in a valid store each listed Pokémon is found under its name and no name repeats |
| Pokedex.ListNew | internal/pokedex/pokedex.go:13-34 | a new store lists nothing |
| Pokedex.AddPokemonCommutes | internal/pokedex/pokedex.go:19-21 | adding two Pokémon of different names in either order gives the same store |
| Pokedex.AddPokemonOverwrites | internal/pokedex/pokedex.go:19-21 | adding a second Pokémon of the same name keeps only the later one |
| Pokedex.BuiltStoresValid | internal/pokedex/pokedex.go:13-21 | any store built from a new one by adds satisfies the invariant and holds exactly the added names |

## Left out

- Input and output: reading stdin, the prompt and all printing. Each command returns an `Outcome` that says what it would print. The exact text of `help`, `inspect` and `pokedex` is not modelled.
- The HTTP request and `io.ReadAll` are not modelled. They arrive as a `Fetch` value per URL, the `Network` parameter: a failed request, a failed read, or a body.
- `json.Unmarshal` is not modelled. It is a `Decoders` parameter that either yields the decoded fields or fails. A missing JSON field decodes to its zero value inside that parameter.
- `rand.Seed` and `rand.Intn(100)` are not modelled. The roll is an input in [0, 100).
- `os.Exit` is modelled as the loop stopping after the exit step.
- internal/pokecache/pokecache.go is not part of this model. The cache is a plain map from URL to body, with no five-second expiry and no background sweep.
- ResponseCache.ReadThrough, Repl.Call, Repl.StepLine, Repl.Run: the claim that a cached body never changes holds only because the model has no expiry. In the program, an entry older than five seconds disappears and can be fetched again with a different body.
- `strings.ToLower` is modelled for ASCII letters only. Other upper-case letters are kept as they are, and invalid UTF-8 is not modelled. `unicode.IsSpace` is modelled in full.
- Pokedex.ListPokemons: the order is left open, as Go's map iteration order is. Each next key is an arbitrary choice among those not yet listed.
- The `cli.Command` type is not part of this model. It is a record of name, description and a named callback. Callback errors are `Failed` outcomes, which the loop prints and then continues.
- Commands.Catch: decides with the intended chance, Catching.CatchChance, not with the 64-bit Catching.CatchChanceAsWritten. For base_experience from -2^63 to -2^63 + 100 the model catches on every roll, while the code catches only on rolls below 10 (see Findings).
- Integer widths are otherwise not modelled. Base experience, height, weight and stats are unbounded integers; outside the catch chance they are only copied.

## Findings

| source | as written | input that shows it | evidently intended | confidence | as-written member | corrected member |
|---|---|---|---|---|---|---|
| cmd/main.go:234-237 | `100 - pokeData.BaseExperience` is computed in Go's 64-bit `int`, so it wraps when base_experience is at most -2^63 + 100 | a response whose base_experience is -9223372036854775808: the subtraction wraps to -9223372036854775708, the floor raises it to 10, and the Pokémon escapes 90 rolls in 100 | chance = max(10, 100 - base_experience), so that a Pokémon with base experience 0 or less is always caught | low: the API never sends such values; not executed | Catching.AsWrittenWrapRange | Catching.CatchChance |
