/**
 The command callbacks of cmd/main.go as transitions of the REPL's state:
 the three location-page URLs, the response cache and the map of caught
 Pokémon. Printing is replaced by an `Outcome` that says what would be shown.
 */
module Commands {
  import opened Base
  import opened ResponseCache
  import opened Catching

  const ApiRoot := "https://pokeapi.co/api/v2/"
  const FirstPageUrl := ApiRoot + "location-area/?offset=0&limit=20"

  /** prevLocationURL, currentLocationURL, nextLocationURL; "" means none. */
  datatype Pages = Pages(prev: string, current: string, next: string)

  datatype Session = Session(pages: Pages, cache: Cache, caught: map<string, CaughtPokemon>)

  /** The package-level variables as the program starts. */
  const Start := Session(Pages("", FirstPageUrl, FirstPageUrl), map[], map[])

  /** The decoded fields of a location-area page: results[].name, next, previous. */
  datatype LocationPage = LocationPage(names: seq<string>, next: string, previous: string)

  /** The decoded pokemon_encounters[].pokemon.name of a location area. */
  datatype AreaData = AreaData(encounters: seq<string>)

  /** json.Unmarshal for the three response shapes; None when the body does not decode. */
  datatype Decoders = Decoders(
    locations: Bytes -> Option<LocationPage>,
    area: Bytes -> Option<AreaData>,
    pokemon: Bytes -> Option<PokemonData>)

  /** The answer the network gives for each URL at the time of a command. */
  type Network = string -> Fetch

  /** What a command would print, and the error it would return. */
  datatype Outcome =
    | Goodbye
    | HelpText
    | Locations(names: seq<string>)
    | OnFirstPage
    | Usage(command: string)
    | Encounters(area: string, names: seq<string>)
    | AlreadyCaught(name: string)
    | NotFound(name: string)
    | Caught(name: string)
    | Escaped(name: string)
    | Inspection(name: string, found: Option<CaughtPokemon>)
    | CaughtNames(caughtNames: set<string>)
    | Failed(failure: Failure)

  function AreaUrl(area: string): string {
    ApiRoot + "location-area/" + area + "/"
  }

  function PokemonUrl(name: string): string {
    ApiRoot + "pokemon/" + name + "/"
  }

  // ---------------------------------------------------------------------
  // map and mapb

  /** fetchAndPrintLocations: the page at url, through the cache. */
  function FetchLocations(cache: Cache, url: string, fetch: Fetch, decoders: Decoders): (r: Decoded<LocationPage>)
    ensures url in cache ==> r.cache == cache && (r.result.Ok? <==> decoders.locations(cache[url]).Some?)
    ensures url !in cache && !fetch.Fetched? ==> r.cache == cache && r.result.Err? && r.result.error.LoadFailed?
    ensures url !in cache && fetch.Fetched? ==>
      r.cache == cache[url := fetch.body] && (r.result.Ok? <==> decoders.locations(fetch.body).Some?)
    ensures r.result.Ok? ==> r.cache[url] == (if url in cache then cache[url] else fetch.body)
    ensures r.result.Ok? ==> Some(r.result.value) == decoders.locations(if url in cache then cache[url] else fetch.body)
    ensures url !in cache && fetch == RequestFailed ==> r.result == Err(LoadFailed(RequestError))
    ensures url !in cache && fetch == ReadFailed ==> r.result == Err(LoadFailed(ReadError))
    ensures (url in cache || fetch.Fetched?) && r.result.Err? ==> r.result == Err(ParseFailed)
  {
    LoadAndDecode(cache, url, fetch, decoders.locations)
  }

  /** commandMap: show the next page and move the window forward by one. */
  function MapForward(s: Session, net: Network, decoders: Decoders): (r: (Session, Outcome))
    ensures r.0.caught == s.caught
    ensures r.0.cache == ReadThrough(s.cache, s.pages.next, net(s.pages.next)).cache
    ensures r.1.Failed? <==> FetchLocations(s.cache, s.pages.next, net(s.pages.next), decoders).result.Err?
    ensures var d := FetchLocations(s.cache, s.pages.next, net(s.pages.next), decoders);
      d.result.Err? ==> r.1 == Failed(d.result.error)
    ensures r.1.Failed? ==> r.0.pages == s.pages
    ensures var d := FetchLocations(s.cache, s.pages.next, net(s.pages.next), decoders);
      d.result.Ok? ==>
        && r.0.pages == Pages(s.pages.current, s.pages.next, d.result.value.next)
        && r.1 == Locations(d.result.value.names)
  {
    var d := FetchLocations(s.cache, s.pages.next, net(s.pages.next), decoders);
    match d.result
    case Err(e) => (s.(cache := d.cache), Failed(e))
    case Ok(page) =>
      (Session(Pages(s.pages.current, s.pages.next, page.next), d.cache, s.caught), Locations(page.names))
  }

  /** commandMapBack: on the first page say so; otherwise show the previous page and move back by one. */
  function MapBack(s: Session, net: Network, decoders: Decoders): (r: (Session, Outcome))
    ensures r.0.caught == s.caught
    ensures s.pages.prev == "" ==> r == (s, OnFirstPage)
    ensures s.pages.prev != "" ==> r.0.cache == ReadThrough(s.cache, s.pages.prev, net(s.pages.prev)).cache
    ensures r.1.Failed? || r.1.OnFirstPage? ==> r.0.pages == s.pages
    ensures s.pages.prev != "" ==> (r.1.Failed? <==> FetchLocations(s.cache, s.pages.prev, net(s.pages.prev), decoders).result.Err?)
    ensures var d := FetchLocations(s.cache, s.pages.prev, net(s.pages.prev), decoders);
      s.pages.prev != "" && d.result.Err? ==> r.1 == Failed(d.result.error)
    ensures var d := FetchLocations(s.cache, s.pages.prev, net(s.pages.prev), decoders);
      s.pages.prev != "" && d.result.Ok? ==>
        && r.0.pages == Pages(d.result.value.previous, s.pages.prev, s.pages.current)
        && r.1 == Locations(d.result.value.names)
  {
    if s.pages.prev == "" then (s, OnFirstPage)
    else
      var d := FetchLocations(s.cache, s.pages.prev, net(s.pages.prev), decoders);
      match d.result
      case Err(e) => (s.(cache := d.cache), Failed(e))
      case Ok(page) =>
        (Session(Pages(page.previous, s.pages.prev, s.pages.current), d.cache, s.caught), Locations(page.names))
  }

  // ---------------------------------------------------------------------
  // explore

  /** commandExplore: list the Pokémon met in the named location area. */
  function Explore(s: Session, args: seq<string>, net: Network, decoders: Decoders): (r: (Session, Outcome))
    ensures r.0.pages == s.pages && r.0.caught == s.caught
    ensures |args| < 2 ==> r == (s, Usage("explore"))
    ensures |args| >= 2 ==> r.0.cache == ReadThrough(s.cache, AreaUrl(args[1]), net(AreaUrl(args[1]))).cache
    ensures |args| >= 2 ==>
      var d := LoadAndDecode(s.cache, AreaUrl(args[1]), net(AreaUrl(args[1])), decoders.area);
      r.1 == if d.result.Ok? then Encounters(args[1], d.result.value.encounters) else Failed(d.result.error)
  {
    if |args| < 2 then (s, Usage("explore"))
    else
      var area := args[1];
      var d := LoadAndDecode(s.cache, AreaUrl(area), net(AreaUrl(area)), decoders.area);
      match d.result
      case Err(e) => (s.(cache := d.cache), Failed(e))
      case Ok(data) => (s.(cache := d.cache), Encounters(area, data.encounters))
  }

  // ---------------------------------------------------------------------
  // catch

  /**
   commandCatch: a name already caught is refused before any request; a
   response that cannot be had or decoded reads as "not found"; otherwise
   the roll decides, and a catch files the record under the decoded name.
   */
  function Catch(s: Session, args: seq<string>, net: Network, decoders: Decoders, roll: Roll): (r: (Session, Outcome))
    ensures r.0.pages == s.pages
    ensures |args| < 2 ==> r == (s, Usage("catch"))
    ensures |args| >= 2 && args[1] in s.caught ==> r == (s, AlreadyCaught(args[1]))
    ensures |args| >= 2 && args[1] !in s.caught ==>
      && r.0.cache == ReadThrough(s.cache, PokemonUrl(args[1]), net(PokemonUrl(args[1]))).cache
      && (r.1.NotFound? || r.1.Escaped? ==> r.0.caught == s.caught)
      && (r.1.Caught? ==> exists d: PokemonData :: r.0.caught == s.caught[d.name := Record(d)] && r.1.name == d.name)
    ensures r.0.caught.Keys >= s.caught.Keys
    ensures r.1.Caught? || r.1.Escaped? || r.1.NotFound? || r.1.AlreadyCaught? || r.1.Usage?
    ensures |args| >= 2 && args[1] !in s.caught ==>
      var d := LoadAndDecode(s.cache, PokemonUrl(args[1]), net(PokemonUrl(args[1])), decoders.pokemon);
      && (d.result.Err? ==> r == (s.(cache := d.cache), NotFound(args[1])))
      && (d.result.Ok? ==> (r.1.Caught? <==> Succeeds(d.result.value.baseExperience, roll)))
      && (d.result.Ok? && r.1.Caught? ==>
            r.0.caught == s.caught[d.result.value.name := Record(d.result.value)] && r.1 == Caught(d.result.value.name))
      && (d.result.Ok? && !r.1.Caught? ==> r == (s.(cache := d.cache), Escaped(d.result.value.name)))
  {
    if |args| < 2 then (s, Usage("catch"))
    else
      var name := args[1];
      if name in s.caught then (s, AlreadyCaught(name))
      else
        var d := LoadAndDecode(s.cache, PokemonUrl(name), net(PokemonUrl(name)), decoders.pokemon);
        match d.result
        case Err(_) => (s.(cache := d.cache), NotFound(name))
        case Ok(data) =>
          if Succeeds(data.baseExperience, roll) then
            (s.(cache := d.cache, caught := s.caught[data.name := Record(data)]), Caught(data.name))
          else
            (s.(cache := d.cache), Escaped(data.name))
  }

  // ---------------------------------------------------------------------
  // exit, help, inspect, pokedex: they only print

  function Inspect(s: Session, args: seq<string>): (r: Outcome)
    ensures |args| < 2 ==> r == Usage("inspect")
    ensures |args| >= 2 ==> r.Inspection? && r.name == args[1]
    ensures |args| >= 2 ==> (r.found.Some? <==> args[1] in s.caught)
    ensures |args| >= 2 && args[1] in s.caught ==> r.found.value == s.caught[args[1]]
  {
    if |args| < 2 then Usage("inspect")
    else if args[1] in s.caught then Inspection(args[1], Some(s.caught[args[1]]))
    else Inspection(args[1], None)
  }

  /** commandPokedex: the names of the caught Pokémon, in no particular order. */
  function ListCaught(s: Session): (r: Outcome)
    ensures r.CaughtNames? && |r.caughtNames| == |s.caught|
    ensures forall n :: n in r.caughtNames <==> n in s.caught
  {
    CaughtNames(s.caught.Keys)
  }

  // ---------------------------------------------------------------------
  // Properties

  /** The two request URLs of explore and catch name distinct cache entries for distinct arguments. */
  lemma PokemonUrlInjective(a: string, b: string)
    requires PokemonUrl(a) == PokemonUrl(b)
    ensures a == b
  {
    var p := ApiRoot + "pokemon/";
    assert PokemonUrl(a) == p + (a + "/") && PokemonUrl(b) == p + (b + "/");
    assert (p + (a + "/"))[|p|..] == a + "/";
    assert (p + (b + "/"))[|p|..] == b + "/";
    assert (a + "/")[..|a|] == a;
    assert (b + "/")[..|b|] == b;
  }

  lemma AreaUrlInjective(a: string, b: string)
    requires AreaUrl(a) == AreaUrl(b)
    ensures a == b
  {
    var p := ApiRoot + "location-area/";
    assert AreaUrl(a) == p + (a + "/") && AreaUrl(b) == p + (b + "/");
    assert (p + (a + "/"))[|p|..] == a + "/";
    assert (p + (b + "/"))[|p|..] == b + "/";
    assert (a + "/")[..|a|] == a;
    assert (b + "/")[..|b|] == b;
  }

  /** A page forward and a page back restore the current and next URLs. */
  lemma MapThenMapBack(s: Session, net: Network, net': Network, decoders: Decoders)
    requires s.pages.current != ""
    requires !MapForward(s, net, decoders).1.Failed?
    requires !MapBack(MapForward(s, net, decoders).0, net', decoders).1.Failed?
    ensures var back := MapBack(MapForward(s, net, decoders).0, net', decoders).0;
      back.pages.current == s.pages.current && back.pages.next == s.pages.next
  {
  }

  /** The first map of a run shows the first page and makes it the previous page. */
  lemma FirstMap(net: Network, decoders: Decoders)
    requires !MapForward(Start, net, decoders).1.Failed?
    ensures MapForward(Start, net, decoders).0.pages.prev == FirstPageUrl
    ensures MapForward(Start, net, decoders).0.pages.current == FirstPageUrl
  {
  }

  /** A successful catch adds the record under the decoded name, even when the typed name differs. */
  lemma CatchFilesUnderDecodedName(s: Session, args: seq<string>, net: Network, decoders: Decoders, roll: Roll)
    requires |args| >= 2 && args[1] !in s.caught
    requires PokemonUrl(args[1]) !in s.cache && net(PokemonUrl(args[1])).Fetched?
    requires decoders.pokemon(net(PokemonUrl(args[1])).body).Some?
    requires Succeeds(decoders.pokemon(net(PokemonUrl(args[1])).body).value.baseExperience, roll)
    ensures var url := PokemonUrl(args[1]);
      var data := decoders.pokemon(net(url).body).value;
      Catch(s, args, net, decoders, roll)
        == (s.(cache := s.cache[url := net(url).body], caught := s.caught[data.name := Record(data)]),
            Caught(data.name))
  {
  }

  /** A roll that catches is beaten by every smaller roll, with the same resulting session. */
  lemma CatchSmallerRollCatches(s: Session, args: seq<string>, net: Network, decoders: Decoders, roll: Roll, roll': Roll)
    requires roll' <= roll
    requires Catch(s, args, net, decoders, roll).1.Caught?
    ensures Catch(s, args, net, decoders, roll') == Catch(s, args, net, decoders, roll)
  {
  }

  /** A catch under another name of a Pokémon already caught replaces its record instead of refusing. */
  lemma CatchByAliasReplaces(s: Session, args: seq<string>, net: Network, decoders: Decoders, roll: Roll)
    requires |args| >= 2 && args[1] !in s.caught
    requires Catch(s, args, net, decoders, roll).1.Caught?
    ensures var r := Catch(s, args, net, decoders, roll);
      |r.0.caught| == if r.1.name in s.caught then |s.caught| else |s.caught| + 1
  {
  }

  /** A catch that fails to reach or read the network leaves the whole session as it was. */
  lemma CatchNetworkFailureKeepsSession(s: Session, args: seq<string>, net: Network, decoders: Decoders, roll: Roll)
    requires |args| >= 2 && args[1] !in s.caught && PokemonUrl(args[1]) !in s.cache
    requires !net(PokemonUrl(args[1])).Fetched?
    ensures Catch(s, args, net, decoders, roll) == (s, NotFound(args[1]))
  {
  }
}
