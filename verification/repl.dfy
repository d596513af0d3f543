/**
 The read-eval loop of main in cmd/main.go: each line is cleaned, an empty
 line is skipped, the first word selects a command from the table and the
 command's callback runs on the words. The exit command ends the loop.
 */
module Repl {
  import opened Base
  import opened Text
  import opened ResponseCache
  import opened Catching
  import opened Commands
  import opened Loops

  /** The callbacks of the command table, named rather than pointed to. */
  datatype Callback = ExitCmd | HelpCmd | MapCmd | MapBackCmd | ExploreCmd | CatchCmd | InspectCmd | PokedexCmd

  /** cli.Command */
  datatype Command = Command(name: string, description: string, callback: Callback)

  /** The command table, keyed by the lower-case command name. */
  const Table: map<string, Command> := map[
    "exit" := Command("exit", "Exit the Pokedex", ExitCmd),
    "help" := Command("help", "Displays a help message", HelpCmd),
    "map" := Command("map", "Explore the Pokemon world map", MapCmd),
    "mapb" := Command("mapb", "Go back to the previous page of the Pokemon world map", MapBackCmd),
    "explore" := Command("explore", "List all Pok\U{E9}mon in a location area. Usage: explore <location-area>", ExploreCmd),
    "catch" := Command("catch", "Catch a Pokemon by name. Usage: catch <pokemon>", CatchCmd),
    "inspect" := Command("inspect", "Show details about a caught Pokemon. Usage: inspect <pokemon>", InspectCmd),
    "pokedex" := Command("pokedex", "List all Pok\U{E9}mon you have caught", PokedexCmd)
  ]

  /** What one line of input meets in the outside world: the network and the random roll. */
  datatype Input = Input(line: string, net: Network, roll: Roll)

  /** What the loop did with one line. */
  datatype Step = Skipped | UnknownCommand | Ran(command: Command, outcome: Outcome)

  /** Run one callback on the words of a line. */
  function Call(callback: Callback, s: Session, words: seq<string>, net: Network, roll: Roll, decoders: Decoders): (r: (Session, Outcome))
    ensures s.caught.Keys <= r.0.caught.Keys
    ensures Extends(s.cache, r.0.cache)
    ensures r.1 == Goodbye <==> callback == ExitCmd
    ensures callback == MapCmd ==> r == MapForward(s, net, decoders)
    ensures callback == MapBackCmd ==> r == MapBack(s, net, decoders)
    ensures callback == ExploreCmd ==> r == Explore(s, words, net, decoders)
    ensures callback == CatchCmd ==> r == Catch(s, words, net, decoders, roll)
    ensures callback == InspectCmd ==> r == (s, Inspect(s, words))
    ensures callback == PokedexCmd ==> r == (s, ListCaught(s))
    ensures callback == HelpCmd || callback == ExitCmd ==> r.0 == s
  {
    match callback
    case ExitCmd => (s, Goodbye)
    case HelpCmd => (s, HelpText)
    case MapCmd => MapForward(s, net, decoders)
    case MapBackCmd => MapBack(s, net, decoders)
    case ExploreCmd => Explore(s, words, net, decoders)
    case CatchCmd => Catch(s, words, net, decoders, roll)
    case InspectCmd => (s, Inspect(s, words))
    case PokedexCmd => (s, ListCaught(s))
  }

  /** The body of the loop after cleanInput: skip, reject or run. */
  function Dispatch(s: Session, words: seq<string>, net: Network, roll: Roll, decoders: Decoders): (r: (Session, Step))
    ensures words == [] ==> r == (s, Skipped)
    ensures words != [] && Lower(words[0]) !in Table ==> r == (s, UnknownCommand)
    ensures words != [] && Lower(words[0]) in Table ==>
      var cmd := Table[Lower(words[0])];
      var c := Call(cmd.callback, s, words, net, roll, decoders);
      r == (c.0, Ran(cmd, c.1))
    ensures s.caught.Keys <= r.0.caught.Keys
    ensures Extends(s.cache, r.0.cache)
  {
    if |words| == 0 then (s, Skipped)
    else
      var name := Lower(words[0]);
      if name !in Table then (s, UnknownCommand)
      else
        var cmd := Table[name];
        var (s', outcome) := Call(cmd.callback, s, words, net, roll, decoders);
        (s', Ran(cmd, outcome))
  }

  /** One line of input. */
  function StepLine(s: Session, input: Input, decoders: Decoders): (r: (Session, Step))
    ensures s.caught.Keys <= r.0.caught.Keys
    ensures Extends(s.cache, r.0.cache)
  {
    Dispatch(s, CleanInput(input.line), input.net, input.roll, decoders)
  }

  predicate IsExit(step: Step) {
    step.Ran? && step.outcome == Goodbye
  }

  /** StepLine as the step of the loop. */
  function LineStep(decoders: Decoders): (Session, Input) -> (Session, Step) {
    (s, x) => StepLine(s, x, decoders)
  }

  /** The session never loses a caught Pokémon or a cached body. */
  ghost predicate Grows(s: Session, s': Session) {
    s.caught.Keys <= s'.caught.Keys && Extends(s.cache, s'.cache)
  }

  /** main's loop: each line cleaned and dispatched, until the input ends or exit runs. */
  function Run(s: Session, inputs: seq<Input>, decoders: Decoders): (r: (Session, seq<Step>))
    ensures |r.1| <= |inputs|
    ensures s.caught.Keys <= r.0.caught.Keys
    ensures Extends(s.cache, r.0.cache)
    ensures forall i :: 0 <= i < |r.1| - 1 ==> !IsExit(r.1[i])
    ensures |r.1| < |inputs| ==> |r.1| > 0 && IsExit(r.1[|r.1| - 1])
    ensures inputs != [] ==> |r.1| > 0 && r.1[0] == StepLine(s, inputs[0], decoders).1
  {
    LoopShape(LineStep(decoders), IsExit, s, inputs);
    LoopKeeps(LineStep(decoders), IsExit, Grows, s, inputs);
    Loop(LineStep(decoders), IsExit, s, inputs)
  }

  // ---------------------------------------------------------------------
  // Properties of the command table

  /** Every entry of the table is filed under its own name. */
  lemma TableKeyedByName()
    ensures forall k :: k in Table ==> Table[k].name == k
  {
  }

  /** The table has exactly the eight commands, each with its own callback. */
  lemma TableContents()
    ensures Table.Keys == {"exit", "help", "map", "mapb", "explore", "catch", "inspect", "pokedex"}
    ensures forall k, k' :: k in Table && k' in Table && k != k' ==> Table[k].callback != Table[k'].callback
  {
  }

  /** Which callback each command name runs. */
  lemma TableCallbacks()
    ensures Table["exit"].callback == ExitCmd && Table["help"].callback == HelpCmd
    ensures Table["map"].callback == MapCmd && Table["mapb"].callback == MapBackCmd
    ensures Table["explore"].callback == ExploreCmd && Table["catch"].callback == CatchCmd
    ensures Table["inspect"].callback == InspectCmd && Table["pokedex"].callback == PokedexCmd
  {
  }

  // ---------------------------------------------------------------------
  // Properties of the loop

  /** A blank line runs nothing and changes nothing. */
  lemma BlankLineSkipped(s: Session, input: Input, decoders: Decoders)
    requires AllSpace(input.line)
    ensures StepLine(s, input, decoders) == (s, Skipped)
  {
    CleanInputBlank(input.line);
  }

  /** A line whose first word is no command is rejected and changes nothing. */
  lemma UnknownCommandIgnored(s: Session, input: Input, decoders: Decoders)
    requires CleanInput(input.line) != [] && CleanInput(input.line)[0] !in Table
    ensures StepLine(s, input, decoders) == (s, UnknownCommand)
  {
    LowerFixes(CleanInput(input.line)[0]);
  }

  /** The lowering in the loop is a no-op: the command is looked up by the cleaned first word itself. */
  lemma CommandIsFirstWord(s: Session, input: Input, decoders: Decoders)
    requires CleanInput(input.line) != [] && CleanInput(input.line)[0] in Table
    ensures StepLine(s, input, decoders).1.Ran?
    ensures StepLine(s, input, decoders).1.command.name == CleanInput(input.line)[0]
  {
    LowerFixes(CleanInput(input.line)[0]);
  }

  /** Letter case of a line does not change what it does. */
  lemma LineCaseInsensitive(s: Session, input: Input, line': string, decoders: Decoders)
    requires Lower(input.line) == Lower(line')
    ensures StepLine(s, input, decoders) == StepLine(s, input.(line := line'), decoders)
  {
    CleanInputIgnoresCase(input.line, line');
  }

  /** Whitespace around a line does not change what it does. */
  lemma LinePaddingIrrelevant(s: Session, input: Input, a: string, b: string, decoders: Decoders)
    requires AllSpace(a) && AllSpace(b)
    ensures StepLine(s, input.(line := a + input.line + b), decoders) == StepLine(s, input, decoders)
  {
    CleanInputIgnoresPadding(a, input.line, b);
  }

  /** A line "catch <name>" runs the catch command on its two words. */
  lemma CatchLine(s: Session, input: Input, name: string, decoders: Decoders)
    requires CleanInput(input.line) == ["catch", name]
    ensures var c := Catch(s, ["catch", name], input.net, decoders, input.roll);
      StepLine(s, input, decoders) == (c.0, Ran(Table["catch"], c.1))
  {
    LowerFixes("catch");
  }

  /** A line "explore <area>" runs the explore command on its two words. */
  lemma ExploreLine(s: Session, input: Input, area: string, decoders: Decoders)
    requires CleanInput(input.line) == ["explore", area]
    ensures var c := Explore(s, ["explore", area], input.net, decoders);
      StepLine(s, input, decoders) == (c.0, Ran(Table["explore"], c.1))
  {
    LowerFixes("explore");
  }

  /** A line "map" moves the page window forward. */
  lemma MapLine(s: Session, input: Input, decoders: Decoders)
    requires CleanInput(input.line) == ["map"]
    ensures var c := MapForward(s, input.net, decoders);
      StepLine(s, input, decoders) == (c.0, Ran(Table["map"], c.1))
  {
    LowerFixes("map");
  }

  /** A line "mapb" moves the page window back. */
  lemma MapBackLine(s: Session, input: Input, decoders: Decoders)
    requires CleanInput(input.line) == ["mapb"]
    ensures var c := MapBack(s, input.net, decoders);
      StepLine(s, input, decoders) == (c.0, Ran(Table["mapb"], c.1))
  {
    LowerFixes("mapb");
  }

  /** Running one line is one step of the loop. */
  lemma RunOne(s: Session, input: Input, decoders: Decoders)
    ensures Run(s, [input], decoders) == (StepLine(s, input, decoders).0, [StepLine(s, input, decoders).1])
  {
    var (s1, first) := StepLine(s, input, decoders);
    assert [input][0] == input && [input][1..] == [];
    assert Loop(LineStep(decoders), IsExit, s1, []) == (s1, []);
    assert [first] + [] == [first];
  }

  /** The session one run of lines leaves behind is the one the next lines start from. */
  lemma RunAppend(s: Session, a: seq<Input>, b: seq<Input>, decoders: Decoders)
    requires |Run(s, a, decoders).1| == |a|
    requires forall i :: 0 <= i < |a| ==> !IsExit(Run(s, a, decoders).1[i])
    ensures var ra := Run(s, a, decoders);
      var rb := Run(ra.0, b, decoders);
      Run(s, a + b, decoders) == (rb.0, ra.1 + rb.1)
  {
    LoopAppend(LineStep(decoders), IsExit, s, a, b);
  }

  /** Lines after an exit are never read. */
  lemma ExitStopsTheLoop(s: Session, inputs: seq<Input>, decoders: Decoders)
    requires inputs != [] && CleanInput(inputs[0].line) != [] && CleanInput(inputs[0].line)[0] == "exit"
    ensures Run(s, inputs, decoders) == (s, [Ran(Table["exit"], Goodbye)])
  {
    LowerFixes("exit");
  }
}
