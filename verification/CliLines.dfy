/**
 The command lines a schema accepts, and what each of them says: parsing undoes printing.
 */
module CliLines {
  import opened Wrappers
  import opened Text
  import opened CliArgs

  /** One thing said on a command line. */
  datatype Item =
    | Flag(name: string)
    | Joined(name: string, value: string)
    | Spaced(name: string, value: string)
    | Word(value: string)

  /** The items, and what stands behind `--`. */
  datatype CommandLine = CommandLine(items: seq<Item>, tail: Option<seq<string>>)

  function PrintItem(item: Item): seq<string> {
    match item
    case Flag(name) => ["--" + name]
    case Joined(name, value) => ["--" + name + "=" + value]
    case Spaced(name, value) => ["--" + name, value]
    case Word(value) => [value]
  }

  function PrintItems(items: seq<Item>): seq<string> {
    if items == [] then [] else PrintItem(items[0]) + PrintItems(items[1..])
  }

  function Print(line: CommandLine): seq<string> {
    PrintItems(line.items) + (if line.tail.Some? then ["--"] + line.tail.value else [])
  }

  /** What an item adds to what came before it. */
  function Said(p: ParsedArgs, item: Item, schema: Schema): ParsedArgs {
    match item
    case Flag(name) => p.(switches := p.switches + {name})
    case Word(value) => p.(positional := p.positional + [value])
    case _ =>
      if item.name in schema && schema[item.name] == Values
      then p.(repeated := p.repeated[item.name := ValuesOf(p, item.name) + [item.value]])
      else p.(singles := p.singles[item.name := item.value])
  }

  function SaidAll(p: ParsedArgs, items: seq<Item>, schema: Schema): ParsedArgs
    decreases items
  {
    if items == [] then p else SaidAll(Said(p, items[0], schema), items[1..], schema)
  }

  function Meaning(line: CommandLine, schema: Schema): ParsedArgs {
    var p := SaidAll(Nothing, line.items, schema);
    p.(positional := p.positional + (if line.tail.Some? then line.tail.value else []))
  }

  /** A name that can be spelled on its own. */
  predicate IsName(name: string) {
    name != "" && Without(name, '=')
  }

  /** The item is one the schema has a place for, after what came before it. */
  predicate Fits(p: ParsedArgs, item: Item, schema: Schema) {
    match item
    case Flag(name) => IsName(name) && name in schema && schema[name] == Switch && name !in p.switches
    case Word(value) => !IsDashLed(value)
    case _ =>
      && item.name in schema && schema[item.name] != Switch && item.value != ""
      && (schema[item.name] == Value ==> item.name !in p.singles)
      && (item.Joined? ==> Without(item.name, '='))
      && (item.Spaced? ==> IsName(item.name) && !IsDashLed(item.value))
  }

  predicate FitsAll(p: ParsedArgs, items: seq<Item>, schema: Schema)
    decreases items
  {
    items != [] ==> Fits(p, items[0], schema) && FitsAll(Said(p, items[0], schema), items[1..], schema)
  }

  predicate IsLineOf(line: CommandLine, schema: Schema) {
    FitsAll(Nothing, line.items, schema)
  }

  // ---- a printed item is read as that item ---------------------------------------------------------

  lemma TakeName(schema: Schema, p: ParsedArgs, name: string, next: Option<string>)
    requires IsName(name)
    ensures Take(schema, p, false, "--" + name, next) == TakeNamed(schema, p, name, next)
  {
    var argument := "--" + name;
    assert argument[0] == '-' && argument[2..] == name;
    assert argument[..2] == "--" && |argument| > 2;
    assert Without(argument, '=');
    SplitOnce(argument, '=', "");
  }

  lemma TakeJoined(schema: Schema, p: ParsedArgs, name: string, value: string, next: Option<string>)
    requires Without(name, '=')
    ensures 2 <= 2 + |name| < |"--" + name + "=" + value|
    ensures Take(schema, p, false, "--" + name + "=" + value, next)
         == TakeEquals(schema, p, "--" + name + "=" + value, 2 + |name|)
    ensures ("--" + name + "=" + value)[2..2 + |name|] == name && ("--" + name + "=" + value)[3 + |name|..] == value
  {
    var head := "--" + name;
    var argument := "--" + name + "=" + value;
    assert argument == head + ['='] + value;
    assert argument[0] == '-' && argument[1] == '-' && argument[..2] == "--";
    SplitOnce(head, '=', value);
  }

  lemma TakesItem(schema: Schema, p: ParsedArgs, item: Item, rest: seq<string>)
    requires Fits(p, item, schema)
    ensures var tokens := PrintItem(item);
      Take(schema, p, false, tokens[0], Second(tokens + rest)) == Ok(Round(Said(p, item, schema), false, |tokens|))
  {
    match item
    case Flag(name) => TakeName(schema, p, name, Second(PrintItem(item) + rest));
    case Joined(name, value) => TakeJoined(schema, p, name, value, Second(PrintItem(item) + rest));
    case Spaced(name, value) =>
      assert Second(PrintItem(item) + rest) == Some(value);
      TakeName(schema, p, name, Some(value));
    case Word(value) =>
  }

  lemma ParseItem(schema: Schema, p: ParsedArgs, item: Item, rest: seq<string>)
    requires Fits(p, item, schema)
    ensures ParseRest(schema, p, false, PrintItem(item) + rest) == ParseRest(schema, Said(p, item, schema), false, rest)
  {
    var all := PrintItem(item) + rest;
    TakesItem(schema, p, item, rest);
    assert all[0] == PrintItem(item)[0] && all[|PrintItem(item)|..] == rest;
  }

  lemma {:induction false} ParseItems(schema: Schema, p: ParsedArgs, items: seq<Item>, rest: seq<string>)
    requires FitsAll(p, items, schema)
    ensures ParseRest(schema, p, false, PrintItems(items) + rest) == ParseRest(schema, SaidAll(p, items, schema), false, rest)
    decreases |items|
  {
    if items == [] {
      assert PrintItems(items) + rest == rest;
    } else {
      var more := PrintItems(items[1..]) + rest;
      assert PrintItems(items) + rest == PrintItem(items[0]) + more;
      ParseItem(schema, p, items[0], more);
      ParseItems(schema, Said(p, items[0], schema), items[1..], rest);
    }
  }

  lemma {:induction false} ParseTail(schema: Schema, p: ParsedArgs, tail: seq<string>)
    ensures ParseRest(schema, p, true, tail) == Ok(p.(positional := p.positional + tail))
    decreases |tail|
  {
    if tail == [] {
      assert p.positional + tail == p.positional;
    } else {
      var q := p.(positional := p.positional + [tail[0]]);
      ParseTail(schema, q, tail[1..]);
      assert p.positional + [tail[0]] + tail[1..] == p.positional + tail;
    }
  }

  /** Parsing undoes printing. */
  lemma ParseUndoesPrint(line: CommandLine, schema: Schema)
    requires IsLineOf(line, schema)
    ensures Parse(Print(line), schema) == Ok(Meaning(line, schema))
  {
    var said := SaidAll(Nothing, line.items, schema);
    if line.tail.Some? {
      var rest := ["--"] + line.tail.value;
      ParseItems(schema, Nothing, line.items, rest);
      assert rest[1..] == line.tail.value;
      ParseTail(schema, said, line.tail.value);
    } else {
      ParseItems(schema, Nothing, line.items, []);
      assert said.positional + [] == said.positional;
    }
  }

  // ---- nothing else is accepted --------------------------------------------------------------------

  /** The item that one accepted round of the loop read. */
  function ItemRead(argument: string, next: Option<string>, used: nat): Item {
    if !IsDashLed(argument) then Word(argument)
    else if |argument| < 2 then Word(argument)
    else if IndexOf(argument, '=') < |argument| && IndexOf(argument, '=') >= 2
      then Joined(argument[2..IndexOf(argument, '=')], argument[IndexOf(argument, '=') + 1..])
    else if used == 2 && next.Some? then Spaced(argument[2..], next.value)
    else Flag(argument[2..])
  }

  lemma ReadWasPrinted(schema: Schema, p: ParsedArgs, argument: string, next: Option<string>)
    requires argument != "--"
    requires Take(schema, p, false, argument, next).Ok?
    ensures var r := Take(schema, p, false, argument, next).value;
      var item := ItemRead(argument, next, r.used);
      && Fits(p, item, schema) && r.p == Said(p, item, schema) && !r.ended
      && PrintItem(item) == (if r.used == 2 && next.Some? then [argument, next.value] else [argument])
      && (r.used == 1 || (r.used == 2 && next.Some?))
  {
    if IsDashLed(argument) {
      var equals := IndexOf(argument, '=');
      assert argument == "--" + argument[2..];
      if equals < |argument| {
        assert argument[0] == '-' && argument[1] == '-';
        assert argument == "--" + argument[2..equals] + "=" + argument[equals + 1..];
      }
    }
  }

  /** The values a line adds to `p`, from where the loop stands. */
  ghost predicate Explains(schema: Schema, p: ParsedArgs, rest: seq<string>, line: CommandLine, result: ParsedArgs) {
    && FitsAll(p, line.items, schema) && Print(line) == rest
    && var said := SaidAll(p, line.items, schema);
    result == said.(positional := said.positional + (if line.tail.Some? then line.tail.value else []))
  }

  /** Every token of an accepted rest of a line belongs to exactly one item of it. */
  lemma {:induction false} AcceptedIsPrinted(schema: Schema, p: ParsedArgs, rest: seq<string>)
    requires ParseRest(schema, p, false, rest).Ok?
    ensures exists line :: Explains(schema, p, rest, line, ParseRest(schema, p, false, rest).value)
    decreases |rest|
  {
    if rest == [] {
      assert p.positional + [] == p.positional;
      assert Explains(schema, p, rest, CommandLine([], None), p);
    } else if rest[0] == "--" {
      ParseTail(schema, p, rest[1..]);
      var line := CommandLine([], Some(rest[1..]));
      assert Print(line) == rest;
      assert Explains(schema, p, rest, line, ParseRest(schema, p, false, rest).value);
    } else {
      TakeUses(schema, p, false, rest);
      ReadWasPrinted(schema, p, rest[0], Second(rest));
      var r := Take(schema, p, false, rest[0], Second(rest)).value;
      var result := ParseRest(schema, p, false, rest).value;
      AcceptedIsPrinted(schema, r.p, rest[r.used..]);
      var line :| Explains(schema, r.p, rest[r.used..], line, result);
      FirstTokens(rest, r.used);
      PrefixedLine(schema, p, rest, ItemRead(rest[0], Second(rest), r.used), r.used, line, result);
    }
  }

  lemma FirstTokens(rest: seq<string>, used: nat)
    requires 1 <= used <= 2 && used <= |rest|
    ensures rest[..used] == if used == 2 then [rest[0], Second(rest).value] else [rest[0]]
    ensures used == 2 ==> Second(rest).Some?
  {
  }

  lemma PrefixedLine(schema: Schema, p: ParsedArgs, rest: seq<string>, item: Item, used: nat, line: CommandLine,
                     result: ParsedArgs)
    requires 1 <= used <= |rest| && Fits(p, item, schema) && PrintItem(item) == rest[..used]
    requires Explains(schema, Said(p, item, schema), rest[used..], line, result)
    ensures Explains(schema, p, rest, CommandLine([item] + line.items, line.tail), result)
  {
    var items := [item] + line.items;
    assert items[1..] == line.items;
    var tail := if line.tail.Some? then ["--"] + line.tail.value else [];
    Regroup(PrintItem(item), PrintItems(line.items), tail);
    assert rest == rest[..used] + rest[used..];
  }

  lemma Regroup(a: seq<string>, b: seq<string>, c: seq<string>)
    ensures (a + b) + c == a + (b + c)
  {
  }

  /** A line is accepted exactly when it is the print of a line the schema has a place for, with what that line says. */
  lemma AcceptedIffPrinted(argv: seq<string>, schema: Schema, result: ParsedArgs)
    ensures Parse(argv, schema) == Ok(result) <==>
      exists line :: IsLineOf(line, schema) && Print(line) == argv && Meaning(line, schema) == result
  {
    if Parse(argv, schema) == Ok(result) {
      AcceptedIsPrinted(schema, Nothing, argv);
      var line :| Explains(schema, Nothing, argv, line, result);
      assert IsLineOf(line, schema) && Print(line) == argv && Meaning(line, schema) == result;
    }
    if line :| IsLineOf(line, schema) && Print(line) == argv && Meaning(line, schema) == result {
      ParseUndoesPrint(line, schema);
    }
  }

  // ---- what the answers say about the line -----------------------------------------------------------

  function Words(items: seq<Item>): seq<string> {
    if items == [] then [] else (if items[0].Word? then [items[0].value] else []) + Words(items[1..])
  }

  predicate Gives(item: Item, name: string) {
    (item.Joined? || item.Spaced?) && item.name == name
  }

  /** The values given for a name, in order. */
  function Given(items: seq<Item>, name: string): seq<string> {
    if items == [] then []
    else (if Gives(items[0], name) then [items[0].value] else []) + Given(items[1..], name)
  }

  lemma {:induction false} WordsFrom(p: ParsedArgs, items: seq<Item>, schema: Schema)
    ensures SaidAll(p, items, schema).positional == p.positional + Words(items)
    decreases items
  {
    if items != [] {
      WordsFrom(Said(p, items[0], schema), items[1..], schema);
    }
  }

  lemma {:induction false} SwitchesFrom(p: ParsedArgs, items: seq<Item>, schema: Schema, name: string)
    ensures name in SaidAll(p, items, schema).switches <==> name in p.switches || Flag(name) in items
    decreases items
  {
    if items != [] {
      SwitchesFrom(Said(p, items[0], schema), items[1..], schema, name);
    }
  }

  lemma {:induction false} ValuesFrom(p: ParsedArgs, items: seq<Item>, schema: Schema, name: string)
    requires name in schema && schema[name] == Values
    ensures ValuesOf(SaidAll(p, items, schema), name) == ValuesOf(p, name) + Given(items, name)
    decreases items
  {
    if items != [] {
      ManyValues(p, items[0], schema, name);
      ValuesFrom(Said(p, items[0], schema), items[1..], schema, name);
    }
  }

  lemma ManyValues(p: ParsedArgs, item: Item, schema: Schema, name: string)
    requires name in schema && schema[name] == Values
    ensures ValuesOf(Said(p, item, schema), name) == ValuesOf(p, name) + (if Gives(item, name) then [item.value] else [])
  {
  }

  lemma OneValue(p: ParsedArgs, item: Item, schema: Schema, name: string)
    requires Fits(p, item, schema) && name in schema && schema[name] == Value
    ensures ValueOf(Said(p, item, schema), name) == if Gives(item, name) then Some(item.value) else ValueOf(p, name)
    ensures Gives(item, name) ==> ValueOf(p, name) == None
  {
  }

  lemma {:induction false} ValueFrom(p: ParsedArgs, items: seq<Item>, schema: Schema, name: string)
    requires FitsAll(p, items, schema) && name in schema && schema[name] == Value
    ensures |Given(items, name)| <= (if ValueOf(p, name).Some? then 0 else 1)
    ensures ValueOf(SaidAll(p, items, schema), name)
         == if Given(items, name) == [] then ValueOf(p, name) else Some(Given(items, name)[0])
    decreases items
  {
    if items != [] {
      OneValue(p, items[0], schema, name);
      ValueFrom(Said(p, items[0], schema), items[1..], schema, name);
    }
  }

  /** The four answers of a parsed line are the line's own switches, values and positionals, in order. */
  lemma AnswersAreTheLines(line: CommandLine, schema: Schema, name: string)
    requires IsLineOf(line, schema)
    ensures Parse(Print(line), schema).Ok?
    ensures var p := Parse(Print(line), schema).value;
      && p.positional == Words(line.items) + (if line.tail.Some? then line.tail.value else [])
      && (name in p.switches <==> Flag(name) in line.items)
      && (name in schema && schema[name] == Values ==> ValuesOf(p, name) == Given(line.items, name))
      && (name in schema && schema[name] == Value ==>
            && |Given(line.items, name)| <= 1
            && ValueOf(p, name) == if Given(line.items, name) == [] then None else Some(Given(line.items, name)[0]))
  {
    ParseUndoesPrint(line, schema);
    WordsFrom(Nothing, line.items, schema);
    SwitchesFrom(Nothing, line.items, schema, name);
    if name in schema && schema[name] == Values {
      ValuesFrom(Nothing, line.items, schema, name);
    }
    if name in schema && schema[name] == Value {
      ValueFrom(Nothing, line.items, schema, name);
    }
  }

  // ---- the positionals a script asks for -------------------------------------------------------------

  /** A script's own two calls: parse, then ask for so many positionals. */
  function Asked(argv: seq<string>, schema: Schema, count: nat): Result<seq<string>> {
    var r := Parse(argv, schema);
    if r.Err? then Err(r.error) else Required(r.value, count)
  }

  method Ask(argv: seq<string>, schema: Schema, count: nat) returns (r: Result<seq<string>>)
    ensures r == Asked(argv, schema, count)
  {
    var parsed := ParseArgs(argv, schema);
    if parsed.Err? {
      return Err(parsed.error);
    }
    r := RequirePositional(parsed.value, count);
  }

  function Positionals(line: CommandLine): seq<string> {
    Words(line.items) + (if line.tail.Some? then line.tail.value else [])
  }

  /** A script gets `words` exactly when it asks for that many and they are what some line of the schema says, in order. */
  lemma PositionalsAreTheLines(argv: seq<string>, schema: Schema, count: nat, words: seq<string>)
    ensures Asked(argv, schema, count) == Ok(words) <==>
      |words| == count && exists line :: IsLineOf(line, schema) && Print(line) == argv && Positionals(line) == words
  {
    if Asked(argv, schema, count) == Ok(words) {
      AcceptedIffPrinted(argv, schema, Parse(argv, schema).value);
      var line :| IsLineOf(line, schema) && Print(line) == argv && Meaning(line, schema) == Parse(argv, schema).value;
      PositionalsAreMeant(line, schema);
    }
    if |words| == count && exists line :: IsLineOf(line, schema) && Print(line) == argv && Positionals(line) == words {
      var line :| IsLineOf(line, schema) && Print(line) == argv && Positionals(line) == words;
      ParseUndoesPrint(line, schema);
      PositionalsAreMeant(line, schema);
    }
  }

  lemma PositionalsAreMeant(line: CommandLine, schema: Schema)
    ensures Meaning(line, schema).positional == Positionals(line)
  {
    WordsFrom(Nothing, line.items, schema);
  }

  /** Behind `--` any words at all come back as they were given. */
  lemma WordsComeBack(words: seq<string>, schema: Schema)
    ensures Asked(["--"] + words, schema, |words|) == Ok(words)
  {
    var line := CommandLine([], Some(words));
    assert IsLineOf(line, schema) && Print(line) == ["--"] + words && Positionals(line) == words;
    PositionalsAreTheLines(["--"] + words, schema, |words|, words);
  }

  function AsWords(words: seq<string>): seq<Item> {
    if words == [] then [] else [Word(words[0])] + AsWords(words[1..])
  }

  lemma {:induction false} AsWordsAreThose(p: ParsedArgs, words: seq<string>, schema: Schema)
    requires forall w :: w in words ==> !IsDashLed(w)
    ensures PrintItems(AsWords(words)) == words && Words(AsWords(words)) == words && FitsAll(p, AsWords(words), schema)
    decreases |words|
  {
    if words != [] {
      assert AsWords(words)[1..] == AsWords(words[1..]);
      AsWordsAreThose(Said(p, Word(words[0]), schema), words[1..], schema);
    }
  }

  /** Every item prints at least its word, and one that prints nothing else is not dash-led. */
  lemma {:induction false} WordsArePrinted(p: ParsedArgs, items: seq<Item>, schema: Schema)
    requires FitsAll(p, items, schema)
    ensures |Words(items)| <= |PrintItems(items)|
    ensures |Words(items)| == |PrintItems(items)| ==> forall w :: w in PrintItems(items) ==> !IsDashLed(w)
    decreases items
  {
    if items != [] {
      WordsArePrinted(Said(p, items[0], schema), items[1..], schema);
    }
  }

  /** Without `--` they come back exactly when none of them is dash-led. */
  lemma BareWordsComeBack(words: seq<string>, schema: Schema)
    ensures Asked(words, schema, |words|) == Ok(words) <==> forall w :: w in words ==> !IsDashLed(w)
  {
    PositionalsAreTheLines(words, schema, |words|, words);
    if forall w :: w in words ==> !IsDashLed(w) {
      AsWordsAreThose(Nothing, words, schema);
      var line := CommandLine(AsWords(words), None);
      assert IsLineOf(line, schema) && Print(line) == words && Positionals(line) == words;
    }
    if line :| IsLineOf(line, schema) && Print(line) == words && Positionals(line) == words {
      WordsArePrinted(Nothing, line.items, schema);
    }
  }

  // ---- the two spellings --------------------------------------------------------------------------------

  /** `--n v` and `--n=v` say the same wherever they stand, exactly as long as `v` is `-` or not dash-led. */
  lemma SpellingsAgree(schema: Schema, p: ParsedArgs, name: string, value: string, rest: seq<string>)
    requires IsName(name) && name in schema && schema[name] != Switch
    ensures !IsDashLed(value) ==>
      ParseRest(schema, p, false, ["--" + name, value] + rest) == ParseRest(schema, p, false, ["--" + name + "=" + value] + rest)
    ensures IsDashLed(value) ==> ParseRest(schema, p, false, ["--" + name, value] + rest).Err?
  {
    var spaced, joined := ["--" + name, value] + rest, ["--" + name + "=" + value] + rest;
    assert Second(spaced) == Some(value);
    TakeName(schema, p, name, Some(value));
    TakeJoined(schema, p, name, value, Second(joined));
    assert spaced[2..] == rest && joined[1..] == rest;
  }

  /** A switch without a name can be declared, but no line sets it. */
  lemma NamelessSwitchIsUnreachable(argv: seq<string>, schema: Schema)
    requires Parse(argv, schema).Ok?
    ensures "" !in Parse(argv, schema).value.switches
  {
    AcceptedIffPrinted(argv, schema, Parse(argv, schema).value);
    var line :| IsLineOf(line, schema) && Print(line) == argv && Meaning(line, schema) == Parse(argv, schema).value;
    SwitchesFrom(Nothing, line.items, schema, "");
    FlagsAreNamed(Nothing, line.items, schema);
  }

  lemma {:induction false} FlagsAreNamed(p: ParsedArgs, items: seq<Item>, schema: Schema)
    requires FitsAll(p, items, schema)
    ensures Flag("") !in items
    decreases items
  {
    if items != [] {
      FlagsAreNamed(Said(p, items[0], schema), items[1..], schema);
    }
  }
}
