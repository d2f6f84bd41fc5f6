/**
 The argument parser of the release scripts: `scripts/cli-args.ts`.
 */
module CliArgs {
  import opened Wrappers
  import opened Text

  datatype FlagKind = Switch | Value | Values

  type Schema = map<string, FlagKind>

  datatype ParsedArgs = ParsedArgs(
    positional: seq<string>, switches: set<string>, singles: map<string, string>, repeated: map<string, seq<string>>)

  function ValueOf(p: ParsedArgs, name: string): Option<string> {
    if name in p.singles then Some(p.singles[name]) else None
  }

  function ValuesOf(p: ParsedArgs, name: string): seq<string> {
    if name in p.repeated then p.repeated[name] else []
  }

  /** A token that looks like an option: dash-led, and not the lone dash. */
  predicate IsDashLed(s: string) {
    s != "" && s[0] == '-' && s != "-"
  }

  const Nothing := ParsedArgs([], {}, map[], map[])

  function Record(p: ParsedArgs, name: string, kind: FlagKind, value: string): Result<ParsedArgs> {
    if value == "" then Err("needs a value, and was given an empty one")
    else if kind == Values then Ok(p.(repeated := p.repeated[name := ValuesOf(p, name) + [value]]))
    else if name in p.singles then Err("was given more than once")
    else Ok(p.(singles := p.singles[name := value]))
  }

  // ---- one token, or two ---------------------------------------------------------------------------

  /** What the loop has after one round: the values so far, whether options ended, and the tokens used. */
  datatype Round = Round(p: ParsedArgs, ended: bool, used: nat)

  function Recorded(r: Result<ParsedArgs>, used: nat): Result<Round> {
    if r.Err? then Err(r.error) else Ok(Round(r.value, false, used))
  }

  function TakeEquals(schema: Schema, p: ParsedArgs, argument: string, equals: nat): Result<Round>
    requires 2 <= equals < |argument|
  {
    var name := argument[2..equals];
    if name !in schema then Err("unknown option")
    else if schema[name] == Switch then Err("takes no value")
    else Recorded(Record(p, name, schema[name], argument[equals + 1..]), 1)
  }

  function TakeNamed(schema: Schema, p: ParsedArgs, name: string, next: Option<string>): Result<Round> {
    if name !in schema then Err("unknown option")
    else if schema[name] == Switch then
      if name in p.switches then Err("was given more than once")
      else Ok(Round(p.(switches := p.switches + {name}), false, 1))
    else if next.None? then Err("needs a value, and is the last argument")
    else if IsDashLed(next.value) then Err("needs a value, but is followed by an option")
    else Recorded(Record(p, name, schema[name], next.value), 2)
  }

  /** One round of the loop. */
  function Take(schema: Schema, p: ParsedArgs, ended: bool, argument: string, next: Option<string>): Result<Round> {
    if ended || !IsDashLed(argument) then Ok(Round(p.(positional := p.positional + [argument]), ended, 1))
    else if argument == "--" then Ok(Round(p, true, 1))
    else if !StartsWith(argument, "--") then Err("unknown option")
    else
      var equals := IndexOf(argument, '=');
      assert argument[0] == '-' && argument[1] == '-';
      if equals < |argument| then TakeEquals(schema, p, argument, equals)
      else TakeNamed(schema, p, argument[2..], next)
  }

  function Second(rest: seq<string>): Option<string> {
    if |rest| > 1 then Some(rest[1]) else None
  }

  lemma TakeUses(schema: Schema, p: ParsedArgs, ended: bool, rest: seq<string>)
    requires rest != []
    ensures var r := Take(schema, p, ended, rest[0], Second(rest)); r.Ok? ==> 1 <= r.value.used <= |rest|
  {
  }

  function ParseRest(schema: Schema, p: ParsedArgs, ended: bool, rest: seq<string>): Result<ParsedArgs>
    decreases |rest|
  {
    if rest == [] then Ok(p)
    else
      var r := Take(schema, p, ended, rest[0], Second(rest));
      TakeUses(schema, p, ended, rest);
      if r.Err? then Err(r.error) else ParseRest(schema, r.value.p, r.value.ended, rest[r.value.used..])
  }

  function Parse(argv: seq<string>, schema: Schema): Result<ParsedArgs> {
    ParseRest(schema, Nothing, false, argv)
  }

  // ---- the loop ----------------------------------------------------------------------------------------

  method ParseArgs(argv: seq<string>, schema: Schema) returns (r: Result<ParsedArgs>)
    ensures r == Parse(argv, schema)
  {
    var parsed, optionsEnded := Nothing, false;
    var index := 0;
    while index < |argv|
      invariant 0 <= index <= |argv|
      invariant Parse(argv, schema) == ParseRest(schema, parsed, optionsEnded, argv[index..])
    {
      var argument := argv[index];
      var next := if index + 1 < |argv| then Some(argv[index + 1]) else None;
      if optionsEnded || !IsDashLed(argument) {
        WordRound(schema, parsed, optionsEnded, argv, index);
        parsed := parsed.(positional := parsed.positional + [argument]);
        index := index + 1;
        continue;
      }
      if argument == "--" {
        EndRound(schema, parsed, argv, index);
        optionsEnded := true;
        index := index + 1;
        continue;
      }
      if !StartsWith(argument, "--") {
        ShortRound(schema, parsed, argv, index);
        return Err("unknown option");
      }
      var round := TakeOption(schema, parsed, argument, next);
      NextRound(schema, parsed, false, argv, index);
      if round.Err? {
        return Err(round.error);
      }
      parsed, index := round.value.p, index + round.value.used;
    }
    return Ok(parsed);
  }

  /** An option with its value, in either spelling. */
  method TakeOption(schema: Schema, p: ParsedArgs, argument: string, next: Option<string>) returns (r: Result<Round>)
    requires IsDashLed(argument) && argument != "--" && StartsWith(argument, "--")
    ensures r == Take(schema, p, false, argument, next)
    ensures r.Ok? ==> !r.value.ended && (r.value.used == 1 || (r.value.used == 2 && next.Some?))
  {
    var equals := IndexOf(argument, '=');
    assert argument[0] == '-' && argument[1] == '-';
    if equals < |argument| {
      return TakeEquals(schema, p, argument, equals);
    }
    return TakeNamed(schema, p, argument[2..], next);
  }

  lemma NextRound(schema: Schema, p: ParsedArgs, ended: bool, argv: seq<string>, index: nat)
    requires index < |argv|
    ensures var next := if index + 1 < |argv| then Some(argv[index + 1]) else None;
      var r := Take(schema, p, ended, argv[index], next);
      && (r.Ok? ==> 1 <= r.value.used <= |argv| - index)
      && ParseRest(schema, p, ended, argv[index..])
         == if r.Err? then Err(r.error) else ParseRest(schema, r.value.p, r.value.ended, argv[index + r.value.used..])
  {
    var rest := argv[index..];
    TakeUses(schema, p, ended, rest);
    var r := Take(schema, p, ended, rest[0], Second(rest));
    if r.Ok? {
      assert rest[r.value.used..] == argv[index + r.value.used..];
    }
  }

  /** A word. */
  lemma WordRound(schema: Schema, p: ParsedArgs, ended: bool, argv: seq<string>, index: nat)
    requires index < |argv| && (ended || !IsDashLed(argv[index]))
    ensures ParseRest(schema, p, ended, argv[index..])
         == ParseRest(schema, p.(positional := p.positional + [argv[index]]), ended, argv[index + 1..])
  {
    NextRound(schema, p, ended, argv, index);
  }

  /** The end of the options. */
  lemma EndRound(schema: Schema, p: ParsedArgs, argv: seq<string>, index: nat)
    requires index < |argv| && argv[index] == "--"
    ensures ParseRest(schema, p, false, argv[index..]) == ParseRest(schema, p, true, argv[index + 1..])
  {
    NextRound(schema, p, false, argv, index);
  }

  /** An option spelled with one dash. */
  lemma ShortRound(schema: Schema, p: ParsedArgs, argv: seq<string>, index: nat)
    requires index < |argv| && IsDashLed(argv[index]) && !StartsWith(argv[index], "--")
    ensures ParseRest(schema, p, false, argv[index..]) == Err("unknown option")
  {
    NextRound(schema, p, false, argv, index);
  }

  /** As many positionals as the script asks for. */
  function Required(parsed: ParsedArgs, count: nat): Result<seq<string>> {
    if |parsed.positional| == count then Ok(parsed.positional) else Err("wrong number of arguments")
  }

  method RequirePositional(parsed: ParsedArgs, count: nat) returns (r: Result<seq<string>>)
    ensures r == Required(parsed, count)
  {
    if |parsed.positional| != count {
      return Err("wrong number of arguments");
    }
    return Ok(parsed.positional);
  }
}
