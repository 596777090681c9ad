/** Command-line tokens, and moving a known option prefix behind the command route. */
module Argv {
  import opened Wrappers

  datatype Definition = Definition(id: string, required: bool)

  datatype Command = Command(id: string, path: seq<string>, optionIds: set<string>)

  /** Option definitions by alias, and the command that a list of positionals selects. */
  datatype Contract = Contract(options: map<string, Definition>, resolve: seq<string> -> Option<Command>)

  datatype Token = Token(
    definition: Option<Definition>, rawName: string, rawToken: string, value: Option<string>, hasEquals: bool)

  datatype Tokens = Tokens(positionals: seq<string>, options: seq<Token>)

  const TERMINATOR := "--"

  predicate StartsWith(s: string, prefix: string) { |prefix| <= |s| && s[..|prefix|] == prefix }

  predicate Dashed(token: string) { token != [] && token[0] == '-' }

  /** Where the first equals sign stands, or the length of the token. */
  function EqualsAt(token: string): (n: nat)
    ensures n <= |token| && (forall i :: 0 <= i < n ==> token[i] != '=') && (n < |token| ==> token[n] == '=')
  {
    if token == [] || token[0] == '=' then 0 else 1 + EqualsAt(token[1..])
  }

  function NameOf(token: string): string { token[..EqualsAt(token)] }

  function DefinitionOf(c: Contract, token: string): Option<Definition> {
    if NameOf(token) in c.options then Some(c.options[NameOf(token)]) else None
  }

  predicate HasEquals(token: string) { EqualsAt(token) < |token| }

  /** A token that stands for itself. */
  predicate Positional(c: Contract, token: string) {
    !Dashed(token) || token == "-" || (DefinitionOf(c, token).None? && !StartsWith(token, TERMINATOR))
  }

  /** The next argument is the value of this option. */
  predicate TakesNext(c: Contract, argv: seq<string>)
    requires argv != []
  {
    && DefinitionOf(c, argv[0]).Some? && DefinitionOf(c, argv[0]).value.required && !HasEquals(argv[0])
    && |argv| > 1 && !StartsWith(argv[1], TERMINATOR)
  }

  function OptionToken(c: Contract, argv: seq<string>): Token
    requires argv != []
  {
    var token := argv[0];
    Token(DefinitionOf(c, token), NameOf(token), token,
          if HasEquals(token) then Some(token[EqualsAt(token) + 1..]) else if TakesNext(c, argv) then Some(argv[1]) else None,
          HasEquals(token))
  }

  function Tokenize(c: Contract, argv: seq<string>): Tokens
    decreases |argv|
  {
    if argv == [] then Tokens([], [])
    else if argv[0] == TERMINATOR then Tokens(argv[1..], [])
    else if Positional(c, argv[0]) then
      var rest := Tokenize(c, argv[1..]);
      Tokens([argv[0]] + rest.positionals, rest.options)
    else
      var rest := Tokenize(c, if TakesNext(c, argv) then argv[2..] else argv[1..]);
      Tokens(rest.positionals, [OptionToken(c, argv)] + rest.options)
  }

  /** The tokenizer scans once and skips the values it consumes. */
  method TokenizeArgv(c: Contract, argv: seq<string>) returns (r: Tokens)
    ensures r == Tokenize(c, argv)
  {
    var positionals: seq<string> := [];
    var options: seq<Token> := [];
    var index := 0;
    assert argv[0..] == argv;
    while index < |argv|
      invariant index <= |argv|
      invariant Tokenize(c, argv) == Tokens(positionals + Tokenize(c, argv[index..]).positionals,
                                            options + Tokenize(c, argv[index..]).options)
      decreases |argv| - index
    {
      ghost var rest := argv[index..];
      var token := argv[index];
      if token == TERMINATOR {
        positionals := positionals + argv[index + 1..];
        return Tokens(positionals, options);
      }
      if Positional(c, token) {
        assert rest[1..] == argv[index + 1..];
        Regroup(positionals, [token], Tokenize(c, rest[1..]).positionals);
        positionals := positionals + [token];
        index := index + 1;
        continue;
      }
      var definition := DefinitionOf(c, token);
      var hasEquals := HasEquals(token);
      var value := if hasEquals then Some(token[EqualsAt(token) + 1..]) else None;
      var skip := 1;
      if definition.Some? && !hasEquals && definition.value.required && index + 1 < |argv| && !StartsWith(argv[index + 1], TERMINATOR) {
        value := Some(argv[index + 1]);
        skip := 2;
      }
      assert rest[skip..] == argv[index + skip..];
      assert OptionToken(c, rest) == Token(definition, NameOf(token), token, value, hasEquals);
      Regroup(options, [OptionToken(c, rest)], Tokenize(c, rest[skip..]).options);
      options := options + [Token(definition, NameOf(token), token, value, hasEquals)];
      index := index + skip;
    }
    r := Tokens(positionals, options);
  }

  lemma Regroup<T>(a: seq<T>, b: seq<T>, c: seq<T>)
    ensures a + (b + c) == a + b + c
  {
  }

  // ---- what each form of an argument means ------------------------------------------------------

  predicate Long(text: string) { |text| > 1 && text[0] == '-' && text[1] == '-' }

  function WithOption(t: Tokens, option: Token): Tokens { Tokens(t.positionals, [option] + t.options) }

  function WithWord(t: Tokens, word: string): Tokens { Tokens([word] + t.positionals, t.options) }

  /** An argument with an equals sign: the option is what stands before the first one and the value all that follows. */
  lemma EqualsForms(c: Contract, name: string, value: string, rest: seq<string>)
    requires '=' !in name
    ensures var argument, after := name + "=" + value, Tokenize(c, rest);
      Tokenize(c, [argument] + rest) ==
        if name != [] && name[0] == '-' && name in c.options
        then WithOption(after, Token(Some(c.options[name]), name, argument, Some(value), true))
        else if Long(name) then WithOption(after, Token(None, name, argument, Some(value), true))
        else WithWord(after, argument)
  {
    hide Tokenize, NameOf;
    var argument := name + "=" + value;
    var argv := [argument] + rest;
    assert argv[0] == argument && argv[1..] == rest;
    assert name + "=" <= argument && argument[|name|] == '=';
    NameSplits(argument, name);
    assert EqualsAt(argument) == |name| by { assert |NameOf(argument)| == EqualsAt(argument) by { NameIsBefore(argument); } }
    assert argument[|name| + 1..] == value;
    assert Long(name) <==> StartsWith(argument, TERMINATOR);
    TokenizeStep(c, argv);
  }

  /** An argument without an equals sign, and the value a required option takes from the next one. */
  lemma PlainForms(c: Contract, name: string, rest: seq<string>)
    requires '=' !in name
    ensures var after := Tokenize(c, rest);
      Tokenize(c, [name] + rest) ==
        if name == "--" then Tokens(rest, [])
        else if name == [] || name[0] != '-' || name == "-" then WithWord(after, name)
        else if name in c.options then
          if c.options[name].required && rest != [] && !Long(rest[0])
          then WithOption(Tokenize(c, rest[1..]), Token(Some(c.options[name]), name, name, Some(rest[0]), false))
          else WithOption(after, Token(Some(c.options[name]), name, name, None, false))
        else if Long(name) then WithOption(after, Token(None, name, name, None, false))
        else WithWord(after, name)
  {
    hide Tokenize, NameOf;
    var argv := [name] + rest;
    assert argv[0] == name && argv[1..] == rest && (rest != [] ==> argv[1] == rest[0] && argv[2..] == rest[1..]);
    NameSplits(name, name);
    assert !HasEquals(name);
    assert Long(name) <==> StartsWith(name, TERMINATOR);
    assert rest != [] ==> (Long(rest[0]) <==> StartsWith(rest[0], TERMINATOR));
    TokenizeStep(c, argv);
  }

  lemma NameIsBefore(argument: string)
    ensures |NameOf(argument)| == EqualsAt(argument)
  {
  }

  lemma TokenizeStep(c: Contract, argv: seq<string>)
    requires argv != []
    ensures Tokenize(c, argv) ==
      if argv[0] == TERMINATOR then Tokens(argv[1..], [])
      else if Positional(c, argv[0]) then WithWord(Tokenize(c, argv[1..]), argv[0])
      else WithOption(Tokenize(c, if TakesNext(c, argv) then argv[2..] else argv[1..]), OptionToken(c, argv))
  {
  }

  // ---- the rewriting --------------------------------------------------------------------------

  predicate AsksForHelp(argv: seq<string>) {
    exists i :: 0 <= i < |argv| && NameOf(argv[i]) in {"--help", "-h", "--version"}
  }

  predicate Complete(command: Command, option: Token) {
    && option.definition.Some? && option.definition.value.id !in {"version", "help"}
    && option.definition.value.id in command.optionIds
    && (option.definition.value.required ==> option.value.Some?)
  }

  /** Nothing but complete options of this command. */
  predicate MovablePrefix(c: Contract, command: Command, prefix: seq<string>) {
    var parsed := Tokenize(c, prefix);
    && parsed.positionals == [] && parsed.options != []
    && forall i :: 0 <= i < |parsed.options| ==> Complete(command, parsed.options[i])
  }

  predicate PathAt(argv: seq<string>, path: seq<string>, index: nat) {
    index + |path| <= |argv| && argv[index..index + |path|] == path
  }

  function MoveFrom(c: Contract, command: Command, argv: seq<string>, index: nat): seq<string>
    decreases |argv| - index
  {
    if index + |command.path| > |argv| then argv
    else if PathAt(argv, command.path, index) && MovablePrefix(c, command, argv[..index])
    then command.path + argv[..index] + argv[index + |command.path|..]
    else if index == |argv| then argv
    else MoveFrom(c, command, argv, index + 1)
  }

  /** Options in front of the route move behind it; anything doubtful stays as it is. */
  function RouteFirst(c: Contract, argv: seq<string>): seq<string> {
    if AsksForHelp(argv) then argv
    else
      match c.resolve(Tokenize(c, argv).positionals)
      case None => argv
      case Some(command) => if command.path == [] then argv else MoveFrom(c, command, argv, 1)
  }

  method RouteFirstArgv(c: Contract, argv: seq<string>) returns (r: seq<string>)
    ensures r == RouteFirst(c, argv)
  {
    if AsksForHelp(argv) { return argv; }
    var tokenized := TokenizeArgv(c, argv);
    var command := c.resolve(tokenized.positionals);
    if command.None? || command.value.path == [] { return argv; }
    var path := command.value.path;
    var index := 1;
    while index + |path| <= |argv|
      invariant MoveFrom(c, command.value, argv, 1) == MoveFrom(c, command.value, argv, index)
      decreases |argv| - index
    {
      if PathAt(argv, path, index) {
        var prefix := argv[..index];
        var parsed := TokenizeArgv(c, prefix);
        if parsed.positionals == [] && parsed.options != []
           && forall i :: 0 <= i < |parsed.options| ==> Complete(command.value, parsed.options[i]) {
          return path + prefix + argv[index + |path|..];
        }
      }
      index := index + 1;
    }
    return argv;
  }

  // ---- meaning is kept ----------------------------------------------------------------------------

  /** A terminator was met among the options. */
  predicate Terminated(c: Contract, prefix: seq<string>)
    decreases |prefix|
  {
    prefix != [] && (prefix[0] == TERMINATOR ||
      (!Positional(c, prefix[0]) && Terminated(c, if TakesNext(c, prefix) then prefix[2..] else prefix[1..])))
  }

  predicate Finished(options: seq<Token>) {
    forall i :: 0 <= i < |options| ==>
      options[i].definition.Some? && (options[i].definition.value.required ==> options[i].value.Some?)
  }

  function Skip(c: Contract, argv: seq<string>): nat
    requires argv != []
  {
    if TakesNext(c, argv) then 2 else 1
  }

  lemma OptionStep(c: Contract, argv: seq<string>)
    requires argv != [] && argv[0] != TERMINATOR && !Positional(c, argv[0])
    ensures Skip(c, argv) <= |argv|
    ensures var rest := Tokenize(c, argv[Skip(c, argv)..]);
      Tokenize(c, argv) == Tokens(rest.positionals, [OptionToken(c, argv)] + rest.options)
    ensures Terminated(c, argv) == Terminated(c, argv[Skip(c, argv)..])
  {
  }

  /** A finished option takes its value from the prefix or from nowhere. */
  lemma OptionIgnoresSuffix(c: Contract, prefix: seq<string>, suffix: seq<string>)
    requires prefix != [] && prefix[0] != TERMINATOR && !Positional(c, prefix[0]) && Finished([OptionToken(c, prefix)])
    ensures Skip(c, prefix + suffix) == Skip(c, prefix) && OptionToken(c, prefix + suffix) == OptionToken(c, prefix)
  {
    assert [OptionToken(c, prefix)][0] == OptionToken(c, prefix);
    assert (prefix + suffix)[0] == prefix[0];
    assert |prefix| > 1 ==> (prefix + suffix)[1] == prefix[1];
  }

  lemma FinishedParts(head: Token, tail: seq<Token>)
    ensures Finished([head] + tail) <==> Finished([head]) && Finished(tail)
  {
    assert ([head] + tail)[0] == head && [head][0] == head;
    assert forall i :: 0 <= i < |tail| ==> ([head] + tail)[i + 1] == tail[i];
    assert forall i :: 1 <= i < |tail| + 1 ==> ([head] + tail)[i] == tail[i - 1];
  }

  /** Complete options are read the same whatever follows them. */
  lemma {:induction false} PrefixTokens(c: Contract, prefix: seq<string>, suffix: seq<string>)
    requires Tokenize(c, prefix).positionals == [] && Finished(Tokenize(c, prefix).options)
    ensures var p, s := Tokenize(c, prefix), Tokenize(c, suffix);
      Tokenize(c, prefix + suffix) ==
        if Terminated(c, prefix) then Tokens(suffix, p.options) else Tokens(s.positionals, p.options + s.options)
    decreases |prefix|, 1
  {
    if prefix == [] {
      assert prefix + suffix == suffix;
    } else if prefix[0] == TERMINATOR {
      assert (prefix + suffix)[1..] == prefix[1..] + suffix;
    } else {
      PrefixStep(c, prefix, suffix);
    }
  }

  lemma {:induction false} PrefixStep(c: Contract, prefix: seq<string>, suffix: seq<string>)
    requires prefix != [] && prefix[0] != TERMINATOR
    requires Tokenize(c, prefix).positionals == [] && Finished(Tokenize(c, prefix).options)
    ensures var p, s := Tokenize(c, prefix), Tokenize(c, suffix);
      Tokenize(c, prefix + suffix) ==
        if Terminated(c, prefix) then Tokens(suffix, p.options) else Tokens(s.positionals, p.options + s.options)
    decreases |prefix|, 0
  {
    assert !Positional(c, prefix[0]);
    hide Tokenize, Terminated, Positional, Finished, OptionToken, TakesNext;
    var whole, skip := prefix + suffix, Skip(c, prefix);
    var head := OptionToken(c, prefix);
    OptionStep(c, prefix);
    FinishedParts(head, Tokenize(c, prefix[skip..]).options);
    OptionIgnoresSuffix(c, prefix, suffix);
    assert whole[0] == prefix[0] && whole[skip..] == prefix[skip..] + suffix;
    OptionStep(c, whole);
    PrefixTokens(c, prefix[skip..], suffix);
    Regroup([head], Tokenize(c, prefix[skip..]).options, Tokenize(c, suffix).options);
  }

  lemma {:induction false} PathTokens(c: Contract, path: seq<string>, rest: seq<string>)
    requires forall i :: 0 <= i < |path| ==> !Dashed(path[i])
    ensures var s := Tokenize(c, rest); Tokenize(c, path + rest) == Tokens(path + s.positionals, s.options)
    decreases |path|
  {
    if path == [] {
      assert path + rest == rest;
    } else {
      PathTokens(c, path[1..], rest);
      var whole := path + rest;
      assert whole[1..] == path[1..] + rest && whole[0] == path[0];
      PlainToken(c, whole);
      hide Tokenize, Positional;
      assert path == [path[0]] + path[1..];
      Regroup([path[0]], path[1..], Tokenize(c, rest).positionals);
    }
  }

  lemma PlainToken(c: Contract, argv: seq<string>)
    requires argv != [] && !Dashed(argv[0])
    ensures var s := Tokenize(c, argv[1..]); Tokenize(c, argv) == Tokens([argv[0]] + s.positionals, s.options)
  {
    assert TERMINATOR[0] == '-';
  }

  /** Moving complete options behind a route changes neither the positionals nor the options, nor their order. */
  lemma MovingKeepsTokens(c: Contract, prefix: seq<string>, path: seq<string>, rest: seq<string>)
    requires Tokenize(c, prefix).positionals == [] && Finished(Tokenize(c, prefix).options)
    requires forall i :: 0 <= i < |path| ==> !Dashed(path[i])
    ensures Tokenize(c, path + prefix + rest) == Tokenize(c, prefix + path + rest)
  {
    PrefixTokens(c, prefix, path + rest);
    PrefixTokens(c, prefix, rest);
    PathTokens(c, path, rest);
    PathTokens(c, path, prefix + rest);
    Regroup(path, prefix, rest);
    Regroup(prefix, path, rest);
  }

  /** Command paths are words, never options. */
  ghost predicate PlainPaths(c: Contract) {
    forall p :: c.resolve(p).Some? ==> forall i :: 0 <= i < |c.resolve(p).value.path| ==> !Dashed(c.resolve(p).value.path[i])
  }

  lemma MovedSplit(c: Contract, command: Command, argv: seq<string>, index: nat)
    requires MoveFrom(c, command, argv, index) != argv
    ensures exists at {:trigger PathAt(argv, command.path, at)} ::
      && index <= at && at + |command.path| <= |argv| && PathAt(argv, command.path, at)
      && MovablePrefix(c, command, argv[..at])
      && MoveFrom(c, command, argv, index) == command.path + argv[..at] + argv[at + |command.path|..]
    decreases |argv| - index
  {
    if PathAt(argv, command.path, index) && MovablePrefix(c, command, argv[..index]) {
    } else {
      MovedSplit(c, command, argv, index + 1);
    }
  }

  lemma PrefixIsFinished(c: Contract, command: Command, prefix: seq<string>)
    requires MovablePrefix(c, command, prefix)
    ensures Tokenize(c, prefix).positionals == [] && Finished(Tokenize(c, prefix).options)
  {
  }

  lemma MovedKeepsMeaning(c: Contract, command: Command, argv: seq<string>)
    requires forall i :: 0 <= i < |command.path| ==> !Dashed(command.path[i])
    ensures multiset(MoveFrom(c, command, argv, 1)) == multiset(argv)
    ensures Tokenize(c, MoveFrom(c, command, argv, 1)) == Tokenize(c, argv)
  {
    hide MoveFrom, Tokenize, MovablePrefix, Dashed;
    if MoveFrom(c, command, argv, 1) != argv {
      MovedSplit(c, command, argv, 1);
      var at: nat :| 1 <= at && at + |command.path| <= |argv| && PathAt(argv, command.path, at)
        && MovablePrefix(c, command, argv[..at])
        && MoveFrom(c, command, argv, 1) == command.path + argv[..at] + argv[at + |command.path|..];
      var prefix, rest := argv[..at], argv[at + |command.path|..];
      assert argv == prefix + command.path + rest;
      PrefixIsFinished(c, command, prefix);
      MovingKeepsTokens(c, prefix, command.path, rest);
    }
  }

  /**
   Route-first rewriting keeps the meaning: the result is a permutation of the arguments and
   tokenizes to the same positionals and the same options in the same order, terminator or not.
   */
  lemma RouteFirstKeepsMeaning(c: Contract, argv: seq<string>)
    requires PlainPaths(c)
    ensures multiset(RouteFirst(c, argv)) == multiset(argv)
    ensures Tokenize(c, RouteFirst(c, argv)) == Tokenize(c, argv)
  {
    hide MoveFrom, Tokenize, AsksForHelp;
    var selected := c.resolve(Tokenize(c, argv).positionals);
    if selected.Some? { MovedKeepsMeaning(c, selected.value, argv); }
  }

  /** What makes a prefix movable, spelled out: options only, each of them known, wanted by the command and complete. */
  predicate MayMove(c: Contract, command: Command, prefix: seq<string>) {
    var parsed := Tokenize(c, prefix);
    && parsed.positionals == [] && parsed.options != []
    && forall i :: 0 <= i < |parsed.options| ==>
         && parsed.options[i].definition.Some? && parsed.options[i].definition.value.id in command.optionIds
         && parsed.options[i].definition.value.id != "version" && parsed.options[i].definition.value.id != "help"
         && (parsed.options[i].definition.value.required ==> parsed.options[i].value.Some?)
  }

  /** The arguments up to `at` are followed by the route. */
  predicate RouteFollows(argv: seq<string>, path: seq<string>, at: nat) {
    at <= |argv| && path <= argv[at..]
  }

  /** The route stands at `at` behind a prefix that may move, and at no earlier place. */
  predicate FirstMovable(c: Contract, command: Command, argv: seq<string>, from: nat, at: nat) {
    && from <= at && RouteFollows(argv, command.path, at) && MayMove(c, command, argv[..at])
    && forall k :: from <= k < at ==> !(RouteFollows(argv, command.path, k) && MayMove(c, command, argv[..k]))
  }

  lemma RouteStandsAt(argv: seq<string>, path: seq<string>, at: nat)
    ensures PathAt(argv, path, at) <==> RouteFollows(argv, path, at)
  {
    if at + |path| <= |argv| { assert argv[at..][..|path|] == argv[at..at + |path|]; }
  }

  lemma MayMoveIff(c: Contract, command: Command, prefix: seq<string>)
    ensures MayMove(c, command, prefix) <==> MovablePrefix(c, command, prefix)
  {
  }

  lemma {:induction false} MovesTo(c: Contract, command: Command, argv: seq<string>, from: nat, at: nat)
    requires FirstMovable(c, command, argv, from, at)
    ensures MoveFrom(c, command, argv, from) == command.path + argv[..at] + argv[at + |command.path|..]
    decreases at - from
  {
    hide Tokenize, MayMove, MovablePrefix, PathAt;
    RouteStandsAt(argv, command.path, from);
    RouteStandsAt(argv, command.path, at);
    if PathAt(argv, command.path, from) { MayMoveIff(c, command, argv[..from]); }
    if from < at { MovesTo(c, command, argv, from + 1, at); }
  }

  lemma {:induction false} StaysPut(c: Contract, command: Command, argv: seq<string>, from: nat)
    requires from <= |argv| && forall at :: from <= at && RouteFollows(argv, command.path, at) ==> !MayMove(c, command, argv[..at])
    ensures MoveFrom(c, command, argv, from) == argv
    decreases |argv| - from
  {
    hide Tokenize, MayMove, MovablePrefix, PathAt;
    RouteStandsAt(argv, command.path, from);
    if PathAt(argv, command.path, from) { MayMoveIff(c, command, argv[..from]); }
    if from < |argv| { StaysPut(c, command, argv, from + 1); }
  }

  lemma NothingMoves(c: Contract, command: Command)
    ensures MoveFrom(c, command, [], 1) == []
  {
  }

  /** An argument that asks for help or for the version, with or without a value. */
  predicate Asks(argument: string) {
    || argument == "--help" || argument == "-h" || argument == "--version"
    || "--help=" <= argument || "-h=" <= argument || "--version=" <= argument
  }

  lemma NameSplits(argument: string, name: string)
    requires '=' !in name
    ensures NameOf(argument) == name <==> argument == name || name + "=" <= argument
  {
    if name + "=" <= argument {
      assert argument[|name|] == '=' && forall i :: 0 <= i < |name| ==> argument[i] in name;
    } else if argument == name {
      assert forall i :: 0 <= i < |argument| ==> argument[i] in name;
    }
  }

  lemma AsksIff(argument: string)
    ensures NameOf(argument) in {"--help", "-h", "--version"} <==> Asks(argument)
  {
    hide NameOf;
    NameSplits(argument, "--help");
    NameSplits(argument, "-h");
    NameSplits(argument, "--version");
  }

  /**
   Exactly when and where the prefix moves: arguments that ask for help or the version are never touched; otherwise the
   arguments select a command with a route, and the first place of that route behind a movable prefix decides. Where there is
   none nothing changes.
   */
  lemma RouteFirstMovesExactly(c: Contract, argv: seq<string>)
    ensures var selected := c.resolve(Tokenize(c, argv).positionals);
      if selected.None? || selected.value.path == [] || (exists i :: 0 <= i < |argv| && Asks(argv[i])) then RouteFirst(c, argv) == argv
      else
        var command := selected.value;
        && (forall at: nat :: FirstMovable(c, command, argv, 1, at) ==>
              RouteFirst(c, argv) == command.path + argv[..at] + argv[at + |command.path|..])
        && ((forall at: nat :: 1 <= at && RouteFollows(argv, command.path, at) ==> !MayMove(c, command, argv[..at])) ==>
              RouteFirst(c, argv) == argv)
  {
    hide Tokenize, MoveFrom, MayMove, Asks, NameOf;
    forall i | 0 <= i < |argv| ensures NameOf(argv[i]) in {"--help", "-h", "--version"} <==> Asks(argv[i]) { AsksIff(argv[i]); }
    var selected := c.resolve(Tokenize(c, argv).positionals);
    if selected.Some? && argv == [] {
      NothingMoves(c, selected.value);
    } else if selected.Some? {
      var command := selected.value;
      forall at: nat | FirstMovable(c, command, argv, 1, at)
        ensures MoveFrom(c, command, argv, 1) == command.path + argv[..at] + argv[at + |command.path|..]
      {
        MovesTo(c, command, argv, 1, at);
      }
      if forall at: nat :: 1 <= at && RouteFollows(argv, command.path, at) ==> !MayMove(c, command, argv[..at]) {
        StaysPut(c, command, argv, 1);
      }
    }
  }

  /** No prefix that starts with a plain word is movable. */
  lemma PlainHeadStays(c: Contract, command: Command, argv: seq<string>, index: nat)
    requires argv != [] && !Dashed(argv[0]) && index >= 1
    ensures MoveFrom(c, command, argv, index) == argv
    decreases |argv| - index
  {
    if index + |command.path| <= |argv| {
      assert argv[..index][0] == argv[0];
      assert Tokenize(c, argv[..index]).positionals != [];
      if index < |argv| { PlainHeadStays(c, command, argv, index + 1); }
    }
  }

  /** Rewriting twice is rewriting once, and a rewritten list starts with its command route. */
  lemma RouteFirstIdempotent(c: Contract, argv: seq<string>)
    requires PlainPaths(c)
    ensures RouteFirst(c, RouteFirst(c, argv)) == RouteFirst(c, argv)
    ensures RouteFirst(c, argv) != argv ==>
      var command := c.resolve(Tokenize(c, argv).positionals).value;
      PathAt(RouteFirst(c, argv), command.path, 0)
  {
    var once := RouteFirst(c, argv);
    if once != argv {
      RouteFirstKeepsMeaning(c, argv);
      var command := c.resolve(Tokenize(c, argv).positionals).value;
      MovedSplit(c, command, argv, 1);
      assert once[0] == command.path[0];
      assert once[..|command.path|] == command.path;
      PlainHeadStays(c, command, once, 1);
    }
  }
}
