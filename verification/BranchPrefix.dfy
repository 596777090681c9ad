/**
 The second argument rewriting: flags of a branch observation command that stand in front of its route.
 The prefix moves only when it reads completely as flags of that command.
 */
module BranchPrefix {
  import opened Wrappers
  import Argv

  datatype Kind = OptionField | FlagField | OtherField

  datatype Field = Field(key: string, kind: Kind, flag: Option<string>, aliases: seq<string>, repeatable: bool)

  datatype Command = Command(route: seq<string>, fields: seq<Field>)

  // ---- the flag table -------------------------------------------------------------------------

  function Names(field: Field): seq<string> {
    if field.kind == OtherField || field.flag.None? then [] else [field.flag.value] + field.aliases
  }

  function AllNames(fields: seq<Field>): seq<(string, Field)> {
    if fields == [] then [] else AllNames(fields[..|fields| - 1]) + Tagged(Names(fields[|fields| - 1]), fields[|fields| - 1])
  }

  function Tagged(names: seq<string>, field: Field): seq<(string, Field)> {
    seq(|names|, i requires 0 <= i < |names| => (names[i], field))
  }

  predicate Unambiguous(names: seq<(string, Field)>) { forall i, j :: 0 <= i < j < |names| ==> names[i].0 != names[j].0 }

  /** The table holds exactly the named flags. */
  predicate TableOf(names: seq<(string, Field)>, table: map<string, Field>) {
    && (forall i :: 0 <= i < |names| ==> names[i].0 in table && table[names[i].0] == names[i].1)
    && (forall n :: n in table ==> exists i :: 0 <= i < |names| && names[i].0 == n)
  }

  lemma AddName(done: seq<(string, Field)>, table: map<string, Field>, next: (string, Field))
    requires Unambiguous(done) && TableOf(done, table)
    ensures next.0 in table <==> exists i :: 0 <= i < |done| && done[i].0 == next.0
    ensures next.0 !in table ==> Unambiguous(done + [next]) && TableOf(done + [next], table[next.0 := next.1])
  {
    if next.0 !in table {
      var all, grown := done + [next], table[next.0 := next.1];
      assert all[|done|] == next;
      forall n | n in grown ensures exists i :: 0 <= i < |all| && all[i].0 == n {
        if n in table {
          var i :| 0 <= i < |done| && done[i].0 == n;
          assert all[i].0 == n;
        } else {
          assert all[|done|].0 == n;
        }
      }
    }
  }

  lemma AmbiguousPart(part: seq<(string, Field)>, all: seq<(string, Field)>)
    requires part <= all && !Unambiguous(part)
    ensures !Unambiguous(all)
  {
    var i, j :| 0 <= i < j < |part| && part[i].0 == part[j].0;
    assert all[i] == part[i] && all[j] == part[j];
  }

  lemma Clash(done: seq<(string, Field)>, next: (string, Field))
    requires exists i :: 0 <= i < |done| && done[i].0 == next.0
    ensures !Unambiguous(done + [next])
  {
    var i :| 0 <= i < |done| && done[i].0 == next.0;
    assert (done + [next])[i] == done[i] && (done + [next])[|done|] == next;
  }

  /** Enter the names of one field; a name that is taken makes the command ambiguous. */
  method AddField(field: Field, ghost before: seq<(string, Field)>, table: map<string, Field>) returns (r: Option<map<string, Field>>)
    requires Unambiguous(before) && TableOf(before, table)
    ensures r.Some? <==> Unambiguous(before + Tagged(Names(field), field))
    ensures r.Some? ==> TableOf(before + Tagged(Names(field), field), r.value)
  {
    hide Unambiguous, TableOf, Names;
    var candidates, flags := Names(field), table;
    ghost var tagged := Tagged(candidates, field);
    assert before + tagged[..0] == before;
    for j := 0 to |candidates|
      invariant Unambiguous(before + tagged[..j]) && TableOf(before + tagged[..j], flags)
    {
      ghost var done := before + tagged[..j];
      assert before + tagged[..j + 1] == done + [tagged[j]];
      AddName(done, flags, tagged[j]);
      if candidates[j] in flags {
        Clash(done, tagged[j]);
        AmbiguousPart(done + [tagged[j]], before + tagged);
        return None;
      }
      flags := flags[candidates[j] := field];
    }
    assert tagged[..|candidates|] == tagged;
    r := Some(flags);
  }

  lemma {:induction false} NamesGrow(fields: seq<Field>, k: nat)
    requires k <= |fields|
    ensures AllNames(fields[..k]) <= AllNames(fields)
  {
    if k < |fields| {
      var front := fields[..|fields| - 1];
      NamesGrow(front, k);
      assert front[..k] == fields[..k];
    } else {
      assert fields[..k] == fields;
    }
  }

  /** Fill the table field by field. */
  method CollectFlags(fields: seq<Field>) returns (table: Option<map<string, Field>>)
    ensures table.Some? <==> Unambiguous(AllNames(fields))
    ensures table.Some? ==> TableOf(AllNames(fields), table.value)
  {
    var flags: map<string, Field> := map[];
    for i := 0 to |fields|
      invariant Unambiguous(AllNames(fields[..i])) && TableOf(AllNames(fields[..i]), flags)
    {
      assert fields[..i + 1][..i] == fields[..i];
      assert AllNames(fields[..i + 1]) == AllNames(fields[..i]) + Tagged(Names(fields[i]), fields[i]);
      hide AllNames, Unambiguous, TableOf, Tagged, Names;
      var grown := AddField(fields[i], AllNames(fields[..i]), flags);
      if grown.None? {
        NamesGrow(fields, i + 1);
        AmbiguousPart(AllNames(fields[..i + 1]), AllNames(fields));
        return None;
      }
      flags := grown.value;
    }
    assert fields[..|fields|] == fields;
    table := Some(flags);
  }

  /** A field that takes a value or stands alone is known by its flag and by each alias of it. */
  predicate Named(field: Field, name: string) {
    && (field.kind == OptionField || field.kind == FlagField)
    && field.flag.Some? && (name == field.flag.value || name in field.aliases)
  }

  lemma NamedIff(field: Field, name: string)
    ensures Named(field, name) <==> exists i :: 0 <= i < |Names(field)| && Names(field)[i] == name
  {
    if Named(field, name) {
      if name != field.flag.value {
        var i :| 0 <= i < |field.aliases| && field.aliases[i] == name;
        assert Names(field)[i + 1] == name;
      } else {
        assert Names(field)[0] == name;
      }
    }
  }

  predicate NamesField(names: seq<(string, Field)>, name: string, field: Field) { exists i :: 0 <= i < |names| && names[i] == (name, field) }

  lemma {:induction false} NamedFields(fields: seq<Field>, name: string, field: Field)
    ensures NamesField(AllNames(fields), name, field) <==> field in fields && Named(field, name)
  {
    if fields != [] {
      var front, last := fields[..|fields| - 1], fields[|fields| - 1];
      NamedFields(front, name, field);
      NamedIff(last, name);
      var a, b := AllNames(front), Tagged(Names(last), last);
      assert fields == front + [last];
      assert forall i :: 0 <= i < |b| ==> b[i] == (Names(last)[i], last);
      InParts(a, b, (name, field));
      hide AllNames, Names, Named;
      assert NamesField(b, name, field) <==> field == last && exists i :: 0 <= i < |Names(last)| && Names(last)[i] == name by {
        if i :| 0 <= i < |Names(last)| && Names(last)[i] == name && field == last { assert b[i] == (name, field); }
      }
    }
  }

  lemma InParts(a: seq<(string, Field)>, b: seq<(string, Field)>, x: (string, Field))
    ensures NamesField(a + b, x.0, x.1) <==> NamesField(a, x.0, x.1) || NamesField(b, x.0, x.1)
  {
    assert forall i :: 0 <= i < |a| ==> (a + b)[i] == a[i];
    assert forall i :: 0 <= i < |b| ==> (a + b)[|a| + i] == b[i];
    if i :| 0 <= i < |a + b| && (a + b)[i] == x { assert if i < |a| then a[i] == x else b[i - |a|] == x; }
  }

  /** A name leads to a field exactly when the field takes flags and goes by that name. */
  lemma TableHolds(fields: seq<Field>, table: map<string, Field>, name: string, field: Field)
    requires TableOf(AllNames(fields), table)
    ensures name in table && table[name] == field ==> field in fields && Named(field, name)
    ensures Unambiguous(AllNames(fields)) && field in fields && Named(field, name) ==> name in table && table[name] == field
  {
    hide AllNames, Named, Unambiguous;
    NamedFields(fields, name, field);
    var names := AllNames(fields);
    if name in table && table[name] == field {
      var i :| 0 <= i < |names| && names[i].0 == name;
      assert names[i] == (name, field);
    }
  }

  // ---- reading a prefix -------------------------------------------------------------------------

  datatype Occurrence = Occurrence(key: string, value: Option<string>, repeatable: bool)

  /** An alias of the repository option counts as that option. */
  function OptionKey(field: Field): string { if field.key == "repositoryAlias" then "repository" else field.key }

  function FieldOf(table: map<string, Field>, token: string): Option<Field> {
    if Argv.Dashed(token) && token != "-" && Argv.NameOf(token) in table then Some(table[Argv.NameOf(token)]) else None
  }

  /** How many arguments this occurrence takes; `None` when it is malformed or incomplete. */
  function Width(field: Field, prefix: seq<string>): (n: Option<nat>)
    requires prefix != []
    ensures n.Some? ==> 0 < n.value <= |prefix|
  {
    if Argv.HasEquals(prefix[0]) then if field.kind == FlagField then None else Some(1)
    else if field.kind == FlagField then Some(1)
    else if |prefix| > 1 then Some(2) else None
  }

  function ValueOf(prefix: seq<string>, width: nat): Option<string>
    requires 0 < width <= |prefix|
  {
    if Argv.HasEquals(prefix[0]) then Some(prefix[0][Argv.EqualsAt(prefix[0]) + 1..])
    else if width == 2 then Some(prefix[1]) else None
  }

  /** All arguments as flag occurrences. */
  function Read(table: map<string, Field>, prefix: seq<string>): Option<seq<Occurrence>>
    decreases |prefix|
  {
    if prefix == [] then Some([])
    else
      match FieldOf(table, prefix[0])
      case None => None
      case Some(field) =>
        match Width(field, prefix)
        case None => None
        case Some(width) =>
          match Read(table, prefix[width..])
          case None => None
          case Some(rest) => Some([Occurrence(OptionKey(field), ValueOf(prefix, width), field.repeatable)] + rest)
  }

  /** An occurrence in front of what is read behind it; nothing when that cannot be read. */
  function Before(found: Occurrence, rest: Option<seq<Occurrence>>): Option<seq<Occurrence>> {
    match rest case None => None case Some(more) => Some([found] + more)
  }

  predicate IsFlagName(name: string) { name != [] && name[0] == '-' && name != "-" }

  /** With an equals sign: only a known option that takes a value, which is all that follows the first one. */
  lemma ReadWithEquals(table: map<string, Field>, name: string, value: string, rest: seq<string>)
    requires '=' !in name
    ensures Read(table, [name + "=" + value] + rest) ==
      if name != [] && name[0] == '-' && name in table && table[name].kind != FlagField
      then Before(Occurrence(if table[name].key == "repositoryAlias" then "repository" else table[name].key, Some(value), table[name].repeatable),
                  Read(table, rest))
      else None
  {
    hide Read, ValueOf;
    var argument := name + "=" + value;
    var prefix := [argument] + rest;
    assert prefix[0] == argument && prefix[1..] == rest;
    assert argument[|name|] == '=' && name + "=" <= argument;
    Argv.NameSplits(argument, name);
    Argv.NameIsBefore(argument);
    assert argument[|name| + 1..] == value;
    ValueForms(prefix, 1);
    ReadUnfolds(table, prefix);
  }

  /** Without one: a known flag alone, or a known option and the argument behind it, whatever that is. */
  lemma ReadPlain(table: map<string, Field>, name: string, rest: seq<string>)
    requires '=' !in name
    ensures var read := Read(table, [name] + rest);
      if !IsFlagName(name) || name !in table then read.None?
      else
        var key := if table[name].key == "repositoryAlias" then "repository" else table[name].key;
        if table[name].kind == FlagField then read == Before(Occurrence(key, None, table[name].repeatable), Read(table, rest))
        else if rest == [] then read.None?
        else read == Before(Occurrence(key, Some(rest[0]), table[name].repeatable), Read(table, rest[1..]))
  {
    hide Read, ValueOf;
    var prefix := [name] + rest;
    assert prefix[0] == name && prefix[1..] == rest && (rest != [] ==> prefix[1] == rest[0] && prefix[2..] == rest[1..]);
    Argv.NameSplits(name, name);
    assert !Argv.HasEquals(name);
    ValueForms(prefix, 1);
    if rest != [] { ValueForms(prefix, 2); }
    ReadUnfolds(table, prefix);
  }

  lemma ValueForms(prefix: seq<string>, width: nat)
    requires 0 < width <= |prefix|
    ensures ValueOf(prefix, width) ==
      if Argv.HasEquals(prefix[0]) then Some(prefix[0][Argv.EqualsAt(prefix[0]) + 1..]) else if width == 2 then Some(prefix[1]) else None
  {
  }

  lemma ReadUnfolds(table: map<string, Field>, prefix: seq<string>)
    requires prefix != []
    ensures Read(table, prefix) ==
      match FieldOf(table, prefix[0])
      case None => None
      case Some(field) =>
        match Width(field, prefix)
        case None => None
        case Some(width) => Before(Occurrence(OptionKey(field), ValueOf(prefix, width), field.repeatable), Read(table, prefix[width..]))
  {
  }

  /** Only a repeatable occurrence may follow another one of its option. */
  predicate RepeatsAllowed(found: seq<Occurrence>) {
    forall i, j :: 0 <= i < j < |found| && found[i].key == found[j].key ==> found[j].repeatable
  }

  predicate Keyed(found: seq<Occurrence>, key: string) { exists i :: 0 <= i < |found| && found[i].key == key }

  lemma RepeatsExtend(found: seq<Occurrence>, next: Occurrence)
    ensures RepeatsAllowed(found + [next]) <==> RepeatsAllowed(found) && (Keyed(found, next.key) ==> next.repeatable)
  {
    var all := found + [next];
    assert forall i :: 0 <= i < |found| ==> all[i] == found[i];
    if RepeatsAllowed(all) {
      forall i, j | 0 <= i < j < |found| && found[i].key == found[j].key ensures found[j].repeatable { assert all[j].repeatable; }
      if Keyed(found, next.key) {
        var i :| 0 <= i < |found| && found[i].key == next.key;
        assert all[i].key == all[|found|].key;
      }
    }
  }

  lemma RepeatsPrefix(found: seq<Occurrence>, rest: seq<Occurrence>)
    requires RepeatsAllowed(found + rest)
    ensures RepeatsAllowed(found)
  {
    assert forall i :: 0 <= i < |found| ==> (found + rest)[i] == found[i];
  }

  function Found(field: Field, prefix: seq<string>, width: nat): Occurrence
    requires 0 < width <= |prefix|
  {
    Occurrence(OptionKey(field), ValueOf(prefix, width), field.repeatable)
  }

  lemma ReadStep(table: map<string, Field>, prefix: seq<string>)
    requires prefix != [] && FieldOf(table, prefix[0]).Some?
    ensures var field := FieldOf(table, prefix[0]).value;
      match Width(field, prefix)
      case None => Read(table, prefix).None?
      case Some(width) =>
        Read(table, prefix) ==
          match Read(table, prefix[width..]) case None => None case Some(rest) => Some([Found(field, prefix, width)] + rest)
  {
  }

  lemma RepeatRefused(found: seq<Occurrence>, next: Occurrence, rest: seq<Occurrence>)
    requires Keyed(found, next.key) && !next.repeatable
    ensures !RepeatsAllowed(found + ([next] + rest))
  {
    Argv.Regroup(found, [next], rest);
    if RepeatsAllowed(found + ([next] + rest)) {
      RepeatsPrefix(found + [next], rest);
      RepeatsExtend(found, next);
    }
  }

  /** Scan the prefix once, counting occurrences per option. */
  method ScanPrefix(table: map<string, Field>, prefix: seq<string>) returns (ok: bool)
    ensures ok <==> Read(table, prefix).Some? && RepeatsAllowed(Read(table, prefix).value)
  {
    hide Width, ValueOf, FieldOf, OptionKey, RepeatsAllowed, Keyed;
    var seen: map<string, nat> := map[];
    var index := 0;
    ghost var found: seq<Occurrence> := [];
    ghost var whole := Read(table, prefix);
    Start(table, prefix);
    while index < |prefix|
      invariant index <= |prefix| && RepeatsAllowed(found)
      invariant forall k :: k in seen <==> Keyed(found, k)
      invariant whole.Some? <==> Read(table, prefix[index..]).Some?
      invariant whole.Some? ==> whole.value == found + Read(table, prefix[index..]).value
      decreases |prefix| - index
    {
      var rest := prefix[index..];
      var field := FieldOf(table, rest[0]);
      if field.None? { return false; }
      ReadStep(table, rest);
      hide Read;
      var key, width := OptionKey(field.value), Width(field.value, rest);
      if key in seen && !field.value.repeatable {
        if whole.Some? { RepeatRefused(found, Found(field.value, rest, width.value), Read(table, rest[width.value..]).value); }
        return false;
      }
      if width.None? { return false; }
      ghost var next := Found(field.value, rest, width.value);
      seen := seen[key := (if key in seen then seen[key] else 0) + 1];
      RepeatsExtend(found, next);
      KeyedExtend(found, next);
      if whole.Some? { Argv.Regroup(found, [next], Read(table, rest[width.value..]).value); }
      found := found + [next];
      index := index + width.value;
      assert rest[width.value..] == prefix[index..];
    }
    Finish(table, prefix[index..], found);
    ok := true;
  }

  lemma Start(table: map<string, Field>, prefix: seq<string>)
    ensures prefix[0..] == prefix && RepeatsAllowed([]) && forall k :: !Keyed([], k)
    ensures Read(table, prefix).Some? ==> [] + Read(table, prefix).value == Read(table, prefix).value
  {
  }

  lemma Finish(table: map<string, Field>, rest: seq<string>, found: seq<Occurrence>)
    requires rest == []
    ensures Read(table, rest) == Some([]) && found + [] == found
  {
  }

  lemma KeyedExtend(found: seq<Occurrence>, next: Occurrence)
    ensures forall k :: Keyed(found + [next], k) <==> Keyed(found, k) || k == next.key
  {
    var all := found + [next];
    assert all[|found|] == next;
    assert forall i :: 0 <= i < |found| ==> all[i] == found[i];
  }

  // ---- the rewriting --------------------------------------------------------------------------------

  lemma TableIsUnique(names: seq<(string, Field)>, a: map<string, Field>, b: map<string, Field>)
    requires TableOf(names, a) && TableOf(names, b)
    ensures a == b
  {
    forall n ensures n in a <==> n in b {}
    forall n | n in a ensures a[n] == b[n] {
      var i :| 0 <= i < |names| && names[i].0 == n;
    }
  }

  /** The prefix reads completely as flags of the command, without a forbidden repetition. */
  ghost predicate Movable(command: Command, at: nat, argv: seq<string>)
    requires at <= |argv|
  {
    && at > 0 && Argv.TERMINATOR !in argv && !Argv.AsksForHelp(argv) && Unambiguous(AllNames(command.fields))
    && exists table :: TableOf(AllNames(command.fields), table) && Read(table, argv[..at]).Some?
         && RepeatsAllowed(Read(table, argv[..at]).value)
  }

  function Moved(command: Command, at: nat, argv: seq<string>): seq<string>
    requires Argv.PathAt(argv, command.route, at)
  {
    command.route + argv[..at] + argv[at + |command.route|..]
  }

  /** The prefix in front of the one place where the route stands moves behind it. */
  method MoveBranchPrefix(command: Command, at: nat, argv: seq<string>) returns (r: seq<string>)
    requires Argv.PathAt(argv, command.route, at)
    ensures r == if Movable(command, at, argv) then Moved(command, at, argv) else argv
  {
    hide Unambiguous, TableOf, AllNames, Read, RepeatsAllowed;
    if at == 0 || Argv.TERMINATOR in argv || Argv.AsksForHelp(argv) { return argv; }
    var table := CollectFlags(command.fields);
    if table.None? { return argv; }
    var ok := ScanPrefix(table.value, argv[..at]);
    forall other | TableOf(AllNames(command.fields), other) ensures other == table.value {
      TableIsUnique(AllNames(command.fields), other, table.value);
    }
    if !ok { return argv; }
    r := command.route + argv[..at] + argv[at + |command.route|..];
  }

  function RouteFrom(command: Command, argv: seq<string>, i: nat): (r: seq<(Command, nat)>)
    requires i <= |argv|
    ensures forall k :: 0 <= k < |r| ==> r[k].0 == command && Argv.PathAt(argv, command.route, r[k].1)
    decreases |argv| - i
  {
    if i == |argv| then []
    else (if Argv.PathAt(argv, command.route, i) then [(command, i)] else []) + RouteFrom(command, argv, i + 1)
  }

  /** Every place where the route of one of the commands stands. */
  function Matches(commands: seq<Command>, argv: seq<string>): (r: seq<(Command, nat)>)
    ensures forall k :: 0 <= k < |r| ==> r[k].0 in commands && Argv.PathAt(argv, r[k].0.route, r[k].1)
  {
    if commands == [] then [] else RouteFrom(commands[0], argv, 0) + Matches(commands[1..], argv)
  }

  lemma CountInParts<T>(a: seq<T>, b: seq<T>, x: T)
    ensures multiset(a + b)[x] == multiset(a)[x] + multiset(b)[x]
  {
  }

  lemma RouteFromStep(command: Command, argv: seq<string>, i: nat)
    requires i < |argv|
    ensures RouteFrom(command, argv, i)
      == (if command.route <= argv[i..] then [(command, i)] else []) + RouteFrom(command, argv, i + 1)
  {
    Argv.RouteStandsAt(argv, command.route, i);
  }

  lemma {:induction false} RouteStands(command: Command, argv: seq<string>, i: nat, at: nat)
    requires i <= |argv|
    ensures multiset(RouteFrom(command, argv, i))[(command, at)] == if i <= at < |argv| && command.route <= argv[at..] then 1 else 0
    decreases |argv| - i
  {
    if i < |argv| {
      RouteStands(command, argv, i + 1, at);
      RouteFromStep(command, argv, i);
      hide RouteFrom;
      var head := if command.route <= argv[i..] then [(command, i)] else [];
      CountInParts(head, RouteFrom(command, argv, i + 1), (command, at));
      assert multiset(head)[(command, at)] == if command.route <= argv[i..] && at == i then 1 else 0;
    }
  }

  lemma {:induction false} OnlyItself(command: Command, argv: seq<string>, i: nat, other: Command, at: nat)
    requires i <= |argv| && other != command
    ensures multiset(RouteFrom(command, argv, i))[(other, at)] == 0
    decreases |argv| - i
  {
    if i < |argv| { OnlyItself(command, argv, i + 1, other, at); }
  }

  lemma FirstCommandMatches(commands: seq<Command>, argv: seq<string>, command: Command, at: nat)
    requires commands != []
    ensures multiset(Matches(commands, argv))[(command, at)]
      == multiset(RouteFrom(commands[0], argv, 0))[(command, at)] + multiset(Matches(commands[1..], argv))[(command, at)]
    ensures multiset(commands)[command] == (if command == commands[0] then 1 else 0) + multiset(commands[1..])[command]
  {
    CountInParts(RouteFrom(commands[0], argv, 0), Matches(commands[1..], argv), (command, at));
    assert commands == [commands[0]] + commands[1..];
    CountInParts([commands[0]], commands[1..], command);
  }

  /** Every place of every route is found, once for each time its command is listed, and nothing else. */
  lemma {:induction false} MatchesAreAllPlaces(commands: seq<Command>, argv: seq<string>, command: Command, at: nat)
    ensures multiset(Matches(commands, argv))[(command, at)]
      == if at < |argv| && command.route <= argv[at..] then multiset(commands)[command] else 0
  {
    if commands != [] {
      FirstCommandMatches(commands, argv, command, at);
      hide RouteFrom, Matches;
      MatchesAreAllPlaces(commands[1..], argv, command, at);
      if command == commands[0] { RouteStands(command, argv, 0, at); } else { OnlyItself(commands[0], argv, 0, command, at); }
    }
  }

  /** Not a branch observation at all; ambiguous and left alone; or one command whose prefix may move. */
  method BranchPrefixArgv(commands: seq<Command>, argv: seq<string>) returns (r: Option<seq<string>>)
    ensures Matches(commands, argv) == [] ==> r.None?
    ensures |Matches(commands, argv)| > 1 ==> r == Some(argv)
    ensures |Matches(commands, argv)| == 1 ==>
      var (command, at) := Matches(commands, argv)[0];
      r == Some(if Movable(command, at, argv) then Moved(command, at, argv) else argv)
    ensures r.Some? ==> multiset(r.value) == multiset(argv)
  {
    var found := Matches(commands, argv);
    if found == [] { return None; }
    if |found| != 1 { return Some(argv); }
    var moved := MoveBranchPrefix(found[0].0, found[0].1, argv);
    MovedIsPermutation(found[0].0, found[0].1, argv);
    r := Some(moved);
  }

  lemma MovedIsPermutation(command: Command, at: nat, argv: seq<string>)
    requires Argv.PathAt(argv, command.route, at)
    ensures multiset(Moved(command, at, argv)) == multiset(argv)
  {
    assert argv == argv[..at] + command.route + argv[at + |command.route|..];
  }

  // ---- meaning is kept ----------------------------------------------------------------------------------

  /** A prefix that reads completely reads the same in front of anything. */
  lemma {:induction false} CompletePrefixReadsAlone(table: map<string, Field>, prefix: seq<string>, rest: seq<string>)
    requires Read(table, prefix).Some?
    ensures Read(table, prefix + rest) ==
      match Read(table, rest) case None => None case Some(more) => Some(Read(table, prefix).value + more)
    decreases |prefix|
  {
    if prefix == [] {
      assert prefix + rest == rest;
      if Read(table, rest).Some? { assert [] + Read(table, rest).value == Read(table, rest).value; }
    } else {
      var field := FieldOf(table, prefix[0]).value;
      var width := Width(field, prefix).value;
      var whole := prefix + rest;
      assert whole[0] == prefix[0] && Width(field, whole) == Some(width) && ValueOf(whole, width) == ValueOf(prefix, width);
      assert whole[width..] == prefix[width..] + rest;
      CompletePrefixReadsAlone(table, prefix[width..], rest);
      if Read(table, rest).Some? {
        Argv.Regroup([Occurrence(OptionKey(field), ValueOf(prefix, width), field.repeatable)],
                     Read(table, prefix[width..]).value, Read(table, rest).value);
      }
    }
  }

  /**
   Moving keeps the meaning: the route stands in front, and behind it the command reads the
   moved flags exactly as they stood, followed by whatever it reads in the remaining arguments.
   */
  lemma MovedFlagsReadTheSame(command: Command, at: nat, argv: seq<string>, table: map<string, Field>)
    requires Argv.PathAt(argv, command.route, at) && Read(table, argv[..at]).Some?
    ensures var moved, rest := Moved(command, at, argv), argv[at + |command.route|..];
      && Argv.PathAt(moved, command.route, 0)
      && Read(table, moved[|command.route|..]) ==
           match Read(table, rest) case None => None case Some(more) => Some(Read(table, argv[..at]).value + more)
  {
    hide Read;
    var prefix, rest := argv[..at], argv[at + |command.route|..];
    var moved := Moved(command, at, argv);
    assert moved[|command.route|..] == prefix + rest && moved[..|command.route|] == command.route;
    CompletePrefixReadsAlone(table, prefix, rest);
  }
}
