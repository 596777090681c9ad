/** Parsing what was rendered: what comes back, where the cursor stops and what the budget paid. */
module StructuredRoundTrip {
  import opened Wrappers
  import opened Ordering
  import opened PercentToken
  import opened StructuredMarkdown

  // ---- what survives a round trip -----------------------------------------------------------

  /** The value that comes back: undeclared properties and the prototype key are lost, and a fraction under `integer` is refused. */
  function Kept<N>(num: Numerals<N>, schema: Schema, value: Value<N>): Option<Value<N>>
    decreases schema, 1, 0
  {
    match schema
    case ObjectOf(properties) =>
      if !value.Record? then None
      else
        SortedNamesMembers(properties, value.fields);
        var kept := KeptFields(num, schema, SortedNames(properties, value.fields), value.fields, map[]);
        if kept.None? then None else Some(Record(kept.value))
    case ArrayOf(_) =>
      if !value.List? then None
      else
        var kept := KeptEntries(num, schema, value.entries, []);
        if kept.None? then None else Some(List(kept.value))
    case Whole => if value.Num? && num.whole(value.number) then Some(value) else None
    case Decimal => if value.Num? then Some(value) else None
    case Text => if value.Str? then Some(value) else None
    case Truth => if value.Bool? then Some(value) else None
    case Nothing => if value.Null? then Some(value) else None
    case Unsupported => None
  }

  /** The prototype key adds no property of its own. */
  function Keep<N>(sofar: map<string, Value<N>>, name: string, value: Value<N>): map<string, Value<N>> {
    if name == PROTOTYPE then sofar else sofar[name := value]
  }

  function KeptFields<N>(num: Numerals<N>, schema: Schema, names: seq<string>, fields: map<string, Value<N>>,
                         sofar: map<string, Value<N>>): Option<map<string, Value<N>>>
    requires Renderable(schema, names, fields)
    decreases schema, 0, |names|
  {
    if names == [] then Some(sofar)
    else
      match Kept(num, Lookup(schema.properties, names[0]).value, fields[names[0]])
      case None => None
      case Some(value) => KeptFields(num, schema, names[1..], fields, Keep(sofar, names[0], value))
  }

  function KeptEntries<N>(num: Numerals<N>, schema: Schema, entries: seq<Value<N>>, sofar: seq<Value<N>>): Option<seq<Value<N>>>
    requires schema.ArrayOf?
    decreases schema, 0, |entries|
  {
    if entries == [] then Some(sofar)
    else
      match Kept(num, schema.items, entries[0])
      case None => None
      case Some(value) => KeptEntries(num, schema, entries[1..], sofar + [value])
  }

  /** The value has the shape of its schema, names declared properties other than the prototype key, and is whole where it must be. */
  ghost predicate Faithful<N>(num: Numerals<N>, schema: Schema, value: Value<N>) {
    match schema
    case ObjectOf(properties) =>
      value.Record? && forall n :: n in value.fields ==>
        n != PROTOTYPE && Lookup(properties, n).Some? && Faithful(num, Lookup(properties, n).value, value.fields[n])
    case ArrayOf(items) => value.List? && forall i :: 0 <= i < |value.entries| ==> Faithful(num, items, value.entries[i])
    case Whole => value.Num? && num.whole(value.number)
    case Decimal => value.Num?
    case Text => value.Str?
    case Truth => value.Bool?
    case Nothing => value.Null?
    case Unsupported => false
  }

  function SubSchema(schema: Schema, name: string): Schema
    requires schema.ObjectOf? && Lookup(schema.properties, name).Some?
  {
    Lookup(schema.properties, name).value
  }

  lemma {:induction false} KeptFieldsAre<N>(num: Numerals<N>, schema: Schema, names: seq<string>, fields: map<string, Value<N>>,
                                            sofar: map<string, Value<N>>)
    requires Renderable(schema, names, fields)
    ensures var r := KeptFields(num, schema, names, fields, sofar);
      && (r.Some? <==> forall i :: 0 <= i < |names| ==> Kept(num, SubSchema(schema, names[i]), fields[names[i]]).Some?)
      && (r.Some? ==>
            && (forall n :: n in r.value <==> n in sofar || (n in names && n != PROTOTYPE))
            && (forall n :: n in r.value ==> if n in names && n != PROTOTYPE then Some(r.value[n]) == Kept(num, SubSchema(schema, n), fields[n])
                                             else r.value[n] == sofar[n]))
    decreases |names|
  {
    if names != [] {
      var kept := Kept(num, SubSchema(schema, names[0]), fields[names[0]]);
      assert forall n :: n in names <==> n == names[0] || n in names[1..];
      if kept.Some? {
        KeptFieldsAre(num, schema, names[1..], fields, Keep(sofar, names[0], kept.value));
        assert forall i :: 1 <= i < |names| ==> names[i] == names[1..][i - 1];
      }
    }
  }

  lemma {:induction false} KeptEntriesExtend<N>(num: Numerals<N>, schema: Schema, entries: seq<Value<N>>, sofar: seq<Value<N>>)
    requires schema.ArrayOf?
    ensures var r := KeptEntries(num, schema, entries, sofar); r.Some? ==> sofar <= r.value
    decreases |entries|
  {
    if entries != [] {
      var kept := Kept(num, schema.items, entries[0]);
      if kept.Some? {
        KeptEntriesExtend(num, schema, entries[1..], sofar + [kept.value]);
        assert sofar <= sofar + [kept.value];
      }
    }
  }

  /** A list survives exactly when each of its entries does. */
  lemma {:induction false} EntriesSurviveIff<N>(num: Numerals<N>, schema: Schema, entries: seq<Value<N>>, sofar: seq<Value<N>>)
    requires schema.ArrayOf?
    ensures KeptEntries(num, schema, entries, sofar) == Some(sofar + entries)
            <==> forall i :: 0 <= i < |entries| ==> Kept(num, schema.items, entries[i]) == Some(entries[i])
    decreases |entries|
  {
    hide Kept;
    if entries == [] {
      assert sofar + entries == sofar;
    } else {
      var kept := Kept(num, schema.items, entries[0]);
      if kept.Some? {
        KeptEntriesExtend(num, schema, entries[1..], sofar + [kept.value]);
        if kept.value == entries[0] {
          EntriesSurviveIff(num, schema, entries[1..], sofar + [kept.value]);
          assert sofar + [kept.value] + entries[1..] == sofar + entries;
          assert forall i :: 1 <= i < |entries| ==> entries[i] == entries[1..][i - 1];
        } else {
          assert (sofar + entries)[|sofar|] == entries[0] && (sofar + [kept.value])[|sofar|] == kept.value;
        }
      }
    }
  }

  /** A value survives unchanged exactly when it is faithful to its schema. */
  lemma {:induction false} SurvivesIffFaithful<N>(num: Numerals<N>, schema: Schema, value: Value<N>)
    ensures Kept(num, schema, value) == Some(value) <==> Faithful(num, schema, value)
    decreases schema
  {
    match schema
    case ObjectOf(properties) =>
      if value.Record? { RecordSurvivesIff(num, schema, value.fields); }
    case ArrayOf(items) =>
      if value.List? {
        EntriesSurviveIff(num, schema, value.entries, []);
        assert [] + value.entries == value.entries;
        forall i | 0 <= i < |value.entries|
          ensures Kept(num, items, value.entries[i]) == Some(value.entries[i]) <==> Faithful(num, items, value.entries[i])
        {
          SurvivesIffFaithful(num, items, value.entries[i]);
        }
      }
    case _ =>
  }

  lemma RecordSurvivesIff<N>(num: Numerals<N>, schema: Schema, fields: map<string, Value<N>>)
    requires schema.ObjectOf?
    ensures Kept(num, schema, Record(fields)) == Some(Record(fields)) <==> Faithful(num, schema, Record(fields))
    decreases schema, 0
  {
    hide Kept, SortedNames, Lookup, KeptFields, Faithful;
    var names := SortedNames(schema.properties, fields);
    SortedNamesMembers(schema.properties, fields);
    KeptFieldsAre(num, schema, names, fields, map[]);
    forall n | n in names
      ensures Kept(num, SubSchema(schema, n), fields[n]) == Some(fields[n]) <==> Faithful(num, SubSchema(schema, n), fields[n])
    {
      SurvivesIffFaithful(num, SubSchema(schema, n), fields[n]);
    }
    KeptUnfolds(num, schema, fields);
    FaithfulUnfolds(num, schema, fields, names);
    var kept := KeptFields(num, schema, names, fields, map[]);
    if kept.Some? && kept.value == fields {
      assert forall n :: n in fields ==> n in kept.value && n in names;
    }
  }

  lemma FaithfulUnfolds<N>(num: Numerals<N>, schema: Schema, fields: map<string, Value<N>>, names: seq<string>)
    requires schema.ObjectOf? && forall n :: n in names <==> n in fields && Lookup(schema.properties, n).Some?
    ensures Faithful(num, schema, Record(fields)) <==>
      forall n :: n in fields ==> n != PROTOTYPE && n in names && Faithful(num, SubSchema(schema, n), fields[n])
  {
  }

  lemma KeptUnfolds<N>(num: Numerals<N>, schema: Schema, fields: map<string, Value<N>>)
    requires schema.ObjectOf? && Renderable(schema, SortedNames(schema.properties, fields), fields)
    ensures var kept := KeptFields(num, schema, SortedNames(schema.properties, fields), fields, map[]);
      Kept(num, schema, Record(fields)) == if kept.None? then None else Some(Record(kept.value))
  {
  }

  // ---- scalars ----------------------------------------------------------------------------------

  predicate Scalar(schema: Schema) { !schema.ObjectOf? && !schema.ArrayOf? }

  lemma ScalarReadsBack<N(!new)>(num: Numerals<N>, schema: Schema, value: Value<N>)
    requires Canonical(num) && Scalar(schema) && ScalarText(num, schema, value).Some?
    ensures ReadScalar(num, schema, ScalarText(num, schema, value).value) == Kept(num, schema, value)
  {
    var text := ScalarText(num, schema, value).value;
    match (schema, value)
    case (Text, Str(s)) =>
      assert text[|STRING|..] == Encode(s) && text[..|STRING|] == STRING;
      DecodesExactlyEncodings(Encode(s), s);
    case (Decimal, Num(n)) =>
      assert text[|TypeName(schema)|..] == num.print_(n) && text[..|TypeName(schema)|] == TypeName(schema);
    case (Whole, Num(n)) =>
      assert text[|TypeName(schema)|..] == num.print_(n) && text[..|TypeName(schema)|] == TypeName(schema);
    case _ =>
  }

  // ---- round trip ----------------------------------------------------------------------------------

  /** `part` stands at `at`, and whatever follows it is not deeper than `depth`. */
  predicate Placed(items: seq<Item>, at: nat, part: seq<Item>, depth: nat) {
    && at + |part| <= |items| && items[at..at + |part|] == part
    && (at + |part| < |items| ==> items[at + |part|].depth <= depth)
  }

  /** Parsing failed where nothing is kept; otherwise it returned the kept value there, at that cost. */
  predicate Returned<N(==)>(r: Option<Parsed<N>>, kept: Option<Value<N>>, at: nat, used: nat) {
    if kept.None? then r.None? else r.Some? && r.value.value == kept.value && r.value.at == at && r.value.used == used
  }

  function AsRecord<N>(kept: Option<map<string, Value<N>>>): Option<Value<N>> {
    if kept.None? then None else Some(Record(kept.value))
  }

  function AsList<N>(kept: Option<seq<Value<N>>>): Option<Value<N>> {
    if kept.None? then None else Some(List(kept.value))
  }

  lemma FieldsStartHere<N>(num: Numerals<N>, schema: Schema, names: seq<string>, fields: map<string, Value<N>>, depth: nat, used: nat)
    requires Renderable(schema, names, fields) && RenderFields(num, schema, names, fields, depth, used).Some?
    ensures var r := RenderFields(num, schema, names, fields, depth, used).value;
      if names == [] then r == Rendered([], used) else r.items != [] && r.items[0] == Task(PROPERTY + Encode(names[0]), depth + 1)
  {
  }

  lemma EntriesStartHere<N>(num: Numerals<N>, schema: Schema, entries: seq<Value<N>>, depth: nat, used: nat)
    requires schema.ArrayOf? && RenderEntries(num, schema, entries, depth, used).Some?
    ensures var r := RenderEntries(num, schema, entries, depth, used).value;
      if entries == [] then r == Rendered([], used) else r.items != [] && r.items[0] == Task("item", depth + 1)
  {
  }

  /** Splitting a placed part: a marker, the node below it, and the rest. */
  lemma PlacedSplit(items: seq<Item>, at: nat, marker: Item, node: seq<Item>, rest: seq<Item>, depth: nat)
    requires Placed(items, at, [marker] + node + rest, depth) && (rest != [] ==> rest[0].depth <= depth + 1)
    ensures at + 1 + |node| <= |items| && items[at] == marker && Placed(items, at + 1, node, depth + 2) && Placed(items, at + 1 + |node|, rest, depth)
  {
    var part := [marker] + node + rest;
    assert items[at] == part[0];
    forall k | 0 <= k < |node| ensures items[at + 1..at + 1 + |node|][k] == node[k] { assert items[at..at + |part|][1 + k] == part[1 + k]; }
    assert items[at + 1..at + 1 + |node|] == node;
    forall k | 0 <= k < |rest| ensures items[at + 1 + |node| + k] == rest[k] {
      assert items[at..at + |part|][1 + |node| + k] == part[1 + |node| + k];
    }
    assert items[at + 1 + |node|..at + |part|] == rest;
    assert at + |part| == at + 1 + |node| + |rest|;
  }

  predicate Distinct(names: seq<string>) { forall i, j :: 0 <= i < j < |names| ==> names[i] != names[j] }

  lemma {:induction false} OnceIsDistinct(names: seq<string>)
    requires forall n :: multiset(names)[n] <= 1
    ensures Distinct(names)
  {
    if names != [] {
      var front, last := names[..|names| - 1], names[|names| - 1];
      assert names == front + [last];
      assert forall n :: multiset(front)[n] <= multiset(names)[n];
      OnceIsDistinct(front);
      assert last !in multiset(front);
      assert forall i :: 0 <= i < |front| ==> front[i] in multiset(front);
    }
  }

  lemma SortedNamesDistinct<V>(properties: seq<Property>, fields: map<string, V>)
    requires forall n :: multiset(Map(properties, NameOf))[n] <= 1
    ensures Distinct(SortedNames(properties, fields))
  {
    hide StableSort, Filter, CompareText;
    forall n ensures multiset(SortedNames(properties, fields))[n] <= 1 {
      FilterMultiset(Map(properties, NameOf), Among(fields), n);
    }
    OnceIsDistinct(SortedNames(properties, fields));
  }

  lemma SubSchemaWellFormed(schema: Schema, name: string)
    requires WellFormed(schema) && schema.ObjectOf? && Lookup(schema.properties, name).Some?
    ensures WellFormed(SubSchema(schema, name))
  {
  }

  lemma WellFormedItems(schema: Schema)
    requires WellFormed(schema) && schema.ArrayOf?
    ensures WellFormed(schema.items)
  {
  }

  lemma MarkerReadsBack<V>(schema: Schema, name: string, depth: nat, fields: map<string, V>)
    requires schema.ObjectOf? && Lookup(schema.properties, name).Some? && name !in fields
    ensures MarkedProperty(schema, Task(PROPERTY + Encode(name), depth + 1), depth, fields) == Some(name)
  {
    var text := PROPERTY + Encode(name);
    assert text[|PROPERTY|..] == Encode(name) && text[..|PROPERTY|] == PROPERTY;
    DecodesExactlyEncodings(Encode(name), name);
  }

  /**
   Round trip. Wherever a rendered value stands, followed by anything that is not deeper, the parser returns
   what the round trip keeps, stops exactly behind it, and has spent the node budget that rendering spent.
   */
  lemma {:induction false} RoundTrip<N(!new)>(num: Numerals<N>, schema: Schema, value: Value<N>, depth: nat, used: nat,
                                              items: seq<Item>, at: nat)
    requires Canonical(num) && WellFormed(schema) && RenderNode(num, schema, value, depth, used).Some?
    requires Placed(items, at, RenderNode(num, schema, value, depth, used).value.items, depth)
    ensures var r := RenderNode(num, schema, value, depth, used).value;
      Returned(ParseNode(num, schema, items, at, depth, used), Kept(num, schema, value), at + |r.items|, r.used)
    decreases schema, 1, 0
  {
    hide Encode, Decode, Canonical, Lookup, RenderFields, RenderEntries, ParseFields, ParseEntries, KeptFields, KeptEntries,
         ScalarText, ReadScalar, SortedNames;
    var r := RenderNode(num, schema, value, depth, used).value;
    assert items[at] == items[at..at + |r.items|][0] == r.items[0];
    match schema
    case ObjectOf(properties) =>
      var names := SortedNames(properties, value.fields);
      SortedNamesMembers(properties, value.fields);
      SortedNamesDistinct(properties, value.fields);
      var inner := RenderFields(num, schema, names, value.fields, depth, used + 1).value;
      hide Placed, WellFormed;
      PlacedBehind(items, at, r.items, inner.items, depth);
      RoundTripFields(num, schema, names, value.fields, depth, used + 1, items, at + 1, map[], true);
    case ArrayOf(_) =>
      var inner := RenderEntries(num, schema, value.entries, depth, used + 1).value;
      hide Placed, WellFormed;
      PlacedBehind(items, at, r.items, inner.items, depth);
      RoundTripEntries(num, schema, value.entries, depth, used + 1, items, at + 1, []);
    case _ =>
      ScalarReadsBack(num, schema, value);
  }

  lemma PlacedBehind(items: seq<Item>, at: nat, part: seq<Item>, inner: seq<Item>, depth: nat)
    requires Placed(items, at, part, depth) && part != [] && part[1..] == inner
    ensures Placed(items, at + 1, inner, depth)
  {
    assert items[at + 1..at + |part|] == items[at..at + |part|][1..];
  }

  /** One property: its marker, then its node, then the remaining properties. */
  lemma FieldStep<N>(num: Numerals<N>, schema: Schema, items: seq<Item>, at: nat, depth: nat, used: nat,
                     sofar: map<string, Value<N>>, plain: bool, name: string)
    requires schema.ObjectOf? && Lookup(schema.properties, name).Some? && name !in sofar
    requires at < |items| && items[at] == Task(PROPERTY + Encode(name), depth + 1)
    ensures ParseFields(num, schema, items, at, depth, used, sofar, plain) ==
      match ParseNode(num, SubSchema(schema, name), items, at + 1, depth + 2, used)
      case None => None
      case Some(r) => ParseFields(num, schema, items, r.at, depth, r.used, Assign(sofar, plain, name, r).0, Assign(sofar, plain, name, r).1)
  {
    hide ParseNode, Encode, MarkedProperty, Lookup;
    MarkerReadsBack(schema, name, depth, sofar);
  }

  lemma FieldRendered<N>(num: Numerals<N>, schema: Schema, names: seq<string>, fields: map<string, Value<N>>, depth: nat, used: nat)
    requires Renderable(schema, names, fields) && names != [] && RenderFields(num, schema, names, fields, depth, used).Some?
    ensures var node := RenderNode(num, SubSchema(schema, names[0]), fields[names[0]], depth + 2, used);
      && node.Some? && var rest := RenderFields(num, schema, names[1..], fields, depth, node.value.used);
         && rest.Some? && RenderFields(num, schema, names, fields, depth, used) == Some(Rendered(
              [Task(PROPERTY + Encode(names[0]), depth + 1)] + node.value.items + rest.value.items, rest.value.used))
  {
    hide RenderNode, Encode, Lookup;
  }

  lemma EntryRendered<N>(num: Numerals<N>, schema: Schema, entries: seq<Value<N>>, depth: nat, used: nat)
    requires schema.ArrayOf? && entries != [] && RenderEntries(num, schema, entries, depth, used).Some?
    ensures var node := RenderNode(num, schema.items, entries[0], depth + 2, used);
      && node.Some? && var rest := RenderEntries(num, schema, entries[1..], depth, node.value.used);
         && rest.Some? && RenderEntries(num, schema, entries, depth, used) == Some(Rendered(
              [Task("item", depth + 1)] + node.value.items + rest.value.items, rest.value.used))
  {
    hide RenderNode;
  }

  lemma NoFieldLeft<N>(num: Numerals<N>, schema: Schema, fields: map<string, Value<N>>, depth: nat, used: nat,
                       items: seq<Item>, at: nat, sofar: map<string, Value<N>>, plain: bool)
    requires schema.ObjectOf?
    ensures RenderFields(num, schema, [], fields, depth, used) == Some(Rendered([], used))
    ensures KeptFields(num, schema, [], fields, sofar) == Some(sofar)
    ensures Placed(items, at, [], depth) ==> ParseFields(num, schema, items, at, depth, used, sofar, plain) == Some(Parsed(Record(sofar), at, used, plain))
  {
  }

  lemma NoEntryLeft<N>(num: Numerals<N>, schema: Schema, depth: nat, used: nat, items: seq<Item>, at: nat, sofar: seq<Value<N>>)
    requires schema.ArrayOf?
    ensures RenderEntries(num, schema, [], depth, used) == Some(Rendered([], used))
    ensures KeptEntries(num, schema, [], sofar) == Some(sofar)
    ensures Placed(items, at, [], depth) ==> ParseEntries(num, schema, items, at, depth, used, sofar) == Some(Parsed(List(sofar), at, used, true))
  {
  }

  lemma KeptFieldStep<N>(num: Numerals<N>, schema: Schema, names: seq<string>, fields: map<string, Value<N>>,
                         sofar: map<string, Value<N>>)
    requires Renderable(schema, names, fields) && names != []
    ensures var kept := Kept(num, SubSchema(schema, names[0]), fields[names[0]]);
      KeptFields(num, schema, names, fields, sofar)
      == if kept.None? then None else KeptFields(num, schema, names[1..], fields, Keep(sofar, names[0], kept.value))
  {
    hide Kept, Lookup;
  }

  lemma KeptEntryStep<N>(num: Numerals<N>, schema: Schema, entries: seq<Value<N>>, sofar: seq<Value<N>>)
    requires schema.ArrayOf? && entries != []
    ensures var kept := Kept(num, schema.items, entries[0]);
      KeptEntries(num, schema, entries, sofar)
      == if kept.None? then None else KeptEntries(num, schema, entries[1..], sofar + [kept.value])
  {
    hide Kept;
  }

  lemma EntryStep<N>(num: Numerals<N>, schema: Schema, items: seq<Item>, at: nat, depth: nat, used: nat, sofar: seq<Value<N>>)
    requires schema.ArrayOf? && at < |items| && items[at] == Task("item", depth + 1)
    ensures ParseEntries(num, schema, items, at, depth, used, sofar) ==
      match ParseNode(num, schema.items, items, at + 1, depth + 2, used)
      case None => None
      case Some(r) => ParseEntries(num, schema, items, r.at, depth, r.used, sofar + [r.value])
  {
    hide ParseNode;
  }

  lemma {:induction false} RoundTripFields<N(!new)>(num: Numerals<N>, schema: Schema, names: seq<string>,
                                                    fields: map<string, Value<N>>, depth: nat, used: nat,
                                                    items: seq<Item>, at: nat, sofar: map<string, Value<N>>, plain: bool)
    requires Canonical(num) && WellFormed(schema) && Renderable(schema, names, fields)
    requires RenderFields(num, schema, names, fields, depth, used).Some?
    requires Placed(items, at, RenderFields(num, schema, names, fields, depth, used).value.items, depth)
    requires Distinct(names) && forall i :: 0 <= i < |names| ==> names[i] !in sofar && (names[i] == PROTOTYPE ==> plain)
    ensures var r, kept := RenderFields(num, schema, names, fields, depth, used).value, KeptFields(num, schema, names, fields, sofar);
      Returned(ParseFields(num, schema, items, at, depth, used, sofar, plain), AsRecord(kept), at + |r.items|, r.used)
    decreases schema, 0, |names|
  {
    hide RenderNode, ParseNode, Kept, Encode, Decode, WellFormed, Lookup, MarkedProperty, Placed, Canonical, RenderFields,
         ParseFields, KeptFields;
    if names == [] {
      NoFieldLeft(num, schema, fields, depth, used, items, at, sofar, plain);
    } else {
      FieldRendered(num, schema, names, fields, depth, used);
      KeptFieldStep(num, schema, names, fields, sofar);
      var sub := SubSchema(schema, names[0]);
      var node := RenderNode(num, sub, fields[names[0]], depth + 2, used).value;
      var rest := RenderFields(num, schema, names[1..], fields, depth, node.used).value;
      var marker := Task(PROPERTY + Encode(names[0]), depth + 1);
      FieldsStartHere(num, schema, names[1..], fields, depth, node.used);
      PlacedSplit(items, at, marker, node.items, rest.items, depth);
      SubSchemaWellFormed(schema, names[0]);
      RoundTrip(num, sub, fields[names[0]], depth + 2, used, items, at + 1);
      FieldStep(num, schema, items, at, depth, used, sofar, plain, names[0]);
      var kept := Kept(num, sub, fields[names[0]]);
      if kept.Some? {
        var parsed := ParseNode(num, sub, items, at + 1, depth + 2, used).value;
        RoundTripFields(num, schema, names[1..], fields, depth, node.used, items, at + 1 + |node.items|,
                        Keep(sofar, names[0], kept.value), Assign(sofar, plain, names[0], parsed).1);
      }
    }
  }

  lemma {:induction false} RoundTripEntries<N(!new)>(num: Numerals<N>, schema: Schema, entries: seq<Value<N>>, depth: nat, used: nat,
                                                     items: seq<Item>, at: nat, sofar: seq<Value<N>>)
    requires Canonical(num) && WellFormed(schema) && schema.ArrayOf?
    requires RenderEntries(num, schema, entries, depth, used).Some?
    requires Placed(items, at, RenderEntries(num, schema, entries, depth, used).value.items, depth)
    ensures var r, kept := RenderEntries(num, schema, entries, depth, used).value, KeptEntries(num, schema, entries, sofar);
      Returned(ParseEntries(num, schema, items, at, depth, used, sofar), AsList(kept), at + |r.items|, r.used)
    decreases schema, 0, |entries|
  {
    hide RenderNode, ParseNode, Kept, Encode, Decode, WellFormed, Placed, Canonical, RenderEntries, ParseEntries, KeptEntries;
    if entries == [] {
      NoEntryLeft(num, schema, depth, used, items, at, sofar);
    } else {
      EntryRendered(num, schema, entries, depth, used);
      KeptEntryStep(num, schema, entries, sofar);
      WellFormedItems(schema);
      var node := RenderNode(num, schema.items, entries[0], depth + 2, used).value;
      var rest := RenderEntries(num, schema, entries[1..], depth, node.used).value;
      EntriesStartHere(num, schema, entries[1..], depth, node.used);
      PlacedSplit(items, at, Task("item", depth + 1), node.items, rest.items, depth);
      RoundTrip(num, schema.items, entries[0], depth + 2, used, items, at + 1);
      EntryStep(num, schema, items, at, depth, used, sofar);
      var kept := Kept(num, schema.items, entries[0]);
      if kept.Some? {
        RoundTripEntries(num, schema, entries[1..], depth, node.used, items, at + 1 + |node.items|, sofar + [kept.value]);
      }
    }
  }

  /** What schema validation admits: closed objects, matching types, whole numbers where the schema says integer. */
  ghost predicate Conforms<N>(num: Numerals<N>, schema: Schema, value: Value<N>) {
    match schema
    case ObjectOf(properties) =>
      value.Record? && forall n :: n in value.fields ==>
        Lookup(properties, n).Some? && Conforms(num, Lookup(properties, n).value, value.fields[n])
    case ArrayOf(items) => value.List? && forall i :: 0 <= i < |value.entries| ==> Conforms(num, items, value.entries[i])
    case Whole => value.Num? && num.whole(value.number)
    case Decimal => value.Num?
    case Text => value.Str?
    case Truth => value.Bool?
    case Nothing => value.Null?
    case Unsupported => false
  }

  /** No object in the value, however deep, has a property under the prototype key. */
  ghost predicate NoPrototypeKey<N>(value: Value<N>) {
    match value
    case Record(fields) => PROTOTYPE !in fields && forall n :: n in fields ==> NoPrototypeKey(fields[n])
    case List(entries) => forall i :: 0 <= i < |entries| ==> NoPrototypeKey(entries[i])
    case _ => true
  }

  lemma {:induction false} FaithfulMeansConforming<N>(num: Numerals<N>, schema: Schema, value: Value<N>)
    ensures Faithful(num, schema, value) <==> Conforms(num, schema, value) && NoPrototypeKey(value)
    decreases schema
  {
    match schema
    case ObjectOf(properties) =>
      if value.Record? {
        forall n | n in value.fields && Lookup(properties, n).Some?
          ensures Faithful(num, SubSchema(schema, n), value.fields[n])
                  <==> Conforms(num, SubSchema(schema, n), value.fields[n]) && NoPrototypeKey(value.fields[n])
        {
          FaithfulMeansConforming(num, SubSchema(schema, n), value.fields[n]);
        }
      }
    case ArrayOf(items) =>
      if value.List? {
        forall i | 0 <= i < |value.entries|
          ensures Faithful(num, items, value.entries[i]) <==> Conforms(num, items, value.entries[i]) && NoPrototypeKey(value.entries[i])
        {
          FaithfulMeansConforming(num, items, value.entries[i]);
        }
      }
    case _ =>
  }

  /** The same value, right behind the rendered items, at the rendered cost. */
  predicate ReturnsUnchanged<N(==)>(num: Numerals<N>, schema: Schema, value: Value<N>, items: seq<Item>, r: Rendered) {
    Returned(ParseNode(num, schema, items, 0, 0, 0), Some(value), |r.items|, r.used)
  }

  /** The law as promised, with its exact condition: the same value comes back if and only if it is faithful to its schema. */
  lemma SameValueIffFaithful<N(!new)>(num: Numerals<N>, schema: Schema, value: Value<N>, tail: seq<Item>)
    requires Canonical(num) && WellFormed(schema) && RenderNode(num, schema, value, 0, 0).Some?
    requires tail != [] ==> tail[0].depth == 0
    ensures var r := RenderNode(num, schema, value, 0, 0).value;
      ReturnsUnchanged(num, schema, value, r.items + tail, r) <==> Faithful(num, schema, value)
  {
    hide RenderNode, ParseNode, Kept, Faithful, WellFormed;
    var r := RenderNode(num, schema, value, 0, 0).value;
    assert (r.items + tail)[0..|r.items|] == r.items;
    RoundTrip(num, schema, value, 0, 0, r.items + tail, 0);
    SurvivesIffFaithful(num, schema, value);
  }

  /** A value that passed schema validation returns unchanged if and only if no object in it uses the prototype key. */
  lemma ValidatedReturnsIff<N(!new)>(num: Numerals<N>, schema: Schema, value: Value<N>, tail: seq<Item>)
    requires Canonical(num) && WellFormed(schema) && RenderNode(num, schema, value, 0, 0).Some?
    requires Conforms(num, schema, value) && (tail != [] ==> tail[0].depth == 0)
    ensures var r := RenderNode(num, schema, value, 0, 0).value;
      ReturnsUnchanged(num, schema, value, r.items + tail, r) <==> NoPrototypeKey(value)
  {
    SameValueIffFaithful(num, schema, value, tail);
    FaithfulMeansConforming(num, schema, value);
  }

  const PROTOTYPE_SCHEMA := ObjectOf([Property(PROTOTYPE, Truth)])

  function PrototypeFields<N>(): map<string, Value<N>> { map[PROTOTYPE := Bool(true)] }

  lemma SoleName<N>()
    ensures SortedNames(PROTOTYPE_SCHEMA.properties, PrototypeFields<N>()) == [PROTOTYPE]
    ensures Lookup(PROTOTYPE_SCHEMA.properties, PROTOTYPE) == Some(Truth)
  {
    var properties := PROTOTYPE_SCHEMA.properties;
    assert Map(properties, NameOf) == [PROTOTYPE];
    FilterSnoc([], PROTOTYPE, Among(PrototypeFields<N>()));
    assert [] + [PROTOTYPE] == [PROTOTYPE];
    assert [PROTOTYPE][..0] == [];
  }

  lemma SoleFieldRenders<N>(num: Numerals<N>)
    ensures Renderable(PROTOTYPE_SCHEMA, [PROTOTYPE], PrototypeFields<N>())
    ensures RenderFields(num, PROTOTYPE_SCHEMA, [PROTOTYPE], PrototypeFields(), 0, 1).Some?
    ensures KeptFields(num, PROTOTYPE_SCHEMA, [PROTOTYPE], PrototypeFields(), map[]) == Some(map[])
  {
    hide Encode, SortedNames;
    SoleName<N>();
    assert [PROTOTYPE][1..] == [];
    assert RenderNode(num, Truth, Bool(true), 2, 1) == Some(Rendered([Task("boolean:true", 2)], 2));
    NoFieldLeft(num, PROTOTYPE_SCHEMA, PrototypeFields(), 0, 2, [], 0, map[], true);
  }

  lemma SoleRecordRenders<N>(num: Numerals<N>)
    ensures Conforms(num, PROTOTYPE_SCHEMA, Record(PrototypeFields()))
    ensures RenderNode(num, PROTOTYPE_SCHEMA, Record(PrototypeFields()), 0, 0).Some?
    ensures Kept(num, PROTOTYPE_SCHEMA, Record(PrototypeFields())) == Some(Record(map[]))
    ensures WellFormed(PROTOTYPE_SCHEMA)
  {
    hide SortedNames, RenderFields, KeptFields, Lookup;
    SoleName<N>();
    SoleFieldRenders(num);
    assert Map(PROTOTYPE_SCHEMA.properties, NameOf) == [PROTOTYPE];
  }

  /** The smallest failing input: it conforms and renders, and comes back as the empty object. */
  lemma PrototypeKeyIsLost<N(!new)>(num: Numerals<N>)
    requires Canonical(num)
    ensures var value := Record(PrototypeFields());
      && Conforms(num, PROTOTYPE_SCHEMA, value) && RenderNode(num, PROTOTYPE_SCHEMA, value, 0, 0).Some?
      && var r := RenderNode(num, PROTOTYPE_SCHEMA, value, 0, 0).value;
         ReturnsUnchanged(num, PROTOTYPE_SCHEMA, Record(map[]), r.items, r)
         && !ReturnsUnchanged(num, PROTOTYPE_SCHEMA, value, r.items, r)
  {
    hide RenderNode, ParseNode, Kept, Conforms, WellFormed;
    SoleRecordRenders(num);
    var r := RenderNode(num, PROTOTYPE_SCHEMA, Record(PrototypeFields()), 0, 0).value;
    assert r.items[0..|r.items|] == r.items;
    RoundTrip(num, PROTOTYPE_SCHEMA, Record(PrototypeFields()), 0, 0, r.items, 0);
    assert PROTOTYPE in PrototypeFields<N>();
  }
}
