/**
 Schema-native structured Markdown: a typed value flattened into a depth-tagged task list,
 and the cursor parser that rebuilds it. Both sides count nodes against one limit.
 */
module StructuredMarkdown {
  import opened Wrappers
  import opened Ordering
  import opened PercentToken

  const MAX_NODES: nat := 4096
  const MAX_VALUE_BYTES: nat := 16384

  // ---- schemas, values and list items -------------------------------------------------------

  datatype Property = Property(name: string, schema: Schema)

  datatype Schema =
    | ObjectOf(properties: seq<Property>)
    | ArrayOf(items: Schema)
    | Text | Decimal | Whole | Truth | Nothing
    | Unsupported

  datatype Value<N> =
    | Record(fields: map<string, Value<N>>)
    | List(entries: seq<Value<N>>)
    | Str(text: string) | Num(number: N) | Bool(truth: bool) | Null

  /** How numbers are printed and read back. */
  datatype Numerals<!N> = Numerals(print_: N -> string, read: string -> Option<N>, whole: N -> bool)

  /** Reading a printed number gives that number. */
  ghost predicate Canonical<N(!new)>(num: Numerals<N>) { forall n :: num.read(num.print_(n)) == Some(n) }

  datatype Item = Item(depth: nat, checked: bool, blockquoted: bool, text: string)

  function Task(text: string, depth: nat): Item { Item(depth, false, false, text) }

  predicate StartsWith(s: string, prefix: string) { |prefix| <= |s| && s[..|prefix|] == prefix }

  const PROPERTY := "property:"
  const STRING := "string:"

  // ---- schema objects -----------------------------------------------------------------------

  function NameOf(p: Property): string { p.name }

  function Lookup(properties: seq<Property>, name: string): (r: Option<Schema>)
    ensures r.Some? ==> exists i :: 0 <= i < |properties| && properties[i] == Property(name, r.value)
    ensures r.Some? <==> name in Map(properties, NameOf)
  {
    if properties == [] then None
    else
      assert Map(properties, NameOf) == [properties[0].name] + Map(properties[1..], NameOf);
      if properties[0].name == name then assert properties[0] == Property(name, properties[0].schema); Some(properties[0].schema)
      else Lookup(properties[1..], name)
  }

  function Among<V>(fields: map<string, V>): string -> bool { (name: string) => name in fields }

  /** The declared names a record has, in code-unit order. */
  function SortedNames<V>(properties: seq<Property>, fields: map<string, V>): seq<string> {
    StableSort(Filter(Map(properties, NameOf), Among(fields)), CompareText)
  }

  lemma SortedNamesMembers<V>(properties: seq<Property>, fields: map<string, V>)
    ensures forall n :: n in SortedNames(properties, fields) <==> n in fields && n in Map(properties, NameOf)
  {
    hide StableSort, Filter, CompareText;
    SameMembers(SortedNames(properties, fields), Filter(Map(properties, NameOf), Among(fields)));
  }

  /** An object names each property once, at every level. */
  ghost predicate WellFormed(schema: Schema) {
    match schema
    case ObjectOf(properties) =>
      && (forall n :: multiset(Map(properties, NameOf))[n] <= 1)
      && (forall i :: 0 <= i < |properties| ==> WellFormed(properties[i].schema))
    case ArrayOf(items) => WellFormed(items)
    case _ => true
  }

  // ---- scalars --------------------------------------------------------------------------------

  function TypeName(schema: Schema): string { if schema.Whole? then "integer:" else "number:" }

  function ScalarText<N>(num: Numerals<N>, schema: Schema, value: Value<N>): Option<string> {
    match (schema, value)
    case (Text, Str(text)) => if Utf8Length(text) > MAX_VALUE_BYTES then None else Some(STRING + Encode(text))
    case (Decimal, Num(n)) => Some(TypeName(schema) + num.print_(n))
    case (Whole, Num(n)) => Some(TypeName(schema) + num.print_(n))
    case (Truth, Bool(b)) => Some(if b then "boolean:true" else "boolean:false")
    case (Nothing, Null) => Some("null")
    case _ => None
  }

  function ReadNumber<N(==)>(num: Numerals<N>, schema: Schema, token: string): Option<Value<N>> {
    match num.read(token)
    case None => None
    case Some(n) => if num.print_(n) != token || (schema.Whole? && !num.whole(n)) then None else Some(Num(n))
  }

  function ReadScalar<N(==)>(num: Numerals<N>, schema: Schema, text: string): Option<Value<N>> {
    if schema.Text? && StartsWith(text, STRING) then
      match Decode(text[|STRING|..])
      case None => None
      case Some(s) => if Utf8Length(s) > MAX_VALUE_BYTES then None else Some(Str(s))
    else if (schema.Decimal? || schema.Whole?) && StartsWith(text, TypeName(schema)) then
      ReadNumber(num, schema, text[|TypeName(schema)|..])
    else if schema.Truth? && text in {"boolean:true", "boolean:false"} then Some(Bool(text == "boolean:true"))
    else if schema.Nothing? && text == "null" then Some(Null)
    else None
  }

  // ---- rendering -------------------------------------------------------------------------------

  datatype Rendered = Rendered(items: seq<Item>, used: nat)

  function Prepend(items: seq<Item>, r: Option<Rendered>): Option<Rendered> {
    if r.None? then None else Some(Rendered(items + r.value.items, r.value.used))
  }

  function OneTask(text: Option<string>, depth: nat): Option<seq<Item>> {
    if text.None? then None else Some([Task(text.value, depth)])
  }

  lemma PrependNothing(r: Option<Rendered>)
    ensures Prepend([], r) == r
  {
    if r.Some? { assert [] + r.value.items == r.value.items; }
  }

  lemma PrependTwice(a: seq<Item>, b: seq<Item>, r: Option<Rendered>)
    ensures Prepend(a, Prepend(b, r)) == Prepend(a + b, r)
  {
    if r.Some? { assert a + (b + r.value.items) == a + b + r.value.items; }
  }

  predicate Renderable<V>(schema: Schema, names: seq<string>, fields: map<string, V>) {
    schema.ObjectOf? && forall i :: 0 <= i < |names| ==> names[i] in fields && Lookup(schema.properties, names[i]).Some?
  }

  function RenderNode<N>(num: Numerals<N>, schema: Schema, value: Value<N>, depth: nat, used: nat): Option<Rendered>
    decreases schema, 1, 0
  {
    if used + 1 > MAX_NODES then None
    else
      match schema
      case ObjectOf(properties) =>
        if !value.Record? then None
        else
          SortedNamesMembers(properties, value.fields);
          Prepend([Task("object", depth)],
                  RenderFields(num, schema, SortedNames(properties, value.fields), value.fields, depth, used + 1))
      case ArrayOf(_) =>
        if !value.List? then None
        else Prepend([Task("array", depth)], RenderEntries(num, schema, value.entries, depth, used + 1))
      case _ =>
        match ScalarText(num, schema, value)
        case None => None
        case Some(text) => Some(Rendered([Task(text, depth)], used + 1))
  }

  function RenderFields<N>(num: Numerals<N>, schema: Schema, names: seq<string>, fields: map<string, Value<N>>,
                           depth: nat, used: nat): Option<Rendered>
    requires Renderable(schema, names, fields)
    decreases schema, 0, |names|
  {
    if names == [] then Some(Rendered([], used))
    else
      match RenderNode(num, Lookup(schema.properties, names[0]).value, fields[names[0]], depth + 2, used)
      case None => None
      case Some(r) => Prepend([Task(PROPERTY + Encode(names[0]), depth + 1)] + r.items,
                              RenderFields(num, schema, names[1..], fields, depth, r.used))
  }

  function RenderEntries<N>(num: Numerals<N>, schema: Schema, entries: seq<Value<N>>, depth: nat, used: nat): Option<Rendered>
    requires schema.ArrayOf?
    decreases schema, 0, |entries|
  {
    if entries == [] then Some(Rendered([], used))
    else
      match RenderNode(num, schema.items, entries[0], depth + 2, used)
      case None => None
      case Some(r) => Prepend([Task("item", depth + 1)] + r.items, RenderEntries(num, schema, entries[1..], depth, r.used))
  }

  // ---- parsing -----------------------------------------------------------------------------------

  /** `plain` says of an object that the prototype key still reaches the inherited setter and not an own property. */
  datatype Parsed<N> = Parsed(value: Value<N>, at: nat, used: nat, plain: bool)

  const PROTOTYPE := "__proto__"

  /**
   Assigning a property of an object literal. Under the prototype key the assignment replaces the prototype
   instead of adding a property, and only once a null prototype is in place does it add one after all.
   */
  function Assign<N>(fields: map<string, Value<N>>, plain: bool, name: string, r: Parsed<N>): (map<string, Value<N>>, bool) {
    if name != PROTOTYPE || !plain then (fields[name := r.value], plain)
    else (fields, if r.value.Null? then false else if r.value.Record? then r.plain else true)
  }

  function ParseNode<N(==)>(num: Numerals<N>, schema: Schema, items: seq<Item>, at: nat, depth: nat, used: nat)
    : (r: Option<Parsed<N>>)
    ensures r.Some? ==> at < r.value.at <= |items| && used < r.value.used
    decreases schema, 1, 0
  {
    if used + 1 > MAX_NODES then None
    else if at >= |items| || items[at].depth != depth || items[at].checked || items[at].blockquoted then None
    else
      match schema
      case ObjectOf(_) => if items[at].text != "object" then None else ParseFields(num, schema, items, at + 1, depth, used + 1, map[], true)
      case ArrayOf(_) => if items[at].text != "array" then None else ParseEntries(num, schema, items, at + 1, depth, used + 1, [])
      case _ =>
        if at + 1 < |items| && items[at + 1].depth > depth then None
        else
          match ReadScalar(num, schema, items[at].text)
          case None => None
          case Some(value) => Some(Parsed(value, at + 1, used + 1, true))
  }

  /** The property marked here, if it is declared and new. */
  function MarkedProperty<V>(schema: Schema, item: Item, depth: nat, fields: map<string, V>): (r: Option<string>)
    requires schema.ObjectOf?
    ensures r.Some? ==> Lookup(schema.properties, r.value).Some?
  {
    if item.depth != depth + 1 || !StartsWith(item.text, PROPERTY) then None
    else
      match Decode(item.text[|PROPERTY|..])
      case None => None
      case Some(name) => if Lookup(schema.properties, name).None? || name in fields then None else Some(name)
  }

  function ParseFields<N(==)>(num: Numerals<N>, schema: Schema, items: seq<Item>, at: nat, depth: nat, used: nat,
                              fields: map<string, Value<N>>, plain: bool): (r: Option<Parsed<N>>)
    requires schema.ObjectOf? && at <= |items|
    ensures r.Some? ==> at <= r.value.at <= |items| && used <= r.value.used
    decreases schema, 0, |items| - at
  {
    if at == |items| || items[at].depth <= depth then Some(Parsed(Record(fields), at, used, plain))
    else
      match MarkedProperty(schema, items[at], depth, fields)
      case None => None
      case Some(name) =>
        match ParseNode(num, Lookup(schema.properties, name).value, items, at + 1, depth + 2, used)
        case None => None
        case Some(r) =>
          var (more, still) := Assign(fields, plain, name, r);
          ParseFields(num, schema, items, r.at, depth, r.used, more, still)
  }

  function ParseEntries<N(==)>(num: Numerals<N>, schema: Schema, items: seq<Item>, at: nat, depth: nat, used: nat,
                               entries: seq<Value<N>>): (r: Option<Parsed<N>>)
    requires schema.ArrayOf? && at <= |items|
    ensures r.Some? ==> at <= r.value.at <= |items| && used <= r.value.used
    decreases schema, 0, |items| - at
  {
    if at == |items| || items[at].depth <= depth then Some(Parsed(List(entries), at, used, true))
    else if items[at].depth != depth + 1 || items[at].text != "item" then None
    else
      match ParseNode(num, schema.items, items, at + 1, depth + 2, used)
      case None => None
      case Some(r) => ParseEntries(num, schema, items, r.at, depth, r.used, entries + [r.value])
  }

  // ---- both as they run: one cursor and one budget, shared by all levels ---------------------------

  class Cursor {
    var value: nat
    constructor (start: nat) ensures value == start { value := start; }
  }

  class Budget {
    var nodes: nat
    constructor () ensures nodes == 0 { nodes := 0; }
  }

  /** Render one node; its lines are pushed in order and the budget pays for every node. */
  method Render<N(==)>(num: Numerals<N>, schema: Schema, value: Value<N>, depth: nat, budget: Budget)
    returns (r: Option<seq<Item>>)
    modifies budget
    ensures RenderNode(num, schema, value, depth, old(budget.nodes)) ==
      if r.None? then None else Some(Rendered(r.value, budget.nodes))
    decreases schema, 1
  {
    budget.nodes := budget.nodes + 1;
    if budget.nodes > MAX_NODES { return None; }
    match schema {
      case ObjectOf(properties) =>
        if !value.Record? { return None; }
        var names := SortedNames(properties, value.fields);
        SortedNamesMembers(properties, value.fields);
        r := RenderProperties(num, schema, names, value.fields, depth, budget);
        if r.Some? { r := Some([Task("object", depth)] + r.value); }
      case ArrayOf(_) =>
        if !value.List? { return None; }
        r := RenderItems(num, schema, value.entries, depth, budget);
        if r.Some? { r := Some([Task("array", depth)] + r.value); }
      case _ =>
        r := OneTask(ScalarText(num, schema, value), depth);
    }
  }

  method RenderProperties<N(==)>(num: Numerals<N>, schema: Schema, names: seq<string>, fields: map<string, Value<N>>,
                                 depth: nat, budget: Budget)
    returns (r: Option<seq<Item>>)
    requires Renderable(schema, names, fields)
    modifies budget
    ensures RenderFields(num, schema, names, fields, depth, old(budget.nodes)) ==
      if r.None? then None else Some(Rendered(r.value, budget.nodes))
    decreases schema, 0
  {
    ghost var goal := RenderFields(num, schema, names, fields, depth, budget.nodes);
    var lines: seq<Item> := [];
    assert names[0..] == names;
    PrependNothing(goal);
    for i := 0 to |names|
      invariant goal == Prepend(lines, RenderFields(num, schema, names[i..], fields, depth, budget.nodes))
    {
      ghost var before := lines;
      lines := lines + [Task(PROPERTY + Encode(names[i]), depth + 1)];
      var node := Render(num, Lookup(schema.properties, names[i]).value, fields[names[i]], depth + 2, budget);
      if node.None? { return None; }
      lines := lines + node.value;
      assert names[i..][1..] == names[i + 1..];
      PrependTwice(before, [Task(PROPERTY + Encode(names[i]), depth + 1)] + node.value, RenderFields(num, schema, names[i + 1..], fields, depth, budget.nodes));
      assert before + ([Task(PROPERTY + Encode(names[i]), depth + 1)] + node.value) == lines;
    }
    assert lines + [] == lines;
    r := Some(lines);
  }

  method RenderItems<N(==)>(num: Numerals<N>, schema: Schema, entries: seq<Value<N>>, depth: nat, budget: Budget)
    returns (r: Option<seq<Item>>)
    requires schema.ArrayOf?
    modifies budget
    ensures RenderEntries(num, schema, entries, depth, old(budget.nodes)) ==
      if r.None? then None else Some(Rendered(r.value, budget.nodes))
    decreases schema, 0
  {
    ghost var goal := RenderEntries(num, schema, entries, depth, budget.nodes);
    var lines: seq<Item> := [];
    assert entries[0..] == entries;
    PrependNothing(goal);
    for i := 0 to |entries|
      invariant goal == Prepend(lines, RenderEntries(num, schema, entries[i..], depth, budget.nodes))
    {
      ghost var before := lines;
      lines := lines + [Task("item", depth + 1)];
      var node := Render(num, schema.items, entries[i], depth + 2, budget);
      if node.None? { return None; }
      lines := lines + node.value;
      assert entries[i..][1..] == entries[i + 1..];
      PrependTwice(before, [Task("item", depth + 1)] + node.value, RenderEntries(num, schema, entries[i + 1..], depth, budget.nodes));
      assert before + ([Task("item", depth + 1)] + node.value) == lines;
    }
    assert lines + [] == lines;
    r := Some(lines);
  }

  /** Parse one node; on success the cursor stands behind it and the budget has paid for it. */
  method Parse<N(==)>(num: Numerals<N>, schema: Schema, items: seq<Item>, cursor: Cursor, depth: nat, budget: Budget)
    returns (r: Option<Value<N>>, plain: bool)
    modifies cursor, budget
    ensures ParseNode(num, schema, items, old(cursor.value), depth, old(budget.nodes)) ==
      if r.None? then None else Some(Parsed(r.value, cursor.value, budget.nodes, plain))
    decreases schema, 1
  {
    budget.nodes := budget.nodes + 1;
    if budget.nodes > MAX_NODES { return None, true; }
    if cursor.value >= |items| { return None, true; }
    var item := items[cursor.value];
    if item.depth != depth || item.checked || item.blockquoted { return None, true; }
    cursor.value := cursor.value + 1;
    match schema {
      case ObjectOf(_) =>
        if item.text != "object" { return None, true; }
        r, plain := ParseProperties(num, schema, items, cursor, depth, budget);
      case ArrayOf(_) =>
        if item.text != "array" { return None, true; }
        r, plain := ParseItems(num, schema, items, cursor, depth, budget);
      case _ =>
        if cursor.value < |items| && items[cursor.value].depth > depth { return None, true; }
        return ReadScalar(num, schema, item.text), true;
    }
  }

  method ParseProperties<N(==)>(num: Numerals<N>, schema: Schema, items: seq<Item>, cursor: Cursor, depth: nat, budget: Budget)
    returns (r: Option<Value<N>>, plain: bool)
    requires schema.ObjectOf? && cursor.value <= |items|
    modifies cursor, budget
    ensures ParseFields(num, schema, items, old(cursor.value), depth, old(budget.nodes), map[], true) ==
      if r.None? then None else Some(Parsed(r.value, cursor.value, budget.nodes, plain))
    decreases schema, 0
  {
    ghost var goal := ParseFields(num, schema, items, cursor.value, depth, budget.nodes, map[], true);
    var fields: map<string, Value<N>> := map[];
    plain := true;
    while cursor.value < |items| && items[cursor.value].depth > depth
      invariant cursor.value <= |items|
      invariant goal == ParseFields(num, schema, items, cursor.value, depth, budget.nodes, fields, plain)
      decreases |items| - cursor.value
    {
      var name := MarkedProperty(schema, items[cursor.value], depth, fields);
      if name.None? { return None, true; }
      cursor.value := cursor.value + 1;
      var field, whole := Parse(num, Lookup(schema.properties, name.value).value, items, cursor, depth + 2, budget);
      if field.None? { return None, true; }
      if name.value != PROTOTYPE || !plain {
        fields := fields[name.value := field.value];
      } else if field.value.Null? {
        plain := false;
      } else if field.value.Record? {
        plain := whole;
      }
    }
    r := Some(Record(fields));
  }

  method ParseItems<N(==)>(num: Numerals<N>, schema: Schema, items: seq<Item>, cursor: Cursor, depth: nat, budget: Budget)
    returns (r: Option<Value<N>>, plain: bool)
    requires schema.ArrayOf? && cursor.value <= |items|
    modifies cursor, budget
    ensures ParseEntries(num, schema, items, old(cursor.value), depth, old(budget.nodes), []) ==
      if r.None? then None else Some(Parsed(r.value, cursor.value, budget.nodes, plain))
    decreases schema, 0
  {
    ghost var goal := ParseEntries(num, schema, items, cursor.value, depth, budget.nodes, []);
    var entries: seq<Value<N>> := [];
    while cursor.value < |items| && items[cursor.value].depth > depth
      invariant cursor.value <= |items|
      invariant goal == ParseEntries(num, schema, items, cursor.value, depth, budget.nodes, entries)
      decreases |items| - cursor.value
    {
      var wrapper := items[cursor.value];
      if wrapper.depth != depth + 1 || wrapper.text != "item" { return None, true; }
      cursor.value := cursor.value + 1;
      var entry, _ := Parse(num, schema.items, items, cursor, depth + 2, budget);
      if entry.None? { return None, true; }
      entries := entries + [entry.value];
    }
    r, plain := Some(List(entries)), true;
  }
}
