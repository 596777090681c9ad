/**
 What structured Markdown means, apart from any parser: a grammar of task lists under a schema, in which the properties of
 an object stand in any order. Parsing accepts exactly the spellings of this grammar, whatever the items come from.
 */
module MarkdownGrammar {
  import opened Wrappers
  import opened Ordering
  import opened PercentToken
  import opened StructuredMarkdown
  import opened StructuredRoundTrip

  // ---- the grammar ---------------------------------------------------------------------------

  /** One property or list entry: its marker, the items that spell its value, and how many nodes these hold. */
  datatype Part<N> = Part(name: string, marker: Item, segment: seq<Item>, value: Value<N>, nodes: nat)

  function Spelled<N>(parts: seq<Part<N>>): seq<Item> {
    if parts == [] then [] else Spelled(parts[..|parts| - 1]) + ([parts[|parts| - 1].marker] + parts[|parts| - 1].segment)
  }

  function Nodes<N>(parts: seq<Part<N>>): nat {
    if parts == [] then 0 else Nodes(parts[..|parts| - 1]) + parts[|parts| - 1].nodes
  }

  function Values<N>(parts: seq<Part<N>>): seq<Value<N>> { Map(parts, (p: Part<N>) => p.value) }

  /** Only the prototype key may be marked twice. */
  ghost predicate NamedOnce<N>(parts: seq<Part<N>>) {
    forall i, j :: 0 <= i < j < |parts| && parts[i].name == parts[j].name ==> parts[i].name == PROTOTYPE
  }

  /**
   The own properties: one for every name but the prototype key, with the value of its only part. The prototype key is an own
   property only when a further part under it followed one that had taken the prototype away.
   */
  ghost predicate FieldsOf<N>(parts: seq<Part<N>>, fields: map<string, Value<N>>) {
    && (forall n :: n != PROTOTYPE ==> (n in fields <==> exists i :: 0 <= i < |parts| && parts[i].name == n))
    && (forall i :: 0 <= i < |parts| && parts[i].name != PROTOTYPE ==> parts[i].name in fields && fields[parts[i].name] == parts[i].value)
    && (PROTOTYPE in fields ==>
          exists i, j :: 0 <= i < j < |parts| && parts[i].name == parts[j].name == PROTOTYPE && fields[PROTOTYPE] == parts[j].value)
  }

  /** One unchecked, unquoted item of that depth and text. */
  predicate IsTask(item: Item, text: string, depth: nat) {
    item.depth == depth && item.text == text && !item.checked && !item.blockquoted
  }

  ghost predicate ScalarSpells<N>(num: Numerals<N>, schema: Schema, text: string, value: Value<N>) {
    match (schema, value)
    case (Text, Str(s)) => text == STRING + Encode(s) && Utf8Length(s) <= MAX_VALUE_BYTES
    case (Decimal, Num(n)) => text == "number:" + num.print_(n) && num.read(num.print_(n)) == Some(n)
    case (Whole, Num(n)) => text == "integer:" + num.print_(n) && num.read(num.print_(n)) == Some(n) && num.whole(n)
    case (Truth, Bool(b)) => text == if b then "boolean:true" else "boolean:false"
    case (Nothing, Null) => text == "null"
    case _ => false
  }

  /** The items, all of them, spell the value at that depth. */
  ghost predicate Spells<N(!new)>(num: Numerals<N>, schema: Schema, items: seq<Item>, depth: nat, value: Value<N>, nodes: nat)
    decreases schema
  {
    items != [] &&
    match schema
    case ObjectOf(properties) =>
      && IsTask(items[0], "object", depth) && value.Record?
      && exists parts: seq<Part<N>> ::
           && items[1..] == Spelled(parts) && nodes == 1 + Nodes(parts) && NamedOnce(parts) && FieldsOf(parts, value.fields)
           && forall i :: 0 <= i < |parts| ==>
                && parts[i].marker.depth == depth + 1 && parts[i].marker.text == PROPERTY + Encode(parts[i].name)
                && Lookup(properties, parts[i].name).Some?
                && Spells(num, Lookup(properties, parts[i].name).value, parts[i].segment, depth + 2, parts[i].value, parts[i].nodes)
    case ArrayOf(element) =>
      && IsTask(items[0], "array", depth) && value.List?
      && exists parts: seq<Part<N>> ::
           && items[1..] == Spelled(parts) && nodes == 1 + Nodes(parts) && value.entries == Values(parts)
           && forall i :: 0 <= i < |parts| ==>
                && parts[i].marker.depth == depth + 1 && parts[i].marker.text == "item"
                && Spells(num, element, parts[i].segment, depth + 2, parts[i].value, parts[i].nodes)
    case _ =>
      && |items| == 1 && nodes == 1 && IsTask(items[0], items[0].text, depth)
      && ScalarSpells(num, schema, items[0].text, value)
  }

  /** A property part as the grammar wants it. */
  ghost predicate PropertyPart<N(!new)>(num: Numerals<N>, schema: Schema, depth: nat, part: Part<N>)
    requires schema.ObjectOf?
  {
    && part.marker.depth == depth + 1 && part.marker.text == PROPERTY + Encode(part.name)
    && Lookup(schema.properties, part.name).Some?
    && Spells(num, SubSchema(schema, part.name), part.segment, depth + 2, part.value, part.nodes)
  }

  ghost predicate EntryPart<N(!new)>(num: Numerals<N>, schema: Schema, depth: nat, part: Part<N>)
    requires schema.ArrayOf?
  {
    && part.marker.depth == depth + 1 && part.marker.text == "item"
    && Spells(num, schema.items, part.segment, depth + 2, part.value, part.nodes)
  }

  // ---- soundness: whatever is accepted is a spelling -----------------------------------------------

  lemma ScalarIsSpelled<N(!new)>(num: Numerals<N>, schema: Schema, text: string)
    ensures ReadScalar(num, schema, text).Some? ==> ScalarSpells(num, schema, text, ReadScalar(num, schema, text).value)
  {
    if schema.Text? && StartsWith(text, STRING) {
      var token := text[|STRING|..];
      assert text == STRING + token;
      if Decode(token).Some? { DecodesExactlyEncodings(token, Decode(token).value); }
    } else if (schema.Decimal? || schema.Whole?) && StartsWith(text, TypeName(schema)) {
      assert text == TypeName(schema) + text[|TypeName(schema)|..];
    }
  }

  lemma MarkerIsSpelled<V>(schema: Schema, item: Item, depth: nat, fields: map<string, V>)
    requires schema.ObjectOf? && MarkedProperty(schema, item, depth, fields).Some?
    ensures var name := MarkedProperty(schema, item, depth, fields).value;
      && item.depth == depth + 1 && item.text == PROPERTY + Encode(name) && Lookup(schema.properties, name).Some? && name !in fields
  {
    var token := item.text[|PROPERTY|..];
    assert item.text == PROPERTY + token;
    DecodesExactlyEncodings(token, Decode(token).value);
  }

  lemma SpelledSnoc<N>(parts: seq<Part<N>>, part: Part<N>)
    ensures Spelled(parts + [part]) == Spelled(parts) + ([part.marker] + part.segment)
    ensures Nodes(parts + [part]) == Nodes(parts) + part.nodes && Values(parts + [part]) == Values(parts) + [part.value]
  {
    assert (parts + [part])[..|parts|] == parts;
  }

  /** `plain` is given up only after a null under the prototype key. */
  ghost predicate Reached<N>(parts: seq<Part<N>>, fields: map<string, Value<N>>, plain: bool) {
    && NamedOnce(parts) && FieldsOf(parts, fields)
    && (!plain ==> exists i :: 0 <= i < |parts| && parts[i].name == PROTOTYPE)
    && (plain ==> PROTOTYPE !in fields)
  }

  lemma AssignReaches<N>(parts: seq<Part<N>>, fields: map<string, Value<N>>, plain: bool, part: Part<N>, r: Parsed<N>)
    requires Reached(parts, fields, plain) && part.name !in fields && r.value == part.value
    ensures var (more, still) := Assign(fields, plain, part.name, r); Reached(parts + [part], more, still)
  {
    var (more, still) := Assign(fields, plain, part.name, r);
    var all := parts + [part];
    assert all[|parts|] == part && forall i :: 0 <= i < |parts| ==> all[i] == parts[i];
    forall n | n != PROTOTYPE ensures n in more <==> exists i :: 0 <= i < |all| && all[i].name == n {
      if n == part.name { assert all[|parts|].name == n; }
      if n in fields {
        var i :| 0 <= i < |parts| && parts[i].name == n;
        assert all[i].name == n;
      }
    }
    if !plain {
      var i :| 0 <= i < |parts| && parts[i].name == PROTOTYPE;
      assert all[i].name == PROTOTYPE;
      if part.name == PROTOTYPE { assert all[i].name == all[|parts|].name == PROTOTYPE; }
    }
    if !still && plain { assert all[|parts|].name == PROTOTYPE; }
    if PROTOTYPE in more && PROTOTYPE in fields {
      var i, j :| 0 <= i < j < |parts| && parts[i].name == parts[j].name == PROTOTYPE && fields[PROTOTYPE] == parts[j].value;
      assert all[i].name == all[j].name == PROTOTYPE && all[j].value == parts[j].value;
    }
  }

  /** An empty object after values were assigned to it under the prototype key, one after the other. */
  function AssignedInTurn<N>(values: seq<Parsed<N>>): (map<string, Value<N>>, bool) {
    if values == [] then (map[], true)
    else
      var (fields, plain) := AssignedInTurn(values[..|values| - 1]);
      Assign(fields, plain, PROTOTYPE, values[|values| - 1])
  }

  /** A value that takes the inherited setter away: null, or an object that has lost it itself. */
  predicate CutsOff<N>(v: Parsed<N>) { v.value.Null? || (v.value.Record? && !v.plain) }

  predicate CutBefore<N>(values: seq<Parsed<N>>, n: nat) { exists i :: 0 <= i < n && i < |values| && CutsOff(values[i]) }

  /**
   What the prototype key does to an object: the setter is lost exactly with the first value that takes it away; before that
   nothing is added, and after it the last value assigned is an own property.
   */
  lemma {:induction false} PrototypeKeyInTurn<N>(values: seq<Parsed<N>>)
    ensures var (fields, plain) := AssignedInTurn(values);
      && (plain <==> !CutBefore(values, |values|))
      && fields == (if values != [] && CutBefore(values, |values| - 1) then map[PROTOTYPE := values[|values| - 1].value] else map[])
  {
    if values != [] {
      var front, last := values[..|values| - 1], values[|values| - 1];
      PrototypeKeyInTurn(front);
      assert CutBefore(values, |values| - 1) <==> CutBefore(front, |front|) by {
        assert forall i :: 0 <= i < |front| ==> front[i] == values[i];
      }
      assert CutBefore(values, |values|) <==> CutBefore(values, |values| - 1) || CutsOff(last);
    }
  }

  /** What follows is not deeper. */
  predicate Ends(items: seq<Item>, at: nat, depth: nat) { at <= |items| && (at < |items| ==> items[at].depth <= depth) }

  lemma Extended(items: seq<Item>, start: nat, at: nat, end: nat, sofar: seq<Item>)
    requires start <= at < end <= |items| && items[start..at] == sofar
    ensures items[start..end] == sofar + ([items[at]] + items[at + 1..end])
  {
    assert items[start..end] == items[start..at] + items[at..end] && items[at..end] == [items[at]] + items[at + 1..end];
  }

  /**
   Soundness over arbitrary items: if parsing succeeds, exactly the consumed items spell the returned value, nothing deeper
   follows them, and the budget paid for their nodes within the limit.
   */
  lemma {:induction false} ParsedIsSpelled<N(!new)>(num: Numerals<N>, schema: Schema, items: seq<Item>, at: nat, depth: nat, used: nat)
    requires ParseNode(num, schema, items, at, depth, used).Some?
    ensures var r := ParseNode(num, schema, items, at, depth, used).value;
      && used < r.used <= MAX_NODES && Spells(num, schema, items[at..r.at], depth, r.value, r.used - used) && Ends(items, r.at, depth)
    decreases schema, 1, 0
  {
    hide ReadScalar, Encode, Decode, Lookup, ScalarSpells, Spells, ParseFields, ParseEntries, PropertyPart, EntryPart, FieldsOf,
         NamedOnce, Reached;
    var r := ParseNode(num, schema, items, at, depth, used).value;
    match schema
    case ObjectOf(_) =>
      NothingYet<N>();
      assert items[at + 1..at + 1] == [];
      var parts := ParsedFields(num, schema, items, at + 1, at + 1, depth, used + 1, map[], true, []);
      SegmentTail(items, at, r.at);
      RecordSpells(num, schema, items[at..r.at], depth, r.value, parts);
    case ArrayOf(_) =>
      NothingYet<N>();
      assert items[at + 1..at + 1] == [];
      var parts := ParsedEntries(num, schema, items, at + 1, at + 1, depth, used + 1, [], []);
      SegmentTail(items, at, r.at);
      ListSpells(num, schema, items[at..r.at], depth, r.value, parts);
    case _ =>
      ScalarNode(num, schema, items, at, depth);
  }

  lemma SegmentTail(items: seq<Item>, at: nat, end: nat)
    requires at < end <= |items|
    ensures items[at..end] != [] && items[at..end][0] == items[at] && items[at..end][1..] == items[at + 1..end]
  {
  }

  lemma ScalarNode<N(!new)>(num: Numerals<N>, schema: Schema, items: seq<Item>, at: nat, depth: nat)
    ensures Scalar(schema) && at < |items| && IsTask(items[at], items[at].text, depth) && ReadScalar(num, schema, items[at].text).Some? ==>
      Spells(num, schema, items[at..at + 1], depth, ReadScalar(num, schema, items[at].text).value, 1)
  {
    hide ReadScalar, ScalarSpells;
    SingleItem(items, at);
    if at < |items| { ScalarIsSpelled(num, schema, items[at].text); }
  }

  lemma SingleItem(items: seq<Item>, at: nat)
    ensures at < |items| ==> items[at..at + 1] == [items[at]]
  {
  }

  lemma NothingYet<N>()
    ensures Spelled<N>([]) == [] && Nodes<N>([]) == 0 && Values<N>([]) == [] && Reached<N>([], map[], true)
  {
  }

  lemma RecordSpells<N(!new)>(num: Numerals<N>, schema: Schema, items: seq<Item>, depth: nat, value: Value<N>, parts: seq<Part<N>>)
    requires schema.ObjectOf? && items != [] && IsTask(items[0], "object", depth) && value.Record?
    requires items[1..] == Spelled(parts) && NamedOnce(parts) && FieldsOf(parts, value.fields)
    requires forall i :: 0 <= i < |parts| ==> PropertyPart(num, schema, depth, parts[i])
    ensures Spells(num, schema, items, depth, value, 1 + Nodes(parts))
  {
  }

  lemma ListSpells<N(!new)>(num: Numerals<N>, schema: Schema, items: seq<Item>, depth: nat, value: Value<N>, parts: seq<Part<N>>)
    requires schema.ArrayOf? && items != [] && IsTask(items[0], "array", depth) && value.List?
    requires items[1..] == Spelled(parts) && value.entries == Values(parts)
    requires forall i :: 0 <= i < |parts| ==> EntryPart(num, schema, depth, parts[i])
    ensures Spells(num, schema, items, depth, value, 1 + Nodes(parts))
  {
  }

  lemma {:induction false} ParsedFields<N(!new)>(num: Numerals<N>, schema: Schema, items: seq<Item>, start: nat, at: nat, depth: nat,
                                                 used: nat, fields: map<string, Value<N>>, plain: bool, sofar: seq<Part<N>>)
    returns (parts: seq<Part<N>>)
    requires schema.ObjectOf? && start <= at <= |items| && used <= MAX_NODES
    requires ParseFields(num, schema, items, at, depth, used, fields, plain).Some?
    requires items[start..at] == Spelled(sofar) && Reached(sofar, fields, plain)
    requires forall i :: 0 <= i < |sofar| ==> PropertyPart(num, schema, depth, sofar[i])
    ensures var r := ParseFields(num, schema, items, at, depth, used, fields, plain).value;
      && r.value.Record? && items[start..r.at] == Spelled(parts) && NamedOnce(parts) && FieldsOf(parts, r.value.fields)
      && (forall i :: 0 <= i < |parts| ==> PropertyPart(num, schema, depth, parts[i]))
      && used <= r.used <= MAX_NODES && Nodes(parts) == Nodes(sofar) + (r.used - used) && Ends(items, r.at, depth)
    decreases schema, 0, |items| - at
  {
    hide ParseNode, MarkedProperty, Lookup, Spells, Encode, Decode, Reached, FieldsOf, NamedOnce, Assign;
    if at == |items| || items[at].depth <= depth {
      parts := sofar;
      ReachedIsFinal(sofar, fields, plain);
    } else {
      var name := MarkedProperty(schema, items[at], depth, fields).value;
      MarkerIsSpelled(schema, items[at], depth, fields);
      var r := ParseNode(num, SubSchema(schema, name), items, at + 1, depth + 2, used).value;
      ParsedIsSpelled(num, SubSchema(schema, name), items, at + 1, depth + 2, used);
      var part := Part(name, items[at], items[at + 1..r.at], r.value, r.used - used);
      AssignReaches(sofar, fields, plain, part, r);
      SpelledSnoc(sofar, part);
      Extended(items, start, at, r.at, Spelled(sofar));
      var (more, still) := Assign(fields, plain, name, r);
      FieldTaken(num, schema, items, at, depth, used, fields, plain);
      hide ParseFields;
      parts := ParsedFields(num, schema, items, start, r.at, depth, r.used, more, still, sofar + [part]);
    }
  }

  lemma ReachedIsFinal<N>(parts: seq<Part<N>>, fields: map<string, Value<N>>, plain: bool)
    requires Reached(parts, fields, plain)
    ensures NamedOnce(parts) && FieldsOf(parts, fields)
  {
  }

  lemma FieldTaken<N>(num: Numerals<N>, schema: Schema, items: seq<Item>, at: nat, depth: nat, used: nat,
                      fields: map<string, Value<N>>, plain: bool)
    requires schema.ObjectOf? && at < |items| && items[at].depth > depth && MarkedProperty(schema, items[at], depth, fields).Some?
    ensures var name := MarkedProperty(schema, items[at], depth, fields).value;
      ParseFields(num, schema, items, at, depth, used, fields, plain) ==
        match ParseNode(num, SubSchema(schema, name), items, at + 1, depth + 2, used)
        case None => None
        case Some(r) =>
          ParseFields(num, schema, items, r.at, depth, r.used, Assign(fields, plain, name, r).0, Assign(fields, plain, name, r).1)
  {
    hide ParseNode, MarkedProperty, Lookup, Assign;
  }

  lemma {:induction false} ParsedEntries<N(!new)>(num: Numerals<N>, schema: Schema, items: seq<Item>, start: nat, at: nat, depth: nat,
                                                  used: nat, entries: seq<Value<N>>, sofar: seq<Part<N>>)
    returns (parts: seq<Part<N>>)
    requires schema.ArrayOf? && start <= at <= |items| && used <= MAX_NODES
    requires ParseEntries(num, schema, items, at, depth, used, entries).Some?
    requires items[start..at] == Spelled(sofar) && entries == Values(sofar)
    requires forall i :: 0 <= i < |sofar| ==> EntryPart(num, schema, depth, sofar[i])
    ensures var r := ParseEntries(num, schema, items, at, depth, used, entries).value;
      && r.value.List? && items[start..r.at] == Spelled(parts) && r.value.entries == Values(parts)
      && (forall i :: 0 <= i < |parts| ==> EntryPart(num, schema, depth, parts[i]))
      && used <= r.used <= MAX_NODES && Nodes(parts) == Nodes(sofar) + (r.used - used) && Ends(items, r.at, depth)
    decreases schema, 0, |items| - at
  {
    hide ParseNode, Spells, EntryPart, Spelled, Nodes, Values;
    if at == |items| || items[at].depth <= depth {
      parts := sofar;
    } else {
      var r := ParseNode(num, schema.items, items, at + 1, depth + 2, used).value;
      ParsedIsSpelled(num, schema.items, items, at + 1, depth + 2, used);
      var part := Part("", items[at], items[at + 1..r.at], r.value, r.used - used);
      SpelledSnoc(sofar, part);
      Extended(items, start, at, r.at, Spelled(sofar));
      EntryMade(num, schema, depth, part);
      EntryTaken(num, schema, items, at, depth, used, entries);
      hide ParseEntries;
      parts := ParsedEntries(num, schema, items, start, r.at, depth, r.used, entries + [r.value], sofar + [part]);
    }
  }

  lemma EntryMade<N(!new)>(num: Numerals<N>, schema: Schema, depth: nat, part: Part<N>)
    requires schema.ArrayOf? && part.marker.depth == depth + 1 && part.marker.text == "item"
    requires Spells(num, schema.items, part.segment, depth + 2, part.value, part.nodes)
    ensures EntryPart(num, schema, depth, part)
  {
    hide Spells;
  }

  // ---- completeness: every spelling is accepted ----------------------------------------------------------

  const PROTOTYPE_MARK := PROPERTY + Encode(PROTOTYPE)

  /** No marker of the prototype key among the items. */
  predicate Unprototyped(items: seq<Item>) { forall i :: 0 <= i < |items| ==> items[i].text != PROTOTYPE_MARK }

  lemma SpelledScalarReads<N(!new)>(num: Numerals<N>, schema: Schema, text: string, value: Value<N>)
    requires ScalarSpells(num, schema, text, value)
    ensures ReadScalar(num, schema, text) == Some(value) && Scalar(schema)
  {
    match (schema, value)
    case (Text, Str(s)) =>
      assert text[|STRING|..] == Encode(s) && text[..|STRING|] == STRING;
      DecodesExactlyEncodings(Encode(s), s);
    case (Decimal, Num(n)) =>
      assert text[|TypeName(schema)|..] == num.print_(n) && text[..|TypeName(schema)|] == TypeName(schema);
    case (Whole, Num(n)) =>
      assert text[|TypeName(schema)|..] == num.print_(n) && text[..|TypeName(schema)|] == TypeName(schema);
    case _ =>
  }

  /** The parts up to `i` stand in front of the part at `i`, wherever the whole spelling stands. */
  lemma {:induction false} PartStands<N>(items: seq<Item>, start: nat, parts: seq<Part<N>>, i: nat)
    requires start + |Spelled(parts)| <= |items| && items[start..start + |Spelled(parts)|] == Spelled(parts) && i < |parts|
    ensures var before := |Spelled(parts[..i])|;
      && start + before + 1 + |parts[i].segment| <= start + |Spelled(parts)|
      && items[start + before] == parts[i].marker
      && items[start + before + 1..start + before + 1 + |parts[i].segment|] == parts[i].segment
      && |Spelled(parts[..i + 1])| == before + 1 + |parts[i].segment|
    decreases |parts|
  {
    var front, last := parts[..|parts| - 1], parts[|parts| - 1];
    assert Spelled(parts) == Spelled(front) + ([last.marker] + last.segment);
    hide Spelled;
    LastStands(items, start, Spelled(front), last.marker, last.segment);
    if i < |front| {
      PartStands(items, start, front, i);
      assert front[..i] == parts[..i] && front[..i + 1] == parts[..i + 1];
    } else {
      assert parts[..i] == front && parts[..i + 1] == parts;
    }
  }

  lemma LastStands(items: seq<Item>, start: nat, front: seq<Item>, marker: Item, segment: seq<Item>)
    requires var whole := front + ([marker] + segment); start + |whole| <= |items| && items[start..start + |whole|] == whole
    ensures var at := start + |front|;
      items[start..at] == front && items[at] == marker && items[at + 1..at + 1 + |segment|] == segment
  {
    var whole, at := front + ([marker] + segment), start + |front|;
    assert items[start..at] == items[start..start + |whole|][..|front|];
    assert items[at] == items[start..start + |whole|][|front|];
    assert items[at + 1..at + 1 + |segment|] == items[start..start + |whole|][|front| + 1..];
  }

  lemma FieldsOfUnique<N>(parts: seq<Part<N>>, a: map<string, Value<N>>, b: map<string, Value<N>>)
    requires FieldsOf(parts, a) && FieldsOf(parts, b) && PROTOTYPE !in a && PROTOTYPE !in b
    ensures a == b
  {
    forall n ensures n in a <==> n in b {}
    forall n | n in a ensures a[n] == b[n] {
      var i :| 0 <= i < |parts| && parts[i].name == n;
    }
  }

  lemma FieldsOfSnoc<N>(parts: seq<Part<N>>, i: nat, fields: map<string, Value<N>>)
    requires i < |parts| && NamedOnce(parts) && FieldsOf(parts[..i], fields) && PROTOTYPE !in fields && parts[i].name != PROTOTYPE
    ensures parts[i].name !in fields
    ensures FieldsOf(parts[..i + 1], fields[parts[i].name := parts[i].value]) && PROTOTYPE !in fields[parts[i].name := parts[i].value]
  {
    var part, before, all := parts[i], parts[..i], parts[..i + 1];
    assert all == before + [part];
    assert forall k :: 0 <= k < |before| ==> before[k] == parts[k];
    var grown := fields[part.name := part.value];
    forall n | n != PROTOTYPE ensures n in grown <==> exists k :: 0 <= k < |all| && all[k].name == n {
      if n == part.name { assert all[i].name == n; }
      if n in fields {
        var k :| 0 <= k < |before| && before[k].name == n;
        assert all[k].name == n;
      }
    }
  }

  /** The parts behind a spelled record. */
  lemma RecordParts<N(!new)>(num: Numerals<N>, schema: Schema, items: seq<Item>, depth: nat, value: Value<N>, nodes: nat)
    returns (parts: seq<Part<N>>)
    requires schema.ObjectOf? && Spells(num, schema, items, depth, value, nodes)
    ensures items != [] && IsTask(items[0], "object", depth) && value.Record?
    ensures items[1..] == Spelled(parts) && nodes == 1 + Nodes(parts) && NamedOnce(parts) && FieldsOf(parts, value.fields)
    ensures forall i :: 0 <= i < |parts| ==> PropertyPart(num, schema, depth, parts[i])
  {
    parts :|
      && items[1..] == Spelled(parts) && nodes == 1 + Nodes(parts) && NamedOnce(parts) && FieldsOf(parts, value.fields)
      && forall i :: 0 <= i < |parts| ==> PropertyPart(num, schema, depth, parts[i]);
  }

  /** The parts behind a spelled list. */
  lemma ListParts<N(!new)>(num: Numerals<N>, schema: Schema, items: seq<Item>, depth: nat, value: Value<N>, nodes: nat)
    returns (parts: seq<Part<N>>)
    requires schema.ArrayOf? && Spells(num, schema, items, depth, value, nodes)
    ensures items != [] && IsTask(items[0], "array", depth) && value.List?
    ensures items[1..] == Spelled(parts) && nodes == 1 + Nodes(parts) && value.entries == Values(parts)
    ensures forall i :: 0 <= i < |parts| ==> EntryPart(num, schema, depth, parts[i])
  {
    parts :|
      && items[1..] == Spelled(parts) && nodes == 1 + Nodes(parts) && value.entries == Values(parts)
      && forall i :: 0 <= i < |parts| ==> EntryPart(num, schema, depth, parts[i]);
  }

  lemma ScalarShape<N(!new)>(num: Numerals<N>, schema: Schema, items: seq<Item>, depth: nat, value: Value<N>, nodes: nat)
    requires Scalar(schema) && Spells(num, schema, items, depth, value, nodes)
    ensures |items| == 1 && nodes == 1 && IsTask(items[0], items[0].text, depth) && ScalarSpells(num, schema, items[0].text, value)
  {
  }

  lemma PartShape<N(!new)>(num: Numerals<N>, schema: Schema, depth: nat, part: Part<N>)
    ensures schema.ObjectOf? && PropertyPart(num, schema, depth, part) ==>
      && part.marker.depth == depth + 1 && part.marker.text == PROPERTY + Encode(part.name)
      && Lookup(schema.properties, part.name).Some?
      && Spells(num, SubSchema(schema, part.name), part.segment, depth + 2, part.value, part.nodes)
    ensures schema.ArrayOf? && EntryPart(num, schema, depth, part) ==>
      && part.marker.depth == depth + 1 && part.marker.text == "item"
      && Spells(num, schema.items, part.segment, depth + 2, part.value, part.nodes)
  {
    hide Spells, Encode, Lookup;
  }

  /** What completeness promises of one node. */
  ghost predicate Accepted<N(!new)>(num: Numerals<N>, schema: Schema, items: seq<Item>, at: nat, end: nat, depth: nat, used: nat,
                                    value: Value<N>, nodes: nat)
  {
    Returned(ParseNode(num, schema, items, at, depth, used), Some(value), end, used + nodes)
  }

  lemma {:induction false} SpelledIsParsed<N(!new)>(num: Numerals<N>, schema: Schema, items: seq<Item>, at: nat, end: nat, depth: nat,
                                                    used: nat, value: Value<N>, nodes: nat)
    requires at <= end <= |items| && Spells(num, schema, items[at..end], depth, value, nodes) && Ends(items, end, depth)
    requires used + nodes <= MAX_NODES && Unprototyped(items)
    ensures Accepted(num, schema, items, at, end, depth, used, value, nodes)
    decreases schema, 2, 0
  {
    hide Spells, PropertyPart, EntryPart, ScalarSpells, ParseFields, ParseEntries, ReadScalar, FieldsOf, NamedOnce, Unprototyped;
    SpellsSomething(num, schema, items[at..end], depth, value, nodes);
    SegmentHead(items, at, end);
    var text := items[at].text;
    match schema
    case ObjectOf(_) =>
      var parts := RecordParts(num, schema, items[at..end], depth, value, nodes);
      assert items[at + 1..end] == items[at..end][1..] && parts[..0] == [];
      NoParts<N>();
      FieldsParse(num, schema, items, at + 1, depth, used + 1, parts, 0, map[], value.fields);
    case ArrayOf(_) =>
      var parts := ListParts(num, schema, items[at..end], depth, value, nodes);
      assert items[at + 1..end] == items[at..end][1..] && parts[..0] == [];
      NoParts<N>();
      EntriesParse(num, schema, items, at + 1, depth, used + 1, parts, 0);
    case _ =>
      ScalarShape(num, schema, items[at..end], depth, value, nodes);
      SpelledScalarReads(num, schema, text, value);
  }

  lemma SpellsSomething<N(!new)>(num: Numerals<N>, schema: Schema, items: seq<Item>, depth: nat, value: Value<N>, nodes: nat)
    requires Spells(num, schema, items, depth, value, nodes)
    ensures items != []
  {
  }

  lemma NoParts<N>()
    ensures Spelled<N>([]) == [] && Nodes<N>([]) == 0 && Values<N>([]) == [] && FieldsOf<N>([], map[])
  {
  }

  lemma SegmentHead(items: seq<Item>, at: nat, end: nat)
    requires at <= end <= |items|
    ensures items[at..end] != [] ==> at < end && items[at..end][0] == items[at]
  {
  }

  /** The part at `i` parses where it stands. */
  lemma {:induction false} FieldHere<N(!new)>(num: Numerals<N>, schema: Schema, items: seq<Item>, start: nat, depth: nat, used: nat,
                                              parts: seq<Part<N>>, i: nat)
    requires schema.ObjectOf? && i < |parts| && start + |Spelled(parts)| <= |items|
    requires items[start..start + |Spelled(parts)|] == Spelled(parts) && Ends(items, start + |Spelled(parts)|, depth)
    requires forall k :: 0 <= k < |parts| ==> PropertyPart(num, schema, depth, parts[k])
    requires used + Nodes(parts) <= MAX_NODES && Unprototyped(items)
    ensures var part, at := parts[i], start + |Spelled(parts[..i])|;
      && at < at + 1 + |part.segment| <= |items| && |Spelled(parts[..i + 1])| == |Spelled(parts[..i])| + 1 + |part.segment|
      && Nodes(parts[..i + 1]) == Nodes(parts[..i]) + part.nodes
      && items[at].depth == depth + 1 && items[at].text == PROPERTY + Encode(part.name) && part.name != PROTOTYPE
      && Lookup(schema.properties, part.name).Some?
      && Accepted(num, SubSchema(schema, part.name), items, at + 1, at + 1 + |part.segment|, depth + 2, used + Nodes(parts[..i]),
                  part.value, part.nodes)
    decreases schema, 0, 0
  {
    hide ParseNode, Lookup, Spells, Encode, PropertyPart, Unprototyped, Accepted;
    var part := parts[i];
    var at := start + |Spelled(parts[..i])|;
    PartStands(items, start, parts, i);
    forall k | 0 <= k < |parts| ensures parts[k].marker.depth == depth + 1 { PartShape(num, schema, depth, parts[k]); }
    PartShape(num, schema, depth, part);
    MarkedOtherwise(items, at);
    MarkNames(items[at], part.name);
    PartEnds(items, start, parts, i, depth);
    NodesGrow(parts, i);
    SpelledIsParsed(num, SubSchema(schema, part.name), items, at + 1, at + 1 + |part.segment|, depth + 2, used + Nodes(parts[..i]),
                    part.value, part.nodes);
  }

  lemma {:induction false} FieldsParse<N(!new)>(num: Numerals<N>, schema: Schema, items: seq<Item>, start: nat, depth: nat, used: nat,
                                                parts: seq<Part<N>>, i: nat, fields: map<string, Value<N>>, final: map<string, Value<N>>)
    requires schema.ObjectOf? && i <= |parts| && start + |Spelled(parts)| <= |items|
    requires items[start..start + |Spelled(parts)|] == Spelled(parts) && Ends(items, start + |Spelled(parts)|, depth)
    requires NamedOnce(parts) && FieldsOf(parts, final) && FieldsOf(parts[..i], fields) && PROTOTYPE !in fields
    requires forall k :: 0 <= k < |parts| ==> PropertyPart(num, schema, depth, parts[k])
    requires used + Nodes(parts) <= MAX_NODES && Unprototyped(items)
    ensures start + |Spelled(parts[..i])| <= |items|
    ensures Returned(ParseFields(num, schema, items, start + |Spelled(parts[..i])|, depth, used + Nodes(parts[..i]), fields, true),
                     Some(Record(final)), start + |Spelled(parts)|, used + Nodes(parts))
    decreases schema, 1, |parts| - i
  {
    hide ParseNode, MarkedProperty, Lookup, Spells, Encode, Decode, FieldsOf, NamedOnce, PropertyPart, Unprototyped, ParseFields, Assign,
         Spelled, Nodes, Ends;
    if i == |parts| {
      assert parts[..i] == parts;
      forall k | 0 <= k < |parts| ensures parts[k].marker.text == PROPERTY + Encode(parts[k].name) { PartShape(num, schema, depth, parts[k]); }
      FieldsEnd(num, schema, items, start + |Spelled(parts)|, depth, used + Nodes(parts), fields);
      NoPrototypeField(items, start, parts, final);
      FieldsOfUnique(parts, fields, final);
    } else {
      var part, at, cost := parts[i], start + |Spelled(parts[..i])|, used + Nodes(parts[..i]);
      FieldHere(num, schema, items, start, depth, used, parts, i);
      var r := ParseNode(num, SubSchema(schema, part.name), items, at + 1, depth + 2, cost).value;
      FieldsOfSnoc(parts, i, fields);
      MarkerIsRead(schema, items[at], part.name, depth, fields);
      FieldTaken(num, schema, items, at, depth, cost, fields, true);
      PlainAssign(fields, part, r);
      FieldsParse(num, schema, items, start, depth, used, parts, i + 1, fields[part.name := part.value], final);
    }
  }

  lemma FieldsEnd<N>(num: Numerals<N>, schema: Schema, items: seq<Item>, at: nat, depth: nat, used: nat, fields: map<string, Value<N>>)
    requires schema.ObjectOf? && Ends(items, at, depth)
    ensures ParseFields(num, schema, items, at, depth, used, fields, true) == Some(Parsed(Record(fields), at, used, true))
  {
  }

  lemma EntriesEnd<N>(num: Numerals<N>, schema: Schema, items: seq<Item>, at: nat, depth: nat, used: nat, entries: seq<Value<N>>)
    requires schema.ArrayOf? && Ends(items, at, depth)
    ensures ParseEntries(num, schema, items, at, depth, used, entries) == Some(Parsed(List(entries), at, used, true))
  {
  }

  lemma MarkedOtherwise(items: seq<Item>, at: nat)
    requires Unprototyped(items)
    ensures at < |items| ==> items[at].text != PROTOTYPE_MARK
  {
  }

  lemma PlainAssign<N>(fields: map<string, Value<N>>, part: Part<N>, r: Parsed<N>)
    requires part.name != PROTOTYPE && r.value == part.value
    ensures Assign(fields, true, part.name, r) == (fields[part.name := part.value], true)
  {
  }

  lemma MarkerIsRead<V>(schema: Schema, item: Item, name: string, depth: nat, fields: map<string, V>)
    requires schema.ObjectOf? && Lookup(schema.properties, name).Some? && name !in fields
    requires item.depth == depth + 1 && item.text == PROPERTY + Encode(name)
    ensures MarkedProperty(schema, item, depth, fields) == Some(name)
  {
    assert item.text[|PROPERTY|..] == Encode(name) && item.text[..|PROPERTY|] == PROPERTY;
    DecodesExactlyEncodings(Encode(name), name);
  }

  lemma MarkNames(item: Item, name: string)
    requires item.text == PROPERTY + Encode(name)
    ensures item.text != PROTOTYPE_MARK ==> name != PROTOTYPE
  {
  }

  lemma {:induction false} NodesGrow<N>(parts: seq<Part<N>>, i: nat)
    requires i < |parts|
    ensures Nodes(parts[..i + 1]) == Nodes(parts[..i]) + parts[i].nodes <= Nodes(parts)
    decreases |parts|
  {
    var front := parts[..|parts| - 1];
    if i < |front| {
      NodesGrow(front, i);
      assert front[..i] == parts[..i] && front[..i + 1] == parts[..i + 1];
    } else {
      assert parts[..i + 1] == parts;
    }
  }

  /** Behind a part stands the next marker, or whatever ends the whole. */
  lemma PartEnds<N>(items: seq<Item>, start: nat, parts: seq<Part<N>>, i: nat, depth: nat)
    requires start + |Spelled(parts)| <= |items| && items[start..start + |Spelled(parts)|] == Spelled(parts) && i < |parts|
    requires Ends(items, start + |Spelled(parts)|, depth) && forall k :: 0 <= k < |parts| ==> parts[k].marker.depth == depth + 1
    ensures Ends(items, start + |Spelled(parts[..i])| + 1 + |parts[i].segment|, depth + 2)
  {
    hide Spelled;
    PartStands(items, start, parts, i);
    if i + 1 < |parts| {
      PartStands(items, start, parts, i + 1);
    } else {
      assert parts[..i + 1] == parts;
    }
  }

  lemma NoPrototypeField<N>(items: seq<Item>, start: nat, parts: seq<Part<N>>, fields: map<string, Value<N>>)
    requires start + |Spelled(parts)| <= |items| && items[start..start + |Spelled(parts)|] == Spelled(parts) && Unprototyped(items)
    requires FieldsOf(parts, fields) && forall k :: 0 <= k < |parts| ==> parts[k].marker.text == PROPERTY + Encode(parts[k].name)
    ensures PROTOTYPE !in fields
  {
    forall k | 0 <= k < |parts| ensures parts[k].name != PROTOTYPE {
      PartStands(items, start, parts, k);
      MarkNames(parts[k].marker, parts[k].name);
    }
  }

  lemma {:induction false} EntryHere<N(!new)>(num: Numerals<N>, schema: Schema, items: seq<Item>, start: nat, depth: nat, used: nat,
                                              parts: seq<Part<N>>, i: nat)
    requires schema.ArrayOf? && i < |parts| && start + |Spelled(parts)| <= |items|
    requires items[start..start + |Spelled(parts)|] == Spelled(parts) && Ends(items, start + |Spelled(parts)|, depth)
    requires forall k :: 0 <= k < |parts| ==> EntryPart(num, schema, depth, parts[k])
    requires used + Nodes(parts) <= MAX_NODES && Unprototyped(items)
    ensures var part, at := parts[i], start + |Spelled(parts[..i])|;
      && at < at + 1 + |part.segment| <= |items| && |Spelled(parts[..i + 1])| == |Spelled(parts[..i])| + 1 + |part.segment|
      && Nodes(parts[..i + 1]) == Nodes(parts[..i]) + part.nodes
      && items[at].depth == depth + 1 && items[at].text == "item"
      && Accepted(num, schema.items, items, at + 1, at + 1 + |part.segment|, depth + 2, used + Nodes(parts[..i]), part.value, part.nodes)
    decreases schema, 0, 0
  {
    hide ParseNode, Spells, EntryPart, Unprototyped, Accepted, Spelled, Nodes;
    var part := parts[i];
    var at := start + |Spelled(parts[..i])|;
    PartStands(items, start, parts, i);
    forall k | 0 <= k < |parts| ensures parts[k].marker.depth == depth + 1 { PartShape(num, schema, depth, parts[k]); }
    PartShape(num, schema, depth, part);
    PartEnds(items, start, parts, i, depth);
    NodesGrow(parts, i);
    SpelledIsParsed(num, schema.items, items, at + 1, at + 1 + |part.segment|, depth + 2, used + Nodes(parts[..i]), part.value, part.nodes);
  }

  lemma {:induction false} EntriesParse<N(!new)>(num: Numerals<N>, schema: Schema, items: seq<Item>, start: nat, depth: nat, used: nat,
                                                 parts: seq<Part<N>>, i: nat)
    requires schema.ArrayOf? && i <= |parts| && start + |Spelled(parts)| <= |items|
    requires items[start..start + |Spelled(parts)|] == Spelled(parts) && Ends(items, start + |Spelled(parts)|, depth)
    requires forall k :: 0 <= k < |parts| ==> EntryPart(num, schema, depth, parts[k])
    requires used + Nodes(parts) <= MAX_NODES && Unprototyped(items)
    ensures start + |Spelled(parts[..i])| <= |items|
    ensures Returned(ParseEntries(num, schema, items, start + |Spelled(parts[..i])|, depth, used + Nodes(parts[..i]), Values(parts[..i])),
                     Some(List(Values(parts))), start + |Spelled(parts)|, used + Nodes(parts))
    decreases schema, 1, |parts| - i
  {
    hide ParseNode, Spells, EntryPart, Unprototyped, ParseEntries, Spelled, Nodes, Ends, Values;
    if i == |parts| {
      assert parts[..i] == parts;
      EntriesEnd(num, schema, items, start + |Spelled(parts)|, depth, used + Nodes(parts), Values(parts));
    } else {
      var part, at, cost := parts[i], start + |Spelled(parts[..i])|, used + Nodes(parts[..i]);
      EntryHere(num, schema, items, start, depth, used, parts, i);
      assert parts[..i + 1] == parts[..i] + [part];
      SpelledSnoc(parts[..i], part);
      EntryTaken(num, schema, items, at, depth, cost, Values(parts[..i]));
      EntriesParse(num, schema, items, start, depth, used, parts, i + 1);
    }
  }

  lemma EntryTaken<N>(num: Numerals<N>, schema: Schema, items: seq<Item>, at: nat, depth: nat, used: nat, entries: seq<Value<N>>)
    requires schema.ArrayOf? && at < |items| && items[at].depth == depth + 1 && items[at].text == "item"
    ensures ParseEntries(num, schema, items, at, depth, used, entries) ==
      match ParseNode(num, schema.items, items, at + 1, depth + 2, used)
      case None => None
      case Some(r) => ParseEntries(num, schema, items, r.at, depth, r.used, entries + [r.value])
  {
    hide ParseNode;
  }

  /**
   Parsing accepts exactly the spellings: over items that do not mark the prototype key, a node parses to a value, up to some
   place and at some cost, if and only if the items up to there spell that value at that cost, nothing deeper follows and the
   budget suffices.
   */
  lemma ParsesIffSpelled<N(!new)>(num: Numerals<N>, schema: Schema, items: seq<Item>, at: nat, end: nat, depth: nat, used: nat,
                                  value: Value<N>, nodes: nat)
    requires at <= end <= |items| && Unprototyped(items)
    ensures Accepted(num, schema, items, at, end, depth, used, value, nodes) <==>
      Spells(num, schema, items[at..end], depth, value, nodes) && Ends(items, end, depth) && used + nodes <= MAX_NODES
  {
    hide Spells, ParseNode;
    if Accepted(num, schema, items, at, end, depth, used, value, nodes) { ParsedIsSpelled(num, schema, items, at, depth, used); }
    if Spells(num, schema, items[at..end], depth, value, nodes) && Ends(items, end, depth) && used + nodes <= MAX_NODES {
      SpelledIsParsed(num, schema, items, at, end, depth, used, value, nodes);
    }
  }

  // ---- what is refused ---------------------------------------------------------------------------------------

  lemma {:induction false} SpellingIsDeep<N(!new)>(num: Numerals<N>, schema: Schema, items: seq<Item>, depth: nat, value: Value<N>, nodes: nat)
    requires Spells(num, schema, items, depth, value, nodes)
    ensures forall k :: 0 <= k < |items| ==> items[k].depth >= depth
    decreases schema, 2
  {
    hide Spells, PropertyPart, EntryPart, ScalarSpells, FieldsOf, NamedOnce, DeepPart, Lookup, Spelled, Nodes, Values;
    match schema
    case ObjectOf(_) =>
      var parts := RecordParts(num, schema, items, depth, value, nodes);
      DeepRecord(num, schema, depth, parts);
      BelowIsDeep(items, depth);
    case ArrayOf(_) =>
      var parts := ListParts(num, schema, items, depth, value, nodes);
      DeepList(num, schema, depth, parts);
      BelowIsDeep(items, depth);
    case _ =>
      ScalarShape(num, schema, items, depth, value, nodes);
  }

  lemma {:induction false} DeepRecord<N(!new)>(num: Numerals<N>, schema: Schema, depth: nat, parts: seq<Part<N>>)
    requires schema.ObjectOf? && forall i :: 0 <= i < |parts| ==> PropertyPart(num, schema, depth, parts[i])
    ensures forall i :: 0 <= i < |parts| ==> DeepPart(parts[i], depth)
    ensures forall k :: 0 <= k < |Spelled(parts)| ==> Spelled(parts)[k].depth >= depth + 1
    decreases schema, 1
  {
    hide Spells, PropertyPart, DeepPart, Lookup, Spelled;
    forall i | 0 <= i < |parts| ensures DeepPart(parts[i], depth) {
      PartShape(num, schema, depth, parts[i]);
      SpellingIsDeep(num, SubSchema(schema, parts[i].name), parts[i].segment, depth + 2, parts[i].value, parts[i].nodes);
      PartIsDeep(parts[i], depth);
    }
    PartsAreDeep(parts, depth);
  }

  lemma {:induction false} DeepList<N(!new)>(num: Numerals<N>, schema: Schema, depth: nat, parts: seq<Part<N>>)
    requires schema.ArrayOf? && forall i :: 0 <= i < |parts| ==> EntryPart(num, schema, depth, parts[i])
    ensures forall k :: 0 <= k < |Spelled(parts)| ==> Spelled(parts)[k].depth >= depth + 1
    decreases schema, 1
  {
    hide Spells, EntryPart, DeepPart, Spelled;
    forall i | 0 <= i < |parts| ensures DeepPart(parts[i], depth) {
      PartShape(num, schema, depth, parts[i]);
      SpellingIsDeep(num, schema.items, parts[i].segment, depth + 2, parts[i].value, parts[i].nodes);
      PartIsDeep(parts[i], depth);
    }
    PartsAreDeep(parts, depth);
  }

  lemma BelowIsDeep(items: seq<Item>, depth: nat)
    requires items != [] && items[0].depth >= depth && forall k :: 0 <= k < |items[1..]| ==> items[1..][k].depth >= depth + 1
    ensures forall k :: 0 <= k < |items| ==> items[k].depth >= depth
  {
    assert forall k :: 1 <= k < |items| ==> items[k] == items[1..][k - 1];
  }

  lemma PartIsDeep<N>(part: Part<N>, depth: nat)
    requires part.marker.depth == depth + 1 && forall k :: 0 <= k < |part.segment| ==> part.segment[k].depth >= depth + 2
    ensures DeepPart(part, depth)
  {
  }

  ghost predicate DeepPart<N>(part: Part<N>, depth: nat) {
    part.marker.depth == depth + 1 && forall k :: 0 <= k < |part.segment| ==> part.segment[k].depth >= depth + 2
  }

  lemma {:induction false} PartsAreDeep<N>(parts: seq<Part<N>>, depth: nat)
    requires forall i :: 0 <= i < |parts| ==> DeepPart(parts[i], depth)
    ensures forall k :: 0 <= k < |Spelled(parts)| ==> Spelled(parts)[k].depth >= depth + 1
  {
    if parts != [] { PartsAreDeep(parts[..|parts| - 1], depth); }
  }

  /** An item right below the object is the marker of one of its parts. */
  lemma {:induction false} MarkerOfPart<N>(parts: seq<Part<N>>, depth: nat, k: nat) returns (i: nat)
    requires (forall i :: 0 <= i < |parts| ==> DeepPart(parts[i], depth)) && k < |Spelled(parts)| && Spelled(parts)[k].depth == depth + 1
    ensures i < |parts| && Spelled(parts)[k] == parts[i].marker && k == |Spelled(parts[..i])|
    decreases |parts|
  {
    var front, last := parts[..|parts| - 1], parts[|parts| - 1];
    assert DeepPart(last, depth);
    if k < |Spelled(front)| {
      i := MarkerOfPart(front, depth, k);
      assert front[..i] == parts[..i];
    } else {
      i := |parts| - 1;
      assert forall m :: 0 <= m < |last.segment| ==> Spelled(parts)[|Spelled(front)| + 1 + m] == last.segment[m];
      assert parts[..i] == front;
    }
  }

  /** Every item right below a parsed object marks a declared property, and two of them differ unless they mark the prototype key. */
  lemma ObjectMarkers<N(!new)>(num: Numerals<N>, schema: Schema, items: seq<Item>, at: nat, depth: nat, used: nat, i: nat, j: nat)
    returns (name: string)
    requires schema.ObjectOf? && ParseNode(num, schema, items, at, depth, used).Some?
    requires at < i <= j < |items| && (forall k :: at < k <= j ==> items[k].depth > depth)
    requires items[i].depth == items[j].depth == depth + 1
    ensures items[i].text == PROPERTY + Encode(name) && Lookup(schema.properties, name).Some?
    ensures i < j && items[i].text == items[j].text ==> name == PROTOTYPE
  {
    hide ParseNode, Spells, PropertyPart, FieldsOf, DeepPart, Encode, Lookup;
    var r := ParseNode(num, schema, items, at, depth, used).value;
    ParsedIsSpelled(num, schema, items, at, depth, used);
    var segment := items[at..r.at];
    assert r.at > j;
    var parts := RecordParts(num, schema, segment, depth, r.value, r.used - used);
    DeepRecord(num, schema, depth, parts);
    assert segment[1..][i - at - 1] == items[i] && segment[1..][j - at - 1] == items[j];
    var p := MarkerOfPart(parts, depth, i - at - 1);
    var q := MarkerOfPart(parts, depth, j - at - 1);
    name := parts[p].name;
    PartShape(num, schema, depth, parts[p]);
    PartShape(num, schema, depth, parts[q]);
    if i < j && items[i].text == items[j].text {
      SameMarkSameName(parts[p].name, parts[q].name);
      assert p != q;
      assert p < q || q < p;
    }
  }

  lemma SameMarkSameName(a: string, b: string)
    requires PROPERTY + Encode(a) == PROPERTY + Encode(b)
    ensures a == b
  {
    assert (PROPERTY + Encode(a))[|PROPERTY|..] == Encode(a) && (PROPERTY + Encode(b))[|PROPERTY|..] == Encode(b);
    EncodeInjective(a, b);
  }

  /** A property that is marked twice in one object is refused, wherever its markers stand. */
  lemma RepeatedPropertyIsRefused<N(!new)>(num: Numerals<N>, schema: Schema, items: seq<Item>, at: nat, depth: nat, used: nat, i: nat, j: nat)
    requires schema.ObjectOf? && at < i < j < |items| && (forall k :: at < k <= j ==> items[k].depth > depth)
    requires items[i].depth == items[j].depth == depth + 1 && items[i].text == items[j].text != PROTOTYPE_MARK
    ensures ParseNode(num, schema, items, at, depth, used).None?
  {
    hide ParseNode, Encode;
    if ParseNode(num, schema, items, at, depth, used).Some? {
      var name := ObjectMarkers(num, schema, items, at, depth, used, i, j);
    }
  }

  /** An item right below an object that marks no declared property is refused. */
  lemma UndeclaredPropertyIsRefused<N(!new)>(num: Numerals<N>, schema: Schema, items: seq<Item>, at: nat, depth: nat, used: nat, i: nat)
    requires schema.ObjectOf? && at < i < |items| && (forall k :: at < k <= i ==> items[k].depth > depth) && items[i].depth == depth + 1
    requires forall name :: Lookup(schema.properties, name).Some? ==> items[i].text != PROPERTY + Encode(name)
    ensures ParseNode(num, schema, items, at, depth, used).None?
  {
    hide ParseNode, Encode;
    if ParseNode(num, schema, items, at, depth, used).Some? {
      var name := ObjectMarkers(num, schema, items, at, depth, used, i, i);
    }
  }

  /** A scalar with anything below it is refused, and so is a checked or quoted node. */
  lemma MalformedNodeIsRefused<N(!new)>(num: Numerals<N>, schema: Schema, items: seq<Item>, at: nat, depth: nat, used: nat)
    requires at < |items|
    requires items[at].checked || items[at].blockquoted || items[at].depth != depth
             || (Scalar(schema) && at + 1 < |items| && items[at + 1].depth > depth)
    ensures ParseNode(num, schema, items, at, depth, used).None?
  {
  }
}
