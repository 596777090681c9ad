/** What the structured Markdown renderer accepts, and the canonical form of what it writes. */
module RenderTheorems {
  import opened Wrappers
  import opened Ordering
  import opened PercentToken
  import opened StructuredMarkdown
  import StructuredRoundTrip

  // ---- when a value is rendered ------------------------------------------------------------------

  /** The value has the shape of its schema and every text is within its bound in octets. */
  ghost predicate Fits<N(!new)>(schema: Schema, value: Value<N>)
    decreases schema
  {
    match schema
    case ObjectOf(properties) =>
      value.Record? && forall name :: name in value.fields && Lookup(properties, name).Some? ==>
        Fits(Lookup(properties, name).value, value.fields[name])
    case ArrayOf(items) => value.List? && forall i :: 0 <= i < |value.entries| ==> Fits(items, value.entries[i])
    case Text => value.Str? && Utf8Length(value.text) <= 16384
    case Decimal => value.Num?
    case Whole => value.Num?
    case Truth => value.Bool?
    case Nothing => value.Null?
    case Unsupported => false
  }

  /** One for the value itself and those of its declared properties or its entries. */
  function NodesOf<N>(schema: Schema, value: Value<N>): nat
    decreases schema, 1, 0
  {
    match schema
    case ObjectOf(properties) =>
      if !value.Record? then 1
      else
        SortedNamesMembers(properties, value.fields);
        1 + NodesOfFields(schema, SortedNames(properties, value.fields), value.fields)
    case ArrayOf(items) => if value.List? then 1 + NodesOfEntries(schema, value.entries) else 1
    case _ => 1
  }

  function NodesOfFields<N>(schema: Schema, names: seq<string>, fields: map<string, Value<N>>): nat
    requires Renderable(schema, names, fields)
    decreases schema, 0, |names|
  {
    if names == [] then 0
    else NodesOf(Lookup(schema.properties, names[0]).value, fields[names[0]]) + NodesOfFields(schema, names[1..], fields)
  }

  function NodesOfEntries<N>(schema: Schema, entries: seq<Value<N>>): nat
    requires schema.ArrayOf?
    decreases schema, 0, |entries|
  {
    if entries == [] then 0 else NodesOf(schema.items, entries[0]) + NodesOfEntries(schema, entries[1..])
  }

  /** Rendering succeeds exactly on values that fit and leave the budget of 4096 nodes intact, and spends one for each node. */
  lemma {:induction false} RendersIff<N(!new)>(num: Numerals<N>, schema: Schema, value: Value<N>, depth: nat, used: nat)
    ensures var r := RenderNode(num, schema, value, depth, used);
      && (r.Some? <==> Fits(schema, value) && used + NodesOf(schema, value) <= 4096)
      && (r.Some? ==> r.value.used == used + NodesOf(schema, value))
    decreases schema, 1, 0
  {
    if used + 1 <= MAX_NODES {
      match schema
      case ObjectOf(properties) =>
        if value.Record? {
          SortedNamesMembers(properties, value.fields);
          var names := SortedNames(properties, value.fields);
          FieldsRenderIff(num, schema, names, value.fields, depth, used + 1);
          DeclaredFit(schema, value.fields, names);
        }
      case ArrayOf(items) =>
        if value.List? { EntriesRenderIff(num, schema, value.entries, depth, used + 1); }
      case _ =>
    }
  }

  ghost predicate FieldsFit<N(!new)>(schema: Schema, names: seq<string>, fields: map<string, Value<N>>)
    requires Renderable(schema, names, fields)
  {
    forall i :: 0 <= i < |names| ==> Fits(Lookup(schema.properties, names[i]).value, fields[names[i]])
  }

  lemma DeclaredFit<N(!new)>(schema: Schema, fields: map<string, Value<N>>, names: seq<string>)
    requires Renderable(schema, names, fields)
    requires forall n :: n in names <==> n in fields && n in Map(schema.properties, NameOf)
    ensures Fits(schema, Record(fields)) <==> FieldsFit(schema, names, fields)
  {
    if FieldsFit(schema, names, fields) {
      forall name | name in fields && Lookup(schema.properties, name).Some?
        ensures Fits(Lookup(schema.properties, name).value, fields[name])
      {
        assert name in names;
      }
    }
    if Fits(schema, Record(fields)) {
      forall i | 0 <= i < |names| ensures Fits(Lookup(schema.properties, names[i]).value, fields[names[i]]) {
        assert names[i] in names;
      }
    }
  }

  lemma {:induction false} FieldsRenderIff<N(!new)>(num: Numerals<N>, schema: Schema, names: seq<string>, fields: map<string, Value<N>>,
                                                    depth: nat, used: nat)
    requires Renderable(schema, names, fields) && used <= 4096
    ensures var r := RenderFields(num, schema, names, fields, depth, used);
      && (r.Some? <==> FieldsFit(schema, names, fields) && used + NodesOfFields(schema, names, fields) <= 4096)
      && (r.Some? ==> r.value.used == used + NodesOfFields(schema, names, fields))
    decreases schema, 0, |names|
  {
    hide Fits;
    if names != [] {
      var sub := Lookup(schema.properties, names[0]).value;
      RendersIff(num, sub, fields[names[0]], depth + 2, used);
      var r := RenderNode(num, sub, fields[names[0]], depth + 2, used);
      if r.Some? { FieldsRenderIff(num, schema, names[1..], fields, depth, r.value.used); }
      assert FieldsFit(schema, names, fields) <==> Fits(sub, fields[names[0]]) && FieldsFit(schema, names[1..], fields) by {
        assert forall i :: 0 <= i < |names| - 1 ==> names[1..][i] == names[i + 1];
      }
    }
  }

  ghost predicate EntriesFit<N(!new)>(schema: Schema, entries: seq<Value<N>>)
    requires schema.ArrayOf?
  {
    forall i :: 0 <= i < |entries| ==> Fits(schema.items, entries[i])
  }

  lemma {:induction false} EntriesRenderIff<N(!new)>(num: Numerals<N>, schema: Schema, entries: seq<Value<N>>, depth: nat, used: nat)
    requires schema.ArrayOf? && used <= 4096
    ensures var r := RenderEntries(num, schema, entries, depth, used);
      && (r.Some? <==> EntriesFit(schema, entries) && used + NodesOfEntries(schema, entries) <= 4096)
      && (r.Some? ==> r.value.used == used + NodesOfEntries(schema, entries))
    decreases schema, 0, |entries|
  {
    hide Fits;
    if entries != [] {
      RendersIff(num, schema.items, entries[0], depth + 2, used);
      var r := RenderNode(num, schema.items, entries[0], depth + 2, used);
      if r.Some? { EntriesRenderIff(num, schema, entries[1..], depth, r.value.used); }
      assert EntriesFit(schema, entries) <==> Fits(schema.items, entries[0]) && EntriesFit(schema, entries[1..]) by {
        assert forall i :: 0 <= i < |entries| - 1 ==> entries[1..][i] == entries[i + 1];
      }
    }
  }

  // ---- the canonical form ------------------------------------------------------------------------------

  /** Strictly ascending, and exactly the declared names the record has. */
  ghost predicate InOrder<V>(names: seq<string>, properties: seq<Property>, fields: map<string, V>) {
    && (forall i, j :: 0 <= i < j < |names| ==> Before(names[i], names[j]))
    && (forall n :: n in names <==> n in fields && Lookup(properties, n).Some?)
  }

  lemma SortedNamesInOrder<V>(properties: seq<Property>, fields: map<string, V>)
    requires WellFormed(ObjectOf(properties))
    ensures InOrder(SortedNames(properties, fields), properties, fields)
  {
    hide StableSort, Filter, CompareText;
    var names := SortedNames(properties, fields);
    SortedNamesMembers(properties, fields);
    StructuredRoundTrip.SortedNamesDistinct(properties, fields);
    NamesAreSorted(properties, fields);
    forall i, j | 0 <= i < j < |names| ensures Before(names[i], names[j]) {
      CompareTextOrder(names[i], names[j]);
      TextOrder(names[i], names[j]);
    }
  }

  lemma NamesAreSorted<V>(properties: seq<Property>, fields: map<string, V>)
    ensures Sorted(SortedNames(properties, fields), CompareText)
  {
    hide CompareText, StableSort;
    TextIsLawful();
    StableSortSorted(Filter(Map(properties, NameOf), Among(fields)), CompareText);
  }

  function AtDepth(depth: nat): Item -> bool { (item: Item) => item.depth == depth }

  function Marker(depth: nat): string -> Item { (name: string) => Task(PROPERTY + Encode(name), depth) }

  predicate AllBelow(items: seq<Item>, depth: nat) { forall i :: 0 <= i < |items| ==> items[i].depth >= depth }

  lemma {:induction false} FilterParts<T>(a: seq<T>, b: seq<T>, p: T -> bool)
    ensures Filter(a + b, p) == Filter(a, p) + Filter(b, p)
    decreases |b|
  {
    hide Filter;
    if b == [] {
      assert a + b == a && Filter(b, p) == [];
    } else {
      var front, last := b[..|b| - 1], b[|b| - 1];
      FilterParts(a, front, p);
      assert a + b == (a + front) + [last] && b == front + [last];
      FilterSnoc(a + front, last, p);
      FilterSnoc(front, last, p);
    }
  }

  lemma {:induction false} NothingSelected<T>(s: seq<T>, p: T -> bool)
    requires forall x :: x in s ==> !p(x)
    ensures Filter(s, p) == []
  {
    if s != [] { NothingSelected(s[..|s| - 1], p); }
  }

  /** A rendered node has its own item in front, at its depth, and everything else below it. */
  lemma {:induction false} RenderedBelow<N>(num: Numerals<N>, schema: Schema, value: Value<N>, depth: nat, used: nat)
    requires RenderNode(num, schema, value, depth, used).Some?
    ensures var items := RenderNode(num, schema, value, depth, used).value.items;
      items != [] && items[0].depth == depth && AllBelow(items[1..], depth + 1)
    decreases schema, 1, 0
  {
    match schema
    case ObjectOf(properties) =>
      SortedNamesMembers(properties, value.fields);
      FieldsBelow(num, schema, SortedNames(properties, value.fields), value.fields, depth, used + 1);
    case ArrayOf(_) => EntriesBelow(num, schema, value.entries, depth, used + 1);
    case _ =>
  }

  lemma BelowInParts(a: seq<Item>, b: seq<Item>, depth: nat)
    requires AllBelow(a, depth) && AllBelow(b, depth)
    ensures AllBelow(a + b, depth)
  {
  }

  lemma OneSelected(mark: Item, depth: nat)
    requires mark.depth == depth
    ensures Filter([mark], AtDepth(depth)) == [mark]
  {
    assert [mark] == [] + [mark];
    FilterSnoc([], mark, AtDepth(depth));
  }

  lemma PartIsBelow(mark: Item, node: seq<Item>, depth: nat)
    requires mark.depth == depth + 1 && node != [] && node[0].depth == depth + 2 && AllBelow(node[1..], depth + 3)
    ensures AllBelow([mark] + node, depth + 1)
  {
    assert node == [node[0]] + node[1..];
  }

  /** The marker of a part in front of its node: markers stand one level down, nodes two. */
  lemma PartBelow(mark: Item, node: seq<Item>, depth: nat)
    requires mark.depth == depth + 1 && node != [] && node[0].depth == depth + 2 && AllBelow(node[1..], depth + 3)
    ensures AllBelow([mark] + node, depth + 1) && Filter([mark] + node, AtDepth(depth + 1)) == [mark]
  {
    hide Filter;
    assert node == [node[0]] + node[1..];
    forall x | x in node ensures x.depth >= depth + 2 {
      var i :| 0 <= i < |node| && node[i] == x;
      if i > 0 { assert node[1..][i - 1] == x; }
    }
    NothingSelected(node, AtDepth(depth + 1));
    FilterParts([mark], node, AtDepth(depth + 1));
    OneSelected(mark, depth + 1);
    PartIsBelow(mark, node, depth);
  }

  lemma MapCons<T, K>(s: seq<T>, f: T -> K)
    requires s != []
    ensures Map(s, f) == [f(s[0])] + Map(s[1..], f)
  {
  }

  /** Parts in a row: what stands one level down is their markers. */
  lemma PartsBelow(mark: Item, node: seq<Item>, rest: seq<Item>, marks: seq<Item>, depth: nat)
    requires mark.depth == depth + 1 && node != [] && node[0].depth == depth + 2 && AllBelow(node[1..], depth + 3)
    requires AllBelow(rest, depth + 1) && Filter(rest, AtDepth(depth + 1)) == marks
    ensures var items := [mark] + node + rest; AllBelow(items, depth + 1) && Filter(items, AtDepth(depth + 1)) == [mark] + marks
  {
    hide Filter, AllBelow;
    PartBelow(mark, node, depth);
    BelowInParts([mark] + node, rest, depth + 1);
    FilterParts([mark] + node, rest, AtDepth(depth + 1));
  }

  lemma RenderFieldsStep<N>(num: Numerals<N>, schema: Schema, names: seq<string>, fields: map<string, Value<N>>, depth: nat, used: nat)
    requires Renderable(schema, names, fields) && names != [] && RenderFields(num, schema, names, fields, depth, used).Some?
    ensures var r := RenderNode(num, Lookup(schema.properties, names[0]).value, fields[names[0]], depth + 2, used);
      && r.Some? && RenderFields(num, schema, names[1..], fields, depth, r.value.used).Some?
      && RenderFields(num, schema, names, fields, depth, used).value.items ==
           [Marker(depth + 1)(names[0])] + r.value.items + RenderFields(num, schema, names[1..], fields, depth, r.value.used).value.items
  {
  }

  lemma NoFields<N>(num: Numerals<N>, schema: Schema, fields: map<string, Value<N>>, depth: nat, used: nat)
    requires schema.ObjectOf?
    ensures var r := RenderFields(num, schema, [], fields, depth, used);
      r.Some? && r.value.items == [] && AllBelow([], depth + 1) && Filter<Item>([], AtDepth(depth + 1)) == []
  {
  }

  lemma {:induction false} FieldsBelow<N>(num: Numerals<N>, schema: Schema, names: seq<string>, fields: map<string, Value<N>>,
                                          depth: nat, used: nat)
    requires Renderable(schema, names, fields) && RenderFields(num, schema, names, fields, depth, used).Some?
    ensures var items := RenderFields(num, schema, names, fields, depth, used).value.items;
      AllBelow(items, depth + 1) && Filter(items, AtDepth(depth + 1)) == Map(names, Marker(depth + 1))
    decreases schema, 0, |names|
  {
    hide RenderNode, RenderFields, Filter, AllBelow, Encode;
    if names == [] {
      NoFields(num, schema, fields, depth, used);
    } else {
      RenderFieldsStep(num, schema, names, fields, depth, used);
      var r := RenderNode(num, Lookup(schema.properties, names[0]).value, fields[names[0]], depth + 2, used).value;
      RenderedBelow(num, Lookup(schema.properties, names[0]).value, fields[names[0]], depth + 2, used);
      FieldsBelow(num, schema, names[1..], fields, depth, r.used);
      FieldsJoin(num, schema, names, fields, depth, r);
    }
  }

  lemma FieldsJoin<N>(num: Numerals<N>, schema: Schema, names: seq<string>, fields: map<string, Value<N>>, depth: nat, r: Rendered)
    requires Renderable(schema, names, fields) && names != [] && RenderFields(num, schema, names[1..], fields, depth, r.used).Some?
    requires r.items != [] && r.items[0].depth == depth + 2 && AllBelow(r.items[1..], depth + 3)
    requires var rest := RenderFields(num, schema, names[1..], fields, depth, r.used).value.items;
      AllBelow(rest, depth + 1) && Filter(rest, AtDepth(depth + 1)) == Map(names[1..], Marker(depth + 1))
    ensures var items := [Marker(depth + 1)(names[0])] + r.items + RenderFields(num, schema, names[1..], fields, depth, r.used).value.items;
      AllBelow(items, depth + 1) && Filter(items, AtDepth(depth + 1)) == Map(names, Marker(depth + 1))
  {
    hide RenderFields, Filter, AllBelow, Encode, Lookup;
    MapCons(names, Marker(depth + 1));
    PartsBelow(Marker(depth + 1)(names[0]), r.items, RenderFields(num, schema, names[1..], fields, depth, r.used).value.items,
               Map(names[1..], Marker(depth + 1)), depth);
  }

  lemma RenderEntriesStep<N>(num: Numerals<N>, schema: Schema, entries: seq<Value<N>>, depth: nat, used: nat)
    requires schema.ArrayOf? && entries != [] && RenderEntries(num, schema, entries, depth, used).Some?
    ensures var r := RenderNode(num, schema.items, entries[0], depth + 2, used);
      && r.Some? && RenderEntries(num, schema, entries[1..], depth, r.value.used).Some?
      && RenderEntries(num, schema, entries, depth, used).value.items ==
           [Task("item", depth + 1)] + r.value.items + RenderEntries(num, schema, entries[1..], depth, r.value.used).value.items
  {
  }

  function ItemMarks(n: nat, depth: nat): seq<Item> { seq(n, _ => Task("item", depth)) }

  lemma {:induction false} EntriesBelow<N>(num: Numerals<N>, schema: Schema, entries: seq<Value<N>>, depth: nat, used: nat)
    requires schema.ArrayOf? && RenderEntries(num, schema, entries, depth, used).Some?
    ensures var items := RenderEntries(num, schema, entries, depth, used).value.items;
      AllBelow(items, depth + 1) && Filter(items, AtDepth(depth + 1)) == ItemMarks(|entries|, depth + 1)
    decreases schema, 0, |entries|
  {
    if entries == [] {
      assert RenderEntries(num, schema, entries, depth, used).value.items == [];
    } else {
      RenderEntriesStep(num, schema, entries, depth, used);
      hide RenderNode, RenderEntries, Filter, AllBelow;
      var r := RenderNode(num, schema.items, entries[0], depth + 2, used).value;
      RenderedBelow(num, schema.items, entries[0], depth + 2, used);
      EntriesBelow(num, schema, entries[1..], depth, r.used);
      PartsBelow(Task("item", depth + 1), r.items, RenderEntries(num, schema, entries[1..], depth, r.used).value.items,
                 ItemMarks(|entries| - 1, depth + 1), depth);
      assert ItemMarks(|entries|, depth + 1) == [Task("item", depth + 1)] + ItemMarks(|entries| - 1, depth + 1);
    }
  }

  /**
   The canonical form of a rendered record: its own item, and one level below it exactly the markers of the declared names it has,
   each once, in code-unit order, whatever order the schema or the record has them in.
   */
  lemma RenderedRecordIsCanonical<N(!new)>(num: Numerals<N>, properties: seq<Property>, fields: map<string, Value<N>>, depth: nat, used: nat)
    returns (names: seq<string>)
    requires WellFormed(ObjectOf(properties)) && RenderNode(num, ObjectOf(properties), Record(fields), depth, used).Some?
    ensures var items := RenderNode(num, ObjectOf(properties), Record(fields), depth, used).value.items;
      && InOrder(names, properties, fields) && items != [] && items[0] == Task("object", depth) && AllBelow(items[1..], depth + 1)
      && Filter(items[1..], AtDepth(depth + 1)) == Map(names, Marker(depth + 1))
  {
    hide StableSort, SortedNames, Filter, RenderFields, InOrder, AllBelow;
    names := SortedNames(properties, fields);
    SortedNamesMembers(properties, fields);
    FieldsBelow(num, ObjectOf(properties), names, fields, depth, used + 1);
    SortedNamesInOrder(properties, fields);
    var inner := RenderFields(num, ObjectOf(properties), names, fields, depth, used + 1).value.items;
    assert RenderNode(num, ObjectOf(properties), Record(fields), depth, used).value.items[1..] == inner;
  }
}
