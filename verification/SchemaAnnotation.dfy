/** Preparing a JSON schema for a provider: every object node reached gets its property order
    written down, unless it already has one. */
module SchemaAnnotation {
  import opened Wrappers

  /** Keys are strings; the ones the traversal knows have constructors of their own. */
  datatype Key =
    | Properties | PropertyOrdering | Items | AdditionalProperties | Defs | Definitions
    | AnyOf | OneOf | AllOf | Other(name: string)

  /** A dictionary is its entries in insertion order. */
  datatype Json = Scalar(text: string) | Name(key: Key) | List(elements: seq<Json>) | Dict(fields: seq<Field>)

  datatype Field = Field(key: Key, value: Json)

  /** How the traversal goes on below a key: to one schema, to a table of schemas by name, to a
      list of schemas, or not at all. */
  datatype Role = OneSchema | SchemaTable | SchemaList | Opaque

  function RoleOf(k: Key): Role {
    match k
    case Items | AdditionalProperties => OneSchema
    case Properties | Defs | Definitions => SchemaTable
    case AnyOf | OneOf | AllOf => SchemaList
    case PropertyOrdering | Other(_) => Opaque
  }

  function Lookup(fs: seq<Field>, k: Key): (r: Option<Json>)
    ensures r.Some? <==> exists i :: 0 <= i < |fs| && fs[i].key == k
  {
    if fs == [] then None else if fs[0].key == k then Some(fs[0].value) else Lookup(fs[1..], k)
  }

  function KeyNames(fs: seq<Field>): Json { List(seq(|fs|, i requires 0 <= i < |fs| => Name(fs[i].key))) }

  /** The property table of a node, when it has one that is a dictionary. */
  function Table(fs: seq<Field>): Option<seq<Field>> {
    var props := Lookup(fs, Properties);
    if props.Some? && props.value.Dict? then Some(props.value.fields) else None
  }

  /** The ordering a node with a property table is to have: its own, or the properties' order. */
  function OrderingOf(fs: seq<Field>): Option<Json>
    requires Table(fs).Some?
  {
    if Lookup(fs, PropertyOrdering).Some? then Lookup(fs, PropertyOrdering) else Some(KeyNames(Table(fs).value))
  }

  function Added(fs: seq<Field>): seq<Field> {
    if Table(fs).Some? && Lookup(fs, PropertyOrdering).None?
    then [Field(PropertyOrdering, KeyNames(Table(fs).value))] else []
  }

  function Annotate(j: Json): Json
    decreases j, 1
  {
    match j
    case Dict(fs) => Dict(Below(fs) + Added(fs))
    case _ => j
  }

  function Below(fs: seq<Field>): (r: seq<Field>)
    ensures |r| == |fs| && forall i :: 0 <= i < |fs| ==> r[i] == Field(fs[i].key, Under(fs[i].key, fs[i].value))
    decreases Dict(fs), 0
  {
    seq(|fs|, i requires 0 <= i < |fs| => Field(fs[i].key, Under(fs[i].key, fs[i].value)))
  }

  function Under(k: Key, j: Json): Json
    decreases j, 2
  {
    match RoleOf(k)
    case OneSchema => Annotate(j)
    case SchemaTable =>
      if j.Dict? then
        Dict(seq(|j.fields|, i requires 0 <= i < |j.fields| => Field(j.fields[i].key, Annotate(j.fields[i].value))))
      else j
    case SchemaList =>
      if j.List? then List(seq(|j.elements|, i requires 0 <= i < |j.elements| => Annotate(j.elements[i]))) else j
    case Opaque => j
  }

  // ---------- looking keys up in an annotated node ----------

  lemma {:induction false} LookupBelow(fs: seq<Field>, more: seq<Field>, k: Key)
    ensures Lookup(Below(fs) + more, k) ==
            (match Lookup(fs, k) case Some(v) => Some(Under(k, v)) case None => Lookup(more, k))
    decreases |fs|
  {
    var all := Below(fs) + more;
    if fs == [] {
      assert all == more;
    } else {
      assert all[1..] == Below(fs[1..]) + more;
      LookupBelow(fs[1..], more, k);
    }
  }

  /** Annotating keeps the names and order of the properties, and leaves the node with an ordering
      whenever it has a property table. */
  lemma AnnotatedNode(fs: seq<Field>)
    ensures var gs := Below(fs) + Added(fs);
            && (Table(gs).Some? <==> Table(fs).Some?)
            && (Table(fs).Some? ==> KeyNames(Table(gs).value) == KeyNames(Table(fs).value))
            && (Table(fs).Some? ==> Lookup(gs, PropertyOrdering) == OrderingOf(fs))
            && Added(gs) == []
  {
    LookupBelow(fs, Added(fs), Properties);
    LookupBelow(fs, Added(fs), PropertyOrdering);
  }

  // ---------- annotating twice ----------

  /** Annotating an annotated schema changes nothing. */
  lemma {:induction false} Idempotent(j: Json)
    ensures Annotate(Annotate(j)) == Annotate(j)
    decreases j, 0
  {
    if j.Dict? {
      var gs := Below(j.fields) + Added(j.fields);
      AnnotatedNode(j.fields);
      forall i | 0 <= i < |gs| ensures Below(gs)[i] == gs[i] {
        if i < |j.fields| { UnderTwice(j.fields[i].key, j.fields[i].value); }
      }
      assert Below(gs) == gs;
    }
  }

  lemma {:induction false} UnderTwice(k: Key, j: Json)
    ensures Under(k, Under(k, j)) == Under(k, j)
    decreases j, 1
  {
    match RoleOf(k)
    case OneSchema => Idempotent(j);
    case SchemaTable =>
      if j.Dict? {
        forall i | 0 <= i < |j.fields| ensures Annotate(Annotate(j.fields[i].value)) == Annotate(j.fields[i].value) {
          Idempotent(j.fields[i].value);
        }
        assert Under(k, Under(k, j)).fields == Under(k, j).fields;
      }
    case SchemaList =>
      if j.List? {
        forall i | 0 <= i < |j.elements| ensures Annotate(Annotate(j.elements[i])) == Annotate(j.elements[i]) {
          Idempotent(j.elements[i]);
        }
        assert Under(k, Under(k, j)).elements == Under(k, j).elements;
      }
    case Opaque =>
  }

  // ---------- taking the added orderings out again ----------

  /** A last entry that is an ordering goes, where the input had none. */
  function Unordered(before: seq<Field>, after: seq<Field>): seq<Field> {
    if Lookup(before, PropertyOrdering).None? && after != [] && after[|after| - 1].key == PropertyOrdering
    then after[..|after| - 1] else after
  }

  /** `t` with the orderings that `s` does not have taken out, at every node the traversal reaches. */
  function Erase(s: Json, t: Json): Json
    decreases s, 0
  {
    if s.Dict? && t.Dict? then
      var kept := Unordered(s.fields, t.fields);
      Dict(seq(|kept|, i requires 0 <= i < |kept| =>
        if i < |s.fields| then Field(kept[i].key, EraseUnder(kept[i].key, s.fields[i].value, kept[i].value))
        else kept[i]))
    else t
  }

  function EraseUnder(k: Key, s: Json, t: Json): Json
    decreases s, 1
  {
    match RoleOf(k)
    case OneSchema => Erase(s, t)
    case SchemaTable =>
      if s.Dict? && t.Dict? then
        Dict(seq(|t.fields|, i requires 0 <= i < |t.fields| =>
          if i < |s.fields| then Field(t.fields[i].key, Erase(s.fields[i].value, t.fields[i].value)) else t.fields[i]))
      else t
    case SchemaList =>
      if s.List? && t.List? then
        List(seq(|t.elements|, i requires 0 <= i < |t.elements| =>
          if i < |s.elements| then Erase(s.elements[i], t.elements[i]) else t.elements[i]))
      else t
    case Opaque => t
  }

  /** Nothing but orderings was added: erasing those gives back the input. */
  lemma {:induction false} EraseUndoesAnnotate(j: Json)
    ensures Erase(j, Annotate(j)) == j
    decreases j, 0
  {
    if j.Dict? {
      var fs := j.fields;
      var gs := Below(fs) + Added(fs);
      NoOrderingLast(fs);
      assert Unordered(fs, gs) == Below(fs);
      forall i | 0 <= i < |fs|
        ensures EraseUnder(fs[i].key, fs[i].value, Under(fs[i].key, fs[i].value)) == fs[i].value
      {
        EraseUnderUndoes(fs[i].key, fs[i].value);
      }
      assert Erase(j, Annotate(j)).fields == fs;
    }
  }

  lemma NoOrderingLast(fs: seq<Field>)
    ensures Unordered(fs, Below(fs) + Added(fs)) == Below(fs)
  {
    var gs := Below(fs) + Added(fs);
    if Added(fs) == [] {
      assert gs == Below(fs);
      if Lookup(fs, PropertyOrdering).None? && fs != [] { assert fs[|fs| - 1].key != PropertyOrdering; }
    } else {
      assert gs[..|gs| - 1] == Below(fs);
    }
  }

  lemma {:induction false} EraseUnderUndoes(k: Key, j: Json)
    ensures EraseUnder(k, j, Under(k, j)) == j
    decreases j, 1
  {
    match RoleOf(k)
    case OneSchema => EraseUndoesAnnotate(j);
    case SchemaTable =>
      if j.Dict? {
        forall i | 0 <= i < |j.fields|
          ensures Erase(j.fields[i].value, Annotate(j.fields[i].value)) == j.fields[i].value
        {
          EraseUndoesAnnotate(j.fields[i].value);
        }
        assert EraseUnder(k, j, Under(k, j)).fields == j.fields;
      }
    case SchemaList =>
      if j.List? {
        forall i | 0 <= i < |j.elements| ensures Erase(j.elements[i], Annotate(j.elements[i])) == j.elements[i] {
          EraseUndoesAnnotate(j.elements[i]);
        }
        assert EraseUnder(k, j, Under(k, j)).elements == j.elements;
      }
    case Opaque =>
  }

  // ---------- every object node has its order ----------

  /** At every node of `s` the traversal reaches, the node of `t` in its place lists the property
      names in their original order, or carries the ordering `s` had. */
  ghost predicate Ordered(s: Json, t: Json)
    decreases s, 0
  {
    s.Dict? ==>
      && t.Dict? && |t.fields| >= |s.fields|
      && (Table(s.fields).Some? ==> Lookup(t.fields, PropertyOrdering) == OrderingOf(s.fields))
      && (forall i :: 0 <= i < |s.fields| ==>
            t.fields[i].key == s.fields[i].key && OrderedUnder(s.fields[i].key, s.fields[i].value, t.fields[i].value))
  }

  ghost predicate OrderedUnder(k: Key, s: Json, t: Json)
    decreases s, 1
  {
    match RoleOf(k)
    case OneSchema => Ordered(s, t)
    case SchemaTable =>
      s.Dict? ==>
        && t.Dict? && |t.fields| == |s.fields|
        && forall i :: 0 <= i < |s.fields| ==>
             t.fields[i].key == s.fields[i].key && Ordered(s.fields[i].value, t.fields[i].value)
    case SchemaList =>
      s.List? ==>
        && t.List? && |t.elements| == |s.elements|
        && forall i :: 0 <= i < |s.elements| ==> Ordered(s.elements[i], t.elements[i])
    case Opaque => t == s
  }

  lemma {:induction false} AnnotateOrders(j: Json)
    ensures Ordered(j, Annotate(j))
    decreases j, 0
  {
    if j.Dict? {
      AnnotatedNode(j.fields);
      forall i | 0 <= i < |j.fields|
        ensures OrderedUnder(j.fields[i].key, j.fields[i].value, Under(j.fields[i].key, j.fields[i].value))
      {
        AnnotateOrdersUnder(j.fields[i].key, j.fields[i].value);
      }
    }
  }

  lemma {:induction false} AnnotateOrdersUnder(k: Key, j: Json)
    ensures OrderedUnder(k, j, Under(k, j))
    decreases j, 1
  {
    match RoleOf(k)
    case OneSchema => AnnotateOrders(j);
    case SchemaTable =>
      if j.Dict? {
        forall i | 0 <= i < |j.fields| ensures Ordered(j.fields[i].value, Annotate(j.fields[i].value)) {
          AnnotateOrders(j.fields[i].value);
        }
      }
    case SchemaList =>
      if j.List? {
        forall i | 0 <= i < |j.elements| ensures Ordered(j.elements[i], Annotate(j.elements[i])) {
          AnnotateOrders(j.elements[i]);
        }
      }
    case Opaque =>
  }
}
