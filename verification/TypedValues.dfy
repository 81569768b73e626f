/** Typed configuration values: recursive limits, and resolution of a value against a schema with defaults and
    optional fields. */
module TypedValues {
  import opened Base

  const MAX_VALUE_DEPTH: nat := 64
  const MAX_COLLECTION_ITEMS: nat := 16_384
  const MAX_TOTAL_VALUES: nat := 262_144
  const MAX_TEXT_BYTES: nat := 1024 * 1024

  type Key = Bytes

  /** Integers, floats and paths are compared only, so their payload is left uninterpreted. */
  datatype ScalarKind = Boolean | Integer | Unsigned | Float | Text | Path

  /** Maps are listed by key. */
  datatype Value =
    | Null
    | Scalar(kind: ScalarKind, payload: Bytes)
    | List(items: seq<Value>)
    | Record(fields: seq<Entry>)
    | Collection(entries: seq<Entry>)

  datatype Entry = Entry(key: Key, value: Value)

  datatype Type =
    | ScalarType(kind: ScalarKind)
    | ListType(item: Type)
    | RecordType(fields: seq<Field>)
    | CollectionType(item: Type)

  datatype Field = Field(name: Key, fieldType: Type, optional: bool, default: Option<Value>)

  datatype TypeError = TypeMismatch | UnknownField | MissingField | LimitExceeded

  // ----- Limits

  function ValuesOf(entries: seq<Entry>): (values: seq<Value>)
    ensures |values| == |entries| && forall i :: 0 <= i < |values| ==> values[i] == entries[i].value
    ensures forall v :: v in values ==> exists i :: 0 <= i < |entries| && entries[i].value == v
  {
    seq(|entries|, i requires 0 <= i < |entries| => entries[i].value)
  }

  function ChildrenOf(v: Value): (children: seq<Value>)
    ensures forall i :: 0 <= i < |children| ==> children[i] < v
  {
    match v
    case List(items) => items
    case Record(fields) => ValuesOf(fields)
    case Collection(entries) => ValuesOf(entries)
    case _ => []
  }

  /** Number of values in a value, itself included. */
  function Nodes(v: Value): nat
    decreases v, 0
  {
    1 + NodesOf(v, ChildrenOf(v))
  }

  function NodesOf(parent: Value, children: seq<Value>): nat
    requires forall i :: 0 <= i < |children| ==> children[i] < parent
    decreases parent, 0, |children|
  {
    if children == [] then 0 else NodesOf(parent, children[..|children| - 1]) + Nodes(children[|children| - 1])
  }

  predicate TextFits(v: Value) { v.Scalar? && v.kind == Text ==> |v.payload| <= MAX_TEXT_BYTES }

  /** Depth, text and collection limits, for a value that stands at some depth. */
  predicate Fits(v: Value, depth: nat)
    decreases v
  {
    && depth <= MAX_VALUE_DEPTH
    && TextFits(v) && |ChildrenOf(v)| <= MAX_COLLECTION_ITEMS
    && forall i :: 0 <= i < |ChildrenOf(v)| ==> Fits(ChildrenOf(v)[i], depth + 1)
  }

  predicate Validated(v: Value) { Fits(v, 1) && Nodes(v) <= MAX_TOTAL_VALUES }

  lemma {:induction false} NodesPrefix(parent: Value, children: seq<Value>, i: nat)
    requires forall j :: 0 <= j < |children| ==> children[j] < parent
    requires i < |children|
    ensures NodesOf(parent, children[..i]) + Nodes(children[i]) <= NodesOf(parent, children)
    decreases |children|
  {
    var last := |children| - 1;
    if i < last {
      NodesPrefix(parent, children[..last], i);
      assert children[..last][..i] == children[..i];
    }
  }

  lemma {:induction false} FitsHigher(v: Value, higher: nat, depth: nat)
    requires higher <= depth && Fits(v, depth)
    ensures Fits(v, higher)
    decreases v
  {
    forall i | 0 <= i < |ChildrenOf(v)| ensures Fits(ChildrenOf(v)[i], higher + 1) {
      FitsHigher(ChildrenOf(v)[i], higher + 1, depth + 1);
    }
  }

  /** A part of a value within the limits is within the limits. */
  lemma ChildValidated(v: Value, i: nat)
    requires Validated(v) && i < |ChildrenOf(v)|
    ensures Validated(ChildrenOf(v)[i])
  {
    FitsHigher(ChildrenOf(v)[i], 1, 2);
    NodesPrefix(v, ChildrenOf(v), i);
  }

  /** The limits as they are checked: depth first, with one running total for all nodes. */
  method ValidateValueAt(v: Value, depth: nat, total: nat) returns (ok: bool, sum: nat)
    requires total <= MAX_TOTAL_VALUES
    ensures ok <==> Fits(v, depth) && total + Nodes(v) <= MAX_TOTAL_VALUES
    ensures ok ==> sum == total + Nodes(v)
    decreases v
  {
    hide Fits, Nodes, NodesOf, ChildrenOf;
    FitsMeans(v, depth);
    sum := total + 1;
    if depth > MAX_VALUE_DEPTH || sum > MAX_TOTAL_VALUES || !TextFits(v) || |ChildrenOf(v)| > MAX_COLLECTION_ITEMS {
      return false, sum;
    }
    var children := ChildrenOf(v);
    for i := 0 to |children|
      invariant sum == total + 1 + NodesOf(v, children[..i]) <= MAX_TOTAL_VALUES
      invariant forall j :: 0 <= j < i ==> Fits(children[j], depth + 1)
    {
      NodesStep(v, children, i);
      var one;
      one, sum := ValidateValueAt(children[i], depth + 1, sum);
      if !one {
        return false, sum;
      }
    }
    assert children[..|children|] == children;
    ok := true;
  }

  lemma FitsMeans(v: Value, depth: nat)
    ensures Fits(v, depth) <==>
      depth <= MAX_VALUE_DEPTH && TextFits(v) && |ChildrenOf(v)| <= MAX_COLLECTION_ITEMS
      && forall i :: 0 <= i < |ChildrenOf(v)| ==> Fits(ChildrenOf(v)[i], depth + 1)
    ensures Nodes(v) == 1 + NodesOf(v, ChildrenOf(v)) && NodesOf(v, ChildrenOf(v)[..0]) == 0
  {
  }

  lemma NodesStep(parent: Value, children: seq<Value>, i: nat)
    requires forall j :: 0 <= j < |children| ==> children[j] < parent
    requires i < |children|
    ensures NodesOf(parent, children[..i + 1]) == NodesOf(parent, children[..i]) + Nodes(children[i]) <= NodesOf(parent, children)
  {
    hide Nodes;
    NodesPrefix(parent, children, i);
    assert children[..i + 1][..i] == children[..i];
  }

  // ----- Resolution

  /** Containers are checked against the limits as they are rebuilt. */
  function Checked(v: Value): Result<Value, TypeError> {
    if Validated(v) then Success(v) else Failure(LimitExceeded)
  }

  function Find(entries: seq<Entry>, key: Key): Option<Value> {
    if entries == [] then None else if entries[0].key == key then Some(entries[0].value) else Find(entries[1..], key)
  }

  predicate Declared(fields: seq<Field>, key: Key) { exists i :: 0 <= i < |fields| && fields[i].name == key }

  function Resolve(t: Type, v: Value, optional: bool): Result<Value, TypeError>
    decreases t, 0
  {
    if v.Null? then (if optional then Success(Null) else Failure(TypeMismatch)) else
    match t
    case ScalarType(kind) => if v.Scalar? && v.kind == kind then Success(v) else Failure(TypeMismatch)
    case ListType(item) =>
      if !v.List? then Failure(TypeMismatch) else
        var items := ResolveItems(item, v.items);
        if items.Failure? then Failure(items.error) else Checked(List(items.value))
    case CollectionType(item) =>
      if !v.Collection? then Failure(TypeMismatch) else
        var entries := ResolveEntries(item, v.entries);
        if entries.Failure? then Failure(entries.error) else Checked(Collection(entries.value))
    case RecordType(fields) =>
      if !v.Record? then Failure(TypeMismatch)
      else if exists e :: e in v.fields && !Declared(fields, e.key) then Failure(UnknownField)
      else
        var resolved := ResolveFields(t, fields, v.fields);
        if resolved.Failure? then Failure(resolved.error) else Checked(Record(resolved.value))
  }

  function ResolveItems(item: Type, values: seq<Value>): Result<seq<Value>, TypeError>
    decreases item, 1, |values|
  {
    if values == [] then Success([]) else
      var first := Resolve(item, values[0], false);
      if first.Failure? then Failure(first.error) else
        var rest := ResolveItems(item, values[1..]);
        if rest.Failure? then Failure(rest.error) else Success([first.value] + rest.value)
  }

  function ResolveEntries(item: Type, entries: seq<Entry>): Result<seq<Entry>, TypeError>
    decreases item, 1, |entries|
  {
    if entries == [] then Success([]) else
      var first := Resolve(item, entries[0].value, false);
      if first.Failure? then Failure(first.error) else
        var rest := ResolveEntries(item, entries[1..]);
        if rest.Failure? then Failure(rest.error) else Success([Entry(entries[0].key, first.value)] + rest.value)
  }

  /** A given value is resolved; a missing one takes the default as it stands, or null when optional. */
  function ResolveField(parent: Type, field: Field, given: Option<Value>): Result<Value, TypeError>
    requires field.fieldType < parent
    decreases parent, 0, 0, 0
  {
    match given
    case Some(value) => Resolve(field.fieldType, value, field.optional)
    case None =>
      if field.default.Some? then Success(field.default.value)
      else if field.optional then Success(Null)
      else Failure(MissingField)
  }

  function ResolveFields(parent: Type, fields: seq<Field>, values: seq<Entry>): Result<seq<Entry>, TypeError>
    requires forall i :: 0 <= i < |fields| ==> fields[i].fieldType < parent
    decreases parent, 0, 0, |fields| + 1
  {
    if fields == [] then Success([]) else
      var first := ResolveField(parent, fields[0], Find(values, fields[0].name));
      if first.Failure? then Failure(first.error) else
        var rest := ResolveFields(parent, fields[1..], values);
        if rest.Failure? then Failure(rest.error) else Success([Entry(fields[0].name, first.value)] + rest.value)
  }

  // ----- Conforming values

  /** A value of exactly the type: every field present, null only where optional. */
  ghost predicate Conforms(t: Type, v: Value, optional: bool)
    decreases t
  {
    if v.Null? then optional else
    match t
    case ScalarType(kind) => v.Scalar? && v.kind == kind
    case ListType(item) => v.List? && forall i :: 0 <= i < |v.items| ==> Conforms(item, v.items[i], false)
    case CollectionType(item) => v.Collection? && forall i :: 0 <= i < |v.entries| ==> Conforms(item, v.entries[i].value, false)
    case RecordType(fields) =>
      v.Record? && |v.fields| == |fields|
      && forall i :: 0 <= i < |fields| ==>
           v.fields[i].key == fields[i].name && Conforms(fields[i].fieldType, v.fields[i].value, fields[i].optional)
  }

  /** Scalars are handed through; everything with parts is within the limits. */
  ghost predicate Limited(v: Value) { v.List? || v.Record? || v.Collection? ==> Validated(v) }

  ghost predicate DistinctNames(fields: seq<Field>) {
    forall i, j :: 0 <= i < j < |fields| ==> fields[i].name != fields[j].name
  }

  /** The default, if any, is what resolving some given default returned. */
  ghost predicate DefaultResolved(field: Field) {
    field.default.Some? ==> exists raw :: Resolve(field.fieldType, raw, field.optional) == Success(field.default.value)
  }

  /** Types whose fields come from the field constructors. */
  ghost predicate Built(t: Type)
    decreases t
  {
    match t
    case ScalarType(_) => true
    case ListType(item) => Built(item)
    case CollectionType(item) => Built(item)
    case RecordType(fields) =>
      DistinctNames(fields) && forall i :: 0 <= i < |fields| ==> Built(fields[i].fieldType) && DefaultResolved(fields[i])
  }

  lemma {:induction false} ItemsConform(item: Type, values: seq<Value>)
    requires Built(item) && ResolveItems(item, values).Success?
    ensures var r := ResolveItems(item, values).value;
      |r| == |values| && forall i :: 0 <= i < |r| ==> Conforms(item, r[i], false)
    decreases item, 1, |values|
  {
    if values != [] {
      ResolveConforms(item, values[0], false);
      ItemsConform(item, values[1..]);
    }
  }

  lemma {:induction false} EntriesConform(item: Type, entries: seq<Entry>)
    requires Built(item) && ResolveEntries(item, entries).Success?
    ensures var r := ResolveEntries(item, entries).value;
      |r| == |entries| && forall i :: 0 <= i < |r| ==> r[i].key == entries[i].key && Conforms(item, r[i].value, false)
    decreases item, 1, |entries|
  {
    if entries != [] {
      ResolveConforms(item, entries[0].value, false);
      EntriesConform(item, entries[1..]);
    }
  }

  lemma FieldConforms(parent: Type, field: Field, given: Option<Value>)
    requires field.fieldType < parent && Built(field.fieldType) && DefaultResolved(field) && ResolveField(parent, field, given).Success?
    ensures Conforms(field.fieldType, ResolveField(parent, field, given).value, field.optional)
    decreases parent, 0, 0, 0
  {
    if given.Some? {
      ResolveConforms(field.fieldType, given.value, field.optional);
    } else if field.default.Some? {
      var raw :| Resolve(field.fieldType, raw, field.optional) == Success(field.default.value);
      ResolveConforms(field.fieldType, raw, field.optional);
    }
  }

  lemma {:induction false} FieldsConform(parent: Type, fields: seq<Field>, values: seq<Entry>)
    requires forall i :: 0 <= i < |fields| ==> fields[i].fieldType < parent && Built(fields[i].fieldType) && DefaultResolved(fields[i])
    requires ResolveFields(parent, fields, values).Success?
    ensures var r := ResolveFields(parent, fields, values).value;
      |r| == |fields| && forall i :: 0 <= i < |r| ==> r[i].key == fields[i].name && Conforms(fields[i].fieldType, r[i].value, fields[i].optional)
    decreases parent, 0, 0, |fields| + 1
  {
    hide Conforms, Built, DefaultResolved;
    if fields != [] {
      FieldConforms(parent, fields[0], Find(values, fields[0].name));
      FieldsConform(parent, fields[1..], values);
    }
  }

  /** Whatever resolution returns conforms to the schema and is within the limits. */
  lemma {:induction false} ResolveConforms(t: Type, v: Value, optional: bool)
    requires Built(t) && Resolve(t, v, optional).Success?
    ensures Conforms(t, Resolve(t, v, optional).value, optional) && Limited(Resolve(t, v, optional).value)
    decreases t, 0
  {
    if !v.Null? {
      match t {
        case ScalarType(_) =>
        case ListType(item) => ItemsConform(item, v.items);
        case CollectionType(item) => EntriesConform(item, v.entries);
        case RecordType(fields) => FieldsConform(t, fields, v.fields);
      }
    }
  }

  lemma {:induction false} ItemsFixed(item: Type, values: seq<Value>)
    requires Built(item) && forall i :: 0 <= i < |values| ==> Conforms(item, values[i], false) && Limited(values[i])
    ensures ResolveItems(item, values) == Success(values)
    decreases item, 1, |values|
  {
    if values != [] {
      ConformingIsFixed(item, values[0], false);
      ItemsFixed(item, values[1..]);
      assert [values[0]] + values[1..] == values;
    }
  }

  lemma {:induction false} EntriesFixed(item: Type, entries: seq<Entry>)
    requires Built(item) && forall i :: 0 <= i < |entries| ==> Conforms(item, entries[i].value, false) && Limited(entries[i].value)
    ensures ResolveEntries(item, entries) == Success(entries)
    decreases item, 1, |entries|
  {
    if entries != [] {
      ConformingIsFixed(item, entries[0].value, false);
      EntriesFixed(item, entries[1..]);
      assert [Entry(entries[0].key, entries[0].value)] + entries[1..] == entries;
    }
  }

  lemma {:induction false} FindNamed(values: seq<Entry>, i: nat)
    requires i < |values| && forall j :: 0 <= j < i ==> values[j].key != values[i].key
    ensures Find(values, values[i].key) == Some(values[i].value)
  {
    if i > 0 {
      FindNamed(values[1..], i - 1);
    }
  }

  /** The fields from the `n`-th on, looked up in the whole record. */
  lemma {:induction false} FieldsFixed(parent: Type, fields: seq<Field>, values: seq<Entry>, n: nat)
    requires n <= |fields| == |values| && DistinctNames(fields)
    requires forall i :: 0 <= i < |fields| ==> fields[i].fieldType < parent && Built(fields[i].fieldType) && Limited(values[i].value)
    requires forall i :: 0 <= i < |fields| ==> values[i].key == fields[i].name && Conforms(fields[i].fieldType, values[i].value, fields[i].optional)
    ensures ResolveFields(parent, fields[n..], values) == Success(values[n..])
    decreases parent, 0, 0, |fields| - n + 1
  {
    hide Conforms, Built, Limited;
    if n < |fields| {
      FindNamed(values, n);
      ConformingIsFixed(fields[n].fieldType, values[n].value, fields[n].optional);
      FieldsFixed(parent, fields, values, n + 1);
      assert fields[n..][1..] == fields[n + 1..] && fields[n..][0] == fields[n];
      assert values[n..] == [Entry(fields[n].name, values[n].value)] + values[n + 1..];
    }
  }

  lemma ChildrenLimited(v: Value)
    requires Validated(v)
    ensures forall i :: 0 <= i < |ChildrenOf(v)| ==> Limited(ChildrenOf(v)[i])
  {
    forall i | 0 <= i < |ChildrenOf(v)| ensures Limited(ChildrenOf(v)[i]) {
      ChildValidated(v, i);
    }
  }

  /** A conforming value within the limits is returned unchanged. */
  lemma {:induction false} ConformingIsFixed(t: Type, v: Value, optional: bool)
    requires Built(t) && Conforms(t, v, optional) && Limited(v)
    ensures Resolve(t, v, optional) == Success(v)
    decreases t, 0
  {
    if !v.Null? && !v.Scalar? {
      ChildrenLimited(v);
      match t {
        case ScalarType(_) =>
        case ListType(item) => ItemsFixed(item, v.items);
        case CollectionType(item) =>
          assert forall i :: 0 <= i < |v.entries| ==> ChildrenOf(v)[i] == v.entries[i].value;
          EntriesFixed(item, v.entries);
        case RecordType(fields) =>
          assert forall i :: 0 <= i < |v.fields| ==> ChildrenOf(v)[i] == v.fields[i].value;
          FieldsFixed(t, fields, v.fields, 0);
          assert fields[0..] == fields && v.fields[0..] == v.fields;
          assert forall e :: e in v.fields ==> Declared(fields, e.key);
      }
    }
  }

  /** The values that resolution can return are exactly those it returns unchanged, and these are exactly the
      conforming ones within the limits. */
  lemma ResolvedIsFixed(t: Type, w: Value, optional: bool)
    requires Built(t)
    ensures (exists v :: Resolve(t, v, optional) == Success(w)) <==> Resolve(t, w, optional) == Success(w)
    ensures Resolve(t, w, optional) == Success(w) <==> Conforms(t, w, optional) && Limited(w)
  {
    if v :| Resolve(t, v, optional) == Success(w) {
      ResolveConforms(t, v, optional);
      ConformingIsFixed(t, w, optional);
    }
    if Conforms(t, w, optional) && Limited(w) {
      ConformingIsFixed(t, w, optional);
    }
  }

  // ----- Field constructors

  function Required(t: Type, name: Key): Field { Field(name, t, false, None) }

  function OptionalField(t: Type, name: Key): Field { Field(name, t, true, None) }

  function Defaulted(t: Type, name: Key, default: Value, optional: bool): Result<Field, TypeError> {
    var resolved := Resolve(t, default, optional);
    if resolved.Failure? then Failure(resolved.error) else Success(Field(name, t, optional, Some(resolved.value)))
  }

  /** Every constructor makes a field whose default is a fixed point of resolution. */
  lemma DefaultsAreFixed(t: Type, name: Key, default: Value, optional: bool)
    requires Built(t) && Defaulted(t, name, default, optional).Success?
    ensures var field := Defaulted(t, name, default, optional).value;
      DefaultResolved(field) && Resolve(t, field.default.value, optional) == Success(field.default.value)
  {
    var w := Defaulted(t, name, default, optional).value.default.value;
    assert Resolve(t, default, optional) == Success(w);
    ResolvedIsFixed(t, w, optional);
  }

  // ----- Which defaults break it

  /** A default that resolution returns unchanged. */
  predicate DefaultFixed(field: Field) {
    field.default.Some? ==> Resolve(field.fieldType, field.default.value, field.optional) == Success(field.default.value)
  }

  /** Over types built so far, the defaults that the constructors can make are exactly the fixed ones. */
  lemma ConstructedMeansFixed(field: Field)
    requires Built(field.fieldType)
    ensures DefaultResolved(field) <==> DefaultFixed(field)
  {
    if field.default.Some? {
      var d := field.default.value;
      if DefaultResolved(field) {
        var raw :| Resolve(field.fieldType, raw, field.optional) == Success(d);
        ResolveConforms(field.fieldType, raw, field.optional);
        ConformingIsFixed(field.fieldType, d, field.optional);
      }
      if DefaultFixed(field) {
        assert Resolve(field.fieldType, d, field.optional) == Success(d);
      }
    }
  }

  /** A field value that resolution returns unchanged. */
  predicate ValueFixed(field: Field, v: Value) { Resolve(field.fieldType, v, field.optional) == Success(v) }

  /** A resolved record, looked up and resolved field by field once more. */
  lemma {:induction false} FieldsFixedExactly(parent: Type, fields: seq<Field>, values: seq<Entry>, n: nat)
    requires n <= |fields| == |values| && DistinctNames(fields)
    requires forall i :: 0 <= i < |fields| ==> fields[i].fieldType < parent && values[i].key == fields[i].name
    ensures ResolveFields(parent, fields[n..], values) == Success(values[n..]) <==>
      forall i :: n <= i < |fields| ==> ValueFixed(fields[i], values[i].value)
    decreases |fields| - n
  {
    hide Resolve;
    if n < |fields| {
      FindNamed(values, n);
      FieldsFixedExactly(parent, fields, values, n + 1);
      assert fields[n..][1..] == fields[n + 1..] && fields[n..][0] == fields[n];
      assert values[n..] == [values[n]] + values[n + 1..];
      var first, rest := Resolve(fields[n].fieldType, values[n].value, fields[n].optional), ResolveFields(parent, fields[n + 1..], values);
      assert ResolveField(parent, fields[n], Find(values, fields[n].name)) == first;
      if first.Success? && rest.Success? {
        HeadAndTail(Entry(fields[n].name, first.value), rest.value, values[n], values[n + 1..]);
      }
    } else {
      assert fields[n..] == [] && values[n..] == [];
    }
  }

  lemma HeadAndTail(a: Entry, x: seq<Entry>, b: Entry, y: seq<Entry>)
    ensures [a] + x == [b] + y <==> a == b && x == y
  {
    assert ([a] + x)[0] == a && ([b] + y)[0] == b && ([a] + x)[1..] == x && ([b] + y)[1..] == y;
  }

  lemma {:induction false} ResolvedFields(parent: Type, fields: seq<Field>, values: seq<Entry>)
    requires forall i :: 0 <= i < |fields| ==> fields[i].fieldType < parent
    requires ResolveFields(parent, fields, values).Success?
    ensures var r := ResolveFields(parent, fields, values).value;
      |r| == |fields| && forall i :: 0 <= i < |r| ==>
        r[i].key == fields[i].name && ResolveField(parent, fields[i], Find(values, fields[i].name)) == Success(r[i].value)
    decreases |fields|
  {
    hide ResolveField;
    if fields != [] {
      ResolvedFields(parent, fields[1..], values);
    }
  }

  /** The result of resolving a record is a fixed point exactly when every default that went into it is one. */
  lemma DefaultsDecide(fields: seq<Field>, values: seq<Entry>, optional: bool)
    requires DistinctNames(fields) && forall i :: 0 <= i < |fields| ==> Built(fields[i].fieldType)
    requires Resolve(RecordType(fields), Record(values), optional).Success?
    ensures var t := RecordType(fields); var w := Resolve(t, Record(values), optional).value;
      Resolve(t, w, optional) == Success(w) <==>
        forall i :: 0 <= i < |fields| && Find(values, fields[i].name).None? ==> DefaultFixed(fields[i])
  {
    hide ResolveFields, ResolveField, DefaultFixed, ValueFixed, Built, Validated, Conforms, Find;
    var t := RecordType(fields);
    PartsSmaller(fields);
    var r := ResolveFields(t, fields, values).value;
    ResolvedFields(t, fields, values);
    FieldsFixedExactly(t, fields, r, 0);
    assert fields[0..] == fields && r[0..] == r;
    forall i | 0 <= i < |fields| ensures ValueFixed(fields[i], r[i].value) <==> (Find(values, fields[i].name).None? ==> DefaultFixed(fields[i])) {
      FieldFixedExactly(t, fields[i], Find(values, fields[i].name), r[i].value);
    }
    AllDeclared(fields, r);
  }

  lemma PartsSmaller(fields: seq<Field>)
    ensures forall i :: 0 <= i < |fields| ==> fields[i].fieldType < RecordType(fields)
  {
  }

  lemma AllDeclared(fields: seq<Field>, r: seq<Entry>)
    requires |r| == |fields| && forall i :: 0 <= i < |r| ==> r[i].key == fields[i].name
    ensures forall e :: e in r ==> Declared(fields, e.key)
  {
    forall e | e in r ensures Declared(fields, e.key) {
      var i :| 0 <= i < |r| && r[i] == e;
      assert fields[i].name == e.key;
    }
  }

  lemma FieldFixedExactly(parent: Type, field: Field, given: Option<Value>, w: Value)
    requires field.fieldType < parent && Built(field.fieldType) && ResolveField(parent, field, given) == Success(w)
    ensures ValueFixed(field, w) <==> (given.None? ==> DefaultFixed(field))
  {
    if given.Some? {
      assert Resolve(field.fieldType, given.value, field.optional) == Success(w);
      ResolvedIsFixed(field.fieldType, w, field.optional);
    }
  }

  /** A default put in without being resolved: the result lacks a field, and resolving it again changes it. */
  lemma UnresolvedDefaultIsNotFixed()
    ensures var inner := RecordType([Field([1], ScalarType(Boolean), true, None)]);
      var outer := RecordType([Field([2], inner, false, Some(Record([])))]);
      var once := Record([Entry([2], Record([]))]);
      && Resolve(outer, Record([]), false) == Success(once)
      && Resolve(outer, once, false) == Success(Record([Entry([2], Record([Entry([1], Null)]))]))
  {
    var inner := RecordType([Field([1], ScalarType(Boolean), true, None)]);
    var fields := [Field([2], inner, false, Some(Record([])))];
    var outer := RecordType(fields);
    var empty := Record([]);
    var once := Record([Entry([2], empty)]);
    var filled := Record([Entry([1], Null)]);
    var twice := Record([Entry([2], filled)]);
    SmallRecords();
    OneField(outer, fields[0], [], empty);
    assert Resolve(outer, empty, false) == Success(once);
    OneField(inner, inner.fields[0], [], Null);
    assert Resolve(inner, empty, false) == Success(filled);
    assert Find(once.fields, [2]) == Some(empty);
    OneField(outer, fields[0], once.fields, filled);
    assert Declared(fields, [2]) by { assert fields[0].name == [2]; }
    assert Resolve(outer, once, false) == Success(twice);
  }

  lemma OneField(parent: Type, field: Field, values: seq<Entry>, w: Value)
    requires field.fieldType < parent && ResolveField(parent, field, Find(values, field.name)) == Success(w)
    ensures ResolveFields(parent, [field], values) == Success([Entry(field.name, w)])
  {
    assert [field][1..] == [];
    assert ResolveFields(parent, [], values) == Success([]);
    assert [Entry(field.name, w)] + [] == [Entry(field.name, w)];
  }

  lemma SmallRecords()
    ensures Validated(Record([])) && Validated(Record([Entry([1], Null)])) && Validated(Record([Entry([2], Record([]))]))
    ensures Validated(Record([Entry([2], Record([Entry([1], Null)]))]))
  {
    var empty, filled := Record([]), Record([Entry([1], Null)]);
    assert ChildrenOf(empty) == [] && ChildrenOf(filled) == [Null];
    OneChild(filled);
    assert Fits(empty, 2) && Nodes(empty) == 1;
    assert Fits(filled, 2) && Nodes(filled) == 2;
    OneChild(Record([Entry([2], empty)]));
    OneChild(Record([Entry([2], filled)]));
  }

  lemma OneChild(v: Value)
    requires |ChildrenOf(v)| == 1
    ensures Nodes(v) == 1 + Nodes(ChildrenOf(v)[0])
  {
    var c := ChildrenOf(v);
    assert c[..|c| - 1] == [] && NodesOf(v, c) == NodesOf(v, c[..|c| - 1]) + Nodes(c[0]);
  }
}
