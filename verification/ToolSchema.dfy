/**
 What each provider's strict mode is sent, and undoing it on the way back
 (apps/api/src/llm/tool-schema-dialects.ts, apps/api/src/agent/tools/schema.ts).

 Validity is JSON Schema Validation 2020-12, sections 6.1.1 (type), 6.1.2 (enum) and
 6.5.3 (required), with properties, items and additionalProperties: false.
 */
module ToolSchema {
  import opened Wrappers

  datatype TypeName = ObjectType | ArrayType | StringType | NumberType | BooleanType

  // "type": one name, or a name with "null".
  datatype Types = One(name: TypeName) | OrNull(name: TypeName)

  datatype Value = Null | Bool(b: bool) | Num(n: int) | Str(s: string) | Arr(elements: seq<Value>) | Obj(entries: seq<Entry>)

  datatype Entry = Entry(name: string, value: Value)

  datatype Property = Property(name: string, schema: Schema)

  // `closed` is additionalProperties: false; `others` are the keywords that say nothing a value must meet here.
  datatype Schema = Schema(
    types: Option<Types>,
    properties: seq<Property>,
    required: Option<seq<string>>,
    items: Option<Schema>,
    enums: Option<seq<Value>>,
    closed: bool,
    others: set<string>)

  // ---------- Validity ----------

  predicate HasType(v: Value, t: TypeName) {
    match t
    case ObjectType => v.Obj?
    case ArrayType => v.Arr?
    case StringType => v.Str?
    case NumberType => v.Num?
    case BooleanType => v.Bool?
  }

  predicate TypeOk(types: Option<Types>, v: Value) {
    match types
    case None => true
    case Some(One(t)) => HasType(v, t)
    case Some(OrNull(t)) => v == Null || HasType(v, t)
  }

  predicate Has(entries: seq<Entry>, name: string) {
    exists e :: e in entries && e.name == name
  }

  predicate Declares(properties: seq<Property>, name: string) {
    exists p :: p in properties && p.name == name
  }

  ghost predicate Valid(s: Schema, v: Value)
    decreases s
  {
    && TypeOk(s.types, v)
    && (s.enums.Some? ==> v in s.enums.value)
    && (v.Arr? && s.items.Some? ==> forall x :: x in v.elements ==> Valid(s.items.value, x))
    && (v.Obj? ==>
          && (s.required.Some? ==> forall n :: n in s.required.value ==> Has(v.entries, n))
          && (forall p, e :: p in s.properties && e in v.entries && p.name == e.name ==> Valid(p.schema, e.value))
          && (s.closed ==> forall e :: e in v.entries ==> Declares(s.properties, e.name)))
  }

  // ---------- Reducing ----------

  function Reduced(s: Schema, allowed: set<string>): Schema
    decreases s
  {
    var isObject := s.types == Some(One(ObjectType));
    Schema(
      s.types,
      seq(|s.properties|, i requires 0 <= i < |s.properties| =>
        Property(s.properties[i].name, Reduced(s.properties[i].schema, allowed))),
      if isObject && s.required.None? then Some([]) else s.required,
      if s.items.Some? then Some(Reduced(s.items.value, allowed)) else None,
      s.enums,
      s.closed || isObject,
      s.others * allowed)
  }

  /** reduce and reduceProperties: a copy with only the allowed keywords, every object closed and with its
      required list present. */
  method Reduce(s: Schema, allowed: set<string>) returns (out: Schema)
    ensures out == Reduced(s, allowed)
    decreases s
  {
    var properties: seq<Property> := [];
    for i := 0 to |s.properties|
      invariant properties == Reduced(s, allowed).properties[..i]
    {
      var property := Reduce(s.properties[i].schema, allowed);
      properties := properties + [Property(s.properties[i].name, property)];
    }
    var items := None;
    if s.items.Some? {
      var inner := Reduce(s.items.value, allowed);
      items := Some(inner);
    }
    out := s.(properties := properties, items := items, others := s.others * allowed);
    if out.types == Some(One(ObjectType)) {
      out := out.(closed := true, required := Some(out.required.GetOr([])));
    }
  }

  // No object node of the value holds a field its schema does not declare.
  ghost predicate NoExtras(s: Schema, v: Value)
    decreases s
  {
    && (v.Arr? && s.items.Some? ==> forall x :: x in v.elements ==> NoExtras(s.items.value, x))
    && (v.Obj? ==>
          && (s.types == Some(One(ObjectType)) ==> forall e :: e in v.entries ==> Declares(s.properties, e.name))
          && (forall p, e :: p in s.properties && e in v.entries && p.name == e.name ==> NoExtras(p.schema, e.value)))
  }

  // Each property stands in its place in the reduced schema, under its name.
  lemma ReducedProperties(s: Schema, allowed: set<string>)
    ensures var r := Reduced(s, allowed);
      && (forall p :: p in s.properties ==> Property(p.name, Reduced(p.schema, allowed)) in r.properties)
      && (forall q :: q in r.properties ==>
            exists p :: p in s.properties && q == Property(p.name, Reduced(p.schema, allowed)))
      && (forall name :: Declares(r.properties, name) <==> Declares(s.properties, name))
  {
    var r := Reduced(s, allowed);
    forall p | p in s.properties
      ensures Property(p.name, Reduced(p.schema, allowed)) in r.properties
    {
      var i :| 0 <= i < |s.properties| && s.properties[i] == p;
      assert r.properties[i] == Property(p.name, Reduced(p.schema, allowed));
    }
    forall q | q in r.properties
      ensures exists p :: p in s.properties && q == Property(p.name, Reduced(p.schema, allowed))
    {
      var i :| 0 <= i < |r.properties| && r.properties[i] == q;
      assert s.properties[i] in s.properties;
    }
    forall name
      ensures Declares(r.properties, name) <==> Declares(s.properties, name)
    {
      if p :| p in s.properties && p.name == name {
        assert Property(p.name, Reduced(p.schema, allowed)) in r.properties;
      }
    }
  }

  lemma {:induction false} ReducedField(s: Schema, allowed: set<string>, v: Value)
    requires v.Obj?
    ensures (forall q, e :: q in Reduced(s, allowed).properties && e in v.entries && q.name == e.name ==> Valid(q.schema, e.value))
       <==> (forall p, e :: p in s.properties && e in v.entries && p.name == e.name ==>
               Valid(p.schema, e.value) && NoExtras(p.schema, e.value))
    decreases s, 0
  {
    ReducedProperties(s, allowed);
    forall p, e | p in s.properties && e in v.entries && p.name == e.name
      ensures Valid(Reduced(p.schema, allowed), e.value) <==> Valid(p.schema, e.value) && NoExtras(p.schema, e.value)
    {
      ReducingOnlyCloses(p.schema, allowed, e.value);
    }
    forall p | p in s.properties
      ensures Property(p.name, Reduced(p.schema, allowed)) in Reduced(s, allowed).properties
    {
    }
  }

  lemma {:induction false} ReducedElement(s: Schema, allowed: set<string>, v: Value)
    requires v.Arr? && s.items.Some?
    ensures (forall x :: x in v.elements ==> Valid(Reduced(s.items.value, allowed), x))
       <==> (forall x :: x in v.elements ==> Valid(s.items.value, x) && NoExtras(s.items.value, x))
    decreases s, 0
  {
    forall x | x in v.elements
      ensures Valid(Reduced(s.items.value, allowed), x) <==> Valid(s.items.value, x) && NoExtras(s.items.value, x)
    {
      ReducingOnlyCloses(s.items.value, allowed, x);
    }
  }

  /** Reducing closes every object and changes nothing else a value must meet: a value is valid for the reduced schema if
      and only if it is valid for the schema and no object in it, at any depth, holds a field that is not declared. */
  lemma {:induction false} ReducingOnlyCloses(s: Schema, allowed: set<string>, v: Value)
    ensures Valid(Reduced(s, allowed), v) <==> Valid(s, v) && NoExtras(s, v)
    decreases s, 1
  {
    ReducedProperties(s, allowed);
    if v.Arr? && s.items.Some? {
      ReducedElement(s, allowed, v);
    } else if v.Obj? {
      ReducedField(s, allowed, v);
    }
  }

  // What a provider is sent: at every depth only the keywords it knows, and all of those that were there; every
  // object closed, with a required list, its own where it had one.
  ghost predicate ReducedFor(s: Schema, r: Schema, allowed: set<string>)
    decreases s
  {
    && (forall k :: k in r.others <==> k in s.others && k in allowed)
    && (s.types == Some(One(ObjectType)) ==> r.closed && r.required.Some?)
    && (s.required.Some? ==> r.required == s.required)
    && |r.properties| == |s.properties|
    && (forall i :: 0 <= i < |s.properties| ==>
          r.properties[i].name == s.properties[i].name && ReducedFor(s.properties[i].schema, r.properties[i].schema, allowed))
    && (s.items.Some? ==> r.items.Some? && ReducedFor(s.items.value, r.items.value, allowed))
  }

  lemma {:induction false} ReducedIsFor(s: Schema, allowed: set<string>)
    ensures ReducedFor(s, Reduced(s, allowed), allowed)
    decreases s
  {
    forall i | 0 <= i < |s.properties|
      ensures ReducedFor(s.properties[i].schema, Reduced(s, allowed).properties[i].schema, allowed)
    {
      ReducedIsFor(s.properties[i].schema, allowed);
    }
    if s.items.Some? {
      ReducedIsFor(s.items.value, allowed);
    }
  }

  // ---------- Widening ----------

  function Names(properties: seq<Property>): seq<string> {
    seq(|properties|, i requires 0 <= i < |properties| => properties[i].name)
  }

  function WidenedProperty(required: seq<string>, p: Property): Property
    decreases p.schema, 2
  {
    var mapped := Widened(p.schema);
    if p.name in required || !(mapped.types.Some? && mapped.types.value.One?) then Property(p.name, mapped)
    else Property(p.name, mapped.(types := Some(OrNull(mapped.types.value.name))))
  }

  function WidenedObject(s: Schema): Schema
    decreases s, 0
  {
    s.(properties := seq(|s.properties|, i requires 0 <= i < |s.properties| =>
                       WidenedProperty(s.required.GetOr([]), s.properties[i])),
       required := Some(Names(s.properties)),
       closed := true)
  }

  function Widened(s: Schema): Schema
    decreases s, 1
  {
    if s.types == Some(One(ObjectType)) then WidenedObject(s)
    else if s.types == Some(One(ArrayType)) && s.items.Some? then s.(items := Some(Widened(s.items.value)))
    else s
  }

  method WidenObject(s: Schema) returns (out: Schema)
    ensures out == WidenedObject(s)
    decreases s, 0
  {
    var required := s.required.GetOr([]);
    var widened: seq<Property> := [];
    for i := 0 to |s.properties|
      invariant widened == WidenedObject(s).properties[..i]
    {
      var p := s.properties[i];
      var mapped := Widen(p.schema);
      if !(p.name in required || !(mapped.types.Some? && mapped.types.value.One?)) {
        mapped := mapped.(types := Some(OrNull(mapped.types.value.name)));
      }
      widened := widened + [Property(p.name, mapped)];
    }
    out := s.(properties := widened, required := Some(Names(widened)), closed := true);
    assert Names(widened) == Names(s.properties);
  }

  method Widen(s: Schema) returns (out: Schema)
    ensures out == Widened(s)
    decreases s, 1
  {
    if s.types == Some(One(ObjectType)) {
      out := WidenObject(s);
    } else if s.types == Some(One(ArrayType)) && s.items.Some? {
      var inner := Widen(s.items.value);
      out := s.(items := Some(inner));
    } else {
      out := s;
    }
  }

  const OPENAI := {"description", "const", "anyOf", "$ref", "$defs", "default"}

  function OpenAI(s: Schema): Schema {
    WidenedObject(Reduced(s, OPENAI))
  }

  /** openAIToolSchema. */
  method OpenAIToolSchema(s: Schema) returns (out: Schema)
    ensures out == OpenAI(s)
  {
    var reduced := Reduce(s, OPENAI);
    out := WidenObject(reduced);
  }

  // ---------- Null stripping ----------

  function WithoutNulls(v: Value): Value
    decreases v, if v.Obj? then |v.entries| + 1 else 0
  {
    match v
    case Arr(elements) => Arr(seq(|elements|, i requires 0 <= i < |elements| => WithoutNulls(elements[i])))
    case Obj(entries) => Obj(Stripped(v, |entries|))
    case _ => v
  }

  // The first n entries, without those that are null.
  function Stripped(v: Value, n: nat): seq<Entry>
    requires v.Obj? && n <= |v.entries|
    decreases v, n
  {
    if n == 0 then []
    else
      var e := v.entries[n - 1];
      Stripped(v, n - 1) + (if e.value == Null then [] else [Entry(e.name, WithoutNulls(e.value))])
  }

  lemma {:induction false} StrippedHolds(v: Value, n: nat)
    requires v.Obj? && n <= |v.entries|
    ensures forall i :: 0 <= i < n && v.entries[i].value != Null ==>
              Entry(v.entries[i].name, WithoutNulls(v.entries[i].value)) in Stripped(v, n)
    ensures forall x :: x in Stripped(v, n) ==>
              exists i :: 0 <= i < n && v.entries[i].value != Null
                && x == Entry(v.entries[i].name, WithoutNulls(v.entries[i].value))
    decreases n
  {
    if n > 0 {
      StrippedHolds(v, n - 1);
    }
  }

  lemma StrippedEntry(v: Value, e: Entry) returns (was: Entry)
    requires v.Obj? && e in WithoutNulls(v).entries
    ensures was in v.entries && was.value != Null && e == Entry(was.name, WithoutNulls(was.value))
  {
    StrippedHolds(v, |v.entries|);
    assert e in Stripped(v, |v.entries|);
    var i :| 0 <= i < |v.entries| && v.entries[i].value != Null
      && e == Entry(v.entries[i].name, WithoutNulls(v.entries[i].value));
    was := v.entries[i];
  }

  lemma NonNullStays(v: Value, e: Entry)
    requires v.Obj? && e in v.entries && e.value != Null
    ensures Entry(e.name, WithoutNulls(e.value)) in WithoutNulls(v).entries
  {
    StrippedHolds(v, |v.entries|);
    var i :| 0 <= i < |v.entries| && v.entries[i] == e;
    assert Entry(v.entries[i].name, WithoutNulls(v.entries[i].value)) in Stripped(v, |v.entries|);
  }

  // ---------- Widening is undone by stripping ----------

  predicate Scalar(v: Value) {
    v.Bool? || v.Num? || v.Str?
  }

  // A tool's schema: every node names its type, enums hold scalars, and what is required is declared.
  ghost predicate Typed(s: Schema)
    decreases s
  {
    && s.types.Some? && s.types.value.One?
    && (s.enums.Some? ==> forall v :: v in s.enums.value ==> Scalar(v))
    && (s.items.Some? ==> Typed(s.items.value))
    && (forall p :: p in s.properties ==> Typed(p.schema))
    && (s.required.Some? ==> forall n :: n in s.required.value ==> Declares(s.properties, n))
    && (forall i, j :: 0 <= i < j < |s.properties| ==> s.properties[i].name != s.properties[j].name)
  }

  lemma WidenedTypes(s: Schema)
    requires Typed(s)
    ensures Widened(s).types == s.types && Widened(s).enums == s.enums
  {
  }

  // The type a node names, null or not.
  function NameOf(types: Option<Types>): Option<TypeName> {
    if types.Some? then Some(types.value.name) else None
  }

  // What strict mode demands of every object a value may reach: closed, and every property required.
  ghost predicate StrictMode(s: Schema)
    decreases s
  {
    && (NameOf(s.types) == Some(ObjectType) ==>
          && s.closed && s.required == Some(Names(s.properties))
          && forall p :: p in s.properties ==> StrictMode(p.schema))
    && (NameOf(s.types) == Some(ArrayType) && s.items.Some? ==> StrictMode(s.items.value))
  }

  lemma {:induction false} WidenedPropertyIsStrict(required: seq<string>, p: Property)
    requires Typed(p.schema)
    ensures StrictMode(WidenedProperty(required, p).schema)
    decreases p.schema, 1
  {
    WidenedIsStrict(p.schema);
  }

  lemma WidenedNames(s: Schema)
    ensures Names(WidenedObject(s).properties) == Names(s.properties)
  {
    var w := WidenedObject(s);
    forall i | 0 <= i < |s.properties|
      ensures w.properties[i].name == s.properties[i].name
    {
      assert w.properties[i] == WidenedProperty(s.required.GetOr([]), s.properties[i]);
    }
  }

  lemma {:induction false} WidenedIsStrict(s: Schema)
    requires Typed(s)
    ensures StrictMode(Widened(s))
    decreases s, 0
  {
    if s.types == Some(One(ObjectType)) {
      var w := WidenedObject(s);
      forall p | p in w.properties
        ensures StrictMode(p.schema)
      {
        var i :| 0 <= i < |w.properties| && w.properties[i] == p;
        assert s.properties[i] in s.properties;
        WidenedPropertyIsStrict(s.required.GetOr([]), s.properties[i]);
      }
      WidenedNames(s);
    } else if s.types == Some(One(ArrayType)) && s.items.Some? {
      WidenedIsStrict(s.items.value);
    }
  }

  /** What OpenAI is sent is what its strict mode demands: every object a value may reach is closed and requires every one
      of its properties. */
  lemma OpenAIIsStrict(s: Schema)
    requires s.types == Some(One(ObjectType)) && Typed(Reduced(s, OPENAI))
    ensures StrictMode(OpenAI(s)) && Names(OpenAI(s).properties) == Names(s.properties)
  {
    WidenedIsStrict(Reduced(s, OPENAI));
    WidenedNames(Reduced(s, OPENAI));
    assert Names(Reduced(s, OPENAI).properties) == Names(s.properties);
  }

  // Past the null it was widened with, a property asks what its own schema asks.
  lemma WidenedPropertyAsks(required: seq<string>, p: Property, v: Value)
    requires Typed(p.schema) && Valid(WidenedProperty(required, p).schema, v) && v != Null
    ensures Valid(Widened(p.schema), v)
  {
    WidenedTypes(p.schema);
  }

  lemma RequiredRefusesNull(required: seq<string>, p: Property, v: Value)
    requires Typed(p.schema) && p.name in required && Valid(WidenedProperty(required, p).schema, v)
    ensures v != Null
  {
    WidenedTypes(p.schema);
  }

  /** Any value valid for the widened schema is, once its nulls are gone, valid for the schema it was
      widened from, at every depth. */
  lemma {:induction false} StrippingUndoesWidening(s: Schema, v: Value)
    requires Typed(s) && Valid(Widened(s), v)
    ensures Valid(s, WithoutNulls(v))
    decreases s, 2
  {
    WidenedTypes(s);
    if v.Arr? {
      StrippingArray(s, v);
    } else if v.Obj? {
      StrippingObject(s, v);
    }
  }

  lemma {:induction false} StrippingArray(s: Schema, v: Value)
    requires Typed(s) && Valid(Widened(s), v) && v.Arr?
    ensures Valid(s, WithoutNulls(v))
    decreases s, 0
  {
    WidenedTypes(s);
    if s.items.Some? {
      assert Widened(s).items == Some(Widened(s.items.value));
      forall x | x in WithoutNulls(v).elements
        ensures Valid(s.items.value, x)
      {
        var i :| 0 <= i < |v.elements| && x == WithoutNulls(v.elements[i]);
        assert v.elements[i] in v.elements;
        StrippingUndoesWidening(s.items.value, v.elements[i]);
      }
    }
  }

  // Where a property stands in the schema, and in the one widened from it.
  lemma PropertyWidens(s: Schema, p: Property)
    requires p in s.properties
    ensures WidenedProperty(s.required.GetOr([]), p) in WidenedObject(s).properties && p.name in Names(s.properties)
  {
    var k :| 0 <= k < |s.properties| && s.properties[k] == p;
    assert WidenedObject(s).properties[k] == WidenedProperty(s.required.GetOr([]), p);
    assert Names(s.properties)[k] == p.name;
  }

  lemma WidenedDeclares(s: Schema, name: string)
    ensures Declares(WidenedObject(s).properties, name) <==> Declares(s.properties, name)
  {
    if Declares(WidenedObject(s).properties, name) {
      var k :| 0 <= k < |s.properties| && WidenedObject(s).properties[k].name == name;
      assert s.properties[k] in s.properties;
    }
    if Declares(s.properties, name) {
      var p :| p in s.properties && p.name == name;
      PropertyWidens(s, p);
    }
  }

  lemma {:induction false} StrippingProperty(s: Schema, v: Value, p: Property, e: Entry)
    requires Typed(s) && Valid(WidenedObject(s), v) && v.Obj?
    requires p in s.properties && e in WithoutNulls(v).entries && p.name == e.name
    ensures Valid(p.schema, e.value)
    decreases s, 0
  {
    var was := StrippedEntry(v, e);
    PropertyWidens(s, p);
    WidenedPropertyAsks(s.required.GetOr([]), p, was.value);
    StrippingUndoesWidening(p.schema, was.value);
  }

  lemma {:induction false} StrippingObject(s: Schema, v: Value)
    requires Typed(s) && Valid(Widened(s), v) && v.Obj?
    ensures Valid(s, WithoutNulls(v))
    decreases s, 1
  {
    var w := WithoutNulls(v);
    forall p, e | p in s.properties && e in w.entries && p.name == e.name
      ensures Valid(p.schema, e.value)
    {
      StrippingProperty(s, v, p, e);
    }
    forall n | n in s.required.GetOr([])
      ensures Has(w.entries, n)
    {
      RequiredStays(s, v, n);
    }
    forall e | e in w.entries
      ensures Declares(s.properties, e.name)
    {
      var was := StrippedEntry(v, e);
      WidenedDeclares(s, e.name);
    }
  }

  lemma RequiredStays(s: Schema, v: Value, n: string)
    requires Typed(s) && Valid(WidenedObject(s), v) && v.Obj?
    requires n in s.required.GetOr([])
    ensures Has(WithoutNulls(v).entries, n)
  {
    assert Declares(s.properties, n);
    var p :| p in s.properties && p.name == n;
    PropertyWidens(s, p);
    assert Has(v.entries, n);
    var e :| e in v.entries && e.name == n;
    RequiredRefusesNull(s.required.GetOr([]), p, e.value);
    NonNullStays(v, e);
  }

  /** The round trip a tool call makes: what OpenAI's strict mode accepts, read without its nulls, is what the reduced
      schema accepts, and so what the tool's own schema does. */
  lemma ToolCallIsAccepted(s: Schema, v: Value)
    requires s.types == Some(One(ObjectType)) && Typed(Reduced(s, OPENAI)) && Valid(OpenAI(s), v)
    ensures Valid(Reduced(s, OPENAI), WithoutNulls(v)) && Valid(s, WithoutNulls(v))
  {
    ReducingOnlyCloses(s, OPENAI, WithoutNulls(v));
    StrippingUndoesWidening(Reduced(s, OPENAI), v);
  }

  // ---------- And stripping is undone by filling ----------

  ghost predicate NullFree(v: Value)
    decreases v
  {
    match v
    case Null => false
    case Arr(elements) => forall x :: x in elements ==> NullFree(x)
    case Obj(entries) => forall e :: e in entries ==> NullFree(e.value)
    case _ => true
  }

  // No field that may be left out lists the values it takes.
  ghost predicate OptionalsAreOpen(s: Schema)
    decreases s
  {
    && (forall p :: p in s.properties ==>
          OptionalsAreOpen(p.schema) && (p.name in s.required.GetOr([]) || p.schema.enums.None?))
    && (s.items.Some? ==> OptionalsAreOpen(s.items.value))
  }

  // No object node of the value leaves out an optional field that lists the values it takes.
  ghost predicate LeavesNoneOut(s: Schema, w: Value)
    decreases s
  {
    && (w.Obj? ==> forall p :: p in s.properties ==>
          && (p.name in s.required.GetOr([]) || p.schema.enums.None? || Has(w.entries, p.name))
          && forall e :: e in w.entries && e.name == p.name ==> LeavesNoneOut(p.schema, e.value))
    && (w.Arr? && s.items.Some? ==> forall x :: x in w.elements ==> LeavesNoneOut(s.items.value, x))
  }

  lemma {:induction false} OpenLeavesNoneOut(s: Schema, w: Value)
    requires OptionalsAreOpen(s)
    ensures LeavesNoneOut(s, w)
    decreases s
  {
    if w.Obj? {
      forall p, e | p in s.properties && e in w.entries && e.name == p.name
        ensures LeavesNoneOut(p.schema, e.value)
      {
        OpenLeavesNoneOut(p.schema, e.value);
      }
    }
    if w.Arr? && s.items.Some? {
      forall x | x in w.elements
        ensures LeavesNoneOut(s.items.value, x)
      {
        OpenLeavesNoneOut(s.items.value, x);
      }
    }
  }

  // Every object node is closed, as reducing leaves it.
  ghost predicate Closed(s: Schema)
    decreases s
  {
    && (s.types == Some(One(ObjectType)) ==> s.closed)
    && (forall p :: p in s.properties ==> Closed(p.schema))
    && (s.items.Some? ==> Closed(s.items.value))
  }

  lemma {:induction false} ReducedIsClosed(s: Schema, allowed: set<string>)
    ensures Closed(Reduced(s, allowed))
    decreases s
  {
    var r := Reduced(s, allowed);
    forall p | p in r.properties
      ensures Closed(p.schema)
    {
      var i :| 0 <= i < |r.properties| && r.properties[i] == p;
      ReducedIsClosed(s.properties[i].schema, allowed);
    }
    if s.items.Some? {
      ReducedIsClosed(s.items.value, allowed);
    }
  }

  function Find(properties: seq<Property>, name: string): (p: Option<Property>)
    ensures p.Some? ==> p.value in properties && p.value.name == name
    ensures p.None? ==> !Declares(properties, name)
  {
    if properties == [] then None
    else if properties[|properties| - 1].name == name then Some(properties[|properties| - 1])
    else Find(properties[..|properties| - 1], name)
  }

  // Null for each declared name the entries leave out.
  function Missing(properties: seq<Property>, entries: seq<Entry>): seq<Entry> {
    if properties == [] then []
    else
      var name := properties[|properties| - 1].name;
      Missing(properties[..|properties| - 1], entries) + (if Has(entries, name) then [] else [Entry(name, Null)])
  }

  // What strict mode would have sent for this value.
  ghost function Filled(s: Schema, w: Value): Value
    decreases s, 1
  {
    if s.types == Some(One(ObjectType)) && w.Obj? then
      Obj(seq(|w.entries|, i requires 0 <= i < |w.entries| => FilledEntry(s, w.entries[i]))
          + Missing(s.properties, w.entries))
    else if s.types == Some(One(ArrayType)) && s.items.Some? && w.Arr? then
      Arr(seq(|w.elements|, i requires 0 <= i < |w.elements| => Filled(s.items.value, w.elements[i])))
    else w
  }

  ghost function FilledEntry(s: Schema, e: Entry): Entry
    decreases s, 0
  {
    match Find(s.properties, e.name)
    case Some(p) => Entry(e.name, Filled(p.schema, e.value))
    case None => e
  }

  lemma {:induction false} NullFreeIsUnchanged(v: Value)
    requires NullFree(v)
    ensures WithoutNulls(v) == v
    decreases v, 1, 0
  {
    match v
    case Arr(elements) =>
      forall i | 0 <= i < |elements|
        ensures WithoutNulls(elements[i]) == elements[i]
      {
        NullFreeIsUnchanged(elements[i]);
      }
      assert WithoutNulls(v).elements == elements;
    case Obj(entries) =>
      NullFreeEntries(v, |entries|);
      assert entries[..|entries|] == entries;
    case _ =>
  }

  lemma {:induction false} NullFreeEntries(v: Value, n: nat)
    requires NullFree(v) && v.Obj? && n <= |v.entries|
    ensures Stripped(v, n) == v.entries[..n]
    decreases v, 0, n
  {
    if n > 0 {
      NullFreeEntries(v, n - 1);
      assert v.entries[n - 1] in v.entries;
      NullFreeIsUnchanged(v.entries[n - 1].value);
      assert v.entries[..n] == v.entries[..n - 1] + [v.entries[n - 1]];
    }
  }

  lemma UniqueProperty(s: Schema, p: Property)
    requires Typed(s) && p in s.properties
    ensures Find(s.properties, p.name) == Some(p)
  {
  }

  lemma {:induction false} MissingHolds(properties: seq<Property>, entries: seq<Entry>)
    ensures forall e :: e in Missing(properties, entries) <==>
              e.value == Null && Declares(properties, e.name) && !Has(entries, e.name)
    decreases |properties|
  {
    if properties != [] {
      var front, last := properties[..|properties| - 1], properties[|properties| - 1];
      MissingHolds(front, entries);
      assert properties == front + [last];
      assert forall n :: Declares(properties, n) <==> Declares(front, n) || n == last.name;
    }
  }

  lemma WidenedPropertyAdmits(required: seq<string>, p: Property, v: Value)
    requires Typed(p.schema) && Valid(Widened(p.schema), v)
    ensures Valid(WidenedProperty(required, p).schema, v)
  {
    WidenedTypes(p.schema);
  }

  // An optional field that lists no values may come as null.
  lemma OptionalAdmitsNull(required: seq<string>, p: Property)
    requires Typed(p.schema) && p.name !in required && p.schema.enums.None?
    ensures Valid(WidenedProperty(required, p).schema, Null)
  {
    WidenedTypes(p.schema);
  }

  ghost predicate Fillable(s: Schema, w: Value) {
    Typed(s) && Closed(s) && LeavesNoneOut(s, w)
  }

  ghost predicate Fills(s: Schema, w: Value) {
    Valid(Widened(s), Filled(s, w)) && WithoutNulls(Filled(s, w)) == w && Filled(s, w) != Null
  }

  /** A null-free value the reduced schema accepts is what stripping leaves of its filled form, which the widened
      schema accepts, as long as no object in it leaves out an optional field that lists its values. */
  lemma {:induction false} FillingUndoesStripping(s: Schema, w: Value)
    requires Fillable(s, w) && Valid(s, w) && NullFree(w)
    ensures Fills(s, w)
    decreases s, 4
  {
    WidenedTypes(s);
    NullFreeIsUnchanged(w);
    if w.Obj? {
      FillingObject(s, w);
    } else if w.Arr? && s.items.Some? {
      FillingArray(s, w);
    }
  }

  lemma StructuresListNothing(s: Schema, w: Value)
    requires Typed(s) && Valid(s, w) && (w.Obj? || w.Arr?)
    ensures s.enums.None?
  {
  }

  // The filled object's entries: the value's own, filled, and then the nulls.
  lemma FilledAt(s: Schema, w: Value, k: nat)
    requires w.Obj? && s.types == Some(One(ObjectType)) && k < |Filled(s, w).entries|
    ensures |Filled(s, w).entries| == |w.entries| + |Missing(s.properties, w.entries)|
    ensures k < |w.entries| ==> Filled(s, w).entries[k] == FilledEntry(s, w.entries[k])
    ensures k >= |w.entries| ==> Filled(s, w).entries[k] == Missing(s.properties, w.entries)[k - |w.entries|]
    ensures k < |w.entries| ==> Filled(s, w).entries[k].name == w.entries[k].name
  {
  }

  lemma {:induction false} FillingArray(s: Schema, w: Value)
    requires Fillable(s, w) && Valid(s, w) && NullFree(w) && w.Arr? && s.items.Some?
    ensures Fills(s, w)
    decreases s, 0
  {
    WidenedTypes(s);
    var v := Filled(s, w);
    forall i | 0 <= i < |w.elements|
      ensures Fills(s.items.value, w.elements[i])
    {
      assert w.elements[i] in w.elements;
      FillingUndoesStripping(s.items.value, w.elements[i]);
    }
    assert WithoutNulls(v).elements == w.elements;
    StructuresListNothing(s, w);
  }

  lemma {:induction false} FillingEntry(s: Schema, w: Value, e: Entry)
    requires Fillable(s, w) && Valid(s, w) && NullFree(w) && w.Obj? && s.closed && e in w.entries
    ensures var p := Find(s.properties, e.name);
      p.Some? && FilledEntry(s, e) == Entry(e.name, Filled(p.value.schema, e.value)) && Fills(p.value.schema, e.value)
    decreases s, 0
  {
    assert Declares(s.properties, e.name);
    FillingUndoesStripping(Find(s.properties, e.name).value.schema, e.value);
  }

  // An object that strips to another: that one's entries first, filled, and only nulls behind them.
  ghost predicate Mirrors(v: Value, w: Value) {
    && v.Obj? && w.Obj? && |w.entries| <= |v.entries|
    && (forall k :: 0 <= k < |w.entries| ==>
          v.entries[k].value != Null && Entry(v.entries[k].name, WithoutNulls(v.entries[k].value)) == w.entries[k])
    && (forall k :: |w.entries| <= k < |v.entries| ==> v.entries[k].value == Null)
  }

  lemma {:induction false} StrippingMirror(v: Value, w: Value, n: nat)
    requires Mirrors(v, w) && n <= |v.entries|
    ensures Stripped(v, n) == if n <= |w.entries| then w.entries[..n] else w.entries
    decreases n
  {
    if n > 0 {
      StrippingMirror(v, w, n - 1);
      if n <= |w.entries| {
        assert w.entries[..n] == w.entries[..n - 1] + [w.entries[n - 1]];
      } else {
        assert w.entries[..|w.entries|] == w.entries;
      }
    }
  }

  lemma MirrorStrips(v: Value, w: Value)
    requires Mirrors(v, w)
    ensures WithoutNulls(v) == w
  {
    StrippingMirror(v, w, |v.entries|);
    assert w.entries[..|w.entries|] == w.entries;
  }

  lemma {:induction false} FilledMirrors(s: Schema, w: Value)
    requires Fillable(s, w) && Valid(s, w) && NullFree(w) && w.Obj? && s.types == Some(One(ObjectType))
    ensures Mirrors(Filled(s, w), w)
    decreases s, 2
  {
    var v := Filled(s, w);
    MissingHolds(s.properties, w.entries);
    forall k | 0 <= k < |v.entries|
      ensures if k < |w.entries| then
                v.entries[k].value != Null && Entry(v.entries[k].name, WithoutNulls(v.entries[k].value)) == w.entries[k]
              else v.entries[k].value == Null
    {
      FilledAt(s, w, k);
      if k < |w.entries| {
        FillingEntry(s, w, w.entries[k]);
      } else {
        assert v.entries[k] in Missing(s.properties, w.entries);
      }
    }
  }

  // What the filled object says for one property of the widened schema.
  lemma {:induction false} FilledProperty(s: Schema, w: Value, p: Property, e: Entry)
    requires Fillable(s, w) && Valid(s, w) && NullFree(w) && w.Obj? && s.types == Some(One(ObjectType))
    requires p in s.properties && e in Filled(s, w).entries && p.name == e.name
    ensures Valid(WidenedProperty(s.required.GetOr([]), p).schema, e.value)
    decreases s, 2
  {
    var required := s.required.GetOr([]);
    var k :| 0 <= k < |Filled(s, w).entries| && Filled(s, w).entries[k] == e;
    FilledAt(s, w, k);
    UniqueProperty(s, p);
    if k < |w.entries| {
      FillingEntry(s, w, w.entries[k]);
      WidenedPropertyAdmits(required, p, e.value);
    } else {
      MissingHolds(s.properties, w.entries);
      assert e in Missing(s.properties, w.entries);
      assert p.name !in required;
      OptionalAdmitsNull(required, p);
    }
  }

  lemma FilledNames(s: Schema, w: Value, name: string)
    requires Fillable(s, w) && Valid(s, w) && w.Obj? && s.types == Some(One(ObjectType))
    ensures Has(Filled(s, w).entries, name) <==> Declares(s.properties, name)
  {
    var v, missing := Filled(s, w), Missing(s.properties, w.entries);
    MissingHolds(s.properties, w.entries);
    if Has(w.entries, name) {
      var i :| 0 <= i < |w.entries| && w.entries[i].name == name;
      FilledAt(s, w, i);
      assert v.entries[i] in v.entries && w.entries[i] in w.entries;
    } else if Declares(s.properties, name) {
      var i :| 0 <= i < |missing| && missing[i] == Entry(name, Null);
      FilledAt(s, w, |w.entries| + i);
      assert v.entries[|w.entries| + i] in v.entries;
    }
    if Has(v.entries, name) && !Has(w.entries, name) {
      var k :| 0 <= k < |v.entries| && v.entries[k].name == name;
      FilledAt(s, w, k);
      assert k < |w.entries| ==> w.entries[k] in w.entries;
    }
  }

  lemma {:induction false} FilledIsValid(s: Schema, w: Value)
    requires Fillable(s, w) && Valid(s, w) && NullFree(w) && w.Obj? && s.types == Some(One(ObjectType)) && s.enums.None?
    ensures Valid(WidenedObject(s), Filled(s, w))
    decreases s, 3, 0
  {
    var v, wide := Filled(s, w), WidenedObject(s);
    forall q, e | q in wide.properties && e in v.entries && q.name == e.name
      ensures Valid(q.schema, e.value)
    {
      var k :| 0 <= k < |wide.properties| && wide.properties[k] == q;
      var p := s.properties[k];
      assert q == WidenedProperty(s.required.GetOr([]), p) && p in s.properties;
      FilledProperty(s, w, p, e);
    }
    forall n | n in Names(s.properties)
      ensures Has(v.entries, n)
    {
      var k :| 0 <= k < |s.properties| && n == s.properties[k].name;
      assert s.properties[k] in s.properties;
      FilledNames(s, w, n);
    }
    forall e | e in v.entries
      ensures Declares(wide.properties, e.name)
    {
      FilledNames(s, w, e.name);
      WidenedDeclares(s, e.name);
    }
  }

  lemma {:induction false} FillingObject(s: Schema, w: Value)
    requires Fillable(s, w) && Valid(s, w) && NullFree(w) && w.Obj?
    ensures Fills(s, w)
    decreases s, 3, 1
  {
    StructuresListNothing(s, w);
    FilledIsValid(s, w);
    FilledMirrors(s, w);
    MirrorStrips(Filled(s, w), w);
  }

  // ---------- Exactly which values have a preimage ----------

  ghost predicate Strips(s: Schema, v: Value, w: Value) {
    Valid(Widened(s), v) && WithoutNulls(v) == w
  }

  // A listed optional field cannot be sent as null, and the widened schema requires it: so it is there.
  lemma ListedFieldStays(s: Schema, v: Value, p: Property)
    requires Typed(s) && s.types == Some(One(ObjectType)) && p in s.properties && p.schema.enums.Some?
    requires v.Obj? && Valid(Widened(s), v)
    ensures Has(WithoutNulls(v).entries, p.name)
  {
    WidenedTypes(s);
    PropertyWidens(s, p);
    WidenedTypes(p.schema);
    var e :| e in v.entries && e.name == p.name;
    assert Valid(WidenedProperty(s.required.GetOr([]), p).schema, e.value);
    NonNullStays(v, e);
  }

  lemma {:induction false} PreimageLeavesNoneOut(s: Schema, v: Value, w: Value)
    requires Typed(s) && Valid(Widened(s), v) && WithoutNulls(v) == w
    ensures LeavesNoneOut(s, w)
    decreases s
  {
    WidenedTypes(s);
    if w.Obj? {
      forall p | p in s.properties
        ensures p.name in s.required.GetOr([]) || p.schema.enums.None? || Has(w.entries, p.name)
      {
        if p.schema.enums.Some? {
          ListedFieldStays(s, v, p);
        }
      }
      forall p, e | p in s.properties && e in w.entries && e.name == p.name
        ensures LeavesNoneOut(p.schema, e.value)
      {
        var was := StrippedEntry(v, e);
        PropertyWidens(s, p);
        WidenedPropertyAsks(s.required.GetOr([]), p, was.value);
        PreimageLeavesNoneOut(p.schema, was.value, e.value);
      }
    }
    if w.Arr? && s.items.Some? {
      assert Widened(s).items == Some(Widened(s.items.value));
      forall x | x in w.elements
        ensures LeavesNoneOut(s.items.value, x)
      {
        var i :| 0 <= i < |v.elements| && x == WithoutNulls(v.elements[i]);
        assert v.elements[i] in v.elements;
        PreimageLeavesNoneOut(s.items.value, v.elements[i], x);
      }
    }
  }

  /** A null-free value the closed schema accepts is the stripping of some value the widened schema accepts if and
      only if no object in it, at any depth, leaves out an optional field that lists the values it takes. */
  lemma PreimageIff(s: Schema, w: Value)
    requires Typed(s) && Closed(s) && Valid(s, w) && NullFree(w)
    ensures (exists v :: Strips(s, v, w)) <==> LeavesNoneOut(s, w)
  {
    if LeavesNoneOut(s, w) {
      FillingUndoesStripping(s, w);
      assert Strips(s, Filled(s, w), w);
    }
    if v :| Strips(s, v, w) {
      PreimageLeavesNoneOut(s, v, w);
    }
  }

  /** There are such values: an object without its one optional field, which lists what it takes. */
  lemma SomeValueHasNoPreimage()
    ensures var kind := Schema(Some(One(StringType)), [], None, None, Some([Str("a")]), false, {});
      var s := Schema(Some(One(ObjectType)), [Property("kind", kind)], Some([]), None, None, true, {});
      && Typed(s) && Closed(s) && Valid(s, Obj([])) && NullFree(Obj([]))
      && forall v :: !Strips(s, v, Obj([]))
  {
    var kind := Schema(Some(One(StringType)), [], None, None, Some([Str("a")]), false, {});
    var s := Schema(Some(One(ObjectType)), [Property("kind", kind)], Some([]), None, None, true, {});
    assert Property("kind", kind) in s.properties;
    assert Typed(kind) && Closed(kind);
    PreimageIff(s, Obj([]));
  }

  /** The same for the schema OpenAI is sent: a null-free call the reduced schema accepts can be made if and only if
      it leaves out no optional field that lists its values; so all can, where no optional field lists any. */
  lemma CallCanBeMadeIff(s: Schema, w: Value)
    requires s.types == Some(One(ObjectType)) && NullFree(w)
    requires Typed(Reduced(s, OPENAI)) && Valid(Reduced(s, OPENAI), w)
    ensures (exists v :: Valid(OpenAI(s), v) && WithoutNulls(v) == w) <==> LeavesNoneOut(Reduced(s, OPENAI), w)
    ensures OptionalsAreOpen(Reduced(s, OPENAI)) ==> LeavesNoneOut(Reduced(s, OPENAI), w)
  {
    var r := Reduced(s, OPENAI);
    ReducedIsClosed(s, OPENAI);
    PreimageIff(r, w);
    assert Widened(r) == OpenAI(s);
    if v :| Valid(OpenAI(s), v) && WithoutNulls(v) == w {
      assert Strips(r, v, w);
    }
    if v :| Strips(r, v, w) {
      assert Valid(OpenAI(s), v) && WithoutNulls(v) == w;
    }
    if OptionalsAreOpen(r) {
      OpenLeavesNoneOut(r, w);
    }
  }
}
