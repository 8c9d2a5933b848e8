/** The Lexicon validator: records checked against a nested schema, open to fields the schema does not name. */
module Lexicon {
  import opened Chunks
  import opened Json

  datatype FieldType = StringType | IntegerType | BooleanType | ArrayType | ObjectType | BytesType | RefType | UnionType | UnknownType

  datatype Schema = Schema(
    kind: FieldType,
    maxLength: Option<int>,
    minLength: Option<int>,
    allowed: Option<seq<string>>,
    minimum: Option<real>,
    maximum: Option<real>,
    items: Option<Schema>,
    maxItems: Option<int>,
    properties: Properties,
    required: Option<seq<string>>)

  /** The declared properties of an object schema, if it declares any. */
  datatype Properties = NoProperties | Properties(value: seq<Property>)

  datatype Property = Property(key: string, schema: Schema)

  datatype Step = Key(k: string) | Index(i: nat)

  datatype Problem =
    | WrongType(expected: FieldType) | TooLong | TooShort | NotAllowed | TooSmall | TooLarge | TooManyItems | Missing

  datatype Error = Error(path: seq<Step>, problem: Problem)

  function Value(fs: seq<Field>, k: string): Json
    requires HasKey(fs, k)
  {
    fs[IndexOf(fs, k)].value
  }

  predicate IsInteger(x: real) {
    x == x.Floor as real
  }

  // ----- what a valid record is -----

  /** `v` is what the schema asks for; null and absent values are never the schema's business. */
  predicate Conforms(v: Json, s: Schema)
    decreases s, 1
  {
    s.kind.UnknownType? || v.Null? || v.Undefined? ||
    match s.kind
    case StringType =>
      && v.Str?
      && (s.maxLength.Some? ==> |v.s| <= s.maxLength.value)
      && (s.minLength.Some? ==> |v.s| >= s.minLength.value)
      && (s.allowed.Some? ==> v.s in s.allowed.value)
    case IntegerType =>
      && v.Num? && IsInteger(v.x)
      && (s.minimum.Some? ==> v.x >= s.minimum.value)
      && (s.maximum.Some? ==> v.x <= s.maximum.value)
    case BooleanType => v.Bool?
    case ArrayType =>
      && v.Arr?
      && (s.maxItems.Some? ==> |v.items| <= s.maxItems.value)
      && (s.items.Some? ==> forall i :: 0 <= i < |v.items| ==> Conforms(v.items[i], s.items.value))
    case ObjectType =>
      && v.Obj?
      && (s.required.Some? ==> forall r :: r in s.required.value ==> HasKey(v.fields, r))
      && (s.properties.Properties? ==>
            forall i :: 0 <= i < |s.properties.value| ==> PropertyConforms(v.fields, s.properties.value[i]))
    case BytesType => v.Str?
    case _ => true
  }

  predicate PropertyConforms(fs: seq<Field>, p: Property)
    decreases p, 0
  {
    HasKey(fs, p.key) ==> Conforms(Value(fs, p.key), p.schema)
  }

  // ----- the validator -----

  ghost predicate Under(errors: seq<Error>, path: seq<Step>) {
    forall e :: e in errors ==> path <= e.path
  }

  /** Which kind of value each type asks for; anything else is reported as being of the wrong type, and nothing more of it. */
  predicate TypeReported(errors: seq<Error>, value: Json, kind: FieldType, path: seq<Step>) {
    && (kind.StringType? && !value.Str? ==> errors == [Error(path, WrongType(StringType))])
    && (kind.IntegerType? && !value.Num? ==> errors == [Error(path, WrongType(IntegerType))])
    && (kind.BooleanType? ==> errors == if value.Bool? then [] else [Error(path, WrongType(BooleanType))])
    && (kind.ArrayType? && !value.Arr? ==> errors == [Error(path, WrongType(ArrayType))])
    && (kind.ObjectType? && !value.Obj? ==> errors == [Error(path, WrongType(ObjectType))])
    && (kind.BytesType? ==> errors == if value.Str? then [] else [Error(path, WrongType(BytesType))])
    && (kind.RefType? || kind.UnionType? || kind.UnknownType? ==> errors == [])
  }

  /** Reports nothing exactly when the value conforms; every report is located at or below the value's path. */
  method ValidateField(value: Json, schema: Schema, path: seq<Step>) returns (errors: seq<Error>)
    ensures errors == [] <==> Conforms(value, schema)
    ensures Under(errors, path)
    ensures value.Null? || value.Undefined? || schema.kind.UnknownType? ==> errors == []
    ensures !value.Null? && !value.Undefined? ==> TypeReported(errors, value, schema.kind, path)
    decreases schema, 1
  {
    hide Conforms, TypeReported;
    errors := [];
    if schema.kind.UnknownType? {
      NothingAsked(value, schema, path);
      return;
    }
    if value.Null? || value.Undefined? {
      NothingAsked(value, schema, path);
      return;
    }
    match schema.kind {
      case StringType => errors := ValidateString(value, schema, path);
      case IntegerType => errors := ValidateInteger(value, schema, path);
      case BooleanType => errors := ValidateBoolean(value, schema, path);
      case ArrayType => errors := ValidateArray(value, schema, path);
      case ObjectType => errors := ValidateObject(value, schema, path);
      case BytesType => errors := ValidateBytes(value, schema, path);
      case _ => NothingAsked(value, schema, path);
    }
  }

  lemma NothingAsked(value: Json, schema: Schema, path: seq<Step>)
    requires value.Null? || value.Undefined? || schema.kind.UnknownType? || schema.kind.RefType? || schema.kind.UnionType?
    ensures Conforms(value, schema)
    ensures schema.kind.UnknownType? || schema.kind.RefType? || schema.kind.UnionType? ==> TypeReported([], value, schema.kind, path)
  {
  }

  /** Each limit is reported exactly when it is broken. */
  method ValidateString(value: Json, schema: Schema, path: seq<Step>) returns (errors: seq<Error>)
    requires schema.kind.StringType? && !value.Null? && !value.Undefined?
    ensures (errors == [] <==> Conforms(value, schema)) && Under(errors, path) && TypeReported(errors, value, StringType, path)
    ensures value.Str? ==>
              && (Error(path, TooLong) in errors <==> schema.maxLength.Some? && |value.s| > schema.maxLength.value)
              && (Error(path, TooShort) in errors <==> schema.minLength.Some? && |value.s| < schema.minLength.value)
              && (Error(path, NotAllowed) in errors <==> schema.allowed.Some? && value.s !in schema.allowed.value)
              && forall e :: e in errors ==> e.path == path && e.problem in {TooLong, TooShort, NotAllowed}
  {
    errors := [];
    if !value.Str? {
      return [Error(path, WrongType(StringType))];
    }
    if schema.maxLength.Some? && |value.s| > schema.maxLength.value {
      errors := errors + [Error(path, TooLong)];
    }
    if schema.minLength.Some? && |value.s| < schema.minLength.value {
      errors := errors + [Error(path, TooShort)];
    }
    if schema.allowed.Some? && value.s !in schema.allowed.value {
      errors := errors + [Error(path, NotAllowed)];
    }
  }

  /** A number that is not whole has the wrong type. */
  method ValidateInteger(value: Json, schema: Schema, path: seq<Step>) returns (errors: seq<Error>)
    requires schema.kind.IntegerType? && !value.Null? && !value.Undefined?
    ensures (errors == [] <==> Conforms(value, schema)) && Under(errors, path) && TypeReported(errors, value, IntegerType, path)
    ensures value.Num? && !IsInteger(value.x) ==> errors == [Error(path, WrongType(IntegerType))]
    ensures value.Num? && IsInteger(value.x) ==>
              && (Error(path, TooSmall) in errors <==> schema.minimum.Some? && value.x < schema.minimum.value)
              && (Error(path, TooLarge) in errors <==> schema.maximum.Some? && value.x > schema.maximum.value)
              && forall e :: e in errors ==> e.path == path && e.problem in {TooSmall, TooLarge}
  {
    errors := [];
    if !value.Num? || !IsInteger(value.x) {
      return [Error(path, WrongType(IntegerType))];
    }
    if schema.minimum.Some? && value.x < schema.minimum.value {
      errors := errors + [Error(path, TooSmall)];
    }
    if schema.maximum.Some? && value.x > schema.maximum.value {
      errors := errors + [Error(path, TooLarge)];
    }
  }

  /** Whole numbers are whole, and nothing between two of them is. */
  lemma WholeNumbers(n: int, f: real)
    requires 0.0 <= f < 1.0
    ensures IsInteger(n as real + f) <==> f == 0.0
  {
    assert (n as real + f).Floor == n;
  }

  method ValidateBoolean(value: Json, schema: Schema, path: seq<Step>) returns (errors: seq<Error>)
    requires schema.kind.BooleanType? && !value.Null? && !value.Undefined?
    ensures (errors == [] <==> Conforms(value, schema)) && Under(errors, path) && TypeReported(errors, value, BooleanType, path)
  {
    errors := if value.Bool? then [] else [Error(path, WrongType(BooleanType))];
  }

  method ValidateBytes(value: Json, schema: Schema, path: seq<Step>) returns (errors: seq<Error>)
    requires schema.kind.BytesType? && !value.Null? && !value.Undefined?
    ensures (errors == [] <==> Conforms(value, schema)) && Under(errors, path) && TypeReported(errors, value, BytesType, path)
  {
    errors := if value.Str? then [] else [Error(path, WrongType(BytesType))];
  }

  method ValidateArray(value: Json, schema: Schema, path: seq<Step>) returns (errors: seq<Error>)
    requires schema.kind.ArrayType? && !value.Null? && !value.Undefined?
    ensures (errors == [] <==> Conforms(value, schema)) && Under(errors, path) && TypeReported(errors, value, ArrayType, path)
    ensures value.Arr? ==> (Error(path, TooManyItems) in errors <==> schema.maxItems.Some? && |value.items| > schema.maxItems.value)
    decreases schema, 0
  {
    errors := [];
    if !value.Arr? {
      return [Error(path, WrongType(ArrayType))];
    }
    if schema.maxItems.Some? && |value.items| > schema.maxItems.value {
      errors := errors + [Error(path, TooManyItems)];
    }
    ghost var before := errors;
    if schema.items.Some? {
      for i := 0 to |value.items|
        invariant Under(errors, path)
        invariant Error(path, TooManyItems) in errors <==> Error(path, TooManyItems) in before
        invariant errors == [] <==> before == [] && forall j :: 0 <= j < i ==> Conforms(value.items[j], schema.items.value)
      {
        hide Conforms, TypeReported;
        var itemErrors := ValidateField(value.items[i], schema.items.value, path + [Index(i)]);
        Deeper(itemErrors, path, Index(i));
        errors := errors + itemErrors;
      }
    }
  }

  lemma Deeper(errors: seq<Error>, path: seq<Step>, step: Step)
    requires Under(errors, path + [step])
    ensures Under(errors, path) && forall e :: e in errors ==> e.path != path
  {
    forall e | e in errors ensures path <= e.path && e.path != path {
      assert path + [step] <= e.path;
    }
  }

  method ValidateObject(value: Json, schema: Schema, path: seq<Step>) returns (errors: seq<Error>)
    requires schema.kind.ObjectType? && !value.Null? && !value.Undefined?
    ensures (errors == [] <==> Conforms(value, schema)) && Under(errors, path) && TypeReported(errors, value, ObjectType, path)
    decreases schema, 0
  {
    errors := [];
    if !value.Obj? {
      return [Error(path, WrongType(ObjectType))];
    }
    errors := CheckRequired(value.fields, if schema.required.Some? then schema.required.value else [], path);
    if schema.properties.Properties? {
      var more := ValidateProperties(value.fields, schema.properties.value, path);
      errors := errors + more;
    }
  }

  method CheckRequired(fs: seq<Field>, required: seq<string>, path: seq<Step>) returns (errors: seq<Error>)
    ensures errors == [] <==> forall r :: r in required ==> HasKey(fs, r)
    ensures Under(errors, path)
    ensures forall e :: e in errors <==> exists r :: r in required && !HasKey(fs, r) && e == Error(path + [Key(r)], Missing)
  {
    errors := [];
    for i := 0 to |required|
      invariant Under(errors, path)
      invariant forall e :: e in errors <==> exists r :: r in required[..i] && !HasKey(fs, r) && e == Error(path + [Key(r)], Missing)
      invariant errors == [] <==> forall j :: 0 <= j < i ==> HasKey(fs, required[j])
    {
      if !HasKey(fs, required[i]) {
        errors := errors + [Error(path + [Key(required[i])], Missing)];
      }
    }
  }

  method ValidateProperties(fs: seq<Field>, properties: seq<Property>, path: seq<Step>) returns (errors: seq<Error>)
    ensures errors == [] <==> forall i :: 0 <= i < |properties| ==> PropertyConforms(fs, properties[i])
    ensures Under(errors, path)
    decreases properties
  {
    errors := [];
    for i := 0 to |properties|
      invariant Under(errors, path)
      invariant errors == [] <==> forall j :: 0 <= j < i ==> PropertyConforms(fs, properties[j])
    {
      var p := properties[i];
      if HasKey(fs, p.key) {
        var fieldErrors := ValidateField(Value(fs, p.key), p.schema, path + [Key(p.key)]);
        errors := errors + fieldErrors;
      }
    }
  }

  /** A record definition: the object schema of a Lexicon's main definition. */
  datatype RecordSchema = RecordSchema(required: Option<seq<string>>, properties: seq<Property>)

  function AsSchema(r: RecordSchema): Schema {
    Schema(ObjectType, None, None, None, None, None, None, None, Properties(r.properties), r.required)
  }

  method ValidateRecordData(data: seq<Field>, schema: RecordSchema) returns (valid: bool, errors: seq<Error>)
    ensures valid <==> errors == []
    ensures valid <==> Conforms(Obj(data), AsSchema(schema))
  {
    errors := CheckRequired(data, if schema.required.Some? then schema.required.value else [], []);
    var more := ValidateProperties(data, schema.properties, []);
    errors := errors + more;
    valid := errors == [];
  }

  // ----- open world -----

  predicate Declared(s: Schema, k: string) {
    || (s.required.Some? && k in s.required.value)
    || (s.properties.Properties? && exists i :: 0 <= i < |s.properties.value| && s.properties.value[i].key == k)
  }

  /** `w` is `v` but for fields the schema does not declare, at any depth the schema describes. */
  predicate SameDeclared(w: Json, v: Json, s: Schema)
    decreases s, 1
  {
    || w == v
    || (s.kind.ArrayType? && w.Arr? && v.Arr? && |w.items| == |v.items|
        && (s.items.Some? ==> forall i :: 0 <= i < |v.items| ==> SameDeclared(w.items[i], v.items[i], s.items.value)))
    || (s.kind.ObjectType? && w.Obj? && v.Obj?
        && (forall r :: s.required.Some? && r in s.required.value ==> (HasKey(w.fields, r) <==> HasKey(v.fields, r)))
        && (s.properties.Properties? ==>
              forall i :: 0 <= i < |s.properties.value| ==> SameProperty(w.fields, v.fields, s.properties.value[i])))
  }

  predicate SameProperty(w: seq<Field>, v: seq<Field>, p: Property)
    decreases p, 0
  {
    && (HasKey(w, p.key) <==> HasKey(v, p.key))
    && (HasKey(w, p.key) && HasKey(v, p.key) ==> SameDeclared(Value(w, p.key), Value(v, p.key), p.schema))
  }

  /** Fields the schema does not declare never change the verdict, at any depth. */
  lemma {:induction false} UndeclaredIgnored(w: Json, v: Json, s: Schema)
    requires SameDeclared(w, v, s)
    ensures Conforms(w, s) <==> Conforms(v, s)
    decreases s
  {
    if w != v {
      if s.kind.ArrayType? {
        if s.items.Some? {
          forall i | 0 <= i < |v.items| ensures Conforms(w.items[i], s.items.value) <==> Conforms(v.items[i], s.items.value) {
            UndeclaredIgnored(w.items[i], v.items[i], s.items.value);
          }
        }
      } else if s.properties.Properties? {
        forall i | 0 <= i < |s.properties.value|
          ensures PropertyConforms(w.fields, s.properties.value[i]) <==> PropertyConforms(v.fields, s.properties.value[i])
        {
          var p := s.properties.value[i];
          assert SameProperty(w.fields, v.fields, p);
          if HasKey(w.fields, p.key) {
            UndeclaredIgnored(Value(w.fields, p.key), Value(v.fields, p.key), p.schema);
          }
        }
      }
    }
  }

  lemma {:induction false} AppendedKey(fs: seq<Field>, f: Field, k: string)
    requires k != f.key
    ensures HasKey(fs + [f], k) <==> HasKey(fs, k)
    ensures HasKey(fs, k) ==> Value(fs + [f], k) == Value(fs, k)
  {
    if HasKey(fs, k) {
      var i :| 0 <= i < |fs| && fs[i].key == k;
      assert (fs + [f])[i].key == k;
      if fs[0].key != k {
        assert fs[1..][i - 1].key == k;
        AppendedKey(fs[1..], f, k);
        assert (fs + [f])[1..] == fs[1..] + [f];
      }
    }
  }

  /** In particular, adding one undeclared field to a record leaves its verdict alone. */
  lemma AddUndeclared(fs: seq<Field>, f: Field, s: Schema)
    requires s.kind.ObjectType? && !Declared(s, f.key)
    ensures Conforms(Obj(fs + [f]), s) <==> Conforms(Obj(fs), s)
  {
    if s.required.Some? {
      forall r | r in s.required.value ensures HasKey(fs + [f], r) <==> HasKey(fs, r) {
        AppendedKey(fs, f, r);
      }
    }
    if s.properties.Properties? {
      forall i | 0 <= i < |s.properties.value| ensures SameProperty(fs + [f], fs, s.properties.value[i]) {
        AppendedKey(fs, f, s.properties.value[i].key);
      }
    }
    UndeclaredIgnored(Obj(fs + [f]), Obj(fs), s);
  }

  // ----- weaker schemas -----

  predicate Dropped<T(==)>(weaker: Option<T>, stronger: Option<T>) {
    weaker.None? || weaker == stronger
  }

  /** `t` asks for no more than `s`: constraints removed, at any depth. */
  predicate Relaxes(t: Schema, s: Schema)
    decreases t, 1
  {
    t.kind.UnknownType? ||
    (&& t.kind == s.kind
     && Dropped(t.maxLength, s.maxLength) && Dropped(t.minLength, s.minLength) && Dropped(t.allowed, s.allowed)
     && Dropped(t.minimum, s.minimum) && Dropped(t.maximum, s.maximum) && Dropped(t.maxItems, s.maxItems)
     && (t.items.Some? ==> s.items.Some? && Relaxes(t.items.value, s.items.value))
     && (t.required.Some? ==> s.required.Some? && forall r :: r in t.required.value ==> r in s.required.value)
     && (t.properties.Properties? ==> s.properties.Properties?)
     && (t.properties.Properties? && s.properties.Properties? ==>
           forall i :: 0 <= i < |t.properties.value| ==> RelaxesOne(t.properties.value[i], s.properties.value)))
  }

  predicate RelaxesOne(p: Property, ps: seq<Property>)
    decreases p, 0
  {
    exists j :: 0 <= j < |ps| && ps[j].key == p.key && Relaxes(p.schema, ps[j].schema)
  }

  /** Removing constraints never makes a valid record invalid. */
  lemma {:induction false} RelaxingKeepsValid(v: Json, t: Schema, s: Schema)
    requires Relaxes(t, s) && Conforms(v, s)
    ensures Conforms(v, t)
    decreases t
  {
    if !t.kind.UnknownType? && !v.Null? && !v.Undefined? {
      if t.kind.ArrayType? && t.items.Some? {
        forall i | 0 <= i < |v.items| ensures Conforms(v.items[i], t.items.value) {
          RelaxingKeepsValid(v.items[i], t.items.value, s.items.value);
        }
      }
      if t.kind.ObjectType? && t.properties.Properties? {
        forall i | 0 <= i < |t.properties.value| ensures PropertyConforms(v.fields, t.properties.value[i]) {
          var p := t.properties.value[i];
          assert RelaxesOne(p, s.properties.value);
          var j :| 0 <= j < |s.properties.value| && s.properties.value[j].key == p.key && Relaxes(p.schema, s.properties.value[j].schema);
          assert PropertyConforms(v.fields, s.properties.value[j]);
          if HasKey(v.fields, p.key) {
            RelaxingKeepsValid(Value(v.fields, p.key), p.schema, s.properties.value[j].schema);
          }
        }
      }
    }
  }
}
