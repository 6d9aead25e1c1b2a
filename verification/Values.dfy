/** JSON values (`serde_json::Value`) and the tool-output contract check. */
module Values {
  import opened Prelude

  datatype Json =
    | Null
    | Bool(b: bool)
    | Integer(i: int)
    | Float(r: real)
    | Str(s: string)
    | Arr(elems: seq<Json>)
    | Obj(members: map<string, Json>)

  /** `Value::get`: a member of an object, nothing on any other kind. */
  function Get(v: Json, field: string): Option<Json>
  {
    if v.Obj? && field in v.members then Some(v.members[field]) else None
  }

  function AsStr(v: Option<Json>): Option<string>
  {
    if v.Some? && v.value.Str? then Some(v.value.s) else None
  }

  const EMPTY_OBJECT := Obj(map[])

  /** The kinds a schema may declare for a field; any other declaration admits nothing. */
  predicate HasKind(v: Json, kind: Json)
  {
    kind.Str? &&
    match kind.s
    case "string" => v.Str?
    // `is_i64() || is_u64()`
    case "integer" => v.Integer? && -0x8000_0000_0000_0000 <= v.i < 0x1_0000_0000_0000_0000
    case "number" => v.Integer? || v.Float?
    case "boolean" => v.Bool?
    case "object" => v.Obj?
    case "array" => v.Arr?
    case _ => false
  }

  /** The kinds a value is of; null is of none. */
  function KindsOf(v: Json): set<string>
  {
    match v
    case Null => {}
    case Bool(_) => {"boolean"}
    case Integer(i) => if -9223372036854775808 <= i <= 18446744073709551615 then {"integer", "number"} else {"number"}
    case Float(_) => {"number"}
    case Str(_) => {"string"}
    case Arr(_) => {"array"}
    case Obj(_) => {"object"}
  }

  /** A field's declaration is met exactly by the values of the kind it names. */
  lemma KindsExact(v: Json, kind: Json)
    ensures HasKind(v, kind) <==> kind.Str? && kind.s in KindsOf(v)
  {
  }

  /** What the schema promises of an output: exactly the declared fields, each of its kind.
      A schema that is not an object promises nothing. */
  ghost predicate Conforms(output: Json, schema: Json)
  {
    schema.Obj? ==>
      && output.Obj?
      && output.members.Keys == schema.members.Keys
      && forall f | f in schema.members :: HasKind(output.members[f], schema.members[f])
  }

  /** The schema is a contract: from a conforming output no declared field may be dropped, no other
      added, and a field may be changed exactly to a value of its declared kind. */
  lemma TamperingBreaks(output: map<string, Json>, schema: map<string, Json>, f: string, v: Json)
    requires Conforms(Obj(output), Obj(schema))
    ensures f in schema ==> !Conforms(Obj(output - {f}), Obj(schema))
    ensures f !in schema ==> !Conforms(Obj(output[f := v]), Obj(schema))
    ensures f in schema ==>
              (Conforms(Obj(output[f := v]), Obj(schema)) <==> schema[f].Str? && schema[f].s in KindsOf(v))
  {
    if f in schema { KindsExact(v, schema[f]); }
  }

  /** Conforming outputs are built field by field from the empty object; a schema that is no object
      asks nothing, and one that is asks for an object. */
  lemma ConformsByField(output: map<string, Json>, schema: map<string, Json>, f: string, v: Json, kind: Json, other: Json)
    ensures Conforms(Obj(map[]), Obj(map[]))
    ensures Conforms(Obj(output), Obj(schema)) && f !in schema && kind.Str? && kind.s in KindsOf(v) ==>
              Conforms(Obj(output[f := v]), Obj(schema[f := kind]))
    ensures !other.Obj? ==> Conforms(v, other) && !Conforms(other, Obj(schema))
  {
    KindsExact(v, kind);
  }

  /** The two scans of `validate_output`, over fields in whatever order the maps yield them. */
  method ValidateOutput(output: Json, schema: Json) returns (ok: bool)
    ensures ok <==> Conforms(output, schema)
  {
    if !schema.Obj? { return true; }
    if !output.Obj? { return false; }
    var declared, todo := schema.members.Keys, schema.members.Keys;
    while todo != {}
      invariant todo <= declared
      invariant forall f | f in declared - todo ::
        f in output.members && HasKind(output.members[f], schema.members[f])
      decreases |todo|
    {
      var field :| field in todo;
      if field !in output.members { return false; }
      if !HasKind(output.members[field], schema.members[field]) { return false; }
      todo := todo - {field};
    }
    var given := output.members.Keys;
    while given != {}
      invariant given <= output.members.Keys
      invariant forall f | f in output.members.Keys - given :: f in schema.members
      decreases |given|
    {
      var key :| key in given;
      if key !in schema.members { return false; }
      given := given - {key};
    }
    return true;
  }
}
