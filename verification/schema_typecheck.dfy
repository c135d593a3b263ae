/**
  The collection-schema typechecker: every field an index reads must be
  declared in the schema's `type` object with a type the index kind works
  on. `match` works on strings; `range` on numbers, bigints, dates and
  booleans; the types `exact` works on are a parameter.
 */
module SchemaTypecheck {
  import opened Results
  import opened CollectionSchema

  const MatchTypes: seq<FieldType> := [StringType]
  const RangeTypes: seq<FieldType> := [NumberType, BigintType, DateType, BooleanType]

  /** A typechecked schema: declared field types and index definitions, in source order. */
  datatype Schema = Schema(types: seq<(string, FieldType)>, indexes: seq<(string, IndexDef)>)

  /** The field types index `d` works on, in the order its error message lists them. */
  function AllowedTypes(d: IndexDef, exactTypes: seq<FieldType>): seq<FieldType> {
    match d
    case Exact(_) => exactTypes
    case Range(_) => RangeTypes
    case Match(_, _, _) => MatchTypes
  }

  /** Type names separated by ", ". */
  function JoinNames(ts: seq<FieldType>): string {
    if |ts| == 0 then ""
    else if |ts| == 1 then ts[0].Name()
    else ts[0].Name() + ", " + JoinNames(ts[1..])
  }

  /** The text of a type-mismatch message, from the names it quotes. */
  function MessageText(kind: string, allowedNames: string, field: string, actualName: string): string {
    "index type \"" + kind + "\" works on fields of type \"" + allowedNames
      + "\" but field \"" + field + "\" is of type \"" + actualName + "\""
  }

  /** The message of a type mismatch. */
  function MismatchMessage(kind: string, allowed: seq<FieldType>, field: string, actual: FieldType): (r: string)
    ensures "index type \"" + kind + "\" works on fields of type \"" + JoinNames(allowed) <= r
    ensures var tail := "\" but field \"" + field + "\" is of type \"" + actual.Name() + "\"";
            |tail| <= |r| && r[|r| - |tail|..] == tail
  {
    MessageText(kind, JoinNames(allowed), field, actual.Name())
  }

  /** `field` is declared with one of the `allowed` types. */
  predicate FieldTypeChecks(types: seq<(string, FieldType)>, allowed: seq<FieldType>, field: string) {
    Lookup(types, field).Some? && Lookup(types, field).value in allowed
  }

  /** The typing rule, stated for the whole schema at once. */
  predicate WellTyped(types: seq<(string, FieldType)>, indexes: seq<(string, IndexDef)>, exactTypes: seq<FieldType>) {
    forall i, j :: 0 <= i < |indexes| && 0 <= j < |indexes[i].1.Fields()| ==>
      FieldTypeChecks(types, AllowedTypes(indexes[i].1, exactTypes), indexes[i].1.Fields()[j])
  }

  /**
    The error names a real offence of index `d`: an undeclared field it
    reads, or a field it reads whose declared type its kind does not
    work on, with that kind's list of types.
   */
  predicate BlamesIndex(e: SchemaError, name: string, d: IndexDef, types: seq<(string, FieldType)>,
                        exactTypes: seq<FieldType>) {
    match e
    case UndeclaredField(n, f) =>
      n == name && f in d.Fields() && Lookup(types, f).None?
    case TypeMismatch(k, allowed, f, t) =>
      k == d.Kind() && allowed == AllowedTypes(d, exactTypes) && f in d.Fields()
      && Lookup(types, f) == Some(t) && t !in allowed
    case _ => false
  }

  /** Check the fields of one index, stopping at the first offending field. */
  function CheckFields(name: string, d: IndexDef, fields: seq<string>, types: seq<(string, FieldType)>,
                       exactTypes: seq<FieldType>): (r: Result<(), SchemaError>)
    requires forall j :: 0 <= j < |fields| ==> fields[j] in d.Fields()
    ensures r.Ok? <==> forall j :: 0 <= j < |fields| ==>
                         FieldTypeChecks(types, AllowedTypes(d, exactTypes), fields[j])
    ensures r.Err? ==> BlamesIndex(r.error, name, d, types, exactTypes)
  {
    if |fields| == 0 then Ok(())
    else
      var allowed := AllowedTypes(d, exactTypes);
      match Lookup(types, fields[0])
      case None => Err(UndeclaredField(name, fields[0]))
      case Some(t) =>
        if t in allowed then CheckFields(name, d, fields[1..], types, exactTypes)
        else Err(TypeMismatch(d.Kind(), allowed, fields[0], t))
  }

  /** Check the indexes in order, stopping at the first offending one. */
  function CheckIndexes(types: seq<(string, FieldType)>, indexes: seq<(string, IndexDef)>,
                        exactTypes: seq<FieldType>): (r: Result<(), SchemaError>)
    ensures r.Ok? <==> WellTyped(types, indexes, exactTypes)
    ensures r.Err? ==> exists i :: 0 <= i < |indexes|
                         && BlamesIndex(r.error, indexes[i].0, indexes[i].1, types, exactTypes)
  {
    if |indexes| == 0 then Ok(())
    else
      var (name, d) := indexes[0];
      match CheckFields(name, d, d.Fields(), types, exactTypes)
      case Err(e) => Err(e)
      case Ok(_) =>
        var rest := CheckIndexes(types, indexes[1..], exactTypes);
        assert rest.Err? ==> exists i :: 1 <= i < |indexes|
                               && BlamesIndex(rest.error, indexes[i].0, indexes[i].1, types, exactTypes) by {
          if rest.Err? {
            var i :| 0 <= i < |indexes[1..]|
                     && BlamesIndex(rest.error, indexes[1..][i].0, indexes[1..][i].1, types, exactTypes);
            assert indexes[i + 1] == indexes[1..][i];
          }
        }
        rest
  }

  /** The entries of the schema's `type` object, each naming a field type. */
  function ParseTypeEntries(props: seq<(string, Value)>): (r: Result<seq<(string, FieldType)>, SchemaError>)
    ensures r.Ok? <==> forall i :: 0 <= i < |props| ==> props[i].1.Str? && ParseFieldType(props[i].1.s).Some?
    ensures r.Ok? ==> |r.value| == |props|
                      && forall i :: 0 <= i < |props| ==>
                           r.value[i].0 == props[i].0 && props[i].1 == Str(r.value[i].1.Name())
  {
    if |props| == 0 then Ok([])
    else
      match (props[0].1, ParseTypeEntries(props[1..]))
      case (Str(s), Ok(rest)) =>
        (match ParseFieldType(s)
         case Some(t) => Ok([(props[0].0, t)] + rest)
         case None => Err(MalformedSchema))
      case (_, Err(e)) => Err(e)
      case _ => Err(MalformedSchema)
  }

  /** A `type` object declaring `types`, in order. */
  function EncodeTypes(types: seq<(string, FieldType)>): Value {
    Obj(seq(|types|, i requires 0 <= i < |types| => (types[i].0, Str(types[i].1.Name()))))
  }

  /** Every field type's name parses back to that type. */
  lemma FieldTypeRoundTrip(t: FieldType)
    ensures ParseFieldType(t.Name()) == Some(t)
  {
    assert "number" != "string";
    assert "bigint" != "string" && "bigint" != "number";
    assert "date" != "string" && "date" != "number" && "date" != "bigint";
    assert "boolean" != "string" && "boolean" != "number" && "boolean" != "bigint" && "boolean" != "date";
  }

  /** A `type` object built from declarations parses back to the same declarations. */
  lemma {:induction false} TypeEntriesRoundTrip(types: seq<(string, FieldType)>)
    ensures ParseTypeEntries(EncodeTypes(types).props) == Ok(types)
    decreases |types|
  {
    if |types| > 0 {
      var props := EncodeTypes(types).props;
      TypeEntriesRoundTrip(types[1..]);
      assert props[1..] == EncodeTypes(types[1..]).props;
      FieldTypeRoundTrip(types[0].1);
      assert props[0] == (types[0].0, Str(types[0].1.Name()));
      assert ParseTypeEntries(props) == Ok([(types[0].0, types[0].1)] + types[1..]);
      assert types == [types[0]] + types[1..];
    }
  }

  /** Decode the schema's `type` and `indexes` properties. */
  function DecodeSchema(v: Value): (r: Result<Schema, SchemaError>)
    ensures r.Ok? ==> Get(v, "indexes").Some? && ParseIndexes(Get(v, "indexes").value) == Ok(r.value.indexes)
    ensures r.Ok? ==> Get(v, "type").Some? && Get(v, "type").value.Obj?
                      && |r.value.types| == |Get(v, "type").value.props|
    ensures r.Ok? <==>
              Get(v, "type").Some? && Get(v, "type").value.Obj?
              && ParseTypeEntries(Get(v, "type").value.props).Ok?
              && Get(v, "indexes").Some? && ParseIndexes(Get(v, "indexes").value).Ok?
    ensures r.Ok? ==>
              r.value == Schema(ParseTypeEntries(Get(v, "type").value.props).value,
                                ParseIndexes(Get(v, "indexes").value).value)
  {
    match (Get(v, "type"), Get(v, "indexes"))
    case (Some(Obj(typeProps)), Some(indexValue)) =>
      (match (ParseTypeEntries(typeProps), ParseIndexes(indexValue))
       case (Ok(types), Ok(indexes)) => Ok(Schema(types, indexes))
       case (Err(e), _) => Err(e)
       case (_, Err(e)) => Err(e))
    case _ => Err(MalformedSchema)
  }

  /**
    `typecheckCollectionSchemaDefinition`: decode the schema, then apply the
    typing rule to it.
   */
  function Typecheck(v: Value, exactTypes: seq<FieldType>): (r: Result<Schema, SchemaError>)
    ensures r.Ok? <==> DecodeSchema(v).Ok?
                       && WellTyped(DecodeSchema(v).value.types, DecodeSchema(v).value.indexes, exactTypes)
    ensures r.Ok? ==> r.value == DecodeSchema(v).value
    ensures r.Err? && DecodeSchema(v).Ok? ==>
              var schema := DecodeSchema(v).value;
              exists i :: 0 <= i < |schema.indexes|
                && BlamesIndex(r.error, schema.indexes[i].0, schema.indexes[i].1, schema.types, exactTypes)
  {
    match DecodeSchema(v)
    case Err(e) => Err(e)
    case Ok(schema) =>
      match CheckIndexes(schema.types, schema.indexes, exactTypes)
      case Ok(_) => Ok(schema)
      case Err(e) => Err(e)
  }
}
