/**
  The index definitions and schemas of the collection-schema parser's
  behaviour, written as JSON values, with what the parser and the
  typechecker do with each.
 */
module SchemaExamples {
  import opened Results
  import opened CollectionSchema
  import opened IndexEncoding
  import opened SchemaTypecheck
  import opened MismatchMessages

  const ExactTitle: Value := Obj([("kind", Str("exact")), ("field", Str("title"))])
  const GarbageTitle: Value := Obj([("kind", Str("garbage")), ("field", Str("title"))])
  const RangeTitle: Value := Obj([("kind", Str("range")), ("field", Str("title"))])

  const TitleFilters: Value :=
    Arr([Obj([("kind", Str("downcase"))]), Obj([("kind", Str("ngram")), ("tokenLength", Num(3))])])
  const StandardTokenizer: Value := Obj([("kind", Str("standard"))])

  /** A match index over the given `fields` value with the downcase and 3-gram filters. */
  function MatchOver(fields: Value): Value {
    Obj([("kind", Str("match")), ("fields", fields), ("tokenFilters", TitleFilters), ("tokenizer", StandardTokenizer)])
  }

  const MatchTitle: Value := MatchOver(Arr([Str("title")]))
  const MatchTitleDef: IndexDef := Match(["title"], [Downcase, Ngram(3)], Standard)

  const MovieIndexes: Value :=
    Obj([("exactTitle", ExactTitle),
         ("runningTime", Obj([("kind", Str("range")), ("field", Str("runningTime"))])),
         ("year", Obj([("kind", Str("range")), ("field", Str("year"))])),
         ("title", MatchTitle)])

  const MovieIndexDefs: seq<(string, IndexDef)> :=
    [("exactTitle", Exact("title")), ("runningTime", Range("runningTime")),
     ("year", Range("year")), ("title", MatchTitleDef)]

  const MovieTypes: Value :=
    Obj([("title", Str("string")), ("runningTime", Str("number")), ("year", Str("number"))])

  lemma ExactIndexExamples()
    ensures DecodeExact(ExactTitle) == Some(Exact("title"))
    ensures DecodeExact(GarbageTitle).None?
  {
    assert ExactTitle == EncodeIndex(Exact("title"));
    ExactRoundTrip("title");
    assert "garbage" != "exact";
  }

  lemma RangeIndexExamples()
    ensures DecodeRange(RangeTitle) == Some(Range("title"))
    ensures DecodeRange(GarbageTitle).None?
  {
    assert RangeTitle == EncodeIndex(Range("title"));
    RangeRoundTrip("title");
    assert "garbage" != "range";
  }

  /** A match index over one field, with the test's filters and tokenizer, is the canonical form of its definition. */
  lemma MatchOverIsCanonical(field: string)
    ensures MatchOver(Arr([Str(field)])) == EncodeIndex(Match([field], [Downcase, Ngram(3)], Standard))
  {
    var fs: seq<string> := [field];
    var fields := seq(|fs|, i requires 0 <= i < |fs| => Str(fs[i]));
    assert fields == [Str(field)];
    var tfs: seq<TokenFilter> := [Downcase, Ngram(3)];
    var filters := seq(|tfs|, i requires 0 <= i < |tfs| => EncodeTokenFilter(tfs[i]));
    assert filters[0] == Obj([("kind", Str("downcase"))]);
    assert filters[1] == Obj([("kind", Str("ngram")), ("tokenLength", Num(3))]);
    assert filters == TitleFilters.items;
  }

  lemma MatchIndexAccepted()
    ensures DecodeMatch(MatchTitle) == Some(MatchTitleDef)
  {
    MatchOverIsCanonical("title");
    MatchRoundTrip(["title"], [Downcase, Ngram(3)], Standard);
  }

  /** `fields` given as a plain string rather than an array is rejected. */
  lemma MatchIndexFieldsMustBeArray()
    ensures DecodeMatch(MatchOver(Str("title"))).None?
  {
    assert "fields" != "kind";
    LookupAt(MatchOver(Str("title")).props, "fields", 1);
  }

  /** An `indexes` object mixing exact, range and match entries parses, keeping every entry. */
  lemma MixedIndexesParse()
    ensures ParseIndexes(MovieIndexes) == Ok(MovieIndexDefs)
  {
    var encoded := EncodeIndexes(MovieIndexDefs);
    MatchOverIsCanonical("title");
    assert encoded.props[0] == MovieIndexes.props[0];
    assert encoded.props[1] == MovieIndexes.props[1];
    assert encoded.props[2] == MovieIndexes.props[2];
    assert encoded.props[3] == MovieIndexes.props[3];
    assert encoded == MovieIndexes;
    IndexesRoundTrip(MovieIndexDefs);
  }

  /** A schema object with the given `type` and `indexes` values. */
  function SchemaOf(types: Value, indexes: Value): Value {
    Obj([("type", types), ("indexes", indexes)])
  }

  lemma SchemaProperties(types: Value, indexes: Value)
    ensures Get(SchemaOf(types, indexes), "type") == Some(types)
    ensures Get(SchemaOf(types, indexes), "indexes") == Some(indexes)
  {
    assert "indexes" != "type";
    LookupAt(SchemaOf(types, indexes).props, "indexes", 1);
  }

  const MovieTypeDefs: seq<(string, FieldType)> :=
    [("title", StringType), ("runningTime", NumberType), ("year", NumberType)]

  lemma MovieTypesParse()
    ensures ParseTypeEntries(MovieTypes.props) == Ok(MovieTypeDefs)
  {
    var encoded := EncodeTypes(MovieTypeDefs);
    assert encoded.props[0] == MovieTypes.props[0];
    assert encoded.props[1] == MovieTypes.props[1];
    assert encoded.props[2] == MovieTypes.props[2];
    assert encoded == MovieTypes;
    TypeEntriesRoundTrip(MovieTypeDefs);
  }

  lemma MovieFieldTypes()
    ensures Lookup(MovieTypeDefs, "title") == Some(StringType)
    ensures Lookup(MovieTypeDefs, "runningTime") == Some(NumberType)
    ensures Lookup(MovieTypeDefs, "year") == Some(NumberType)
  {
    assert "runningTime" != "title";
    assert "year" != "title" && "year" != "runningTime";
    assert MovieTypeDefs[1..][1..] == [("year", NumberType)];
  }

  lemma MovieSchemaDecodes()
    ensures DecodeSchema(SchemaOf(MovieTypes, MovieIndexes)) == Ok(Schema(MovieTypeDefs, MovieIndexDefs))
  {
    SchemaProperties(MovieTypes, MovieIndexes);
    MovieTypesParse();
    MixedIndexesParse();
  }

  /** Every field the movie indexes read is declared with a type their kind works on. */
  lemma MovieIndexesWellTyped(exactTypes: seq<FieldType>)
    requires StringType in exactTypes
    ensures WellTyped(MovieTypeDefs, MovieIndexDefs, exactTypes)
  {
    MovieFieldTypes();
    var defs := MovieIndexDefs;
    forall i, j | 0 <= i < |defs| && 0 <= j < |defs[i].1.Fields()|
      ensures FieldTypeChecks(MovieTypeDefs, AllowedTypes(defs[i].1, exactTypes), defs[i].1.Fields()[j])
    {
      if i == 0 {
        assert defs[i].1.Fields()[j] == "title";
      } else if i == 1 {
        assert defs[i].1.Fields()[j] == "runningTime";
      } else if i == 2 {
        assert defs[i].1.Fields()[j] == "year";
      } else {
        assert defs[i].1.Fields()[j] == "title";
      }
    }
  }

  /**
    Match indexes on string fields and range indexes on number fields
    typecheck, whatever exact indexes accept as long as it includes strings.
   */
  lemma MovieSchemaTypechecks(exactTypes: seq<FieldType>)
    requires StringType in exactTypes
    ensures Typecheck(SchemaOf(MovieTypes, MovieIndexes), exactTypes) == Ok(Schema(MovieTypeDefs, MovieIndexDefs))
  {
    MovieSchemaDecodes();
    MovieIndexesWellTyped(exactTypes);
  }

  const RunningTimeMatch: Value := MatchOver(Arr([Str("runningTime")]))
  const RunningTimeMatchDef: IndexDef := Match(["runningTime"], [Downcase, Ngram(3)], Standard)

  /** A schema declaring one field and holding one index decodes to exactly that declaration and index. */
  lemma SingleIndexSchemaDecodes(field: string, t: FieldType, name: string, def: IndexDef)
    ensures DecodeSchema(SchemaOf(EncodeTypes([(field, t)]), EncodeIndexes([(name, def)])))
            == Ok(Schema([(field, t)], [(name, def)]))
  {
    SchemaProperties(EncodeTypes([(field, t)]), EncodeIndexes([(name, def)]));
    TypeEntriesRoundTrip([(field, t)]);
    IndexesRoundTrip([(name, def)]);
  }

  /**
    A schema whose one index reads one declared field of a type its kind
    does not work on fails with the mismatch for that field.
   */
  lemma SingleFieldMismatch(field: string, t: FieldType, name: string, def: IndexDef, exactTypes: seq<FieldType>)
    requires def.Fields() == [field]
    requires t !in AllowedTypes(def, exactTypes)
    ensures Typecheck(SchemaOf(EncodeTypes([(field, t)]), EncodeIndexes([(name, def)])), exactTypes)
            == Err(TypeMismatch(def.Kind(), AllowedTypes(def, exactTypes), field, t))
  {
    SingleIndexSchemaDecodes(field, t, name, def);
    assert Lookup([(field, t)], field) == Some(t);
    assert CheckFields(name, def, [field], [(field, t)], exactTypes)
        == Err(TypeMismatch(def.Kind(), AllowedTypes(def, exactTypes), field, t));
  }

  /** A match index over a number field fails, naming the field, its type and the string requirement. */
  lemma MatchOnNumberRejected(exactTypes: seq<FieldType>)
    ensures var r := Typecheck(SchemaOf(Obj([("runningTime", Str("number"))]), Obj([("title", RunningTimeMatch)])), exactTypes);
            r == Err(TypeMismatch("match", MatchTypes, "runningTime", NumberType))
            && MismatchMessage(r.error.kind, r.error.allowed, r.error.field, r.error.actual) == MatchMessage
  {
    MatchOverIsCanonical("runningTime");
    assert EncodeTypes([("runningTime", NumberType)]) == Obj([("runningTime", Str("number"))]);
    assert EncodeIndexes([("title", RunningTimeMatchDef)]) == Obj([("title", RunningTimeMatch)]);
    SingleFieldMismatch("runningTime", NumberType, "title", RunningTimeMatchDef, exactTypes);
    MatchMismatchMessage();
  }

  /** A range index over a string field fails, listing the four types a range index works on. */
  lemma RangeOnStringRejected(exactTypes: seq<FieldType>)
    ensures var r := Typecheck(SchemaOf(Obj([("title", Str("string"))]), Obj([("title", RangeTitle)])), exactTypes);
            r == Err(TypeMismatch("range", RangeTypes, "title", StringType))
            && MismatchMessage(r.error.kind, r.error.allowed, r.error.field, r.error.actual) == RangeMessage
  {
    assert EncodeTypes([("title", StringType)]) == Obj([("title", Str("string"))]);
    assert EncodeIndexes([("title", Range("title"))]) == Obj([("title", RangeTitle)]);
    SingleFieldMismatch("title", StringType, "title", Range("title"), exactTypes);
    RangeMismatchMessage();
  }
}
