/**
  Index definitions of a collection schema and their decoders.

  A raw definition is a JSON value; the decoders accept the three index
  kinds `exact`, `range` and `match` and reject everything else. Object
  properties the decoders do not look at are ignored.
 */
module CollectionSchema {
  import opened Results

  /**
    A JSON value. An object is its properties in enumeration order, and a
    well-formed one names each key once; `Lookup` reads the first entry.
   */
  datatype Value =
    | Null
    | Bool(b: bool)
    | Num(n: int)
    | Str(s: string)
    | Arr(items: seq<Value>)
    | Obj(props: seq<(string, Value)>)

  datatype TokenFilter = Downcase | Ngram(tokenLength: int)

  datatype Tokenizer = Standard

  datatype IndexDef =
    | Exact(field: string)
    | Range(field: string)
    | Match(fields: seq<string>, tokenFilters: seq<TokenFilter>, tokenizer: Tokenizer)
  {
    /** The `kind` tag of the definition. */
    function Kind(): string {
      match this
      case Exact(_) => "exact"
      case Range(_) => "range"
      case Match(_, _, _) => "match"
    }

    /** The fields the index reads, in the order it names them. */
    function Fields(): seq<string> {
      match this
      case Exact(f) => [f]
      case Range(f) => [f]
      case Match(fs, _, _) => fs
    }
  }

  /** The value of the first entry called `key`, if any. */
  function Lookup<V>(props: seq<(string, V)>, key: string): (r: Option<V>)
    ensures r.Some? ==> (key, r.value) in props
    ensures r.None? ==> forall i :: 0 <= i < |props| ==> props[i].0 != key
  {
    if |props| == 0 then None
    else if props[0].0 == key then Some(props[0].1)
    else Lookup(props[1..], key)
  }

  /** The first property called `key` is the one at index `i`. */
  lemma {:induction false} LookupAt<V>(props: seq<(string, V)>, key: string, i: nat)
    requires i < |props| && props[i].0 == key
    requires forall j :: 0 <= j < i ==> props[j].0 != key
    ensures Lookup(props, key) == Some(props[i].1)
    decreases i
  {
    if i > 0 {
      LookupAt(props[1..], key, i - 1);
    }
  }

  /** Property `key` of an object; other values have no properties. */
  function Get(v: Value, key: string): Option<Value> {
    if v.Obj? then Lookup(v.props, key) else None
  }

  predicate HasKind(v: Value, kind: string) {
    Get(v, "kind") == Some(Str(kind))
  }

  /** Property `key` when it is a string. */
  function GetString(v: Value, key: string): (r: Option<string>)
    ensures r.Some? <==> Get(v, key).Some? && Get(v, key).value.Str?
    ensures r.Some? ==> Get(v, key) == Some(Str(r.value))
  {
    match Get(v, key)
    case Some(Str(s)) => Some(s)
    case _ => None
  }

  /** An array of strings; any other element rejects the whole array. */
  function DecodeStrings(items: seq<Value>): (r: Option<seq<string>>)
    ensures r.Some? <==> forall i :: 0 <= i < |items| ==> items[i].Str?
    ensures r.Some? ==> |r.value| == |items| && forall i :: 0 <= i < |items| ==> items[i] == Str(r.value[i])
  {
    if |items| == 0 then Some([])
    else match (items[0], DecodeStrings(items[1..]))
      case (Str(s), Some(rest)) => Some([s] + rest)
      case _ => None
  }

  /** A token filter: `downcase`, or `ngram` with a numeric `tokenLength`. */
  function DecodeTokenFilter(v: Value): (r: Option<TokenFilter>)
    ensures r == Some(Downcase) <==> HasKind(v, "downcase")
    ensures r.Some? <==>
              HasKind(v, "downcase")
              || (HasKind(v, "ngram") && Get(v, "tokenLength").Some? && Get(v, "tokenLength").value.Num?)
    ensures r.Some? && r.value.Ngram? ==>
              HasKind(v, "ngram") && Get(v, "tokenLength") == Some(Num(r.value.tokenLength))
  {
    if HasKind(v, "downcase") then Some(Downcase)
    else if HasKind(v, "ngram") then
      match Get(v, "tokenLength")
      case Some(Num(n)) => Some(Ngram(n))
      case _ => None
    else None
  }

  /** An array of token filters; any element that is not one rejects the whole array. */
  function DecodeTokenFilters(items: seq<Value>): (r: Option<seq<TokenFilter>>)
    ensures r.Some? <==> forall i :: 0 <= i < |items| ==> DecodeTokenFilter(items[i]).Some?
    ensures r.Some? ==> |r.value| == |items|
                        && forall i :: 0 <= i < |items| ==> DecodeTokenFilter(items[i]) == Some(r.value[i])
  {
    if |items| == 0 then Some([])
    else match (DecodeTokenFilter(items[0]), DecodeTokenFilters(items[1..]))
      case (Some(f), Some(rest)) => Some([f] + rest)
      case _ => None
  }

  /** `standard` is the only tokenizer kind. */
  function DecodeTokenizer(v: Value): (r: Option<Tokenizer>)
    ensures r.Some? <==> Get(v, "kind") == Some(Str("standard"))
  {
    if HasKind(v, "standard") then Some(Standard) else None
  }

  /** `ExactIndex.decode`. */
  function DecodeExact(v: Value): (r: Option<IndexDef>)
    ensures r.Some? <==> HasKind(v, "exact") && GetString(v, "field").Some?
    ensures r.Some? ==> r.value == Exact(GetString(v, "field").value)
  {
    if HasKind(v, "exact") then
      match GetString(v, "field")
      case Some(f) => Some(Exact(f))
      case None => None
    else None
  }

  /** `RangeIndex.decode`. */
  function DecodeRange(v: Value): (r: Option<IndexDef>)
    ensures r.Some? <==> HasKind(v, "range") && GetString(v, "field").Some?
    ensures r.Some? ==> r.value == Range(GetString(v, "field").value)
  {
    if HasKind(v, "range") then
      match GetString(v, "field")
      case Some(f) => Some(Range(f))
      case None => None
    else None
  }

  /** `MatchIndex.decode`: `fields` must be an array of strings. */
  function DecodeMatch(v: Value): (r: Option<IndexDef>)
    ensures r.Some? ==> HasKind(v, "match") && r.value.Match?
    ensures r.Some? ==> Get(v, "fields").Some? && Get(v, "fields").value.Arr?
    ensures Get(v, "fields").Some? && Get(v, "fields").value.Str? ==> r.None?
    ensures r.Some? <==>
              HasKind(v, "match")
              && Get(v, "fields").Some? && Get(v, "fields").value.Arr?
              && DecodeStrings(Get(v, "fields").value.items).Some?
              && Get(v, "tokenFilters").Some? && Get(v, "tokenFilters").value.Arr?
              && DecodeTokenFilters(Get(v, "tokenFilters").value.items).Some?
              && Get(v, "tokenizer").Some? && DecodeTokenizer(Get(v, "tokenizer").value).Some?
    ensures r.Some? ==>
              r.value == Match(DecodeStrings(Get(v, "fields").value.items).value,
                               DecodeTokenFilters(Get(v, "tokenFilters").value.items).value,
                               DecodeTokenizer(Get(v, "tokenizer").value).value)
  {
    if !HasKind(v, "match") then None
    else
      match (Get(v, "fields"), Get(v, "tokenFilters"), Get(v, "tokenizer"))
      case (Some(Arr(fs)), Some(Arr(tfs)), Some(tk)) =>
        (match (DecodeStrings(fs), DecodeTokenFilters(tfs), DecodeTokenizer(tk))
         case (Some(fields), Some(filters), Some(tokenizer)) => Some(Match(fields, filters, tokenizer))
         case _ => None)
      case _ => None
  }

  /** An index definition of any of the three kinds. */
  function DecodeIndex(v: Value): (r: Option<IndexDef>)
    ensures r.Some? ==> Get(v, "kind") == Some(Str(r.value.Kind()))
    ensures r.Some? <==> DecodeExact(v).Some? || DecodeRange(v).Some? || DecodeMatch(v).Some?
    ensures r.Some? ==> r == DecodeExact(v) || r == DecodeRange(v) || r == DecodeMatch(v)
    ensures HasKind(v, "exact") ==> r == DecodeExact(v)
    ensures HasKind(v, "range") ==> r == DecodeRange(v)
    ensures HasKind(v, "match") ==> r == DecodeMatch(v)
  {
    match DecodeExact(v)
    case Some(d) => Some(d)
    case None =>
      match DecodeRange(v)
      case Some(d) => Some(d)
      case None => DecodeMatch(v)
  }

  /** Why a schema was rejected. Only type mismatches carry a known message. */
  datatype SchemaError =
    | MalformedIndexes
    | MalformedIndex(name: string)
    | MalformedSchema
    | UndeclaredField(index: string, field: string)
    | TypeMismatch(kind: string, allowed: seq<FieldType>, field: string, actual: FieldType)

  datatype FieldType = StringType | NumberType | BigintType | DateType | BooleanType {
    function Name(): string {
      match this
      case StringType => "string"
      case NumberType => "number"
      case BigintType => "bigint"
      case DateType => "date"
      case BooleanType => "boolean"
    }
  }

  /** The field type a type name in a schema's `type` object denotes. */
  function ParseFieldType(name: string): (r: Option<FieldType>)
    ensures r.Some? ==> r.value.Name() == name
    ensures r.None? ==> forall t: FieldType :: t.Name() != name
  {
    match name
    case "string" => Some(StringType)
    case "number" => Some(NumberType)
    case "bigint" => Some(BigintType)
    case "date" => Some(DateType)
    case "boolean" => Some(BooleanType)
    case _ => None
  }

  /**
    `parseIndexDefinition`: every property of the `indexes` object must
    decode as an index definition; names and order are kept.
   */
  function ParseIndexes(v: Value): (r: Result<seq<(string, IndexDef)>, SchemaError>)
    ensures r.Ok? <==> v.Obj? && forall i :: 0 <= i < |v.props| ==> DecodeIndex(v.props[i].1).Some?
    ensures r.Ok? ==> |r.value| == |v.props|
                      && forall i :: 0 <= i < |v.props| ==>
                           r.value[i] == (v.props[i].0, DecodeIndex(v.props[i].1).value)
  {
    if v.Obj? then
      match ParseIndexEntries(v.props)
      case Ok(defs) => Ok(defs)
      case Err(e) => Err(e)
    else Err(MalformedIndexes)
  }

  function ParseIndexEntries(props: seq<(string, Value)>): (r: Result<seq<(string, IndexDef)>, SchemaError>)
    ensures r.Ok? <==> forall i :: 0 <= i < |props| ==> DecodeIndex(props[i].1).Some?
    ensures r.Ok? ==> |r.value| == |props|
                      && forall i :: 0 <= i < |props| ==> r.value[i] == (props[i].0, DecodeIndex(props[i].1).value)
  {
    if |props| == 0 then Ok([])
    else
      match (DecodeIndex(props[0].1), ParseIndexEntries(props[1..]))
      case (None, _) => Err(MalformedIndex(props[0].0))
      case (_, Err(e)) => Err(e)
      case (Some(d), Ok(rest)) => Ok([(props[0].0, d)] + rest)
  }
}
