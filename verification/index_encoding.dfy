/**
  The canonical JSON form of an index definition, and the round trip
  through the decoders: every definition the model can hold is accepted
  back unchanged from its own JSON form.
 */
module IndexEncoding {
  import opened Results
  import opened CollectionSchema

  function EncodeTokenFilter(f: TokenFilter): Value {
    match f
    case Downcase => Obj([("kind", Str("downcase"))])
    case Ngram(n) => Obj([("kind", Str("ngram")), ("tokenLength", Num(n))])
  }

  function EncodeTokenizer(t: Tokenizer): Value {
    match t
    case Standard => Obj([("kind", Str("standard"))])
  }

  function EncodeIndex(d: IndexDef): Value {
    match d
    case Exact(f) => Obj([("kind", Str("exact")), ("field", Str(f))])
    case Range(f) => Obj([("kind", Str("range")), ("field", Str(f))])
    case Match(fs, tfs, tk) =>
      Obj([("kind", Str("match")),
           ("fields", Arr(seq(|fs|, i requires 0 <= i < |fs| => Str(fs[i])))),
           ("tokenFilters", Arr(seq(|tfs|, i requires 0 <= i < |tfs| => EncodeTokenFilter(tfs[i])))),
           ("tokenizer", EncodeTokenizer(tk))])
  }

  /** An `indexes` object holding `defs` under their names, in order. */
  function EncodeIndexes(defs: seq<(string, IndexDef)>): Value {
    Obj(seq(|defs|, i requires 0 <= i < |defs| => (defs[i].0, EncodeIndex(defs[i].1))))
  }

  lemma TokenFilterRoundTrip(f: TokenFilter)
    ensures DecodeTokenFilter(EncodeTokenFilter(f)) == Some(f)
  {
    var v := EncodeTokenFilter(f);
    if f.Ngram? {
      assert "ngram" != "downcase";
      assert "tokenLength" != "kind";
      LookupAt(v.props, "tokenLength", 1);
    }
  }

  /** An array of encoded token filters decodes back to the same filters. */
  lemma TokenFiltersRoundTrip(tfs: seq<TokenFilter>)
    ensures DecodeTokenFilters(seq(|tfs|, i requires 0 <= i < |tfs| => EncodeTokenFilter(tfs[i]))) == Some(tfs)
  {
    var items := seq(|tfs|, i requires 0 <= i < |tfs| => EncodeTokenFilter(tfs[i]));
    forall i | 0 <= i < |tfs|
      ensures DecodeTokenFilter(items[i]) == Some(tfs[i])
    {
      TokenFilterRoundTrip(tfs[i]);
    }
    var r := DecodeTokenFilters(items);
    assert r.Some?;
    assert r.value == tfs;
  }

  lemma ExactRoundTrip(f: string)
    ensures DecodeExact(EncodeIndex(Exact(f))) == Some(Exact(f))
  {
    assert "field" != "kind";
    LookupAt(EncodeIndex(Exact(f)).props, "field", 1);
  }

  lemma RangeRoundTrip(f: string)
    ensures DecodeExact(EncodeIndex(Range(f))).None?
    ensures DecodeRange(EncodeIndex(Range(f))) == Some(Range(f))
  {
    assert "range" != "exact";
    assert "field" != "kind";
    LookupAt(EncodeIndex(Range(f)).props, "field", 1);
  }

  /** An array of encoded strings decodes back to the same strings. */
  lemma StringsRoundTrip(fs: seq<string>)
    ensures DecodeStrings(seq(|fs|, i requires 0 <= i < |fs| => Str(fs[i]))) == Some(fs)
  {
    var got := DecodeStrings(seq(|fs|, i requires 0 <= i < |fs| => Str(fs[i])));
    assert got.Some?;
    assert got.value == fs;
  }

  /** The properties of an encoded match index, as the decoder looks them up. */
  lemma MatchProperties(fs: seq<string>, tfs: seq<TokenFilter>, tk: Tokenizer)
    ensures var v := EncodeIndex(Match(fs, tfs, tk));
            && Get(v, "kind") == Some(Str("match"))
            && Get(v, "fields") == Some(Arr(seq(|fs|, i requires 0 <= i < |fs| => Str(fs[i]))))
            && Get(v, "tokenFilters") == Some(Arr(seq(|tfs|, i requires 0 <= i < |tfs| => EncodeTokenFilter(tfs[i]))))
            && Get(v, "tokenizer") == Some(EncodeTokenizer(tk))
  {
    var v := EncodeIndex(Match(fs, tfs, tk));
    assert "fields" != "kind";
    assert "tokenFilters" != "kind" && "tokenFilters" != "fields";
    assert "tokenizer" != "kind" && "tokenizer" != "fields" && "tokenizer" != "tokenFilters";
    LookupAt(v.props, "fields", 1);
    LookupAt(v.props, "tokenFilters", 2);
    LookupAt(v.props, "tokenizer", 3);
  }

  lemma MatchRoundTrip(fs: seq<string>, tfs: seq<TokenFilter>, tk: Tokenizer)
    ensures DecodeExact(EncodeIndex(Match(fs, tfs, tk))).None?
    ensures DecodeRange(EncodeIndex(Match(fs, tfs, tk))).None?
    ensures DecodeMatch(EncodeIndex(Match(fs, tfs, tk))) == Some(Match(fs, tfs, tk))
  {
    MatchProperties(fs, tfs, tk);
    assert "match" != "exact" && "match" != "range";
    StringsRoundTrip(fs);
    TokenFiltersRoundTrip(tfs);
    assert DecodeTokenizer(EncodeTokenizer(tk)) == Some(tk);
  }

  /** Every index definition decodes back from its canonical form, through the decoder of its own kind. */
  lemma IndexRoundTrip(d: IndexDef)
    ensures DecodeIndex(EncodeIndex(d)) == Some(d)
  {
    match d
    case Exact(f) => ExactRoundTrip(f);
    case Range(f) => RangeRoundTrip(f);
    case Match(fs, tfs, tk) => MatchRoundTrip(fs, tfs, tk);
  }

  /** `parseIndexDefinition` accepts any `indexes` object built from definitions and returns them unchanged. */
  lemma IndexesRoundTrip(defs: seq<(string, IndexDef)>)
    ensures ParseIndexes(EncodeIndexes(defs)) == Ok(defs)
  {
    var v := EncodeIndexes(defs);
    forall i | 0 <= i < |defs|
      ensures DecodeIndex(v.props[i].1) == Some(defs[i].1)
    {
      IndexRoundTrip(defs[i].1);
    }
    var r := ParseIndexes(v);
    assert r.Ok?;
    assert r.value == defs;
  }
}
