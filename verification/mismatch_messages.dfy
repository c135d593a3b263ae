/**
  The type-mismatch messages of the collection-schema typechecker, rendered
  for the two schemas whose exact wording is fixed.
 */
module MismatchMessages {
  import opened CollectionSchema
  import opened SchemaTypecheck

  const MatchMessage: string :=
    "index type \"match\" works on fields of type \"string\" but field \"runningTime\" is of type \"number\""

  const RangeMessage: string :=
    "index type \"range\" works on fields of type \"number, bigint, date, boolean\" but field \"title\" is of type \"string\""

  // The solver does not equate a long concatenation with a literal in one
  // step, so each message is matched piece by piece: the *Opening, *Closing
  // and RangeTypeList lemmas each equate one stretch of it.

  /** The message up to the quoted field name. */
  lemma MatchOpening()
    ensures "index type \"" + "match" + "\" works on fields of type \"" + "string" + "\" but field \""
            == "index type \"match\" works on fields of type \"string\" but field \""
  {
    assert "index type \"" + "match" == "index type \"match";
    assert "index type \"match" + "\" works on fields of type \"" == "index type \"match\" works on fields of type \"";
    assert "index type \"match\" works on fields of type \"" + "string" == "index type \"match\" works on fields of type \"string";
  }

  /** The rest of the message, from the field name on. */
  lemma MatchClosing()
    ensures "index type \"match\" works on fields of type \"string\" but field \"" + "runningTime" + "\" is of type \"" + "number" + "\"" == MatchMessage
  {
    assert "index type \"match\" works on fields of type \"string\" but field \"" + "runningTime" == "index type \"match\" works on fields of type \"string\" but field \"runningTime";
    assert "index type \"match\" works on fields of type \"string\" but field \"runningTime" + "\" is of type \"" == "index type \"match\" works on fields of type \"string\" but field \"runningTime\" is of type \"";
    assert "index type \"match\" works on fields of type \"string\" but field \"runningTime\" is of type \"" + "number" == "index type \"match\" works on fields of type \"string\" but field \"runningTime\" is of type \"number";
  }

  lemma MatchMessageText()
    ensures MessageText("match", "string", "runningTime", "number") == MatchMessage
  {
    MatchOpening();
    MatchClosing();
  }

  /** The message up to the quoted list of types. */
  lemma RangeOpening()
    ensures "index type \"" + "range" + "\" works on fields of type \"" == "index type \"range\" works on fields of type \""
  {
    assert "index type \"" + "range" == "index type \"range";
  }

  /** The list of types and the words before the field name. */
  lemma RangeTypeList()
    ensures "index type \"range\" works on fields of type \"" + "number, bigint, date, boolean" + "\" but field \"" == "index type \"range\" works on fields of type \"number, bigint, date, boolean\" but field \""
  {
    assert "index type \"range\" works on fields of type \"" + "number, bigint, date, boolean" == "index type \"range\" works on fields of type \"number, bigint, date, boolean";
  }

  /** The rest of the message, from the field name on. */
  lemma RangeClosing()
    ensures "index type \"range\" works on fields of type \"number, bigint, date, boolean\" but field \"" + "title" + "\" is of type \"" + "string" + "\"" == RangeMessage
  {
    assert "index type \"range\" works on fields of type \"number, bigint, date, boolean\" but field \"" + "title" == "index type \"range\" works on fields of type \"number, bigint, date, boolean\" but field \"title";
    assert "index type \"range\" works on fields of type \"number, bigint, date, boolean\" but field \"title" + "\" is of type \"" == "index type \"range\" works on fields of type \"number, bigint, date, boolean\" but field \"title\" is of type \"";
    assert "index type \"range\" works on fields of type \"number, bigint, date, boolean\" but field \"title\" is of type \"" + "string" == "index type \"range\" works on fields of type \"number, bigint, date, boolean\" but field \"title\" is of type \"string";
  }

  lemma RangeMessageText()
    ensures MessageText("range", "number, bigint, date, boolean", "title", "string") == RangeMessage
  {
    RangeOpening();
    RangeTypeList();
    RangeClosing();
  }

  /** The last two range types, rendered. */
  lemma RangeTypesTailJoined()
    ensures JoinNames(RangeTypes[2..]) == "date, boolean"
  {
    assert RangeTypes[2..][1..] == [BooleanType];
    assert "date" + ", " + "boolean" == "date, boolean";
  }

  /** The range list is rendered in the order the message gives it. */
  lemma RangeTypesJoined()
    ensures JoinNames(RangeTypes) == "number, bigint, date, boolean"
  {
    RangeTypesTailJoined();
    assert RangeTypes[1..][1..] == RangeTypes[2..];
    assert JoinNames(RangeTypes[1..]) == "bigint" + ", " + "date, boolean";
    assert "bigint" + ", " + "date, boolean" == "bigint, date, boolean";
    assert "number" + ", " + "bigint, date, boolean" == "number, bigint, date, boolean";
  }

  /** A match index over a number field is reported with the string requirement. */
  lemma MatchMismatchMessage()
    ensures MismatchMessage("match", MatchTypes, "runningTime", NumberType) == MatchMessage
  {
    assert JoinNames(MatchTypes) == "string";
    MatchMessageText();
  }

  /** A range index over a string field is reported with the four range types. */
  lemma RangeMismatchMessage()
    ensures MismatchMessage("range", RangeTypes, "title", StringType) == RangeMessage
  {
    RangeTypesJoined();
    RangeMessageText();
  }
}
