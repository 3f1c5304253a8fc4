/**
 * The tests of `TestContentType`: the content types each test constructs,
 * the loops that construct them, and what the tests assert of the results.
 */
module TestContentType {
  import opened Results
  import opened Text
  import opened Grammar
  import opened ContentTypes
  import opened ContentTypeProofs

  // ---------------------------------------------------------------------
  // The loops of the tests
  // ---------------------------------------------------------------------

  /**
   * The loop of `TestContentTypeValidation`: construct each content type in
   * turn; the first `InvalidFormatException` ends the test.
   */
  method ConstructEach(contentTypes: seq<string>) returns (thrown: Option<InvalidFormat>)
    ensures thrown.None? <==> forall i :: 0 <= i < |contentTypes| ==> Parse(contentTypes[i]).Success?
    ensures thrown.Some? ==>
      exists i :: 0 <= i < |contentTypes| && Parse(contentTypes[i]) == Failure(thrown.value)
        && forall j :: 0 <= j < i ==> Parse(contentTypes[j]).Success?
  {
    for i := 0 to |contentTypes|
      invariant forall j :: 0 <= j < i ==> Parse(contentTypes[j]).Success?
    {
      var r := Parse(contentTypes[i]);
      if r.Failure? {
        return Some(r.error);
      }
    }
    return None;
  }

  /**
   * The loop of the three rejection tests: constructing each content type
   * must throw (`catch ... continue`); the first one that does not is the one
   * `Assert.Fail` reports.
   */
  method ExpectEachRejected(contentTypes: seq<string>) returns (accepted: Option<string>)
    ensures accepted.None? <==> forall i :: 0 <= i < |contentTypes| ==> Parse(contentTypes[i]).Failure?
    ensures accepted.Some? ==>
      exists i :: 0 <= i < |contentTypes| && contentTypes[i] == accepted.value
        && Parse(accepted.value).Success?
        && forall j :: 0 <= j < i ==> Parse(contentTypes[j]).Failure?
  {
    for i := 0 to |contentTypes|
      invariant forall j :: 0 <= j < i ==> Parse(contentTypes[j]).Failure?
    {
      if Parse(contentTypes[i]).Success? {
        return Some(contentTypes[i]);
      }
    }
    return None;
  }

  // ---------------------------------------------------------------------
  // TestContentTypeValidation (rule M1.13)
  // ---------------------------------------------------------------------

  const ValidContentTypes: seq<string> :=
    ["text/xml", "application/pgp-key", "application/vnd.hp-PCLXL", "application/vnd.lotus-1-2-3"]

  /**
   * Each valid content type is its type, a `/` and its subtype. Kept apart from
   * the vector lemmas so that the literals are split with no `Parse` in context.
   */
  lemma ValidContentTypeLayouts()
    ensures "text/xml" == "text" + "/" + "xml"
    ensures "application/pgp-key" == "application" + "/" + "pgp-key"
    ensures "application/vnd.hp-PCLXL" == "application" + "/" + "vnd.hp-PCLXL"
    ensures "application/vnd.lotus-1-2-3" == "application" + "/" + "vnd.lotus-1-2-3"
  {
  }

  // One lemma per content type of the list.

  lemma ValidVector0(s: string)
    requires s == "text/xml"
    ensures Parse(s) == Success(ContentType("text", "xml", []))
  {
    ValidContentTypeLayouts();
    TypeSubtypeAccepted(s, "text", "xml");
  }

  lemma ValidVector1(s: string)
    requires s == "application/pgp-key"
    ensures Parse(s) == Success(ContentType("application", "pgp-key", []))
  {
    ValidContentTypeLayouts();
    TypeSubtypeAccepted(s, "application", "pgp-key");
  }

  lemma ValidVector2(s: string)
    requires s == "application/vnd.hp-PCLXL"
    ensures Parse(s) == Success(ContentType("application", "vnd.hp-PCLXL", []))
  {
    ValidContentTypeLayouts();
    TypeSubtypeAccepted(s, "application", "vnd.hp-PCLXL");
  }

  lemma ValidVector3(s: string)
    requires s == "application/vnd.lotus-1-2-3"
    ensures Parse(s) == Success(ContentType("application", "vnd.lotus-1-2-3", []))
  {
    ValidContentTypeLayouts();
    TypeSubtypeAccepted(s, "application", "vnd.lotus-1-2-3");
  }

  /** Each content type of the test is accepted, as a type/subtype without parameters. */
  lemma ValidContentTypeAccepted(s: string, i: nat)
    requires i < |ValidContentTypes| && s == ValidContentTypes[i]
    ensures Parse(s).Success? && !HasParameters(Parse(s).value)
  {
    if i == 0 {
      ValidVector0(s);
    } else if i == 1 {
      ValidVector1(s);
    } else if i == 2 {
      ValidVector2(s);
    } else {
      ValidVector3(s);
    }
  }

  /** So the loop of the test, `ConstructEach`, throws nothing. */
  lemma ValidContentTypesAccepted()
    ensures forall i :: 0 <= i < |ValidContentTypes| ==> Parse(ValidContentTypes[i]).Success?
  {
    forall i | 0 <= i < |ValidContentTypes| ensures Parse(ValidContentTypes[i]).Success? {
      ValidContentTypeAccepted(ValidContentTypes[i], i);
    }
  }

  /** `TestContentTypeValidation`: the loop over the valid content types throws nothing. */
  method TestContentTypeValidation() returns (thrown: Option<InvalidFormat>)
    ensures thrown == None
  {
    ValidContentTypesAccepted();
    thrown := ConstructEach(ValidContentTypes);
  }

  // ---------------------------------------------------------------------
  // TestContentTypeValidationFailure (rules M1.13 and M1.14)
  // ---------------------------------------------------------------------

  const MalformedContentTypes: seq<string> :=
    [ "text/xml/app", "", "test", "text(xml/xml", "text)xml/xml", "text<xml/xml",
      "text>/xml", "text@/xml", "text,/xml", "text;/xml",
      "text:/xml", "text\\/xml", "t/ext/xml", "t\"ext/xml",
      "text[/xml", "text]/xml", "text?/xml", "tex=t/xml",
      "te{xt/xml", "tex}t/xml", "te xt/xml",
      "text\t/xml", "text xml", " text/xml " ]

  /**
   * The rule each of those content types breaks first: a second `/` lands in
   * the subtype, a parenthesis is a comment (rule M1.15), any other separator
   * before the `/` spoils the type, a tab is a control character and a space,
   * wherever it is, is linear white space (rule M1.14).
   */
  const MalformedRules: seq<Rule> :=
    [ InvalidSubtype, EmptyContentType, MissingSlash, CommentNotAllowed, CommentNotAllowed, InvalidType,
      InvalidType, InvalidType, InvalidType, InvalidType,
      InvalidType, InvalidType, InvalidSubtype, InvalidType,
      InvalidType, InvalidType, InvalidType, InvalidType,
      InvalidType, InvalidType, LinearWhitespace,
      IllegalCharacter, LinearWhitespace, LinearWhitespace ]

  // One lemma per content type of the list (the empty string needs none).

  lemma MalformedVector0(s: string)
    requires s == "text/xml/app"
    ensures Parse(s) == Failure(InvalidFormat(s, InvalidSubtype))
  {
    PassesCharacterRules(s);
    SecondSlashParts(s, "text", "xml", "app");
  }

  lemma MalformedVector2(s: string)
    requires s == "test"
    ensures Parse(s) == Failure(InvalidFormat(s, MissingSlash))
  {
    PassesCharacterRules(s);
    MissingSlashRule(s);
  }

  lemma MalformedVector3(s: string)
    requires s == "text(xml/xml"
    ensures Parse(s) == Failure(InvalidFormat(s, CommentNotAllowed))
  {
    CommentRule(s, 4);
  }

  lemma MalformedVector4(s: string)
    requires s == "text)xml/xml"
    ensures Parse(s) == Failure(InvalidFormat(s, CommentNotAllowed))
  {
    CommentRule(s, 4);
  }

  lemma MalformedVector5(s: string)
    requires s == "text<xml/xml"
    ensures Parse(s) == Failure(InvalidFormat(s, InvalidType))
  {
    PassesCharacterRules(s);
    RejectsSeparatorInType(s, 4);
  }

  lemma MalformedVector6(s: string)
    requires s == "text>/xml"
    ensures Parse(s) == Failure(InvalidFormat(s, InvalidType))
  {
    PassesCharacterRules(s);
    RejectsSeparatorInType(s, 4);
  }

  lemma MalformedVector7(s: string)
    requires s == "text@/xml"
    ensures Parse(s) == Failure(InvalidFormat(s, InvalidType))
  {
    PassesCharacterRules(s);
    RejectsSeparatorInType(s, 4);
  }

  lemma MalformedVector8(s: string)
    requires s == "text,/xml"
    ensures Parse(s) == Failure(InvalidFormat(s, InvalidType))
  {
    PassesCharacterRules(s);
    RejectsSeparatorInType(s, 4);
  }

  lemma MalformedVector9(s: string)
    requires s == "text;/xml"
    ensures Parse(s) == Failure(InvalidFormat(s, InvalidType))
  {
    PassesCharacterRules(s);
    RejectsSeparatorInType(s, 4);
  }

  lemma MalformedVector10(s: string)
    requires s == "text:/xml"
    ensures Parse(s) == Failure(InvalidFormat(s, InvalidType))
  {
    PassesCharacterRules(s);
    RejectsSeparatorInType(s, 4);
  }

  lemma MalformedVector11(s: string)
    requires s == "text\\/xml"
    ensures Parse(s) == Failure(InvalidFormat(s, InvalidType))
  {
    PassesCharacterRules(s);
    RejectsSeparatorInType(s, 4);
  }

  lemma MalformedVector12(s: string)
    requires s == "t/ext/xml"
    ensures Parse(s) == Failure(InvalidFormat(s, InvalidSubtype))
  {
    PassesCharacterRules(s);
    SecondSlashParts(s, "t", "ext", "xml");
  }

  lemma MalformedVector13(s: string)
    requires s == "t\"ext/xml"
    ensures Parse(s) == Failure(InvalidFormat(s, InvalidType))
  {
    PassesCharacterRules(s);
    RejectsSeparatorInType(s, 1);
  }

  lemma MalformedVector14(s: string)
    requires s == "text[/xml"
    ensures Parse(s) == Failure(InvalidFormat(s, InvalidType))
  {
    PassesCharacterRules(s);
    RejectsSeparatorInType(s, 4);
  }

  lemma MalformedVector15(s: string)
    requires s == "text]/xml"
    ensures Parse(s) == Failure(InvalidFormat(s, InvalidType))
  {
    PassesCharacterRules(s);
    RejectsSeparatorInType(s, 4);
  }

  lemma MalformedVector16(s: string)
    requires s == "text?/xml"
    ensures Parse(s) == Failure(InvalidFormat(s, InvalidType))
  {
    PassesCharacterRules(s);
    RejectsSeparatorInType(s, 4);
  }

  lemma MalformedVector17(s: string)
    requires s == "tex=t/xml"
    ensures Parse(s) == Failure(InvalidFormat(s, InvalidType))
  {
    PassesCharacterRules(s);
    RejectsSeparatorInType(s, 3);
  }

  lemma MalformedVector18(s: string)
    requires s == "te{xt/xml"
    ensures Parse(s) == Failure(InvalidFormat(s, InvalidType))
  {
    PassesCharacterRules(s);
    RejectsSeparatorInType(s, 2);
  }

  lemma MalformedVector19(s: string)
    requires s == "tex}t/xml"
    ensures Parse(s) == Failure(InvalidFormat(s, InvalidType))
  {
    PassesCharacterRules(s);
    RejectsSeparatorInType(s, 3);
  }

  lemma MalformedVector20(s: string)
    requires s == "te xt/xml"
    ensures Parse(s) == Failure(InvalidFormat(s, LinearWhitespace))
  {
    WhitespaceRule(s, 2);
  }

  lemma MalformedVector21(s: string)
    requires s == "text\t/xml"
    ensures Parse(s) == Failure(InvalidFormat(s, IllegalCharacter))
  {
    IllegalCharacterRule(s, 4);
  }

  lemma MalformedVector22(s: string)
    requires s == "text xml"
    ensures Parse(s) == Failure(InvalidFormat(s, LinearWhitespace))
  {
    WhitespaceRule(s, 4);
  }

  lemma MalformedVector23(s: string)
    requires s == " text/xml "
    ensures Parse(s) == Failure(InvalidFormat(s, LinearWhitespace))
  {
    WhitespaceRule(s, 0);
  }

  /** A second `/`, or none: the subtype rule and the slash rule. */
  lemma SlashVectorRejected(s: string, i: nat)
    requires (i == 0 || i == 2 || i == 12) && s == MalformedContentTypes[i]
    ensures Parse(s) == Failure(InvalidFormat(s, MalformedRules[i]))
  {
    if i == 0 {
      MalformedVector0(s);
    } else if i == 2 {
      MalformedVector2(s);
    } else {
      MalformedVector12(s);
    }
  }

  /** A parenthesis, a space or a tab: the character rules (M1.14, M1.15). */
  lemma CharacterVectorRejected(s: string, i: nat)
    requires (i == 3 || i == 4 || 20 <= i <= 23) && s == MalformedContentTypes[i]
    ensures Parse(s) == Failure(InvalidFormat(s, MalformedRules[i]))
  {
    if i == 3 {
      MalformedVector3(s);
    } else if i == 4 {
      MalformedVector4(s);
    } else if i == 20 {
      MalformedVector20(s);
    } else if i == 21 {
      MalformedVector21(s);
    } else if i == 22 {
      MalformedVector22(s);
    } else {
      MalformedVector23(s);
    }
  }

  /** One of `< > @ , ; : \` in the type: the type rule. */
  lemma SeparatorInTypeRejected(s: string, i: nat)
    requires 5 <= i <= 11 && s == MalformedContentTypes[i]
    ensures Parse(s) == Failure(InvalidFormat(s, InvalidType))
  {
    if i == 5 {
      MalformedVector5(s);
    } else if i == 6 {
      MalformedVector6(s);
    } else if i == 7 {
      MalformedVector7(s);
    } else if i == 8 {
      MalformedVector8(s);
    } else if i == 9 {
      MalformedVector9(s);
    } else if i == 10 {
      MalformedVector10(s);
    } else {
      MalformedVector11(s);
    }
  }

  /** A quote, a bracket, a brace, `?` or `=` in the type: the type rule. */
  lemma QuoteOrBracketInTypeRejected(s: string, i: nat)
    requires 13 <= i <= 19 && s == MalformedContentTypes[i]
    ensures Parse(s) == Failure(InvalidFormat(s, InvalidType))
  {
    if i == 13 {
      MalformedVector13(s);
    } else if i == 14 {
      MalformedVector14(s);
    } else if i == 15 {
      MalformedVector15(s);
    } else if i == 16 {
      MalformedVector16(s);
    } else if i == 17 {
      MalformedVector17(s);
    } else if i == 18 {
      MalformedVector18(s);
    } else {
      MalformedVector19(s);
    }
  }

  /** Each content type of the test is rejected, by the rule listed for it. */
  lemma MalformedContentTypeRejected(s: string, i: nat)
    requires i < |MalformedContentTypes| && s == MalformedContentTypes[i]
    ensures Parse(s) == Failure(InvalidFormat(s, MalformedRules[i]))
  {
    if i == 1 {
      assert s == [];
    } else if i == 0 || i == 2 || i == 12 {
      SlashVectorRejected(s, i);
    } else if i == 3 || i == 4 || 20 <= i {
      CharacterVectorRejected(s, i);
    } else if i <= 11 {
      SeparatorInTypeRejected(s, i);
    } else {
      QuoteOrBracketInTypeRejected(s, i);
    }
  }

  /** So the loop of the test, `ExpectEachRejected`, reports none. */
  lemma MalformedContentTypesRejected()
    ensures forall i :: 0 <= i < |MalformedContentTypes| ==> Parse(MalformedContentTypes[i]).Failure?
  {
    forall i | 0 <= i < |MalformedContentTypes| ensures Parse(MalformedContentTypes[i]).Failure? {
      MalformedContentTypeRejected(MalformedContentTypes[i], i);
    }
  }

  /** `TestContentTypeValidationFailure`: every content type throws, so `Assert.Fail` is never reached. */
  method TestContentTypeValidationFailure() returns (accepted: Option<string>)
    ensures accepted == None
  {
    MalformedContentTypesRejected();
    accepted := ExpectEachRejected(MalformedContentTypes);
  }

  // ---------------------------------------------------------------------
  // TestContentTypeParameterFailure (rule O1.2)
  // ---------------------------------------------------------------------

  const InvalidParameterContentTypes: seq<string> := ["mail/toto;\"titi=tata\"", "text/\U{0080}"]

  /** A quoted parameter: its key is not a token. Kept apart, as the layouts above. */
  lemma QuotedParameterLayout(s: string)
    requires s == "mail/toto;\"titi=tata\""
    ensures s == "mail" + "/" + "toto" + ";" + "\"titi=tata\""
  {
  }

  lemma QuotedParameterVector(s: string)
    requires s == "mail/toto;\"titi=tata\""
    ensures Parse(s) == Failure(InvalidFormat(s, MalformedParameter))
  {
    QuotedParameterLayout(s);
    PassesCharacterRules(s);
    ParameterCharParts(s, "mail", "toto", "\"titi=tata\"", 0);
  }

  /** A character above US-ASCII. */
  lemma NonAsciiVector(s: string)
    requires s == "text/\U{0080}"
    ensures Parse(s) == Failure(InvalidFormat(s, IllegalCharacter))
  {
    IllegalCharacterRule(s, 5);
  }

  /** A quoted parameter is malformed; a character above US-ASCII is illegal. */
  lemma InvalidParameterContentTypeRejected(s: string, i: nat)
    requires i < |InvalidParameterContentTypes| && s == InvalidParameterContentTypes[i]
    ensures Parse(s) == Failure(InvalidFormat(s, if i == 0 then MalformedParameter else IllegalCharacter))
  {
    if i == 0 {
      QuotedParameterVector(s);
    } else {
      NonAsciiVector(s);
    }
  }

  /** So the loop of the test, `ExpectEachRejected`, reports none. */
  lemma InvalidParameterContentTypesRejected()
    ensures forall i :: 0 <= i < |InvalidParameterContentTypes| ==> Parse(InvalidParameterContentTypes[i]).Failure?
  {
    forall i | 0 <= i < |InvalidParameterContentTypes| ensures Parse(InvalidParameterContentTypes[i]).Failure? {
      InvalidParameterContentTypeRejected(InvalidParameterContentTypes[i], i);
    }
  }

  /** `TestContentTypeParameterFailure`: both content types throw. */
  method TestContentTypeParameterFailure() returns (accepted: Option<string>)
    ensures accepted == None
  {
    InvalidParameterContentTypesRejected();
    accepted := ExpectEachRejected(InvalidParameterContentTypes);
  }

  // ---------------------------------------------------------------------
  // TestContentTypeCommentFailure (rule M1.15)
  // ---------------------------------------------------------------------

  const CommentedContentTypes: seq<string> := ["text/xml(comment)"]

  /** A comment after a valid type/subtype is rejected, by the comment rule. */
  lemma CommentedContentTypeRejected(s: string, i: nat)
    requires i < |CommentedContentTypes| && s == CommentedContentTypes[i]
    ensures Parse(s) == Failure(InvalidFormat(s, CommentNotAllowed))
  {
    CommentRule(s, 8);
  }

  /** `TestContentTypeCommentFailure`: the commented content type throws. */
  method TestContentTypeCommentFailure() returns (accepted: Option<string>)
    ensures accepted == None
  {
    forall i | 0 <= i < |CommentedContentTypes| ensures Parse(CommentedContentTypes[i]).Failure? {
      CommentedContentTypeRejected(CommentedContentTypes[i], i);
    }
    accepted := ExpectEachRejected(CommentedContentTypes);
  }

  // ---------------------------------------------------------------------
  // TestFileWithContentTypeParams
  // ---------------------------------------------------------------------

  /**
   * The relationship part and the core-properties part: a declared content
   * type without a `;` renders back to itself and has no parameter keys.
   */
  lemma ParameterlessPartQueries(contentType: string)
    requires Parse(contentType).Success? && ';' !in contentType
    ensures ToString(Parse(contentType).value) == contentType
    ensures !HasParameters(Parse(contentType).value)
    ensures |GetParameterKeys(Parse(contentType).value)| == 0
  {
    var ct := Parse(contentType).value;
    ParametersIffSemicolon(contentType, ct);
    AcceptedToString(contentType, ct);
  }

  const ResqmlType: string := "application/x-resqml+xml"

  /** The content type declared for a RESQML part holding an object of type `objType`. */
  function ResqmlContentType(objType: string): string {
    ResqmlType + ";version=2.0;type=" + objType
  }

  /** What the constructor builds from the content type of a RESQML part. */
  function ResqmlPart(objType: string): ContentType {
    ContentType("application", "x-resqml+xml", [Parameter("version", "2.0"), Parameter("type", objType)])
  }

  lemma ResqmlPartWellFormed(objType: string)
    requires IsToken(objType)
    ensures WellFormed(ResqmlPart(objType))
  {
    assert IsToken("application") && IsToken("x-resqml+xml");
    assert IsToken("version") && IsToken("2.0");
    assert "version" != "type" by {
      assert "version"[0] != "type"[0];
    }
  }

  lemma ResqmlPartCanonical(objType: string)
    ensures ToString(ResqmlPart(objType)) == ResqmlType
  {
  }

  /** The parameters of a RESQML part, split at their literals; kept apart, as the layouts above. */
  lemma ResqmlParametersLayout()
    ensures ";" + "version=2.0" + [';'] + "type=" == ";version=2.0;type="
  {
  }

  lemma ResqmlPartRendering(objType: string)
    ensures ToStringWithParameters(ResqmlPart(objType)) == ResqmlContentType(objType)
  {
    var ct := ResqmlPart(objType);
    var ps := ct.parameters;
    assert ParameterClause(ps[0]) == "version=2.0";
    assert Clauses(ps) == [ParameterClause(ps[0]), ParameterClause(ps[1])];
    assert Join(Clauses(ps), ';') == "version=2.0" + [';'] + ParameterClause(ps[1]);
    ResqmlParametersLayout();
    assert ParametersText(ps) == ";version=2.0;type=" + objType;
    ResqmlPartCanonical(objType);
  }

  /**
   * A RESQML part: its canonical content type carries no parameters, and it
   * has the two parameters `version` and `type`.
   */
  lemma ResqmlPartQueries(s: string, objType: string)
    requires IsToken(objType) && s == ResqmlContentType(objType)
    ensures Parse(s) == Success(ResqmlPart(objType))
    ensures ToString(Parse(s).value) == ResqmlType
    ensures HasParameters(Parse(s).value)
    ensures |GetParameterKeys(Parse(s).value)| == 2
    ensures GetParameter(Parse(s).value, "version") == Some("2.0")
    ensures GetParameter(Parse(s).value, "type") == Some(objType)
  {
    var ct := ResqmlPart(objType);
    ResqmlPartWellFormed(objType);
    ResqmlPartCanonical(objType);
    ResqmlPartRendering(objType);
    ParseRendered(ct);
    GetParameterFinds(ct, 0);
    GetParameterFinds(ct, 1);
  }

  /** The object types of the three RESQML parts of the sample package. */
  const SampleObjectTypes: seq<string> := ["obj_global1dCrs", "obj_global2dCrs", "obj_tectonicBoundaryFeature"]

  /** Each part of the sample package answers with its own object type. */
  lemma SampleResqmlPart(s: string, i: nat)
    requires i < |SampleObjectTypes| && s == ResqmlContentType(SampleObjectTypes[i])
    ensures Parse(s).Success? && GetParameter(Parse(s).value, "type") == Some(SampleObjectTypes[i])
  {
    ResqmlPartQueries(s, SampleObjectTypes[i]);
  }
}
