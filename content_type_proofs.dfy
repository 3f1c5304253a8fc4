/**
 * What the constructor accepts and what it rejects: the strings it accepts
 * are exactly the renderings of well-formed content types, and each of the
 * named rules rejects what the Open Packaging Conventions forbid.
 */
module ContentTypeProofs {
  import opened Results
  import opened Text
  import opened Grammar
  import opened ContentTypes

  // ---------------------------------------------------------------------
  // Parsing, then rendering, gives back the raw string
  // ---------------------------------------------------------------------

  lemma ParsedClausesRender(clauses: seq<string>, ps: seq<Parameter>)
    requires ParseClauses(clauses) == Some(ps)
    ensures Clauses(ps) == clauses
  {
    assert forall i :: 0 <= i < |ps| ==> ParseClause(clauses[i]) == Some(ps[i]);
  }

  lemma ParametersRenderBack(tail: string, ps: seq<Parameter>)
    requires ParseParameters(tail) == Success(ps)
    ensures ps != [] && Join(Clauses(ps), ';') == tail
  {
    var clauses := Split(tail, ';');
    ParsedClausesRender(clauses, ps);
  }

  lemma WithParametersRendering(ct: ContentType, tail: string)
    requires ct.parameters != [] && Join(Clauses(ct.parameters), ';') == tail
    ensures ToStringWithParameters(ct) == ct.mainType + "/" + (ct.subType + ";" + tail)
  {
  }

  lemma AfterSlashRendersBack(main: string, rest: string, ct: ContentType)
    requires ParseAfterSlash(main, rest) == Success(ct)
    ensures ToStringWithParameters(ct) == main + "/" + rest
  {
    match IndexOf(rest, ';')
    case None =>
    case Some(semi) =>
      var sub, tail := rest[..semi], rest[semi + 1..];
      assert ParseParameters(tail) == Success(ct.parameters);
      assert ct.mainType == main && ct.subType == sub;
      ParametersRenderBack(tail, ct.parameters);
      WithParametersRendering(ct, tail);
      CutAt(rest, semi);
  }

  lemma StructureRendersBack(s: string, ct: ContentType)
    requires ParseStructure(s) == Success(ct)
    ensures ToStringWithParameters(ct) == s
  {
    var slash := IndexOf(s, '/').value;
    var main, rest := s[..slash], s[slash + 1..];
    CutAt(s, slash);
    assert ParseAfterSlash(main, rest) == Success(ct);
    AfterSlashRendersBack(main, rest, ct);
  }

  lemma ParametersWellFormed(tail: string, ps: seq<Parameter>)
    requires ParseParameters(tail) == Success(ps)
    ensures forall i :: 0 <= i < |ps| ==> IsToken(ps[i].key) && IsToken(ps[i].value)
    ensures UniqueKeys(ps)
  {
    var clauses := Split(tail, ';');
    assert ParseClauses(clauses) == Some(ps);
  }

  lemma AfterSlashWellFormed(mainType: string, rest: string, ct: ContentType)
    requires IsToken(mainType) && ParseAfterSlash(mainType, rest) == Success(ct)
    ensures WellFormed(ct)
  {
    match IndexOf(rest, ';')
    case None =>
    case Some(semi) =>
      ParametersWellFormed(rest[semi + 1..], ct.parameters);
  }

  /** What the constructor builds is well formed: tokens throughout, no key twice. */
  lemma ParsedWellFormed(s: string)
    requires Parse(s).Success?
    ensures WellFormed(Parse(s).value)
  {
    var ct := Parse(s).value;
    assert ParseStructure(s) == Success(ct);
    var slash := IndexOf(s, '/').value;
    AfterSlashWellFormed(s[..slash], s[slash + 1..], ct);
  }

  /** An accepted string is the full rendering of the content type built from it. */
  lemma ParseRendersBack(s: string, ct: ContentType)
    requires Parse(s) == Success(ct)
    ensures ToStringWithParameters(ct) == s
  {
    assert ParseStructure(s) == Success(ct);
    StructureRendersBack(s, ct);
  }

  // ---------------------------------------------------------------------
  // Rendering, then parsing, gives back the content type
  // ---------------------------------------------------------------------

  lemma {:induction false} JoinChars(parts: seq<string>)
    requires forall i :: 0 <= i < |parts| ==> AllTailChars(parts[i])
    ensures AllTailChars(Join(parts, ';'))
    decreases |parts|
  {
    if |parts| > 1 {
      JoinChars(parts[1..]);
      AllTailCharsConcat(parts[0], ";");
      AllTailCharsConcat(parts[0] + ";", Join(parts[1..], ';'));
    }
  }

  lemma ClauseChars(p: Parameter)
    requires IsToken(p.key) && IsToken(p.value)
    ensures AllTailChars(ParameterClause(p))
    ensures ';' !in ParameterClause(p)
  {
    TokenChars(p.key);
    TokenChars(p.value);
    AllTailCharsConcat(p.key, "=");
    AllTailCharsConcat(p.key + "=", p.value);
  }

  /** What follows the `/` of a well-formed content type holds no `/`. */
  lemma RenderedTailChars(ct: ContentType)
    requires WellFormed(ct)
    ensures AllTailChars(ct.subType + ParametersText(ct.parameters))
  {
    TokenChars(ct.subType);
    if ct.parameters != [] {
      var clauses := Clauses(ct.parameters);
      forall i | 0 <= i < |clauses| ensures AllTailChars(clauses[i]) {
        ClauseChars(ct.parameters[i]);
      }
      JoinChars(clauses);
      AllTailCharsConcat(";", Join(clauses, ';'));
    }
    AllTailCharsConcat(ct.subType, ParametersText(ct.parameters));
  }

  /** A well-formed content type is written with content-type characters and exactly one `/`, the one after its type. */
  lemma RenderedChars(ct: ContentType)
    requires WellFormed(ct)
    ensures var s := ToStringWithParameters(ct);
      && AllContentTypeChars(s)
      && forall i :: 0 <= i < |s| ==> (s[i] == '/' <==> i == |ct.mainType|)
  {
    TokenChars(ct.mainType);
    RenderedTailChars(ct);
    var rest := ct.subType + ParametersText(ct.parameters);
    SlashJoinChars(ct.mainType, rest);
    assert ToStringWithParameters(ct) == ct.mainType + "/" + rest;
  }

  lemma {:induction false} ParseRenderedClauses(ps: seq<Parameter>)
    requires forall i :: 0 <= i < |ps| ==> IsToken(ps[i].key) && IsToken(ps[i].value)
    ensures ParseClauses(Clauses(ps)) == Some(ps)
    decreases |ps|
  {
    if ps != [] {
      var p := ps[0];
      TokenChars(p.key);
      IndexOfAfter(p.key, '=', p.value);
      var clause := ParameterClause(p);
      assert clause[..|p.key|] == p.key;
      assert clause[|p.key| + 1..] == p.value;
      assert ParseClause(clause) == Some(p);
      ParseRenderedClauses(ps[1..]);
      assert Clauses(ps)[1..] == Clauses(ps[1..]);
      assert ps == [p] + ps[1..];
    }
  }

  lemma RenderedPassesCharacterRules(s: string)
    requires s != [] && AllContentTypeChars(s)
    ensures CharacterRule(s) == None
  {
    NoIllegal(s);
    assert '(' !in s && ')' !in s && ' ' !in s by {
      forall i | 0 <= i < |s| ensures s[i] != '(' && s[i] != ')' && s[i] != ' ' {
        assert IsContentTypeChar(s[i]);
      }
    }
  }

  /** A well-formed content type's rendering is accepted and builds that same content type. */
  lemma ParseRendered(ct: ContentType)
    requires WellFormed(ct)
    ensures Parse(ToStringWithParameters(ct)) == Success(ct)
  {
    var s := ToStringWithParameters(ct);
    var main, sub, ps := ct.mainType, ct.subType, ct.parameters;
    RenderedChars(ct);
    RenderedPassesCharacterRules(s);
    TokenChars(main);
    TokenChars(sub);
    var rest := sub + ParametersText(ps);
    assert s == main + ['/'] + rest;
    IndexOfAfter(main, '/', rest);
    assert s[..|main|] == main;
    assert s[|main| + 1..] == rest;
    if ps == [] {
      assert rest == sub;
    } else {
      var tail := Join(Clauses(ps), ';');
      assert rest == sub + [';'] + tail;
      IndexOfAfter(sub, ';', tail);
      assert rest[..|sub|] == sub;
      assert rest[|sub| + 1..] == tail;
      forall i | 0 <= i < |ps| ensures ';' !in Clauses(ps)[i] {
        ClauseChars(ps[i]);
      }
      SplitJoin(Clauses(ps), ';');
      ParseRenderedClauses(ps);
    }
  }

  /**
   * The constructor's grammar in one statement: it accepts `s`, building `ct`,
   * exactly when `ct` is well formed and `s` is `ct` written out with its parameters.
   */
  lemma ParseCharacterization(s: string, ct: ContentType)
    ensures Parse(s) == Success(ct) <==> WellFormed(ct) && ToStringWithParameters(ct) == s
  {
    if Parse(s) == Success(ct) {
      ParsedWellFormed(s);
      ParseRendersBack(s, ct);
    }
    if WellFormed(ct) && ToStringWithParameters(ct) == s {
      ParseRendered(ct);
    }
  }

  /** Writing a constructed content type out with its parameters and constructing again gives the same value. */
  lemma ReparseIsIdentity(s: string)
    requires Parse(s).Success?
    ensures Parse(ToStringWithParameters(Parse(s).value)) == Parse(s)
  {
    ParseRendersBack(s, Parse(s).value);
  }

  // ---------------------------------------------------------------------
  // What an accepted string looks like
  // ---------------------------------------------------------------------

  /** An accepted string is written with content-type characters, its one `/` right after the type. */
  lemma AcceptedShape(s: string)
    ensures Parse(s).Success? ==>
      && AllContentTypeChars(s)
      && (forall i :: 0 <= i < |s| ==> (s[i] == '/' <==> i == |Parse(s).value.mainType|))
      && IsToken(Parse(s).value.mainType)
  {
    if Parse(s).Success? {
      ParsedWellFormed(s);
      ParseRendersBack(s, Parse(s).value);
      RenderedChars(Parse(s).value);
    }
  }

  /** The canonical rendering `ToString()` of an accepted string is its prefix, and the whole string exactly when it has no parameters. */
  lemma AcceptedToString(s: string, ct: ContentType)
    requires Parse(s) == Success(ct)
    ensures ToString(ct) <= s
    ensures ToString(ct) == s <==> !HasParameters(ct)
    ensures HasParameters(ct) <==> |GetParameterKeys(ct)| > 0
  {
    ParseRendersBack(s, ct);
    assert s == ToString(ct) + ParametersText(ct.parameters);
  }

  /** An accepted string has parameters exactly when it holds a `;`. */
  lemma ParametersIffSemicolon(s: string, ct: ContentType)
    requires Parse(s) == Success(ct)
    ensures HasParameters(ct) <==> ';' in s
  {
    ParsedWellFormed(s);
    ParseRendersBack(s, ct);
    if HasParameters(ct) {
      assert s[|ToString(ct)|] == ';';
    } else {
      TokenChars(ct.mainType);
      TokenChars(ct.subType);
      assert s == ct.mainType + "/" + ct.subType;
    }
  }

  /** Every `type/subtype` of two tokens is accepted, as a content type without parameters. */
  lemma TypeSubtypeAccepted(s: string, mainType: string, subType: string)
    requires IsToken(mainType) && IsToken(subType) && s == mainType + "/" + subType
    ensures Parse(s) == Success(ContentType(mainType, subType, []))
  {
    var ct := ContentType(mainType, subType, []);
    assert ToStringWithParameters(ct) == s;
    ParseRendered(ct);
  }

  /** In a well-formed content type, each parameter's key looks up that parameter's value. */
  lemma GetParameterFinds(ct: ContentType, i: nat)
    requires WellFormed(ct) && i < |ct.parameters|
    ensures GetParameter(ct, ct.parameters[i].key) == Some(ct.parameters[i].value)
  {
    var p := ct.parameters[i];
    var r := GetParameter(ct, p.key);
    assert p.key in GetParameterKeys(ct) by {
      assert GetParameterKeys(ct)[i] == p.key;
    }
    var j :| 0 <= j < |ct.parameters| && ct.parameters[j] == Parameter(p.key, r.value);
  }

  // ---------------------------------------------------------------------
  // The rejection rules
  // ---------------------------------------------------------------------

  /**
   * A character that no well-formed content type is written with rejects the
   * string: a control character (tab included), a character above US-ASCII, a
   * space, a parenthesis, a quote or any separator other than `/`, `;` and `=`.
   */
  lemma RejectsForeignChar(s: string, i: nat)
    requires i < |s| && !IsContentTypeChar(s[i])
    ensures Parse(s).Failure?
  {
    AcceptedShape(s);
  }

  /** A string with two `/` is rejected. */
  lemma RejectsSecondSlash(s: string, i: nat, j: nat)
    requires i < j < |s| && s[i] == '/' && s[j] == '/'
    ensures Parse(s).Failure?
  {
    AcceptedShape(s);
  }

  /** A separator before the first `/` is rejected; once the characters pass, by the type rule. */
  lemma RejectsSeparatorInType(s: string, i: nat)
    requires i < |s| && IsSeparator(s[i]) && s[i] != '/' && '/' !in s[..i]
    ensures Parse(s).Failure?
    ensures CharacterRule(s).None? && '/' in s ==> Parse(s).error.rule == InvalidType
  {
    TokenCharDefinition(s[i]);
    AcceptedShape(s);
    if CharacterRule(s).None? && '/' in s {
      var slash := IndexOf(s, '/').value;
      assert s[..slash][i] == s[i];
    }
  }

  /** Printable US-ASCII without parentheses or spaces passes every character rule. */
  lemma PassesCharacterRules(s: string)
    requires s != []
    requires forall j :: 0 <= j < |s| ==> !IsIllegal(s[j]) && s[j] != '(' && s[j] != ')' && s[j] != ' '
    ensures CharacterRule(s).None?
  {
    NoIllegal(s);
  }

  /** Illegal characters: any control character, DEL, or character above US-ASCII. */
  lemma IllegalCharacterRule(s: string, i: nat)
    requires i < |s| && IsIllegal(s[i])
    ensures Parse(s) == Failure(InvalidFormat(s, IllegalCharacter))
  {
    HasIllegalAt(s, i);
  }

  /** Rule M1.15: a parenthesis, the start or end of a comment, is rejected by the comment rule. */
  lemma CommentRule(s: string, i: nat)
    requires i < |s| && (s[i] == '(' || s[i] == ')')
    requires forall j :: 0 <= j < |s| ==> !IsIllegal(s[j])
    ensures Parse(s) == Failure(InvalidFormat(s, CommentNotAllowed))
  {
    NoIllegal(s);
  }

  /** Rule M1.14: a leading, trailing or interior space is rejected by the whitespace rule. */
  lemma WhitespaceRule(s: string, i: nat)
    requires i < |s| && s[i] == ' '
    requires forall j :: 0 <= j < |s| ==> !IsIllegal(s[j])
    requires '(' !in s && ')' !in s
    ensures Parse(s) == Failure(InvalidFormat(s, LinearWhitespace))
  {
    NoIllegal(s);
  }

  /** Without a `/` there is no type/subtype. */
  lemma MissingSlashRule(s: string)
    requires '/' !in s
    ensures Parse(s).Failure?
    ensures CharacterRule(s).None? ==> Parse(s).error.rule == MissingSlash
  {
  }

  lemma SlashInSubtype(mainType: string, rest: string, k: nat)
    requires k < |rest| && rest[k] == '/' && ';' !in rest[..k]
    ensures ParseAfterSlash(mainType, rest) == Failure(InvalidSubtype)
  {
    match IndexOf(rest, ';')
    case None =>
    case Some(semi) =>
      assert rest[..semi][k] == '/';
  }

  /** A second `/` after a valid type, before any parameter, is rejected by the subtype rule. */
  lemma SecondSlashRule(s: string, slash: nat, j: nat)
    requires slash < j < |s| && s[slash] == '/' && s[j] == '/'
    requires IsToken(s[..slash]) && ';' !in s[slash + 1..j]
    requires CharacterRule(s).None?
    ensures Parse(s) == Failure(InvalidFormat(s, InvalidSubtype))
  {
    var mainType, rest := s[..slash], s[slash + 1..];
    TokenChars(mainType);
    CutAt(s, slash);
    IndexOfAfter(mainType, '/', rest);
    assert rest[..j - slash - 1] == s[slash + 1..j];
    SlashInSubtype(mainType, rest, j - slash - 1);
  }

  /** Parameters that parse are written with tail characters only. */
  lemma ParsedParametersChars(tail: string)
    ensures ParseClauses(Split(tail, ';')).Some? ==> AllTailChars(tail)
  {
    var clauses := Split(tail, ';');
    if ParseClauses(clauses).Some? {
      var ps := ParseClauses(clauses).value;
      ParsedClausesRender(clauses, ps);
      forall i | 0 <= i < |clauses| ensures AllTailChars(clauses[i]) {
        ClauseChars(ps[i]);
      }
      JoinChars(clauses);
    }
  }

  /** Rule O1.2: a character other than a token character, `;` or `=` among the parameters makes them malformed. */
  lemma ForeignCharInParameters(tail: string, k: nat)
    requires k < |tail| && !IsTailChar(tail[k])
    ensures ParseParameters(tail) == Failure(MalformedParameter)
  {
    ParsedParametersChars(tail);
  }

  lemma ParameterCharAfterSlash(mainType: string, rest: string, semi: nat, k: nat)
    requires semi < k < |rest| && rest[semi] == ';'
    requires IsToken(rest[..semi]) && !IsTailChar(rest[k])
    ensures ParseAfterSlash(mainType, rest) == Failure(MalformedParameter)
  {
    var sub, tail := rest[..semi], rest[semi + 1..];
    TokenChars(sub);
    CutAt(rest, semi);
    IndexOfAfter(sub, ';', tail);
    assert tail[k - semi - 1] == rest[k];
    ForeignCharInParameters(tail, k - semi - 1);
  }

  /**
   * After a valid type and subtype, a parameter holding a quote or any other
   * separator but `;` and `=` is rejected by the parameter rule.
   */
  lemma ParameterCharRule(s: string, slash: nat, semi: nat, k: nat)
    requires slash < semi < k < |s| && s[slash] == '/' && s[semi] == ';'
    requires IsToken(s[..slash]) && IsToken(s[slash + 1..semi])
    requires !IsTailChar(s[k])
    requires CharacterRule(s).None?
    ensures Parse(s) == Failure(InvalidFormat(s, MalformedParameter))
  {
    var mainType, rest := s[..slash], s[slash + 1..];
    TokenChars(mainType);
    CutAt(s, slash);
    IndexOfAfter(mainType, '/', rest);
    var cut := semi - slash - 1;
    assert rest[..cut] == s[slash + 1..semi];
    assert rest[cut] == ';' && rest[k - slash - 1] == s[k];
    ParameterCharAfterSlash(mainType, rest, cut, k - slash - 1);
  }

  /** `type/sub/more`, with no `;` in `sub`, is rejected by the subtype rule. */
  lemma SecondSlashParts(s: string, mainType: string, sub: string, more: string)
    requires IsToken(mainType) && ';' !in sub
    requires s == mainType + "/" + sub + "/" + more
    requires CharacterRule(s).None?
    ensures Parse(s) == Failure(InvalidFormat(s, InvalidSubtype))
  {
    var slash, j := |mainType|, |mainType| + 1 + |sub|;
    assert s[..slash] == mainType;
    assert s[slash + 1..j] == sub;
    SecondSlashRule(s, slash, j);
  }

  /** `type/sub;tail`, with a character of `tail` that no parameter holds, is rejected by the parameter rule. */
  lemma ParameterCharParts(s: string, mainType: string, sub: string, tail: string, k: nat)
    requires IsToken(mainType) && IsToken(sub) && k < |tail| && !IsTailChar(tail[k])
    requires s == mainType + "/" + sub + ";" + tail
    requires CharacterRule(s).None?
    ensures Parse(s) == Failure(InvalidFormat(s, MalformedParameter))
  {
    var slash, semi := |mainType|, |mainType| + 1 + |sub|;
    assert s[..slash] == mainType;
    assert s[slash + 1..semi] == sub;
    assert s[semi + 1 + k] == tail[k];
    ParameterCharRule(s, slash, semi, semi + 1 + k);
  }
}
