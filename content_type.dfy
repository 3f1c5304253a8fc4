/**
 * The OPC part content type (`ContentType` of NPOI.OpenXml4Net.OPC.Internal):
 * an immutable value built from a raw string by a validating constructor,
 * then only queried.
 */
module ContentTypes {
  import opened Results
  import opened Text
  import opened Grammar

  /** The rule a rejected string breaks, in the order the rules are checked. */
  datatype Rule =
    | EmptyContentType       // the string is empty
    | IllegalCharacter       // a control character or a character above US-ASCII
    | CommentNotAllowed      // a `(` or `)`: comments are forbidden (rule M1.15)
    | LinearWhitespace       // a space anywhere: leading, trailing or interior (rule M1.14)
    | MissingSlash           // no `/` between type and subtype
    | InvalidType            // the type before the first `/` is not a token
    | InvalidSubtype         // the subtype is not a token (a second `/` lands here)
    | MalformedParameter     // a parameter clause that is not `token=token`
    | DuplicateParameterKey  // the same parameter key twice

  /** The constructor's failure (`InvalidFormatException`): the raw string and the rule it breaks. */
  datatype InvalidFormat = InvalidFormat(raw: string, rule: Rule)

  datatype Parameter = Parameter(key: string, value: string)

  datatype ContentType = ContentType(mainType: string, subType: string, parameters: seq<Parameter>)

  predicate UniqueKeys(ps: seq<Parameter>) {
    forall i, j :: 0 <= i < j < |ps| ==> ps[i].key != ps[j].key
  }

  /** What every constructed content type satisfies. */
  predicate WellFormed(ct: ContentType) {
    && IsToken(ct.mainType)
    && IsToken(ct.subType)
    && (forall i :: 0 <= i < |ct.parameters| ==>
          IsToken(ct.parameters[i].key) && IsToken(ct.parameters[i].value))
    && UniqueKeys(ct.parameters)
  }

  // ---------------------------------------------------------------------
  // Rendering
  // ---------------------------------------------------------------------

  /** `ToString()`: type and subtype, never the parameters. */
  function ToString(ct: ContentType): string {
    ct.mainType + "/" + ct.subType
  }

  function ParameterClause(p: Parameter): string {
    p.key + "=" + p.value
  }

  function Clauses(ps: seq<Parameter>): (clauses: seq<string>)
    ensures |clauses| == |ps|
    ensures forall i :: 0 <= i < |ps| ==> clauses[i] == ParameterClause(ps[i])
  {
    seq(|ps|, i requires 0 <= i < |ps| => ParameterClause(ps[i]))
  }

  /** `;key=value` for each parameter, in order. */
  function ParametersText(ps: seq<Parameter>): string {
    if ps == [] then "" else ";" + Join(Clauses(ps), ';')
  }

  /** `ToStringWithParameters()`: type/subtype followed by its parameters. */
  function ToStringWithParameters(ct: ContentType): string {
    ToString(ct) + ParametersText(ct.parameters)
  }

  // ---------------------------------------------------------------------
  // Queries
  // ---------------------------------------------------------------------

  /** `HasParameters()`. */
  function HasParameters(ct: ContentType): bool {
    |ct.parameters| > 0
  }

  /** `GetParameterKeys()`: the keys in the order they were written. */
  function GetParameterKeys(ct: ContentType): (keys: seq<string>)
    ensures |keys| == |ct.parameters|
    ensures forall i :: 0 <= i < |keys| ==> keys[i] == ct.parameters[i].key
  {
    seq(|ct.parameters|, i requires 0 <= i < |ct.parameters| => ct.parameters[i].key)
  }

  /** The value of the first parameter named `key`. */
  function Lookup(ps: seq<Parameter>, key: string): (r: Option<string>)
    ensures r.None? <==> forall i :: 0 <= i < |ps| ==> ps[i].key != key
    ensures r.Some? ==> exists i :: 0 <= i < |ps| && ps[i] == Parameter(key, r.value)
  {
    if ps == [] then None
    else if ps[0].key == key then Some(ps[0].value)
    else
      var r := Lookup(ps[1..], key);
      assert forall j :: 0 <= j < |ps| - 1 ==> ps[1..][j] == ps[j + 1];
      r
  }

  /** `GetParameter(key)`: the parameter's value, or nothing when the key is absent. */
  function GetParameter(ct: ContentType, key: string): (r: Option<string>)
    ensures r.Some? <==> key in GetParameterKeys(ct)
    ensures r.Some? ==> Parameter(key, r.value) in ct.parameters
  {
    var keys := GetParameterKeys(ct);
    assert key in keys <==> exists i :: 0 <= i < |ct.parameters| && ct.parameters[i].key == key by {
      if key in keys {
        var i :| 0 <= i < |keys| && keys[i] == key;
        assert ct.parameters[i].key == key;
      }
    }
    Lookup(ct.parameters, key)
  }

  // ---------------------------------------------------------------------
  // The constructor
  // ---------------------------------------------------------------------

  /** Whether `s` holds an illegal character, scanning left to right. */
  function HasIllegal(s: string): bool {
    if s == [] then false
    else IsIllegal(s[0]) || HasIllegal(s[1..])
  }

  lemma {:induction false} HasIllegalAt(s: string, i: nat)
    requires i < |s| && IsIllegal(s[i])
    ensures HasIllegal(s)
  {
    if i > 0 {
      assert s[1..][i - 1] == s[i];
      HasIllegalAt(s[1..], i - 1);
    }
  }

  lemma {:induction false} NoIllegal(s: string)
    requires forall i :: 0 <= i < |s| ==> !IsIllegal(s[i])
    ensures !HasIllegal(s)
  {
    if s != [] {
      assert forall i :: 0 <= i < |s| - 1 ==> s[1..][i] == s[i + 1];
      NoIllegal(s[1..]);
    }
  }

  /** The character-level rules, first broken rule wins. */
  function CharacterRule(raw: string): Option<Rule> {
    if raw == [] then Some(EmptyContentType)
    else if HasIllegal(raw) then Some(IllegalCharacter)
    else if '(' in raw || ')' in raw then Some(CommentNotAllowed)
    else if ' ' in raw then Some(LinearWhitespace)
    else None
  }

  /** One parameter clause `key=value`, split at its first `=`. */
  function ParseClause(clause: string): (r: Option<Parameter>)
    ensures r.Some? ==> IsToken(r.value.key) && IsToken(r.value.value)
    ensures r.Some? ==> ParameterClause(r.value) == clause
  {
    match IndexOf(clause, '=')
    case None => None
    case Some(i) =>
      var key, value := clause[..i], clause[i + 1..];
      assert clause == key + "=" + value;
      if IsToken(key) && IsToken(value) then Some(Parameter(key, value)) else None
  }

  /** Every clause, left to right; nothing if any clause is malformed. */
  function ParseClauses(clauses: seq<string>): (r: Option<seq<Parameter>>)
    ensures r.Some? ==> |r.value| == |clauses|
    ensures r.Some? ==> forall i :: 0 <= i < |clauses| ==> ParseClause(clauses[i]) == Some(r.value[i])
    ensures r.None? ==> exists i :: 0 <= i < |clauses| && ParseClause(clauses[i]).None?
  {
    if clauses == [] then Some([])
    else match ParseClause(clauses[0])
      case None => None
      case Some(p) =>
        match ParseClauses(clauses[1..])
        case None => None
        case Some(ps) => Some([p] + ps)
  }

  /** The text after the first `;`: clauses separated by `;`, each key unique. */
  function ParseParameters(tail: string): Result<seq<Parameter>, Rule> {
    match ParseClauses(Split(tail, ';'))
    case None => Failure(MalformedParameter)
    case Some(ps) => if UniqueKeys(ps) then Success(ps) else Failure(DuplicateParameterKey)
  }

  /** The subtype and the parameters, read from what follows the first `/`. */
  function ParseAfterSlash(mainType: string, rest: string): Result<ContentType, Rule> {
    match IndexOf(rest, ';')
    case None =>
      if IsToken(rest) then Success(ContentType(mainType, rest, [])) else Failure(InvalidSubtype)
    case Some(semi) =>
      var subType := rest[..semi];
      if !IsToken(subType) then Failure(InvalidSubtype)
      else match ParseParameters(rest[semi + 1..])
        case Failure(rule) => Failure(rule)
        case Success(ps) => Success(ContentType(mainType, subType, ps))
  }

  /** The structural rules, once the characters are known to be acceptable. */
  function ParseStructure(raw: string): Result<ContentType, Rule> {
    match IndexOf(raw, '/')
    case None => Failure(MissingSlash)
    case Some(slash) =>
      var mainType := raw[..slash];
      if !IsToken(mainType) then Failure(InvalidType)
      else ParseAfterSlash(mainType, raw[slash + 1..])
  }

  /**
   * `new ContentType(raw)`: the content type `raw` denotes, or the
   * `InvalidFormatException` the constructor throws, naming the first
   * rule `raw` breaks.
   */
  function Parse(raw: string): (r: Result<ContentType, InvalidFormat>)
    ensures r.Failure? ==> r.error.raw == raw
  {
    match CharacterRule(raw)
    case Some(rule) => Failure(InvalidFormat(raw, rule))
    case None =>
      match ParseStructure(raw)
      case Failure(rule) => Failure(InvalidFormat(raw, rule))
      case Success(ct) => Success(ct)
  }
}
