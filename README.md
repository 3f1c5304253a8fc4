# OPC content types

This project models the content-type validator and parser of NPOI's Open
Packaging Conventions layer: `ContentType` in `NPOI.OpenXml4Net.OPC.Internal`.
Every part of an OPC container (the ZIP format under OOXML documents) declares
a content type. The constructor accepts only the media-type grammar of section
3.7 of RFC 2616, `type "/" subtype *( ";" key "=" value )`, with tokens as in
section 2.2 of RFC 2616. ECMA-376 Part 2 narrows this grammar further:

- rule M1.14 forbids linear white space;
- rule M1.15 forbids comments;
- rule O1.2 lets formats restrict the use of parameters; the test rejects a
  quoted clause, and the model accepts only `token=token` clauses;
- anything outside printable US-ASCII is illegal.

The behaviour is the one pinned down by the NPOI test class `TestContentType`.

- `text.dfy`, modules `Results` and `Text`: `Option`/`Result`, and finding,
  splitting and joining on one delimiter, with `Split(Join(parts)) == parts`.
- `grammar.dfy`, module `Grammar`: the character classes (controls and
  non-ASCII, RFC 2616 separators, token characters).
- `content_type.dfy`, module `ContentTypes`:
  - the immutable `ContentType` value (type, subtype, ordered parameters);
  - `Parse`, the constructor as a validating function that returns the value
    or an `InvalidFormat` naming the first rule broken;
  - the queries `ToString`, `ToStringWithParameters`, `HasParameters`,
    `GetParameterKeys` and `GetParameter`.
- `content_type_proofs.dfy`, module `ContentTypeProofs`: what `Parse` accepts
  and rejects.
  - The backbone is `ParseCharacterization`: `Parse(s)` builds `ct` exactly when
    `ct` is well formed (tokens throughout, no key twice) and `s` is `ct`
    written out with its parameters.
  - From it follow the shape of every accepted string (one `/`, right after the
    type, and only content-type characters) and the rejection rules.
  - The tests assert no round trip. The round trip is proof machinery here, not
    a claim about tested behaviour.
- `test_content_type.dfy`, module `TestContentType`:
  - the test loops as methods: construct each, or expect each to be rejected;
  - the test vectors as lemmas, each naming the rule that rejects it;
  - the parameter queries on parts with and without parameters.

## Model

| member | source | states |
|---|---|---|
| TestContentType.ConstructEach | testcases/openxml4net/TestContentType.cs:50-53 | the loop throws nothing exactly when every string is accepted; otherwise it stops at the first rejected string, whose failure it returns |
| TestContentType.ExpectEachRejected | testcases/openxml4net/TestContentType.cs:81-93 | the loop reports nothing exactly when every string is rejected; otherwise it reports the first accepted string, as `Assert.Fail` does |
| TestContentType.TestContentTypeValidation | testcases/openxml4net/TestContentType.cs:45-54 | the constructing loop over the four valid content types throws nothing |
| TestContentType.TestContentTypeValidationFailure | testcases/openxml4net/TestContentType.cs:74-93 | the loop over the 24 malformed content types reports none, so `Assert.Fail` is never reached |
| TestContentType.TestContentTypeParameterFailure | testcases/openxml4net/TestContentType.cs:117-133 | the loop over the two invalid-parameter content types reports none |
| TestContentType.TestContentTypeCommentFailure | testcases/openxml4net/TestContentType.cs:144-157 | the loop over the commented content type reports none |
| TestContentType.ValidContentTypeAccepted | testcases/openxml4net/TestContentType.cs:47-49 | each of the four valid content types is accepted, as a type/subtype without parameters |
| TestContentType.ValidContentTypesAccepted | testcases/openxml4net/TestContentType.cs:47-53 | every valid content type is accepted, so the constructing loop throws nothing |
| TestContentType.MalformedContentTypeRejected | testcases/openxml4net/TestContentType.cs:74-80 | each of the 24 malformed content types is rejected, with the rule listed for it in `MalformedRules` |
| TestContentType.MalformedContentTypesRejected | testcases/openxml4net/TestContentType.cs:74-93 | every malformed content type is rejected, so `Assert.Fail` is never reached |
| TestContentType.SlashVectorRejected | testcases/openxml4net/TestContentType.cs:74-77 | `"text/xml/app"` and `"t/ext/xml"` fail the subtype rule; `"test"` has no `/` |
| TestContentType.CharacterVectorRejected | testcases/openxml4net/TestContentType.cs:75-80 | a parenthesis fails the comment rule; an interior, leading or trailing space fails the whitespace rule (M1.14); the tab is an illegal character |
| TestContentType.SeparatorInTypeRejected | testcases/openxml4net/TestContentType.cs:75-77 | a `<`, `>`, `@`, `,`, `;`, `:` or `\` in the type fails the type rule |
| TestContentType.QuoteOrBracketInTypeRejected | testcases/openxml4net/TestContentType.cs:77-79 | a `"`, `[`, `]`, `?`, `=`, `{` or `}` in the type fails the type rule |
| TestContentType.InvalidParameterContentTypeRejected | testcases/openxml4net/TestContentType.cs:117-119 | the quoted parameter is malformed and `"text/\u0080"` holds an illegal character |
| TestContentType.InvalidParameterContentTypesRejected | testcases/openxml4net/TestContentType.cs:117-133 | both content types of the parameter test are rejected |
| TestContentType.CommentedContentTypeRejected | testcases/openxml4net/TestContentType.cs:144-157 | `"text/xml(comment)"` fails the comment rule (M1.15) |
| TestContentType.ParameterlessPartQueries | testcases/openxml4net/TestContentType.cs:189-200 | an accepted content type without `;`: `ToString()` gives it back, `HasParameters()` is false, there are no keys |
| TestContentType.ResqmlPartQueries | testcases/openxml4net/TestContentType.cs:206-211 | a RESQML part's content type is accepted; `ToString()` is `application/x-resqml+xml`; it has parameters, exactly two keys, `version` is `2.0` and `type` is its object type |
| TestContentType.SampleResqmlPart | testcases/openxml4net/TestContentType.cs:203-230 | each of the three RESQML parts answers `GetParameter("type")` with its own object type |
| ContentTypes.Parse | testcases/openxml4net/TestContentType.cs:50-53 | `new ContentType(raw)`: a rejection is an `InvalidFormat` for the very string given; which strings it accepts, and what it builds from them, is the if-and-only-if of `ParseCharacterization` |
| ContentTypeProofs.ParseCharacterization | testcases/openxml4net/TestContentType.cs:50-53 | the constructor builds `ct` from `s` exactly when `ct` is well formed (tokens throughout, no key twice) and `s` is `ToStringWithParameters(ct)`; this is also the contract of `ToStringWithParameters` |
| ContentTypes.GetParameterKeys | testcases/openxml4net/TestContentType.cs:192 | one key per parameter, each the key of the parameter at the same position |
| ContentTypeProofs.TypeSubtypeAccepted | testcases/openxml4net/TestContentType.cs:47-53 | any two tokens joined by `/` are accepted, as that type and subtype with no parameters |
| ContentTypeProofs.RejectsForeignChar | testcases/openxml4net/TestContentType.cs:74-80 | a string holding a control, a non-ASCII character, a space, a parenthesis, a quote or a separator other than `/`, `;` and `=` is rejected |
| ContentTypeProofs.RejectsSecondSlash | testcases/openxml4net/TestContentType.cs:74-77 | a string with two `/` is rejected |
| ContentTypeProofs.MissingSlashRule | testcases/openxml4net/TestContentType.cs:74-80 | a string without `/` is rejected, by the slash rule once its characters pass |
| ContentTypeProofs.RejectsSeparatorInType | testcases/openxml4net/TestContentType.cs:75-79 | a separator before the first `/` rejects the string, by the type rule once its characters pass |
| ContentTypeProofs.SecondSlashRule | testcases/openxml4net/TestContentType.cs:74-77 | a second `/` after a valid type, before any `;`, fails the subtype rule |
| ContentTypeProofs.IllegalCharacterRule | testcases/openxml4net/TestContentType.cs:117-119 | any control character, DEL or character above US-ASCII fails the illegal-character rule |
| ContentTypeProofs.WhitespaceRule | testcases/openxml4net/TestContentType.cs:63-69 | rule M1.14: a space anywhere (leading, trailing or interior) fails the whitespace rule |
| ContentTypeProofs.CommentRule | testcases/openxml4net/TestContentType.cs:136-140 | rule M1.15: a parenthesis anywhere fails the comment rule |
| ContentTypeProofs.ForeignCharInParameters | testcases/openxml4net/TestContentType.cs:117-118 | a parameter text holding a character other than token characters, `;` and `=` (the quote of the test among them) is malformed |
| ContentTypeProofs.ParameterCharRule | testcases/openxml4net/TestContentType.cs:117-118 | after a valid type and subtype, a quote in the parameters fails the parameter rule |
| ContentTypeProofs.AcceptedToString | testcases/openxml4net/TestContentType.cs:189-192 | the contract of the queries `ToString` and `HasParameters`: `ToString()` of an accepted string is its prefix, and the whole string exactly when there are no parameters; `HasParameters()` holds exactly when there are keys |
| ContentTypeProofs.ParametersIffSemicolon | testcases/openxml4net/TestContentType.cs:189-191 | an accepted string has parameters exactly when it holds a `;` |
| ContentTypeProofs.GetParameterFinds | testcases/openxml4net/TestContentType.cs:210-211 | in a constructed content type, each parameter's key looks up that parameter's value |
| ContentTypes.GetParameter | testcases/openxml4net/TestContentType.cs:210-211 | a value comes back exactly when the key is among `GetParameterKeys()`, and it is the value of a parameter with that key |
| Grammar.TokenCharDefinition | testcases/openxml4net/TestContentType.cs:37-43 | the token characters are exactly the US-ASCII characters that are neither controls nor RFC 2616 separators |

## Left out

- Opening the sample package is not modelled, because it is ZIP and stream I/O (TestContentType.cs:177-188, 232-237). Also left out, for the same reason: enumerating its parts, `IsRelationshipPart`, `PartName` and the part's own `ContentType` string.
- The source of `NPOI.OpenXml4Net.OPC.Internal.ContentType` is not part of this model. `Parse` checks, in order: empty, illegal character, comment, whitespace, type, subtype, parameters, duplicate key.
- A tab is a control character, so `"text\t/xml"` fails with `IllegalCharacter`, not `LinearWhitespace`. The test asserts only that it is rejected.
- The values of `ContentTypes.RELATIONSHIPS_PART` and `ContentTypes.CORE_PROPERTIES_PART` are not part of this model. `ParameterlessPartQueries` holds for any accepted content type without `;`.
- The sample package's manifest is not modelled. `ResqmlContentType` assumes the form `application/x-resqml+xml;version=2.0;type=<object type>`.
- The TODO tests `TestContentTypeParam` and `TestFileWithContentTypeEntities` (:102-109, :165-168) are not modelled, because they assert nothing.
- Duplicate parameter keys: `Parse` rejects them (`DuplicateParameterKey`). This is the model's choice and no test decides it. `ParsedWellFormed` and `ParseCharacterization` prove that no accepted string carries a key twice, because `WellFormed` includes `UniqueKeys`.
- A quoted parameter value (`key="v"`, as in `mail/toto;titi="tata"`) is rejected by the model's choice, because the value is not a token. The test rejects only a quote before the key (TestContentType.cs:118), so no test decides this case.
- Case sensitivity of types and keys is not modelled. Keys are compared character for character.
- The exception's message and class hierarchy are not modelled. A failure is `InvalidFormat(raw, rule)`, with no offending position.
- Any bound on input length before scanning is not modelled. Strings are unbounded.
