/**
 * Character classes of section 2.2 of RFC 2616, narrowed by the Open Packaging
 * Conventions (ECMA-376 Part 2): a content type is plain printable US-ASCII.
 */
module Grammar {

  /** A control character (CTL, including horizontal tab and DEL) or a character outside US-ASCII. */
  predicate IsIllegal(c: char) {
    (c as int) < 0x20 || (c as int) > 0x7E
  }

  /**
   * The separators of RFC 2616: `( ) < > @ , ; : \ " / [ ] ? = { }`, the space
   * and the horizontal tab. The tab is left out here because it is already a
   * control character (`IsIllegal`).
   */
  predicate IsSeparator(c: char) {
    || c == '(' || c == ')' || c == '<' || c == '>' || c == '@'
    || c == ',' || c == ';' || c == ':' || c == '\\' || c == '"'
    || c == '/' || c == '[' || c == ']' || c == '?' || c == '='
    || c == '{' || c == '}' || c == ' '
  }

  /**
   * A character that may appear inside a token, listed by range: `!`, `#` to
   * `'`, `*`, `+`, `-`, `.`, the digits, the capitals, `^` to `z`, `|` and `~`.
   */
  predicate IsTokenChar(c: char) {
    || c == '!' || ('#' <= c <= '\'') || c == '*' || c == '+' || c == '-' || c == '.'
    || ('0' <= c <= '9') || ('A' <= c <= 'Z') || ('^' <= c <= 'z') || c == '|' || c == '~'
  }

  /** The ranges above are exactly RFC 2616's token characters: any US-ASCII character but the controls and the separators. */
  lemma TokenCharDefinition(c: char)
    ensures IsTokenChar(c) <==> !IsIllegal(c) && !IsSeparator(c)
  {
  }

  /** A token: one or more token characters. */
  predicate IsToken(s: string) {
    |s| > 0 && forall i :: 0 <= i < |s| ==> IsTokenChar(s[i])
  }

  /** The characters that may follow the `/` of a well-formed content type: token characters, `;` and `=`. */
  predicate IsTailChar(c: char) {
    IsTokenChar(c) || c == ';' || c == '='
  }

  /** The characters a well-formed content type is written with: those above and its one `/`. */
  predicate IsContentTypeChar(c: char) {
    IsTailChar(c) || c == '/'
  }

  predicate AllTailChars(s: string) {
    forall i :: 0 <= i < |s| ==> IsTailChar(s[i])
  }

  predicate AllContentTypeChars(s: string) {
    forall i :: 0 <= i < |s| ==> IsContentTypeChar(s[i])
  }

  /** A token holds none of the three structural separators. */
  lemma TokenChars(s: string)
    requires IsToken(s)
    ensures AllTailChars(s)
    ensures '/' !in s && ';' !in s && '=' !in s
  {
  }

  lemma AllTailCharsConcat(a: string, b: string)
    requires AllTailChars(a) && AllTailChars(b)
    ensures AllTailChars(a + b)
  {
  }

  /** Two runs of tail characters around one `/`: that `/` is the only one. */
  lemma SlashJoinChars(a: string, b: string)
    requires AllTailChars(a) && AllTailChars(b)
    ensures var s := a + "/" + b;
      && AllContentTypeChars(s)
      && forall i :: 0 <= i < |s| ==> (s[i] == '/' <==> i == |a|)
  {
    var s := a + "/" + b;
    forall i | 0 <= i < |s| ensures IsContentTypeChar(s[i]) && (s[i] == '/' <==> i == |a|) {
      if i < |a| {
        assert s[i] == a[i];
      } else if i > |a| {
        assert s[i] == b[i - |a| - 1];
      }
    }
  }
}
