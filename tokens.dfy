/**
 * Token kinds, token values and their printed form (lexer/token.go).
 *
 * Go strings are byte strings; here a string is a sequence of Unicode code
 * points, and `ByteLen` gives the length Go's `len` would report for the same
 * text encoded as UTF-8.
 */
module Tokens {
  import opened Wrappers

  /** The kinds of token, declared in the order of their integer codes. */
  datatype TokenType =
    | TknError
    | TknOpenParen
    | TknCloseParen
    | TknDot
    | TknColonDash
    | TknComma
    | TknAtom
    | TknVariable
    | TknNumber
    | TknEOF

  /** The integer value of a kind (the `iota` sequence of the constant block). */
  function Code(t: TokenType): (n: nat)
    ensures n <= 9
  {
    match t
    case TknError => 0
    case TknOpenParen => 1
    case TknCloseParen => 2
    case TknDot => 3
    case TknColonDash => 4
    case TknComma => 5
    case TknAtom => 6
    case TknVariable => 7
    case TknNumber => 8
    case TknEOF => 9
  }

  /** The kind with a given integer value, if there is one. */
  function FromCode(n: int): (r: Option<TokenType>)
    ensures r.Some? <==> 0 <= n <= 9
    ensures r.Some? ==> Code(r.value) == n
  {
    if n == 0 then Some(TknError)
    else if n == 1 then Some(TknOpenParen)
    else if n == 2 then Some(TknCloseParen)
    else if n == 3 then Some(TknDot)
    else if n == 4 then Some(TknColonDash)
    else if n == 5 then Some(TknComma)
    else if n == 6 then Some(TknAtom)
    else if n == 7 then Some(TknVariable)
    else if n == 8 then Some(TknNumber)
    else if n == 9 then Some(TknEOF)
    else None
  }

  /** The codes are consecutive from `TknError` = 0 to `TknEOF` = 9, one per kind. */
  lemma CodesConsecutive(t: TokenType, u: TokenType)
    ensures FromCode(Code(t)) == Some(t)
    ensures Code(t) == Code(u) ==> t == u
    ensures Code(TknError) == 0 && Code(TknEOF) == 9
  {
  }

  /** A token: its kind, its text and a position that no code in the core sets. */
  datatype Token = Token(typ: TokenType, val: string, pos: int)

  /** The end-of-input token: the last one the lexer sends, and what the parser's stream answers once used up. */
  const EofToken := Token(TknEOF, "", 0)

  /** The number of bytes of the UTF-8 encoding of one code point. */
  function Utf8Width(c: char): (w: nat)
    ensures 1 <= w <= 4
    ensures w == 1 <==> (c as int) < 0x80
  {
    if (c as int) < 0x80 then 1
    else if (c as int) < 0x800 then 2
    else if (c as int) < 0x1_0000 then 3
    else 4
  }

  /** The byte length of a string, as Go's `len` measures it. */
  function ByteLen(s: string): nat
  {
    if s == [] then 0 else Utf8Width(s[0]) + ByteLen(s[1..])
  }

  lemma {:induction false} ByteLenAppend(a: string, b: string)
    ensures ByteLen(a + b) == ByteLen(a) + ByteLen(b)
  {
    if a != [] {
      assert (a + b)[1..] == a[1..] + b;
      ByteLenAppend(a[1..], b);
    } else {
      assert a + b == b;
    }
  }

  /** Every code point takes at least one byte. */
  lemma {:induction false} ByteLenAtLeastRunes(s: string)
    ensures |s| <= ByteLen(s)
    ensures ByteLen(s) == |s| <==> forall k :: 0 <= k < |s| ==> (s[k] as int) < 0x80
  {
    if s != [] {
      ByteLenAtLeastRunes(s[1..]);
      assert forall k :: 1 <= k < |s| ==> s[k] == s[1..][k - 1];
    }
  }

  function Min(a: int, b: int): int
  {
    if a <= b then a else b
  }

  /**
   * The abbreviation used when printing a token's text: a text longer than
   * ten BYTES is cut to its first seven CODE POINTS (the `%.7s` verb counts
   * runes) followed by "...".
   */
  function Cut(s: string): (r: string)
    ensures |r| <= 10
    ensures ByteLen(s) <= 10 ==> r == s
    ensures ByteLen(s) > 10 ==>
              |r| == Min(7, |s|) + 3 && r[..|r| - 3] == s[..|r| - 3] && r[|r| - 3..] == "..."
  {
    ByteLenAtLeastRunes(s);
    if ByteLen(s) > 10 then s[..Min(7, |s|)] + "..." else s
  }

  /**
   * The printed form of a token (its `String` method): error tokens show
   * their whole text, the end-of-input token shows "EOF", atoms show their
   * abbreviated text in single quotes, and every other kind its abbreviated
   * text.
   */
  function TokenString(t: Token): (r: string)
    ensures t.typ == TknError ==> r == "ERROR: " + t.val
    ensures t.typ == TknEOF ==> r == "EOF"
    ensures t.typ == TknAtom ==> r == "'" + Cut(t.val) + "'"
    ensures t.typ !in {TknError, TknEOF, TknAtom} ==> r == Cut(t.val)
  {
    match t.typ
    case TknError => "ERROR: " + t.val
    case TknEOF => "EOF"
    case TknAtom => "'" + Cut(t.val) + "'"
    case _ => Cut(t.val)
  }

  /** The printed form ignores the position, and of an EOF token also the text. */
  lemma TokenStringIgnoresPos(t: Token, p: int, v: string)
    ensures TokenString(t) == TokenString(t.(pos := p))
    ensures t.typ == TknEOF ==> TokenString(t) == TokenString(t.(val := v))
  {
  }

  /** Short texts (at most ten bytes) are shown verbatim, quoted for an atom. */
  lemma ShortTextShownVerbatim(t: Token)
    requires t.typ != TknError && t.typ != TknEOF
    requires ByteLen(t.val) <= 10
    ensures TokenString(t) == if t.typ == TknAtom then "'" + t.val + "'" else t.val
  {
  }

  /** Apart from an error token's text, a printed token is at most twelve code points long. */
  lemma TokenStringBounded(t: Token)
    requires t.typ != TknError
    ensures |TokenString(t)| <= 12
  {
  }

  /** An error token's printed form keeps its whole text: distinct texts print differently. */
  lemma {:induction false} ErrorTextUnabbreviated(t: Token, u: Token)
    requires t.typ == TknError && u.typ == TknError
    ensures TokenString(t)[7..] == t.val
    ensures TokenString(t) == TokenString(u) ==> t.val == u.val
  {
    assert TokenString(t)[7..] == t.val;
    assert TokenString(u)[7..] == u.val;
  }

  /**
   * `Cut` is idempotent exactly when its argument is short in bytes or has at
   * least seven code points. A text of fewer than seven code points but more
   * than ten bytes is made LONGER by `Cut`, and cutting it again appends a
   * second "...".
   */
  lemma CutIdempotentIff(s: string)
    ensures Cut(Cut(s)) == Cut(s) <==> ByteLen(s) <= 10 || |s| >= 7
  {
    if ByteLen(s) > 10 {
      var r := Cut(s);
      var k := Min(7, |s|);
      assert r == s[..k] + "...";
      if |s| >= 7 {
        if ByteLen(r) > 10 {
          assert r[..7] == s[..7];
        }
      } else {
        assert s[..k] == s;
        ByteLenAppend(s, "...");
        assert ByteLen(r) > 10;
        assert |Cut(r)| == Min(7, |r|) + 3 > |r|;
      }
    }
  }

  /** Three four-byte code points: `Cut` lengthens them and is not idempotent on them. */
  lemma CutNotIdempotentExample()
    ensures var s := "\U{1F600}\U{1F600}\U{1F600}";
            |Cut(s)| > |s| && Cut(Cut(s)) != Cut(s)
  {
    var s := "\U{1F600}\U{1F600}\U{1F600}";
    assert ByteLen(s) == 12;
    CutIdempotentIff(s);
  }
}
