/**
 * The scanning state of the lexer (lexer/lexer.go), without its goroutine
 * and channel: the channel of scanned tokens is the sequence `tokens`, and a
 * send on it is an append.
 *
 * The input is a sequence of code points, so each rune read at `start` is one
 * position wide. `IsUpper` recognises the ASCII capitals only.
 */
module Lexing {
  import opened Wrappers
  import opened Tokens

  /** The one-rune tokens of the top-level state. */
  const SimpleTokens: map<char, TokenType> :=
    map['.' := TknDot, '(' := TknOpenParen, ')' := TknCloseParen]

  /** The table maps exactly the three punctuation runes, each to its kind. */
  lemma SimpleTokensTable()
    ensures SimpleTokens.Keys == {'.', '(', ')'}
    ensures SimpleTokens['.'] == TknDot
    ensures SimpleTokens['('] == TknOpenParen
    ensures SimpleTokens[')'] == TknCloseParen
  {
  }

  /**
   * `unicode.IsUpper`, on the ASCII capitals: an upper-case rune is never a
   * simple token, so the two cases of the top-level switch never overlap.
   */
  predicate IsUpper(c: char)
    ensures IsUpper(c) ==> c !in SimpleTokens && (c as int) < 0x80
  {
    'A' <= c <= 'Z'
  }

  /**
   * Whether the top-level loop ends when it starts on `s`: each iteration
   * either emits a simple rune and goes on, or stops at an upper-case rune or
   * at the end of the input. Any other rune is read again and again, forever.
   */
  predicate TopLevelHalts(s: string)
  {
    || |s| == 0
    || (s[0] in SimpleTokens && TopLevelHalts(s[1..]))
    || (s[0] !in SimpleTokens && IsUpper(s[0]))
  }

  /** The number of simple runes at the front of `s`. */
  function SimpleRunLength(s: string): (n: nat)
    ensures n <= |s|
  {
    if s != [] && s[0] in SimpleTokens then 1 + SimpleRunLength(s[1..]) else 0
  }

  /** The tokens the top-level state emits on `s`: one per leading simple rune. */
  function TopLevelTokens(s: string): seq<Token>
  {
    if s != [] && s[0] in SimpleTokens
    then [Token(SimpleTokens[s[0]], [s[0]], 0)] + TopLevelTokens(s[1..])
    else []
  }

  /** Everything `run` sends, given an input on which it halts. */
  function RunTokens(s: string): seq<Token>
  {
    TopLevelTokens(s) + [EofToken]
  }

  /** The texts of a token sequence, concatenated. */
  function Joined(ts: seq<Token>): string
  {
    if ts == [] then "" else Joined(ts[..|ts| - 1]) + ts[|ts| - 1].val
  }

  lemma {:induction false} JoinedCons(t: Token, ts: seq<Token>)
    ensures Joined([t] + ts) == t.val + Joined(ts)
  {
    if ts != [] {
      assert ([t] + ts)[..|ts|] == [t] + ts[..|ts| - 1];
      JoinedCons(t, ts[..|ts| - 1]);
    }
  }

  /**
   * The loop halts exactly unless, after its run of simple runes, it meets a
   * rune that is neither simple nor upper case.
   */
  lemma {:induction false} TopLevelHaltsIff(s: string)
    ensures !TopLevelHalts(s) <==>
              SimpleRunLength(s) < |s| && s[SimpleRunLength(s)] !in SimpleTokens && !IsUpper(s[SimpleRunLength(s)])
  {
    if s != [] && s[0] in SimpleTokens {
      TopLevelHaltsIff(s[1..]);
    }
  }

  /**
   * The top-level state emits one one-rune token per leading simple rune, of
   * the kind the table gives it; the texts, joined, are exactly that prefix.
   */
  lemma {:induction false} TopLevelTokensShape(s: string)
    ensures |TopLevelTokens(s)| == SimpleRunLength(s)
    ensures forall k :: 0 <= k < SimpleRunLength(s) ==>
              s[k] in SimpleTokens && TopLevelTokens(s)[k] == Token(SimpleTokens[s[k]], [s[k]], 0)
    ensures Joined(TopLevelTokens(s)) == s[..SimpleRunLength(s)]
  {
    if s != [] && s[0] in SimpleTokens {
      TopLevelTokensShape(s[1..]);
      var t := Token(SimpleTokens[s[0]], [s[0]], 0);
      JoinedCons(t, TopLevelTokens(s[1..]));
      assert s[..SimpleRunLength(s)] == [s[0]] + s[1..][..SimpleRunLength(s[1..])];
      forall k | 1 <= k < SimpleRunLength(s)
        ensures s[k] in SimpleTokens && TopLevelTokens(s)[k] == Token(SimpleTokens[s[k]], [s[k]], 0)
      {
        assert s[k] == s[1..][k - 1];
      }
    }
  }

  /**
   * `run` ends the output with exactly one end-of-input token, with empty
   * text, and sends nothing after it; every earlier token is a one-rune
   * punctuation token.
   */
  lemma RunTokensEndWithOneEof(s: string)
    ensures |RunTokens(s)| == SimpleRunLength(s) + 1
    ensures RunTokens(s)[|RunTokens(s)| - 1] == Token(TknEOF, "", 0)
    ensures forall k :: 0 <= k < |RunTokens(s)| - 1 ==>
              RunTokens(s)[k].typ in {TknDot, TknOpenParen, TknCloseParen} && |RunTokens(s)[k].val| == 1
    ensures Joined(RunTokens(s)) == s[..SimpleRunLength(s)]
  {
    TopLevelTokensShape(s);
    var ts := TopLevelTokens(s);
    assert RunTokens(s)[..|ts|] == ts;
    forall k | 0 <= k < |ts|
      ensures RunTokens(s)[k].typ in {TknDot, TknOpenParen, TknCloseParen} && |RunTokens(s)[k].val| == 1
    {
      assert RunTokens(s)[k] == ts[k];
    }
  }

  /** The only state function: the top-level state. */
  datatype StateFn = LexTopLevelState

  /** The lexer struct: the input, the token-start and current positions, and the output. */
  class Lexer {
    const name: string
    const input: string
    var start: nat
    var pos: nat
    var tokens: seq<Token>

    /**
     * The cursor discipline: `start` never passes `pos`, `pos` stays in the
     * input, and the texts sent so far are the input up to `start`, one after
     * the other without gaps or overlaps.
     */
    ghost predicate Valid()
      reads this
    {
      start <= pos <= |input| && Joined(tokens) == input[..start]
    }

    /** The struct literal of `Lex`: both positions at 0 and nothing sent. */
    constructor (name: string, input: string)
      ensures this.name == name && this.input == input
      ensures start == 0 && pos == 0 && tokens == []
      ensures Valid()
    {
      this.name := name;
      this.input := input;
      start, pos, tokens := 0, 0, [];
    }

    /**
     * `emit`: extends the current token by `extraLen` runes, sends it with
     * the text from `start` to the new `pos`, and starts the next token there.
     */
    method Emit(t: TokenType, extraLen: nat)
      requires Valid()
      requires pos + extraLen <= |input|
      modifies this
      ensures pos == old(pos) + extraLen && start == pos
      ensures tokens == old(tokens) + [Token(t, input[old(start)..pos], 0)]
      ensures Valid()
    {
      pos := pos + extraLen;
      var tkn := Token(t, input[start..pos], 0);
      assert input[..pos] == input[..start] + tkn.val;
      tokens := tokens + [tkn];
      assert tokens[..|tokens| - 1] == old(tokens);
      start := pos;
    }

    /**
     * `lexTopLevel`: emits each simple rune as a one-rune token and stops at
     * an upper-case rune or at the end of the input, without emitting there.
     */
    method LexTopLevel() returns (next: Option<StateFn>)
      requires Valid() && start == pos
      requires TopLevelHalts(input[pos..])
      modifies this
      ensures Valid() && start == pos
      ensures next == None
      ensures pos == old(pos) + SimpleRunLength(input[old(pos)..])
      ensures tokens == old(tokens) + TopLevelTokens(input[old(pos)..])
    {
      while pos < |input|
        invariant Valid() && start == pos
        invariant TopLevelHalts(input[pos..])
        invariant pos + SimpleRunLength(input[pos..]) == old(pos) + SimpleRunLength(input[old(pos)..])
        invariant tokens + TopLevelTokens(input[pos..]) == old(tokens) + TopLevelTokens(input[old(pos)..])
        decreases |input| - pos
      {
        var r := input[start];
        assert input[pos..][0] == r && input[pos..][1..] == input[pos + 1..];
        if r in SimpleTokens {
          ghost var before := tokens;
          ghost var rest := TopLevelTokens(input[pos + 1..]);
          assert TopLevelTokens(input[pos..]) == [Token(SimpleTokens[r], [r], 0)] + rest;
          Emit(SimpleTokens[r], 1);
          assert input[pos - 1..pos] == [r];
          assert tokens + rest == before + ([Token(SimpleTokens[r], [r], 0)] + rest);
        } else if IsUpper(r) {
          return None;
        }
      }
      return None;
    }

    /**
     * `run`: drives the state functions until one returns none, then sends
     * the end-of-input token, whose text is empty because `start == pos`.
     */
    method Run()
      requires Valid() && start == pos
      requires TopLevelHalts(input[pos..])
      modifies this
      ensures Valid() && start == pos
      ensures pos == old(pos) + SimpleRunLength(input[old(pos)..])
      ensures tokens == old(tokens) + RunTokens(input[old(pos)..])
    {
      var state: Option<StateFn> := Some(LexTopLevelState);
      while state.Some?
        invariant Valid() && start == pos
        invariant state.Some? ==> pos == old(pos) && tokens == old(tokens)
        invariant state.None? ==> pos == old(pos) + SimpleRunLength(input[old(pos)..])
        invariant state.None? ==> tokens == old(tokens) + TopLevelTokens(input[old(pos)..])
        decreases if state.Some? then 1 else 0
      {
        match state.value
        case LexTopLevelState =>
          state := LexTopLevel();
      }
      Emit(TknEOF, 0);
      assert input[pos..pos] == "";
    }
  }
}
