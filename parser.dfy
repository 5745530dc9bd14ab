/**
 * The recursive-descent parser (parser/parser.go).
 *
 * The unseen `lexer.Lexer` interface is a token sequence with a cursor:
 * `Peek` reads the token at the cursor and `Next` reads it and advances.
 * Past the last token the stream keeps answering with an end-of-input token.
 * A `panic` raised by `synErrExpected` unwinds the whole parse; here it is a
 * `Failure` carrying the panic message, which every caller passes on.
 *
 * Each parsing function of the source is modelled twice: as a function of the
 * token sequence and a start position (`ParseTermAt`, ...), which is the
 * specification, and as a method on the shared stream (`ParseTerm`, ...),
 * which follows the source statement by statement and is proved to compute
 * that function.
 */
module Parser {
  import opened Wrappers
  import opened Tokens
  import opened Ast

  /**
   * What a syntax error says was expected: a token kind, named by
   * `prettyType`, or the fixed text of the argument-list error.
   */
  datatype Expected = Kind(kind: TokenType) | CommaOrParen

  /** The rule a syntax error names as being parsed. */
  datatype Rule = ClauseHeadRule | ArgumentListRule | ClauseBodyRule | TermRule

  function ExpectedName(e: Expected): string
  {
    match e
    case Kind(t) => PrettyType(t)
    case CommaOrParen => "`,` or `(`"
  }

  function RuleName(r: Rule): string
  {
    match r
    case ClauseHeadRule => "clause head"
    case ArgumentListRule => "argument list"
    case ClauseBodyRule => "clause body"
    case TermRule => "a term"
  }

  /**
   * The panic raised by `synErrExpected`: what was expected, the rule being
   * parsed and the token found. `Message` is the text of the panic.
   */
  datatype SyntaxError = SyntaxError(expected: Expected, what: Rule, got: Token) {
    function Message(): (r: string)
      ensures |r| == 9 + |ExpectedName(expected)| + 14 + |RuleName(what)| + 6 + |TokenString(got)|
      ensures r[..9] == "expected "
      ensures r[9..9 + |ExpectedName(expected)|] == ExpectedName(expected)
      ensures r[|r| - |TokenString(got)|..] == TokenString(got)
    {
      var e := ExpectedName(expected);
      var mid := " when parsing " + RuleName(what) + ", got ";
      var g := TokenString(got);
      ConcatParts("expected ", e, mid + g);
      ConcatParts("expected " + e, mid, g);
      "expected " + e + mid + g
    }
  }

  /** The outcome of a parsing step: a value and the position after it, or a panic. */
  datatype Parsed<T> = Success(value: T, next: nat) | Failure(error: SyntaxError)

  /** The token at position `i` of the stream. */
  function At(toks: seq<Token>, i: nat): Token
  {
    if i < |toks| then toks[i] else EofToken
  }

  /** The tokens left from position `i`: the termination measure. */
  function Measure(toks: seq<Token>, i: nat): nat
  {
    if i < |toks| then |toks| - i else 0
  }

  /** Puts `acc` in front of a successfully parsed list. */
  function Prepend<T>(acc: seq<T>, r: Parsed<seq<T>>): Parsed<seq<T>>
  {
    match r
    case Success(ts, k) => Success(acc + ts, k)
    case Failure(m) => Failure(m)
  }

  lemma PrependLaws<T>(a: seq<T>, b: seq<T>, r: Parsed<seq<T>>)
    ensures Prepend([], r) == r
    ensures Prepend(a, Prepend(b, r)) == Prepend(a + b, r)
  {
    if r.Success? {
      assert [] + r.value == r.value;
      assert a + (b + r.value) == (a + b) + r.value;
    }
  }

  /** The decimal digits of `n`, as `%d` prints it. */
  function Decimal(n: nat): (s: string)
    ensures |s| >= 1
    ensures forall k :: 0 <= k < |s| ==> '0' <= s[k] <= '9'
  {
    var d := [('0' as int + n % 10) as char];
    if n < 10 then d else Decimal(n / 10) + d
  }

  /** Reads back the kind named in a message. */
  function KindNamed(s: string): Option<TokenType>
  {
    if s == "an atom" then Some(TknAtom)
    else if s == "a variable" then Some(TknVariable)
    else if s == "`(`" then Some(TknOpenParen)
    else if s == "`)`" then Some(TknCloseParen)
    else if s == "`:=`" then Some(TknColonDash)
    else if s == "a comma" then Some(TknComma)
    else if s == "a dot" then Some(TknDot)
    else if s == "???(0)" then Some(TknError)
    else if s == "???(8)" then Some(TknNumber)
    else if s == "???(9)" then Some(TknEOF)
    else None
  }

  lemma DecimalDigit(n: nat)
    requires n < 10
    ensures Decimal(n) == [('0' as int + n) as char]
  {
  }

  /** The name of a kind used in error messages; the name tells the kind. */
  function PrettyType(t: TokenType): (r: string)
    ensures KindNamed(r) == Some(t)
  {
    match t
    case TknAtom => "an atom"
    case TknVariable => "a variable"
    case TknOpenParen => "`(`"
    case TknCloseParen => "`)`"
    case TknColonDash => "`:=`"
    case TknComma => "a comma"
    case TknDot => "a dot"
    case _ =>
      UnknownKindNamed(t);
      "???(" + Decimal(Code(t)) + ")"
  }

  /** The kinds without a name of their own print as `???(n)`, which still tells them apart. */
  lemma UnknownKindNamed(t: TokenType)
    requires t == TknError || t == TknNumber || t == TknEOF
    ensures KindNamed("???(" + Decimal(Code(t)) + ")") == Some(t)
  {
    DecimalDigit(Code(t));
    match t
    case TknError => assert "???(" + Decimal(0) + ")" == "???(0)";
    case TknNumber =>
      assert "???(" + Decimal(8) + ")" == "???(8)";
      assert "???(8)"[4] != "???(0)"[4];
    case TknEOF =>
      assert "???(" + Decimal(9) + ")" == "???(9)";
      assert "???(9)"[4] != "???(0)"[4] && "???(9)"[4] != "???(8)"[4];
  }

  lemma ConcatParts<T>(a: seq<T>, b: seq<T>, c: seq<T>)
    ensures (a + b) + c == a + (b + c)
    ensures (a + (b + c))[..|a|] == a
    ensures (a + (b + c))[|a|..|a| + |b|] == b
    ensures ((a + b) + c)[|a + b|..] == c
  {
  }

  /** `nextToken`: consumes one token, and fails unless it has the expected kind. */
  function NextTokenAt(toks: seq<Token>, i: nat, expectedType: TokenType, what: Rule): (r: Parsed<Token>)
    ensures r.Success? <==> At(toks, i).typ == expectedType
    ensures r.Success? ==> r.value == At(toks, i) && r.next == i + 1
    ensures r.Failure? ==> r.error == SyntaxError(Kind(expectedType), what, At(toks, i))
  {
    var tkn := At(toks, i);
    if tkn.typ != expectedType then Failure(SyntaxError(Kind(expectedType), what, tkn))
    else Success(tkn, i + 1)
  }

  /** `parseVariable`: a variable token becomes a `Variable` named by its text. */
  function ParseVariableAt(toks: seq<Token>, i: nat): (r: Parsed<Variable>)
    ensures r.Success? <==> At(toks, i).typ == TknVariable
    ensures r.Success? ==> r == Success(Variable(toks[i].val), i + 1) && i < |toks|
  {
    match NextTokenAt(toks, i, TknVariable, TermRule)
    case Success(tkn, j) => Success(Variable(tkn.val), j)
    case Failure(m) => Failure(m)
  }

  /**
   * `parseTerm`: a variable if the lookahead is a variable token, otherwise
   * whatever `parseClauseHead` returns, kept as a clause head.
   */
  function ParseTermAt(toks: seq<Token>, i: nat): (r: Parsed<Term>)
    ensures r.Success? ==> i < r.next <= |toks|
    decreases Measure(toks, i), 2
  {
    if At(toks, i).typ == TknVariable then
      match ParseVariableAt(toks, i)
      case Success(v, j) => Success(VariableTerm(v), j)
      case Failure(m) => Failure(m)
    else
      match ParseClauseHeadAt(toks, i)
      case Success(h, j) => Success(HeadTerm(h), j)
      case Failure(m) => Failure(m)
  }

  /**
   * `parseClauseHead`: one atom gives the name; an argument list follows only
   * if the next token is `(`, and the arguments are empty otherwise.
   */
  function ParseClauseHeadAt(toks: seq<Token>, i: nat): (r: Parsed<ClauseHead>)
    ensures r.Success? ==> i < r.next <= |toks|
    ensures r.Success? ==> toks[i].typ == TknAtom && r.value.name == toks[i].val
    ensures r.Success? ==> (r.value.args == [] <==> At(toks, i + 1).typ != TknOpenParen)
    ensures r.Success? && r.value.args == [] ==> r.next == i + 1
    ensures At(toks, i).typ != TknAtom ==>
              r == Failure(SyntaxError(Kind(TknAtom), ClauseHeadRule, At(toks, i)))
    decreases Measure(toks, i), 1
  {
    match NextTokenAt(toks, i, TknAtom, ClauseHeadRule)
    case Failure(m) => Failure(m)
    case Success(tkn, j) =>
      if At(toks, j).typ == TknOpenParen then
        match ParseArgListAt(toks, j)
        case Success(args, k) => Success(ClauseHead(tkn.val, args), k)
        case Failure(m) => Failure(m)
      else Success(ClauseHead(tkn.val, []), j)
  }

  /** `parseArgList`: `(` then at least one term, separated by `,` and closed by `)`. */
  function ParseArgListAt(toks: seq<Token>, i: nat): (r: Parsed<seq<Term>>)
    ensures r.Success? ==> i + 1 < r.next <= |toks| && |r.value| >= 1
    ensures r.Success? ==> toks[i].typ == TknOpenParen && toks[r.next - 1].typ == TknCloseParen
    decreases Measure(toks, i), 0
  {
    match NextTokenAt(toks, i, TknOpenParen, ArgumentListRule)
    case Failure(m) => Failure(m)
    case Success(_, j) => ParseArgsAt(toks, j)
  }

  /**
   * The loop of `parseArgList`: a term, then `,` for another round or `)` to
   * finish; any other token is an error naming "`,` or `(`".
   */
  function ParseArgsAt(toks: seq<Token>, i: nat): (r: Parsed<seq<Term>>)
    ensures r.Success? ==> i < r.next <= |toks| && |r.value| >= 1
    ensures r.Success? ==> toks[r.next - 1].typ == TknCloseParen
    decreases Measure(toks, i), 3
  {
    match ParseTermAt(toks, i)
    case Failure(m) => Failure(m)
    case Success(t, j) =>
      var tkn := At(toks, j);
      if tkn.typ == TknComma then
        Prepend([t], ParseArgsAt(toks, j + 1))
      else if tkn.typ == TknCloseParen then
        Success([t], j + 1)
      else
        Failure(SyntaxError(CommaOrParen, ArgumentListRule, tkn))
  }

  /**
   * `parseClauseOrFact`: a head, then one more token. `.` makes a fact with
   * body `true()`; `:-` makes a rule whose body is a term followed by `.`;
   * any other token is consumed and leaves the body absent.
   */
  function ParseClauseAt(toks: seq<Token>, i: nat): (r: Parsed<Clause>)
    ensures r.Success? ==> i + 1 < r.next <= |toks| + 1
  {
    match ParseClauseHeadAt(toks, i)
    case Failure(m) => Failure(m)
    case Success(h, j) =>
      var tkn := At(toks, j);
      if tkn.typ == TknDot then Success(Clause(h, TrueBody), j + 1)
      else if tkn.typ == TknColonDash then
        match ParseTermAt(toks, j + 1)
        case Failure(m) => Failure(m)
        case Success(b, k) =>
          match NextTokenAt(toks, k, TknDot, ClauseBodyRule)
          case Failure(m) => Failure(m)
          case Success(_, n) => Success(Clause(h, b), n)
      else Success(Clause(h, NilTerm), j + 1)
  }

  /** `parseProgram`: clauses, one after another, until the lookahead is EOF. */
  function ParseProgramAt(toks: seq<Token>, i: nat): (r: Parsed<Program>)
    ensures r.Success? ==> i <= r.next && At(toks, r.next).typ == TknEOF
    decreases Measure(toks, i)
  {
    if At(toks, i).typ == TknEOF then Success([], i)
    else
      match ParseClauseAt(toks, i)
      case Failure(m) => Failure(m)
      case Success(c, j) => Prepend([c], ParseProgramAt(toks, j))
  }

  /** The token stream the parser pulls from. */
  class TokenStream {
    const toks: seq<Token>
    var cursor: nat

    constructor (toks: seq<Token>)
      ensures this.toks == toks && cursor == 0
    {
      this.toks := toks;
      cursor := 0;
    }

    /** The token at the cursor, left in place. */
    function Peek(): (t: Token)
      reads this
      ensures cursor < |toks| ==> t == toks[cursor]
      ensures cursor >= |toks| ==> t == EofToken
    {
      At(toks, cursor)
    }

    /** The token at the cursor; the cursor moves past it. */
    method Next() returns (t: Token)
      modifies this
      ensures t == At(toks, old(cursor)) && cursor == old(cursor) + 1
    {
      t := At(toks, cursor);
      cursor := cursor + 1;
    }
  }

  method NextToken(l: TokenStream, expectedType: TokenType, what: Rule) returns (r: Parsed<Token>)
    modifies l
    ensures l.cursor == old(l.cursor) + 1
    ensures r == NextTokenAt(l.toks, old(l.cursor), expectedType, what)
  {
    var tkn := l.Next();
    if tkn.typ != expectedType {
      return Failure(SyntaxError(Kind(expectedType), what, tkn));
    }
    return Success(tkn, l.cursor);
  }

  method ParseVariable(l: TokenStream) returns (r: Parsed<Variable>)
    modifies l
    ensures r == ParseVariableAt(l.toks, old(l.cursor))
    ensures r.Success? ==> l.cursor == r.next
  {
    var tkn := NextToken(l, TknVariable, TermRule);
    if tkn.Failure? {
      return Failure(tkn.error);
    }
    return Success(Variable(tkn.value.val), l.cursor);
  }

  method ParseTerm(l: TokenStream) returns (r: Parsed<Term>)
    modifies l
    ensures r == ParseTermAt(l.toks, old(l.cursor))
    ensures r.Success? ==> l.cursor == r.next
    decreases Measure(l.toks, l.cursor), 2
  {
    var tkn := l.Peek();
    if tkn.typ == TknVariable {
      var v := ParseVariable(l);
      assert v.Success?;
      return Success(VariableTerm(v.value), v.next);
    }
    var h := ParseClauseHead(l);
    if h.Failure? {
      return Failure(h.error);
    }
    return Success(HeadTerm(h.value), h.next);
  }

  method ParseClauseHead(l: TokenStream) returns (r: Parsed<ClauseHead>)
    modifies l
    ensures r == ParseClauseHeadAt(l.toks, old(l.cursor))
    ensures r.Success? ==> l.cursor == r.next
    decreases Measure(l.toks, l.cursor), 1
  {
    var tkn := NextToken(l, TknAtom, ClauseHeadRule);
    if tkn.Failure? {
      return Failure(tkn.error);
    }
    var name := tkn.value.val;
    var args: seq<Term> := [];
    if l.Peek().typ == TknOpenParen {
      var a := ParseArgList(l);
      if a.Failure? {
        return Failure(a.error);
      }
      args := a.value;
    }
    return Success(ClauseHead(name, args), l.cursor);
  }

  method ParseArgList(l: TokenStream) returns (r: Parsed<seq<Term>>)
    modifies l
    ensures r == ParseArgListAt(l.toks, old(l.cursor))
    ensures r.Success? ==> l.cursor == r.next
    decreases Measure(l.toks, l.cursor), 0
  {
    ghost var c0 := l.cursor;
    var open := NextToken(l, TknOpenParen, ArgumentListRule);
    if open.Failure? {
      return Failure(open.error);
    }
    var result: seq<Term> := [];
    PrependLaws(result, result, ParseArgsAt(l.toks, l.cursor));
    while true
      invariant c0 < |l.toks| && c0 < l.cursor
      invariant ParseArgListAt(l.toks, c0) == Prepend(result, ParseArgsAt(l.toks, l.cursor))
      decreases Measure(l.toks, l.cursor)
    {
      ghost var c := l.cursor;
      var t := ParseTerm(l);
      if t.Failure? {
        return Failure(t.error);
      }
      result := result + [t.value];
      var tkn := l.Next();
      if tkn.typ == TknComma {
        assert ParseArgsAt(l.toks, c) == Prepend([t.value], ParseArgsAt(l.toks, l.cursor));
        PrependLaws(result[..|result| - 1], [t.value], ParseArgsAt(l.toks, l.cursor));
        assert result[..|result| - 1] + [t.value] == result;
        continue;
      } else if tkn.typ == TknCloseParen {
        return Success(result, l.cursor);
      } else {
        return Failure(SyntaxError(CommaOrParen, ArgumentListRule, tkn));
      }
    }
  }

  method ParseClauseOrFact(l: TokenStream) returns (r: Parsed<Clause>)
    modifies l
    ensures r == ParseClauseAt(l.toks, old(l.cursor))
    ensures r.Success? ==> l.cursor == r.next
  {
    var head := ParseClauseHead(l);
    if head.Failure? {
      return Failure(head.error);
    }
    var body := NilTerm;
    var tkn := l.Next();
    if tkn.typ == TknDot {
      body := TrueBody;
    } else if tkn.typ == TknColonDash {
      var b := ParseTerm(l);
      if b.Failure? {
        return Failure(b.error);
      }
      body := b.value;
      var dot := NextToken(l, TknDot, ClauseBodyRule);
      if dot.Failure? {
        return Failure(dot.error);
      }
    }
    return Success(Clause(head.value, body), l.cursor);
  }

  method ParseProgram(l: TokenStream) returns (r: Parsed<Program>)
    modifies l
    ensures r == ParseProgramAt(l.toks, old(l.cursor))
    ensures r.Success? ==> l.cursor == r.next
  {
    ghost var c0 := l.cursor;
    var result: Program := [];
    PrependLaws(result, result, ParseProgramAt(l.toks, l.cursor));
    while l.Peek().typ != TknEOF
      invariant ParseProgramAt(l.toks, c0) == Prepend(result, ParseProgramAt(l.toks, l.cursor))
      decreases Measure(l.toks, l.cursor)
    {
      ghost var c := l.cursor;
      var clause := ParseClauseOrFact(l);
      if clause.Failure? {
        return Failure(clause.error);
      }
      assert ParseProgramAt(l.toks, c) == Prepend([clause.value], ParseProgramAt(l.toks, l.cursor));
      PrependLaws(result, [clause.value], ParseProgramAt(l.toks, l.cursor));
      result := result + [clause.value];
    }
    assert result + [] == result;
    return Success(result, l.cursor);
  }

  /** `Parse`: the exported entry point. */
  method Parse(l: TokenStream) returns (r: Parsed<Program>)
    modifies l
    ensures r == ParseProgramAt(l.toks, old(l.cursor))
    ensures r.Success? ==> l.cursor == r.next
  {
    r := ParseProgram(l);
  }
}
