/**
 * Properties of the parser (parser/parser.go), stated over its specification
 * functions.
 *
 * The partner of the parser is `Spell`, which writes a syntax tree back as
 * the token kinds and names it is made of. The parser reads of a token only
 * its kind and, for atoms and variables, its text (`Lexeme`); the lemmas
 * prove that a successful parse consumes exactly the spelling of what it
 * returns, and that the spelling of every program of facts and rules is
 * parsed back into that program. A clause with absent body has no spelling
 * that parses back.
 */
module ParserLemmas {
  import opened Tokens
  import opened Ast
  import opened Parser
  import opened Wrappers
  import Lexing

  /** What the parser reads of a token. */
  function Lexeme(t: Token): (TokenType, string)
  {
    (t.typ, if t.typ == TknAtom || t.typ == TknVariable then t.val else "")
  }

  /** The tokens from position `i` on begin with the lexemes `s`. */
  ghost predicate SpelledAt(toks: seq<Token>, i: nat, s: seq<(TokenType, string)>)
    decreases |s|
  {
    if s == [] then true
    else i < |toks| && Lexeme(toks[i]) == s[0] && SpelledAt(toks, i + 1, s[1..])
  }

  /** The terms the parser builds: variables and clause heads, at every depth. */
  predicate Parseable(t: Term)
  {
    match t
    case VariableTerm(_) => true
    case HeadTerm(h) => ParseableHead(h)
    case _ => false
  }

  predicate ParseableHead(h: ClauseHead)
  {
    AllParseable(h.args)
  }

  predicate AllParseable(args: seq<Term>)
  {
    forall k :: 0 <= k < |args| ==> Parseable(args[k])
  }

  /** A term written out as lexemes. */
  function Spell(t: Term): seq<(TokenType, string)>
  {
    match t
    case VariableTerm(v) => [(TknVariable, v.name)]
    case HeadTerm(h) => SpellHead(h)
    case _ => []
  }

  /** A head: its atom, then its arguments in parentheses when it has any. */
  function SpellHead(h: ClauseHead): seq<(TokenType, string)>
  {
    [(TknAtom, h.name)] + if h.args == [] then [] else [(TknOpenParen, "")] + SpellArgs(h.args)
  }

  /** Arguments separated by commas, followed by the closing parenthesis. */
  function SpellArgs(args: seq<Term>): seq<(TokenType, string)>
  {
    if args == [] then []
    else Spell(args[0]) + if |args| == 1 then [(TknCloseParen, "")] else [(TknComma, "")] + SpellArgs(args[1..])
  }

  /** The clauses the parser builds from `.` or `:- Term .`. */
  predicate ParseableClause(c: Clause)
  {
    ParseableHead(c.head) && (c.body == TrueBody || Parseable(c.body))
  }

  /** A fact is its head and `.`; a rule is its head, `:-`, its body and `.`. */
  function SpellClause(c: Clause): seq<(TokenType, string)>
  {
    SpellHead(c.head) +
    if c.body == TrueBody then [(TknDot, "")] else [(TknColonDash, "")] + Spell(c.body) + [(TknDot, "")]
  }

  function SpellProgram(p: Program): seq<(TokenType, string)>
  {
    if p == [] then [] else SpellClause(p[0]) + SpellProgram(p[1..])
  }

  /** Every clause of `p` is a fact or a rule the parser builds. */
  predicate AllClausesParseable(p: Program)
    decreases |p|
  {
    p == [] || (ParseableClause(p[0]) && AllClausesParseable(p[1..]))
  }

  /** No clause of `p` has the absent body `NilTerm`. */
  predicate NoAbsentBody(p: Program)
    decreases |p|
  {
    p == [] || (p[0].body != NilTerm && NoAbsentBody(p[1..]))
  }

  lemma {:induction false} SpelledBound(toks: seq<Token>, i: nat, s: seq<(TokenType, string)>)
    requires SpelledAt(toks, i, s) && s != []
    ensures i + |s| <= |toks|
    decreases |s|
  {
    if |s| > 1 {
      SpelledBound(toks, i + 1, s[1..]);
    }
  }

  /** Spelling a concatenation is spelling its halves one after the other. */
  lemma {:induction false} SpelledConcat(toks: seq<Token>, i: nat, a: seq<(TokenType, string)>, b: seq<(TokenType, string)>)
    ensures SpelledAt(toks, i, a + b) <==> SpelledAt(toks, i, a) && SpelledAt(toks, i + |a|, b)
    decreases |a|
  {
    if a == [] {
      assert a + b == b;
    } else {
      assert (a + b)[0] == a[0] && (a + b)[1..] == a[1..] + b;
      SpelledConcat(toks, i + 1, a[1..], b);
    }
  }

  lemma SpelledOne(toks: seq<Token>, i: nat, x: (TokenType, string))
    ensures SpelledAt(toks, i, [x]) <==> i < |toks| && Lexeme(toks[i]) == x
  {
    assert [x][1..] == [];
  }

  lemma SpelledCons(toks: seq<Token>, i: nat, x: (TokenType, string), s: seq<(TokenType, string)>)
    ensures SpelledAt(toks, i, [x] + s) <==> i < |toks| && Lexeme(toks[i]) == x && SpelledAt(toks, i + 1, s)
  {
    assert ([x] + s)[0] == x && ([x] + s)[1..] == s;
  }

  /** `,` or `)` after a term, as an argument list spells it. */
  lemma SpelledArgsCons(toks: seq<Token>, i: nat, t: Term, rest: seq<Term>)
    ensures var m := i + |Spell(t)|;
            rest != [] ==>
              (SpelledAt(toks, i, SpellArgs([t] + rest)) <==>
                 SpelledAt(toks, i, Spell(t)) && m < |toks| && Lexeme(toks[m]) == (TknComma, "") &&
                 SpelledAt(toks, m + 1, SpellArgs(rest)))
    ensures var m := i + |Spell(t)|;
            SpelledAt(toks, i, SpellArgs([t])) <==>
              SpelledAt(toks, i, Spell(t)) && m < |toks| && Lexeme(toks[m]) == (TknCloseParen, "")
  {
    if rest != [] {
      SpelledArgsMore(toks, i, t, rest);
    }
    SpelledArgsLast(toks, i, t);
  }

  lemma SpelledArgsMore(toks: seq<Token>, i: nat, t: Term, rest: seq<Term>)
    requires rest != []
    ensures var m := i + |Spell(t)|;
            SpelledAt(toks, i, SpellArgs([t] + rest)) <==>
              SpelledAt(toks, i, Spell(t)) && m < |toks| && Lexeme(toks[m]) == (TknComma, "") &&
              SpelledAt(toks, m + 1, SpellArgs(rest))
  {
    assert ([t] + rest)[0] == t && ([t] + rest)[1..] == rest;
    assert SpellArgs([t] + rest) == Spell(t) + ([(TknComma, "")] + SpellArgs(rest));
    SpelledConcat(toks, i, Spell(t), [(TknComma, "")] + SpellArgs(rest));
    SpelledCons(toks, i + |Spell(t)|, (TknComma, ""), SpellArgs(rest));
  }

  lemma SpelledArgsLast(toks: seq<Token>, i: nat, t: Term)
    ensures var m := i + |Spell(t)|;
            SpelledAt(toks, i, SpellArgs([t])) <==>
              SpelledAt(toks, i, Spell(t)) && m < |toks| && Lexeme(toks[m]) == (TknCloseParen, "")
  {
    assert SpellArgs([t]) == Spell(t) + [(TknCloseParen, "")];
    SpelledConcat(toks, i, Spell(t), [(TknCloseParen, "")]);
    SpelledOne(toks, i + |Spell(t)|, (TknCloseParen, ""));
  }

  lemma SpellArgsLength(t: Term, rest: seq<Term>)
    ensures rest != [] ==> |SpellArgs([t] + rest)| == |Spell(t)| + 1 + |SpellArgs(rest)|
    ensures |SpellArgs([t])| == |Spell(t)| + 1
  {
    assert ([t] + rest)[0] == t && ([t] + rest)[1..] == rest;
  }

  lemma AllParseableCons(t: Term, rest: seq<Term>)
    ensures AllParseable([t] + rest) <==> Parseable(t) && AllParseable(rest)
  {
    var q := [t] + rest;
    assert q[0] == t;
    if AllParseable(q) {
      forall k | 0 <= k < |rest|
        ensures Parseable(rest[k])
      {
        assert q[k + 1] == rest[k];
      }
    }
    if Parseable(t) && AllParseable(rest) {
      forall k | 0 < k < |q|
        ensures Parseable(q[k])
      {
        assert q[k] == rest[k - 1];
      }
    }
  }

  /** A head: its atom, then `(` and its arguments when it has any. */
  lemma SpelledHeadParts(toks: seq<Token>, i: nat, h: ClauseHead)
    ensures h.args == [] ==> (SpelledAt(toks, i, SpellHead(h)) <==> i < |toks| && Lexeme(toks[i]) == (TknAtom, h.name))
    ensures h.args != [] ==>
              (SpelledAt(toks, i, SpellHead(h)) <==>
                 && i + 1 < |toks| && Lexeme(toks[i]) == (TknAtom, h.name) && Lexeme(toks[i + 1]) == (TknOpenParen, "")
                 && SpelledAt(toks, i + 2, SpellArgs(h.args)))
  {
    if h.args == [] {
      assert SpellHead(h) == [(TknAtom, h.name)];
      SpelledOne(toks, i, (TknAtom, h.name));
    } else {
      SpelledCons(toks, i, (TknAtom, h.name), [(TknOpenParen, "")] + SpellArgs(h.args));
      SpelledCons(toks, i + 1, (TknOpenParen, ""), SpellArgs(h.args));
    }
  }

  /** A fact: its head, then `.`. */
  lemma SpelledFactParts(toks: seq<Token>, i: nat, c: Clause)
    requires c.body == TrueBody
    ensures var j := i + |SpellHead(c.head)|;
            SpelledAt(toks, i, SpellClause(c)) <==>
              SpelledAt(toks, i, SpellHead(c.head)) && j < |toks| && Lexeme(toks[j]) == (TknDot, "")
    ensures |SpellClause(c)| == |SpellHead(c.head)| + 1
  {
    assert SpellClause(c) == SpellHead(c.head) + [(TknDot, "")];
    SpelledConcat(toks, i, SpellHead(c.head), [(TknDot, "")]);
    SpelledOne(toks, i + |SpellHead(c.head)|, (TknDot, ""));
  }

  /** A rule: its head, then `:-`, its body and `.`. */
  lemma SpelledRuleParts(toks: seq<Token>, i: nat, c: Clause)
    requires c.body != TrueBody
    ensures var j := i + |SpellHead(c.head)|; var k := j + 1 + |Spell(c.body)|;
            SpelledAt(toks, i, SpellClause(c)) <==>
              && SpelledAt(toks, i, SpellHead(c.head))
              && j < |toks| && Lexeme(toks[j]) == (TknColonDash, "")
              && SpelledAt(toks, j + 1, Spell(c.body))
              && k < |toks| && Lexeme(toks[k]) == (TknDot, "")
    ensures |SpellClause(c)| == |SpellHead(c.head)| + |Spell(c.body)| + 2
  {
    SpellRule(c);
    SpelledThenBetween(toks, i, SpellHead(c.head), (TknColonDash, ""), Spell(c.body), (TknDot, ""));
  }

  lemma SpellRule(c: Clause)
    requires c.body != TrueBody
    ensures SpellClause(c) == SpellHead(c.head) + ([(TknColonDash, "")] + Spell(c.body) + [(TknDot, "")])
  {
  }

  /** `a`, then `x`, `m` and `y`. */
  lemma SpelledThenBetween(toks: seq<Token>, i: nat, a: seq<(TokenType, string)>, x: (TokenType, string),
                           m: seq<(TokenType, string)>, y: (TokenType, string))
    ensures var j := i + |a|; var k := j + 1 + |m|;
            SpelledAt(toks, i, a + ([x] + m + [y])) <==>
              && SpelledAt(toks, i, a)
              && j < |toks| && Lexeme(toks[j]) == x
              && SpelledAt(toks, j + 1, m)
              && k < |toks| && Lexeme(toks[k]) == y
    ensures |a + ([x] + m + [y])| == |a| + |m| + 2
  {
    SpelledConcat(toks, i, a, [x] + m + [y]);
    SpelledBetween(toks, i + |a|, x, m, y);
  }

  /** `x`, then `m`, then `y`. */
  lemma SpelledBetween(toks: seq<Token>, j: nat, x: (TokenType, string), m: seq<(TokenType, string)>, y: (TokenType, string))
    ensures SpelledAt(toks, j, [x] + m + [y]) <==>
              && j < |toks| && Lexeme(toks[j]) == x && SpelledAt(toks, j + 1, m)
              && j + 1 + |m| < |toks| && Lexeme(toks[j + 1 + |m|]) == y
  {
    SpelledConcat(toks, j, [x] + m, [y]);
    SpelledCons(toks, j, x, m);
    SpelledOne(toks, j + 1 + |m|, y);
  }

  lemma SpelledProgramCons(toks: seq<Token>, i: nat, c: Clause, p: Program)
    ensures SpelledAt(toks, i, SpellProgram([c] + p)) <==>
              SpelledAt(toks, i, SpellClause(c)) && SpelledAt(toks, i + |SpellClause(c)|, SpellProgram(p))
    ensures |SpellProgram([c] + p)| == |SpellClause(c)| + |SpellProgram(p)|
  {
    assert ([c] + p)[0] == c && ([c] + p)[1..] == p;
    SpelledConcat(toks, i, SpellClause(c), SpellProgram(p));
  }

  // ---------------------------------------------------------------------
  // Soundness: a successful parse consumed the spelling of its result.
  // ---------------------------------------------------------------------

  lemma {:induction false} TermSound(toks: seq<Token>, i: nat)
    requires ParseTermAt(toks, i).Success?
    ensures var r := ParseTermAt(toks, i);
            Parseable(r.value) && SpelledAt(toks, i, Spell(r.value)) && r.next == i + |Spell(r.value)|
    decreases Measure(toks, i), 2
  {
    if At(toks, i).typ == TknVariable {
      SpelledOne(toks, i, (TknVariable, toks[i].val));
    } else {
      HeadSound(toks, i);
    }
  }

  lemma {:induction false} HeadSound(toks: seq<Token>, i: nat)
    requires ParseClauseHeadAt(toks, i).Success?
    ensures var r := ParseClauseHeadAt(toks, i);
            ParseableHead(r.value) && SpelledAt(toks, i, SpellHead(r.value)) && r.next == i + |SpellHead(r.value)|
    decreases Measure(toks, i), 1
  {
    var h := ParseClauseHeadAt(toks, i).value;
    SpelledHeadParts(toks, i, h);
    if At(toks, i + 1).typ == TknOpenParen {
      ArgListSound(toks, i + 1);
    }
  }

  lemma {:induction false} ArgListSound(toks: seq<Token>, i: nat)
    requires ParseArgListAt(toks, i).Success?
    ensures var r := ParseArgListAt(toks, i);
            && AllParseable(r.value)
            && i < |toks| && toks[i].typ == TknOpenParen
            && SpelledAt(toks, i + 1, SpellArgs(r.value))
            && r.next == i + 1 + |SpellArgs(r.value)|
    decreases Measure(toks, i), 0
  {
    ArgsSound(toks, i + 1);
  }

  /** One round of the argument loop, in the success case. */
  lemma ArgsStep(toks: seq<Token>, i: nat)
    requires ParseArgsAt(toks, i).Success?
    ensures var r := ParseArgsAt(toks, i); var t := ParseTermAt(toks, i);
            && t.Success?
            && At(toks, t.next).typ in {TknComma, TknCloseParen}
            && (At(toks, t.next).typ == TknComma ==>
                  ParseArgsAt(toks, t.next + 1).Success? &&
                  r == Success([t.value] + ParseArgsAt(toks, t.next + 1).value, ParseArgsAt(toks, t.next + 1).next))
            && (At(toks, t.next).typ == TknCloseParen ==> r == Success([t.value], t.next + 1))
  {
  }

  lemma {:induction false} ArgsSound(toks: seq<Token>, i: nat)
    requires ParseArgsAt(toks, i).Success?
    ensures var r := ParseArgsAt(toks, i);
            AllParseable(r.value) && SpelledAt(toks, i, SpellArgs(r.value)) && r.next == i + |SpellArgs(r.value)|
    decreases Measure(toks, i), 3
  {
    ArgsStep(toks, i);
    var t := ParseTermAt(toks, i);
    TermSound(toks, i);
    if At(toks, t.next).typ == TknComma {
      var rest := ParseArgsAt(toks, t.next + 1);
      ArgsSound(toks, t.next + 1);
      ArgsJoin(toks, i, t.value, rest.value);
    } else {
      ArgsJoin(toks, i, t.value, []);
    }
  }

  /** The spelling of an argument list, assembled from its first term and the rest. */
  lemma ArgsJoin(toks: seq<Token>, i: nat, t: Term, rest: seq<Term>)
    requires Parseable(t) && SpelledAt(toks, i, Spell(t))
    requires var m := i + |Spell(t)|;
             && At(toks, m).typ == (if rest == [] then TknCloseParen else TknComma)
             && (rest != [] ==> AllParseable(rest) && SpelledAt(toks, m + 1, SpellArgs(rest)))
    ensures var args := if rest == [] then [t] else [t] + rest;
            && AllParseable(args) && SpelledAt(toks, i, SpellArgs(args))
            && |SpellArgs(args)| == |Spell(t)| + 1 + |SpellArgs(rest)|
  {
    var m := i + |Spell(t)|;
    SpelledArgsCons(toks, i, t, rest);
    SpellArgsLength(t, rest);
    AllParseableCons(t, rest);
    assert m < |toks|;
  }

  // ---------------------------------------------------------------------
  // Completeness: the spelling of a parseable tree is parsed back to it.
  // ---------------------------------------------------------------------

  lemma {:induction false} TermComplete(toks: seq<Token>, i: nat, t: Term)
    requires Parseable(t) && SpelledAt(toks, i, Spell(t))
    requires At(toks, i + |Spell(t)|).typ != TknOpenParen
    ensures ParseTermAt(toks, i) == Success(t, i + |Spell(t)|)
    decreases t
  {
    if t.HeadTerm? {
      HeadComplete(toks, i, t.head);
    } else {
      SpelledOne(toks, i, (TknVariable, t.variable.name));
    }
  }

  lemma {:induction false} HeadComplete(toks: seq<Token>, i: nat, h: ClauseHead)
    requires ParseableHead(h) && SpelledAt(toks, i, SpellHead(h))
    requires At(toks, i + |SpellHead(h)|).typ != TknOpenParen
    ensures ParseClauseHeadAt(toks, i) == Success(h, i + |SpellHead(h)|)
    decreases h
  {
    SpelledHeadParts(toks, i, h);
    if h.args != [] {
      ArgsComplete(toks, i + 2, h.args);
    }
  }

  lemma {:induction false} ArgsComplete(toks: seq<Token>, i: nat, args: seq<Term>)
    requires |args| >= 1 && AllParseable(args) && SpelledAt(toks, i, SpellArgs(args))
    ensures ParseArgsAt(toks, i) == Success(args, i + |SpellArgs(args)|)
    decreases args, 2
  {
    if |args| == 1 {
      ArgsCompleteLast(toks, i, args);
    } else {
      ArgsCompleteMore(toks, i, args);
    }
  }

  lemma {:induction false} ArgsCompleteLast(toks: seq<Token>, i: nat, args: seq<Term>)
    requires |args| == 1 && AllParseable(args) && SpelledAt(toks, i, SpellArgs(args))
    ensures ParseArgsAt(toks, i) == Success(args, i + |SpellArgs(args)|)
    decreases args, 0
  {
    var t := args[0];
    ArgsSplitLast(toks, i, args);
    TermComplete(toks, i, t);
    assert [t] == args;
  }

  lemma {:induction false} ArgsCompleteMore(toks: seq<Token>, i: nat, args: seq<Term>)
    requires |args| > 1 && AllParseable(args) && SpelledAt(toks, i, SpellArgs(args))
    ensures ParseArgsAt(toks, i) == Success(args, i + |SpellArgs(args)|)
    decreases args, 1
  {
    var m := FirstArgComplete(toks, i, args);
    ArgsComplete(toks, m + 1, args[1..]);
    ArgsUnfoldOnto(toks, i, args, m, i + |SpellArgs(args)|);
  }

  /** The spelling of a one-term argument list: the term, then `)`. */
  lemma ArgsSplitLast(toks: seq<Token>, i: nat, args: seq<Term>)
    requires |args| == 1 && AllParseable(args) && SpelledAt(toks, i, SpellArgs(args))
    ensures var m := i + |Spell(args[0])|;
            && Parseable(args[0]) && SpelledAt(toks, i, Spell(args[0]))
            && m < |toks| && toks[m].typ == TknCloseParen
            && m + 1 == i + |SpellArgs(args)|
  {
    assert args == [args[0]];
    SpelledArgsCons(toks, i, args[0], []);
    SpellArgsLength(args[0], []);
  }

  /** In a longer argument list the first term is parsed back and followed by `,` and the rest. */
  lemma {:induction false} FirstArgComplete(toks: seq<Token>, i: nat, args: seq<Term>) returns (m: nat)
    requires |args| > 1 && AllParseable(args) && SpelledAt(toks, i, SpellArgs(args))
    ensures && ParseTermAt(toks, i) == Success(args[0], m)
            && At(toks, m).typ == TknComma
            && AllParseable(args[1..]) && SpelledAt(toks, m + 1, SpellArgs(args[1..]))
            && m + 1 + |SpellArgs(args[1..])| == i + |SpellArgs(args)|
    decreases args, 0
  {
    m := i + |Spell(args[0])|;
    ArgsSplitMore(toks, i, args);
    TermComplete(toks, i, args[0]);
  }

  /** The spelling of a longer argument list: the first term, `,`, then the rest. */
  lemma ArgsSplitMore(toks: seq<Token>, i: nat, args: seq<Term>)
    requires |args| > 1 && AllParseable(args) && SpelledAt(toks, i, SpellArgs(args))
    ensures var m := i + |Spell(args[0])|;
            && Parseable(args[0]) && SpelledAt(toks, i, Spell(args[0]))
            && m < |toks| && toks[m].typ == TknComma
            && AllParseable(args[1..]) && SpelledAt(toks, m + 1, SpellArgs(args[1..]))
            && m + 1 + |SpellArgs(args[1..])| == i + |SpellArgs(args)|
  {
    assert args == [args[0]] + args[1..];
    SpelledArgsCons(toks, i, args[0], args[1..]);
    SpellArgsLength(args[0], args[1..]);
    AllParseableCons(args[0], args[1..]);
  }

  /** A first term, `,` and the rest of the arguments make the whole list. */
  lemma ArgsUnfoldOnto(toks: seq<Token>, i: nat, args: seq<Term>, m: nat, n: nat)
    requires |args| > 1 && ParseTermAt(toks, i) == Success(args[0], m) && At(toks, m).typ == TknComma
    requires ParseArgsAt(toks, m + 1) == Success(args[1..], n)
    ensures ParseArgsAt(toks, i) == Success(args, n)
  {
    assert [args[0]] + args[1..] == args;
  }

  // ---------------------------------------------------------------------
  // Clauses and programs.
  // ---------------------------------------------------------------------

  /**
   * The three outcomes of a clause after its head: `.` gives the body
   * `true()`, `:-` a parsed term that must be followed by `.` (else the error
   * names "clause body"), and any other token is consumed and leaves the body
   * absent without an error.
   */
  lemma ClauseBodyCases(toks: seq<Token>, i: nat)
    requires ParseClauseHeadAt(toks, i).Success?
    ensures var h := ParseClauseHeadAt(toks, i); var j := h.next; var c := ParseClauseAt(toks, i);
            && (At(toks, j).typ == TknDot ==> c == Success(Clause(h.value, TrueBody), j + 1))
            && (At(toks, j).typ == TknColonDash ==>
                  var b := ParseTermAt(toks, j + 1);
                  && (b.Failure? ==> c == Failure(b.error))
                  && (b.Success? && At(toks, b.next).typ == TknDot ==> c == Success(Clause(h.value, b.value), b.next + 1))
                  && (b.Success? && At(toks, b.next).typ != TknDot ==>
                        c == Failure(SyntaxError(Kind(TknDot), ClauseBodyRule, At(toks, b.next)))))
            && (At(toks, j).typ !in {TknDot, TknColonDash} ==> c == Success(Clause(h.value, NilTerm), j + 1))
  {
  }

  /**
   * A parsed clause is a parseable fact or rule whose tokens are its
   * spelling, or a clause with absent body whose head is followed by one
   * consumed token that is neither `.` nor `:-`.
   */
  lemma ClauseSound(toks: seq<Token>, i: nat)
    requires ParseClauseAt(toks, i).Success?
    ensures var r := ParseClauseAt(toks, i);
            && ParseableHead(r.value.head)
            && SpelledAt(toks, i, SpellHead(r.value.head))
            && (r.value.body == NilTerm ==>
                  r.next == i + |SpellHead(r.value.head)| + 1 &&
                  At(toks, r.next - 1).typ !in {TknDot, TknColonDash})
            && (r.value.body != NilTerm ==>
                  ParseableClause(r.value) && SpelledAt(toks, i, SpellClause(r.value)) &&
                  r.next == i + |SpellClause(r.value)|)
  {
    var h := ParseClauseHeadAt(toks, i);
    assert h.Success?;
    HeadSound(toks, i);
    var tkn := At(toks, h.next);
    if tkn.typ == TknDot {
      FactSound(toks, i);
    } else if tkn.typ == TknColonDash {
      RuleSound(toks, i);
    } else {
      ClauseBodyCases(toks, i);
    }
  }

  lemma FactSound(toks: seq<Token>, i: nat)
    requires ParseClauseHeadAt(toks, i).Success? && At(toks, ParseClauseHeadAt(toks, i).next).typ == TknDot
    ensures var h := ParseClauseHeadAt(toks, i).value; var c := Clause(h, TrueBody);
            && ParseClauseAt(toks, i) == Success(c, i + |SpellClause(c)|)
            && ParseableClause(c) && SpelledAt(toks, i, SpellClause(c))
  {
    HeadSound(toks, i);
    ClauseJoin(toks, i, Clause(ParseClauseHeadAt(toks, i).value, TrueBody));
  }

  lemma RuleSound(toks: seq<Token>, i: nat)
    requires ParseClauseHeadAt(toks, i).Success? && At(toks, ParseClauseHeadAt(toks, i).next).typ == TknColonDash
    requires ParseClauseAt(toks, i).Success?
    ensures var h := ParseClauseHeadAt(toks, i); var b := ParseTermAt(toks, h.next + 1);
            && b.Success?
            && var c := Clause(h.value, b.value);
            && ParseClauseAt(toks, i) == Success(c, i + |SpellClause(c)|)
            && c.body != NilTerm && ParseableClause(c) && SpelledAt(toks, i, SpellClause(c))
  {
    var h := ParseClauseHeadAt(toks, i);
    HeadSound(toks, i);
    ClauseUnfoldRule(toks, i);
    var b := ParseTermAt(toks, h.next + 1);
    TermSound(toks, h.next + 1);
    assert b.value != TrueBody;
    RuleJoin(toks, i, Clause(h.value, b.value));
  }

  /** The spelling of a fact or rule, assembled from its parts. */
  lemma ClauseJoin(toks: seq<Token>, i: nat, c: Clause)
    requires SpelledAt(toks, i, SpellHead(c.head))
    requires var j := i + |SpellHead(c.head)|;
             if c.body == TrueBody then At(toks, j).typ == TknDot
             else At(toks, j).typ == TknColonDash && SpelledAt(toks, j + 1, Spell(c.body)) &&
                  At(toks, j + 1 + |Spell(c.body)|).typ == TknDot
    ensures SpelledAt(toks, i, SpellClause(c))
    ensures |SpellClause(c)| == |SpellHead(c.head)| + if c.body == TrueBody then 1 else |Spell(c.body)| + 2
  {
    if c.body == TrueBody {
      FactJoin(toks, i, c);
    } else {
      RuleJoin(toks, i, c);
    }
  }

  lemma FactJoin(toks: seq<Token>, i: nat, c: Clause)
    requires c.body == TrueBody && SpelledAt(toks, i, SpellHead(c.head))
    requires At(toks, i + |SpellHead(c.head)|).typ == TknDot
    ensures SpelledAt(toks, i, SpellClause(c))
    ensures |SpellClause(c)| == |SpellHead(c.head)| + 1
  {
    assert i + |SpellHead(c.head)| < |toks|;
    SpelledFactParts(toks, i, c);
  }

  lemma RuleJoin(toks: seq<Token>, i: nat, c: Clause)
    requires c.body != TrueBody && SpelledAt(toks, i, SpellHead(c.head))
    requires var j := i + |SpellHead(c.head)|;
             At(toks, j).typ == TknColonDash && SpelledAt(toks, j + 1, Spell(c.body)) &&
             At(toks, j + 1 + |Spell(c.body)|).typ == TknDot
    ensures SpelledAt(toks, i, SpellClause(c))
    ensures |SpellClause(c)| == |SpellHead(c.head)| + |Spell(c.body)| + 2
  {
    var j := i + |SpellHead(c.head)|;
    assert j < |toks| && j + 1 + |Spell(c.body)| < |toks|;
    SpelledRuleParts(toks, i, c);
  }

  lemma ClauseComplete(toks: seq<Token>, i: nat, c: Clause)
    requires ParseableClause(c) && SpelledAt(toks, i, SpellClause(c))
    ensures ParseClauseAt(toks, i) == Success(c, i + |SpellClause(c)|)
  {
    if c.body == TrueBody {
      FactComplete(toks, i, c);
    } else {
      RuleComplete(toks, i, c);
    }
  }

  lemma FactComplete(toks: seq<Token>, i: nat, c: Clause)
    requires c.body == TrueBody && ParseableHead(c.head) && SpelledAt(toks, i, SpellClause(c))
    ensures ParseClauseAt(toks, i) == Success(c, i + |SpellClause(c)|)
  {
    SpelledFactParts(toks, i, c);
    FactFromParts(toks, i, c.head);
  }

  lemma RuleComplete(toks: seq<Token>, i: nat, c: Clause)
    requires c.body != TrueBody && ParseableClause(c) && SpelledAt(toks, i, SpellClause(c))
    ensures ParseClauseAt(toks, i) == Success(c, i + |SpellClause(c)|)
  {
    SpelledRuleParts(toks, i, c);
    RuleFromParts(toks, i, c.head, c.body);
  }

  lemma FactFromParts(toks: seq<Token>, i: nat, h: ClauseHead)
    requires ParseableHead(h) && SpelledAt(toks, i, SpellHead(h))
    requires i + |SpellHead(h)| < |toks| && toks[i + |SpellHead(h)|].typ == TknDot
    ensures ParseClauseAt(toks, i) == Success(Clause(h, TrueBody), i + |SpellHead(h)| + 1)
  {
    HeadComplete(toks, i, h);
  }

  lemma RuleFromParts(toks: seq<Token>, i: nat, h: ClauseHead, b: Term)
    requires ParseableHead(h) && SpelledAt(toks, i, SpellHead(h))
    requires Parseable(b)
    requires var j := i + |SpellHead(h)|;
             && j < |toks| && toks[j].typ == TknColonDash
             && SpelledAt(toks, j + 1, Spell(b))
             && j + 1 + |Spell(b)| < |toks| && toks[j + 1 + |Spell(b)|].typ == TknDot
    ensures ParseClauseAt(toks, i) == Success(Clause(h, b), i + |SpellHead(h)| + |Spell(b)| + 2)
  {
    var j := i + |SpellHead(h)|;
    var k := j + 1 + |Spell(b)|;
    assert At(toks, j).typ == TknColonDash && At(toks, k).typ == TknDot;
    HeadComplete(toks, i, h);
    TermComplete(toks, j + 1, b);
    RuleUnfoldOnto(toks, i, h, j, b, k);
  }

  /**
   * After a head and `:-`, a clause that parses is a rule whose body is the
   * next term, followed by `.`.
   */
  lemma ClauseUnfoldRule(toks: seq<Token>, i: nat)
    requires ParseClauseHeadAt(toks, i).Success? && At(toks, ParseClauseHeadAt(toks, i).next).typ == TknColonDash
    requires ParseClauseAt(toks, i).Success?
    ensures var h := ParseClauseHeadAt(toks, i); var b := ParseTermAt(toks, h.next + 1);
            && b.Success? && At(toks, b.next).typ == TknDot
            && ParseClauseAt(toks, i) == Success(Clause(h.value, b.value), b.next + 1)
  {
  }

  /** A head, `:-`, a term and `.` make a rule. */
  lemma RuleUnfoldOnto(toks: seq<Token>, i: nat, h: ClauseHead, j: nat, b: Term, k: nat)
    requires ParseClauseHeadAt(toks, i) == Success(h, j) && At(toks, j).typ == TknColonDash
    requires ParseTermAt(toks, j + 1) == Success(b, k) && At(toks, k).typ == TknDot
    ensures ParseClauseAt(toks, i) == Success(Clause(h, b), k + 1)
  {
  }

  /** The clauses `p` are parsed one after another from `i`, ending at `j`. */
  ghost predicate ClauseChain(toks: seq<Token>, i: nat, p: Program, j: nat)
    decreases |p|
  {
    if p == [] then i == j
    else
      && At(toks, i).typ != TknEOF
      && ParseClauseAt(toks, i).Success?
      && ParseClauseAt(toks, i).value == p[0]
      && ClauseChain(toks, ParseClauseAt(toks, i).next, p[1..], j)
  }

  /**
   * `parseProgram` returns exactly the clauses parsed one after another, in
   * source order, while the lookahead is not EOF, and stops with the EOF
   * token as lookahead.
   */
  lemma {:induction false} ProgramIsClauseChain(toks: seq<Token>, i: nat, p: Program, j: nat)
    ensures ParseProgramAt(toks, i) == Success(p, j) <==> ClauseChain(toks, i, p, j) && At(toks, j).typ == TknEOF
    decreases |p|
  {
    if p != [] && At(toks, i).typ != TknEOF && ParseClauseAt(toks, i).Success? {
      var c := ParseClauseAt(toks, i);
      ProgramIsClauseChain(toks, c.next, p[1..], j);
      assert [p[0]] + p[1..] == p;
      var rest := ParseProgramAt(toks, c.next);
      if rest.Success? && ParseProgramAt(toks, i) == Success(p, j) {
        assert rest.value == p[1..];
      }
    }
  }

  /**
   * The first syntax error aborts the parse: `parseProgram` fails with error
   * `e` exactly when the clauses parse one after another up to a position
   * whose lookahead is not EOF, and the clause there fails with `e`.
   */
  lemma ProgramFailureIsClauseFailure(toks: seq<Token>, i: nat, e: SyntaxError)
    ensures ParseProgramAt(toks, i) == Failure(e) ==>
              exists p, j :: ClauseChain(toks, i, p, j) && At(toks, j).typ != TknEOF && ParseClauseAt(toks, j) == Failure(e)
    ensures (exists p, j :: ClauseChain(toks, i, p, j) && At(toks, j).typ != TknEOF && ParseClauseAt(toks, j) == Failure(e)) ==>
              ParseProgramAt(toks, i) == Failure(e)
  {
    if ParseProgramAt(toks, i) == Failure(e) {
      var p, j := ProgramFailureWitness(toks, i);
      assert ClauseChain(toks, i, p, j) && At(toks, j).typ != TknEOF && ParseClauseAt(toks, j) == Failure(e);
    }
    forall p, j | ClauseChain(toks, i, p, j) && At(toks, j).typ != TknEOF && ParseClauseAt(toks, j) == Failure(e)
      ensures ParseProgramAt(toks, i) == Failure(e)
    {
      ProgramFailsAtChainEnd(toks, i, p, j);
    }
  }

  /** A failing program parse: the clauses parsed before the one that failed. */
  lemma {:induction false} ProgramFailureWitness(toks: seq<Token>, i: nat) returns (p: Program, j: nat)
    requires ParseProgramAt(toks, i).Failure?
    ensures ClauseChain(toks, i, p, j) && At(toks, j).typ != TknEOF
    ensures ParseClauseAt(toks, j) == Failure(ParseProgramAt(toks, i).error)
    decreases Measure(toks, i)
  {
    var c := ParseClauseAt(toks, i);
    if c.Failure? {
      p, j := [], i;
    } else {
      var rest;
      rest, j := ProgramFailureWitness(toks, c.next);
      p := [c.value] + rest;
      assert p[0] == c.value && p[1..] == rest;
    }
  }

  /** Clauses that parse one after another, then a clause that fails: the program fails with its error. */
  lemma {:induction false} ProgramFailsAtChainEnd(toks: seq<Token>, i: nat, p: Program, j: nat)
    requires ClauseChain(toks, i, p, j) && At(toks, j).typ != TknEOF && ParseClauseAt(toks, j).Failure?
    ensures ParseProgramAt(toks, i) == Failure(ParseClauseAt(toks, j).error)
    decreases |p|
  {
    if p != [] {
      ProgramFailsAtChainEnd(toks, ParseClauseAt(toks, i).next, p[1..], j);
    }
  }

  /**
   * A head followed directly by EOF makes a clause with absent body, and
   * that clause consumes the EOF: the program ends after every token,
   * EOF included, and the loop stops only because the stream answers EOF
   * past its end too.
   */
  lemma EofConsumedExample()
    ensures var toks := [Token(TknAtom, "foo", 0), EofToken];
            ParseProgramAt(toks, 0) == Success([Clause(ClauseHead("foo", []), NilTerm)], 2) && |toks| == 2
  {
    var toks := [Token(TknAtom, "foo", 0), EofToken];
    var c := Clause(ClauseHead("foo", []), NilTerm);
    assert ParseClauseHeadAt(toks, 0) == Success(ClauseHead("foo", []), 1);
    assert ParseClauseAt(toks, 0) == Success(c, 2);
    assert ParseProgramAt(toks, 2) == Success([], 2);
    assert [c][1..] == [];
    ProgramUnfoldOnto(toks, 0, [c], 2, 2);
  }

  /** One round of the program loop, in the success case. */
  lemma ProgramStep(toks: seq<Token>, i: nat)
    requires ParseProgramAt(toks, i).Success? && At(toks, i).typ != TknEOF
    ensures var r := ParseProgramAt(toks, i); var c := ParseClauseAt(toks, i);
            && c.Success? && ParseProgramAt(toks, c.next).Success?
            && r == Success([c.value] + ParseProgramAt(toks, c.next).value, ParseProgramAt(toks, c.next).next)
  {
  }

  /** While the lookahead is not EOF, the program loop parses a clause and goes round again. */
  lemma ProgramUnfold(toks: seq<Token>, i: nat)
    requires At(toks, i).typ != TknEOF && ParseClauseAt(toks, i).Success?
    ensures var c := ParseClauseAt(toks, i);
            ParseProgramAt(toks, i) == Prepend([c.value], ParseProgramAt(toks, c.next))
  {
  }

  /** A first clause and the rest of the program make the whole program. */
  lemma ProgramUnfoldOnto(toks: seq<Token>, i: nat, p: Program, n: nat, m: nat)
    requires p != [] && At(toks, i).typ != TknEOF && ParseClauseAt(toks, i) == Success(p[0], n)
    requires ParseProgramAt(toks, n) == Success(p[1..], m)
    ensures ParseProgramAt(toks, i) == Success(p, m)
  {
    ProgramUnfold(toks, i);
    assert [p[0]] + p[1..] == p;
  }

  /** The spelling of a sequence of facts and rules, followed by EOF, parses back to it. */
  lemma {:induction false} ProgramComplete(toks: seq<Token>, i: nat, p: Program)
    requires AllClausesParseable(p) && SpelledAt(toks, i, SpellProgram(p))
    requires At(toks, i + |SpellProgram(p)|).typ == TknEOF
    ensures ParseProgramAt(toks, i) == Success(p, i + |SpellProgram(p)|)
    decreases |p|
  {
    if p != [] {
      var n := FirstClauseComplete(toks, i, p);
      ProgramComplete(toks, n, p[1..]);
      ProgramUnfoldOnto(toks, i, p, n, i + |SpellProgram(p)|);
    }
  }

  /** The first clause of a spelled program is parsed, and leaves the spelling of the rest from `n` on. */
  lemma FirstClauseComplete(toks: seq<Token>, i: nat, p: Program) returns (n: nat)
    requires p != [] && AllClausesParseable(p) && SpelledAt(toks, i, SpellProgram(p))
    ensures At(toks, i).typ != TknEOF && ParseClauseAt(toks, i) == Success(p[0], n)
    ensures AllClausesParseable(p[1..]) && SpelledAt(toks, n, SpellProgram(p[1..]))
    ensures n + |SpellProgram(p[1..])| == i + |SpellProgram(p)|
  {
    ProgramSplit(toks, i, p);
    n := ClauseFrom(toks, i, p[0]);
  }

  /** A spelled clause is parsed back, ending at `n`, and does not start with EOF. */
  lemma ClauseFrom(toks: seq<Token>, i: nat, c: Clause) returns (n: nat)
    requires ParseableClause(c) && SpelledAt(toks, i, SpellClause(c))
    ensures n == i + |SpellClause(c)| && At(toks, i).typ != TknEOF && ParseClauseAt(toks, i) == Success(c, n)
  {
    n := i + |SpellClause(c)|;
    ClauseComplete(toks, i, c);
    ClauseStartsWithAtom(toks, i, c);
  }

  /** The spelling of a program: its first clause, then the rest. */
  lemma ProgramSplit(toks: seq<Token>, i: nat, p: Program)
    requires p != [] && AllClausesParseable(p) && SpelledAt(toks, i, SpellProgram(p))
    ensures ParseableClause(p[0]) && SpelledAt(toks, i, SpellClause(p[0]))
    ensures AllClausesParseable(p[1..]) && SpelledAt(toks, i + |SpellClause(p[0])|, SpellProgram(p[1..]))
    ensures |SpellClause(p[0])| + |SpellProgram(p[1..])| == |SpellProgram(p)|
  {
    SpelledConcat(toks, i, SpellClause(p[0]), SpellProgram(p[1..]));
  }

  lemma ClauseStartsWithAtom(toks: seq<Token>, i: nat, c: Clause)
    requires SpelledAt(toks, i, SpellClause(c))
    ensures At(toks, i).typ == TknAtom
  {
  }

  /**
   * A parsed program with no absent bodies is made of facts and rules, and
   * the tokens consumed are exactly its spelling.
   */
  lemma {:induction false} ProgramSound(toks: seq<Token>, i: nat)
    requires ParseProgramAt(toks, i).Success?
    ensures var r := ParseProgramAt(toks, i);
            NoAbsentBody(r.value) ==>
              && AllClausesParseable(r.value)
              && SpelledAt(toks, i, SpellProgram(r.value))
              && r.next == i + |SpellProgram(r.value)|
    decreases Measure(toks, i)
  {
    if At(toks, i).typ != TknEOF {
      ProgramStep(toks, i);
      var c := ParseClauseAt(toks, i);
      var rest := ParseProgramAt(toks, c.next);
      ClauseSound(toks, i);
      ProgramSound(toks, c.next);
      ProgramSoundJoin(toks, i, c.value, c.next, rest.value, rest.next);
    }
  }

  /** A clause in front of a program, as the two program predicates see it. */
  lemma ClausesCons(c: Clause, p: Program)
    ensures AllClausesParseable([c] + p) <==> ParseableClause(c) && AllClausesParseable(p)
    ensures NoAbsentBody([c] + p) <==> c.body != NilTerm && NoAbsentBody(p)
  {
    assert ([c] + p)[0] == c && ([c] + p)[1..] == p;
  }

  /** Soundness of a program, from that of its first clause and of the rest. */
  lemma ProgramSoundJoin(toks: seq<Token>, i: nat, c: Clause, n: nat, p: Program, m: nat)
    requires c.body != NilTerm ==> ParseableClause(c) && SpelledAt(toks, i, SpellClause(c)) && n == i + |SpellClause(c)|
    requires NoAbsentBody(p) ==> AllClausesParseable(p) && SpelledAt(toks, n, SpellProgram(p)) && m == n + |SpellProgram(p)|
    ensures var q := [c] + p;
            NoAbsentBody(q) ==> AllClausesParseable(q) && SpelledAt(toks, i, SpellProgram(q)) && m == i + |SpellProgram(q)|
  {
    ClausesCons(c, p);
    SpelledProgramCons(toks, i, c, p);
  }

  // ---------------------------------------------------------------------
  // Error messages and the lexer's output.
  // ---------------------------------------------------------------------

  /**
   * `parseTerm` on a variable token gives the variable named by its text and
   * consumes that token; on anything else it is `parseClauseHead`, whose
   * result it keeps as a clause head and whose error it passes on.
   */
  lemma TermCases(toks: seq<Token>, i: nat)
    ensures At(toks, i).typ == TknVariable ==>
              i < |toks| && ParseTermAt(toks, i) == Success(VariableTerm(Variable(toks[i].val)), i + 1)
    ensures At(toks, i).typ != TknVariable ==>
              var h := ParseClauseHeadAt(toks, i);
              ParseTermAt(toks, i) == if h.Success? then Success(HeadTerm(h.value), h.next) else Failure(h.error)
  {
  }

  /**
   * The message of each error the parser can raise: the kind name and rule
   * name that each call site of `synErrExpected` passes.
   */
  lemma MessageTexts(t: Token)
    ensures SyntaxError(Kind(TknAtom), ClauseHeadRule, t).Message() ==
              "expected " + "an atom" + (" when parsing " + "clause head" + ", got ") + TokenString(t)
    ensures SyntaxError(Kind(TknOpenParen), ArgumentListRule, t).Message() ==
              "expected " + "`(`" + (" when parsing " + "argument list" + ", got ") + TokenString(t)
    ensures SyntaxError(CommaOrParen, ArgumentListRule, t).Message() ==
              "expected " + "`,` or `(`" + (" when parsing " + "argument list" + ", got ") + TokenString(t)
    ensures SyntaxError(Kind(TknDot), ClauseBodyRule, t).Message() ==
              "expected " + "a dot" + (" when parsing " + "clause body" + ", got ") + TokenString(t)
    ensures SyntaxError(Kind(TknVariable), TermRule, t).Message() ==
              "expected " + "a variable" + (" when parsing " + "a term" + ", got ") + TokenString(t)
  {
    MessageOf(Kind(TknAtom), ClauseHeadRule, t, "an atom", "clause head");
    MessageOf(Kind(TknOpenParen), ArgumentListRule, t, "`(`", "argument list");
    MessageOf(CommaOrParen, ArgumentListRule, t, "`,` or `(`", "argument list");
    MessageOf(Kind(TknDot), ClauseBodyRule, t, "a dot", "clause body");
    MessageOf(Kind(TknVariable), TermRule, t, "a variable", "a term");
  }

  lemma MessageOf(x: Expected, w: Rule, t: Token, xs: string, ws: string)
    requires ExpectedName(x) == xs && RuleName(w) == ws
    ensures SyntaxError(x, w, t).Message() == "expected " + xs + (" when parsing " + ws + ", got ") + TokenString(t)
  {
  }

  /**
   * In any round of the argument loop, a token other than `,` or `)` after
   * the term is the "`,` or `(`" error naming that token.
   */
  lemma ArgsBadSeparator(toks: seq<Token>, i: nat)
    requires ParseTermAt(toks, i).Success?
    requires At(toks, ParseTermAt(toks, i).next).typ !in {TknComma, TknCloseParen}
    ensures ParseArgsAt(toks, i) == Failure(SyntaxError(CommaOrParen, ArgumentListRule, At(toks, ParseTermAt(toks, i).next)))
  {
  }

  /**
   * A failure in a later round is the failure of the whole loop: after a
   * term and `,`, the loop fails exactly as the rest of it does; and a term
   * that fails fails the loop with its own error.
   */
  lemma ArgsFailurePropagates(toks: seq<Token>, i: nat)
    ensures ParseTermAt(toks, i).Failure? ==> ParseArgsAt(toks, i) == Failure(ParseTermAt(toks, i).error)
    ensures var t := ParseTermAt(toks, i);
            t.Success? && At(toks, t.next).typ == TknComma && ParseArgsAt(toks, t.next + 1).Failure? ==>
              ParseArgsAt(toks, i) == ParseArgsAt(toks, t.next + 1)
  {
  }

  /**
   * After `(` and a term, a token other than `,` or `)` fails the whole
   * argument list with the argument-list error naming that token.
   */
  lemma ArgListBadSeparator(toks: seq<Token>, i: nat)
    requires At(toks, i).typ == TknOpenParen && ParseTermAt(toks, i + 1).Success?
    requires At(toks, ParseTermAt(toks, i + 1).next).typ !in {TknComma, TknCloseParen}
    ensures ParseArgListAt(toks, i) == Failure(SyntaxError(CommaOrParen, ArgumentListRule, At(toks, ParseTermAt(toks, i + 1).next)))
  {
    ArgsBadSeparator(toks, i + 1);
  }

  /** `f(X, Y .` fails at the second separator, naming the `.`. */
  lemma LaterSeparatorExample()
    ensures var toks := [Token(TknAtom, "f", 0), Token(TknOpenParen, "(", 0), Token(TknVariable, "X", 0),
                         Token(TknComma, ",", 0), Token(TknVariable, "Y", 0), Token(TknDot, ".", 0), EofToken];
            ParseProgramAt(toks, 0) == Failure(SyntaxError(CommaOrParen, ArgumentListRule, Token(TknDot, ".", 0)))
  {
    var toks := [Token(TknAtom, "f", 0), Token(TknOpenParen, "(", 0), Token(TknVariable, "X", 0),
                 Token(TknComma, ",", 0), Token(TknVariable, "Y", 0), Token(TknDot, ".", 0), EofToken];
    assert ParseTermAt(toks, 4) == Success(VariableTerm(Variable("Y")), 5);
    ArgsBadSeparator(toks, 4);
    assert ParseTermAt(toks, 2) == Success(VariableTerm(Variable("X")), 3);
    ArgsFailurePropagates(toks, 2);
    assert ParseArgListAt(toks, 1) == ParseArgsAt(toks, 2);
    assert ParseClauseHeadAt(toks, 0) == Failure(SyntaxError(CommaOrParen, ArgumentListRule, Token(TknDot, ".", 0)));
  }

  /**
   * Different kinds have different names in messages, so a message tells
   * which kind was expected; the kinds without a name print as `???(n)` with
   * their code.
   */
  lemma PrettyTypeNames(t: TokenType, u: TokenType)
    ensures PrettyType(t) == PrettyType(u) ==> t == u
    ensures t in {TknError, TknNumber, TknEOF} ==> PrettyType(t) == "???(" + [('0' as int + Code(t)) as char] + ")"
  {
    DecimalDigit(Code(t));
  }

  /**
   * Everything the lexer sends is punctuation or EOF, never an atom, so
   * the parser accepts its output only when it is EOF alone, giving the empty
   * program; otherwise the first token fails as a clause head.
   */
  lemma ParseOfLexerOutput(s: string)
    ensures var toks := Lexing.RunTokens(s);
            ParseProgramAt(toks, 0) ==
              if toks[0].typ == TknEOF then Success([], 0)
              else Failure(SyntaxError(Kind(TknAtom), ClauseHeadRule, toks[0]))
  {
    Lexing.RunTokensEndWithOneEof(s);
  }

  // ---------------------------------------------------------------------
  // Worked examples, on the tokens a complete lexer would produce.
  // ---------------------------------------------------------------------

  /** `human(socrates).` is one fact whose argument is the clause head `socrates`. */
  lemma FactExample()
    ensures var toks := [Token(TknAtom, "human", 0), Token(TknOpenParen, "(", 0), Token(TknAtom, "socrates", 0),
                         Token(TknCloseParen, ")", 0), Token(TknDot, ".", 0), Token(TknEOF, "", 0)];
            ParseProgramAt(toks, 0) ==
              Success([Clause(ClauseHead("human", [HeadTerm(ClauseHead("socrates", []))]), TrueBody)], 5)
  {
    var toks := [Token(TknAtom, "human", 0), Token(TknOpenParen, "(", 0), Token(TknAtom, "socrates", 0),
                 Token(TknCloseParen, ")", 0), Token(TknDot, ".", 0), Token(TknEOF, "", 0)];
    var arg := HeadTerm(ClauseHead("socrates", []));
    assert ParseTermAt(toks, 2) == Success(arg, 3);
    assert ParseArgsAt(toks, 2) == Success([arg], 4);
    assert ParseClauseHeadAt(toks, 0) == Success(ClauseHead("human", [arg]), 4);
    var c := Clause(ClauseHead("human", [arg]), TrueBody);
    assert ParseClauseAt(toks, 0) == Success(c, 5);
    assert ParseProgramAt(toks, 5) == Success([], 5);
    assert [c][1..] == [];
    ProgramUnfoldOnto(toks, 0, [c], 5, 5);
  }

  /** The tokens of `mortal(X) :- human(X).`, then EOF. */
  function MortalTokens(): seq<Token>
  {
    [Token(TknAtom, "mortal", 0), Token(TknOpenParen, "(", 0), Token(TknVariable, "X", 0),
     Token(TknCloseParen, ")", 0), Token(TknColonDash, ":-", 0), Token(TknAtom, "human", 0),
     Token(TknOpenParen, "(", 0), Token(TknVariable, "X", 0), Token(TknCloseParen, ")", 0),
     Token(TknDot, ".", 0), Token(TknEOF, "", 0)]
  }

  /** `mortal(X) :- human(X).` is one rule; its body is a clause head, not a `Pred`. */
  lemma RuleExample()
    ensures var x := VariableTerm(Variable("X"));
            ParseProgramAt(MortalTokens(), 0) ==
              Success([Clause(ClauseHead("mortal", [x]), HeadTerm(ClauseHead("human", [x])))], 10)
  {
    var x := VariableTerm(Variable("X"));
    var h := ClauseHead("mortal", [x]);
    var b := HeadTerm(ClauseHead("human", [x]));
    var c := Clause(h, b);
    MortalParts();
    RuleUnfoldOnto(MortalTokens(), 0, h, 4, b, 9);
    assert ParseProgramAt(MortalTokens(), 10) == Success([], 10);
    assert [c][1..] == [];
    ProgramUnfoldOnto(MortalTokens(), 0, [c], 10, 10);
  }

  lemma MortalParts()
    ensures var x := VariableTerm(Variable("X"));
            && ParseClauseHeadAt(MortalTokens(), 0) == Success(ClauseHead("mortal", [x]), 4)
            && ParseTermAt(MortalTokens(), 5) == Success(HeadTerm(ClauseHead("human", [x])), 9)
  {
    var toks := MortalTokens();
    var x := VariableTerm(Variable("X"));
    assert ParseTermAt(toks, 2) == Success(x, 3);
    assert ParseArgsAt(toks, 2) == Success([x], 4);
    assert ParseTermAt(toks, 7) == Success(x, 8);
    assert ParseArgsAt(toks, 7) == Success([x], 9);
  }

  /** `foo(X` then EOF fails in the argument list, naming the EOF token. */
  lemma UnterminatedArgsExample()
    ensures var toks := [Token(TknAtom, "foo", 0), Token(TknOpenParen, "(", 0), Token(TknVariable, "X", 0), Token(TknEOF, "", 0)];
            ParseProgramAt(toks, 0) == Failure(SyntaxError(CommaOrParen, ArgumentListRule, Token(TknEOF, "", 0)))
  {
    var toks := [Token(TknAtom, "foo", 0), Token(TknOpenParen, "(", 0), Token(TknVariable, "X", 0), Token(TknEOF, "", 0)];
    assert ParseTermAt(toks, 2) == Success(VariableTerm(Variable("X")), 3);
    ArgListBadSeparator(toks, 1);
  }

  /** `Foo.` fails at once: a clause head must start with an atom. */
  lemma VariableHeadExample()
    ensures var toks := [Token(TknVariable, "Foo", 0), Token(TknDot, ".", 0), Token(TknEOF, "", 0)];
            ParseProgramAt(toks, 0) == Failure(SyntaxError(Kind(TknAtom), ClauseHeadRule, Token(TknVariable, "Foo", 0)))
  {
    var toks := [Token(TknVariable, "Foo", 0), Token(TknDot, ".", 0), Token(TknEOF, "", 0)];
    assert ParseClauseHeadAt(toks, 0).Failure?;
  }
}
