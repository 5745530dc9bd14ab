/**
 * The syntax tree of a program (parser/ast.go).
 *
 * `Term` is an empty interface in the source; the parser stores exactly four
 * kinds of value in it, and the closed datatype below has one variant per
 * kind: a variable, the synthesised `true()` predicate, a clause head (what
 * `parseTerm` returns for an atom), and the absent body of a clause whose head
 * is followed by neither `.` nor `:-`.
 */
module Ast {

  /** A program: its clauses, in source order. */
  type Program = seq<Clause>

  /** One head and one body. */
  datatype Clause = Clause(head: ClauseHead, body: Term)

  /** A name and its ordered arguments; the parser always sets `args`, possibly to []. */
  datatype ClauseHead = ClauseHead(name: string, args: seq<Term>)

  datatype Variable = Variable(name: string)

  datatype Pred = Pred(name: string, args: seq<Term>)

  datatype Term =
    | VariableTerm(variable: Variable)
    | PredTerm(pred: Pred)
    | HeadTerm(head: ClauseHead)
    | NilTerm

  /** The body given to a fact: `Pred{Name: "true", Args: []}`. */
  const TrueBody: Term := PredTerm(Pred("true", []))
}
