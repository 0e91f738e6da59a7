/**
  Rendering a query tree as a CQL clause (`_escape_cql_literal`, `_emit_cql` and
  `build_text_query_clause` in query_parser.py).
 */
module CqlEmitter {
  import opened Wrappers
  import opened Strings
  import opened Tokenizer
  import opened BooleanParser

  /** How tightly each kind of node binds. */
  const PrecTerm: nat := 4
  const PrecNot: nat := 3
  const PrecAnd: nat := 2
  const PrecOr: nat := 1

  function Rank(n: Node): nat {
    match n
    case TermNode(_, _) => PrecTerm
    case NotNode(_) => PrecNot
    case AndNode(_) => PrecAnd
    case OrNode(_) => PrecOr
  }

  /** `_escape_cql_literal`: backslashes are doubled first, then every double quote gets a backslash. */
  function EscapeCqlLiteral(v: string): string {
    ReplaceAll(ReplaceAll(v, "\\", "\\\\"), "\"", "\\\"")
  }

  /** The two replace passes escape each backslash and each double quote exactly once. */
  lemma {:induction false} EscapeCqlLiteralIsBackslashEscape(v: string)
    ensures EscapeCqlLiteral(v) == BackslashEscape(v)
    decreases |v|
  {
    if v == [] {
    } else {
      var x := v[0];
      var first := if x == '\\' then "\\\\" else [x];
      assert v == [x] + v[1..];
      ReplaceCharCons(x, v[1..], '\\', "\\\\");
      assert ReplaceAll(v, "\\", "\\\\") == first + ReplaceAll(v[1..], "\\", "\\\\");
      ReplaceCharConcat(first, ReplaceAll(v[1..], "\\", "\\\\"), '"', "\\\"");
      EscapeCqlLiteralIsBackslashEscape(v[1..]);
      if x == '\\' {
        ReplaceCharCons('\\', "\\", '"', "\\\"");
        ReplaceCharCons('\\', "", '"', "\\\"");
        assert ReplaceAll(first, "\"", "\\\"") == "\\\\";
      } else {
        ReplaceCharCons(x, "", '"', "\\\"");
        assert [x] + "" == [x];
      }
    }
  }

  /** Read back by the tokenizer's phrase reader, a quoted escaped literal yields the literal and ends at its own closing quote. */
  lemma LiteralReadsBack(v: string, tail: string)
    ensures ScanPhrase(EscapeCqlLiteral(v) + "\"" + tail, false) == Some(PhraseScan(v, |EscapeCqlLiteral(v)| + 1))
  {
    EscapeCqlLiteralIsBackslashEscape(v);
    ScanEscaped(v, tail);
  }

  /** A clause fragment and the precedence of its outermost operator. */
  datatype Fragment = Fragment(text: string, precedence: nat)

  function Relation(exact: bool): string {
    if exact then "adj" else "all"
  }

  /** A child's text inside a parent of precedence `parent`: bracketed when the child binds more loosely. */
  function Wrap(child: Fragment, parent: nat): string {
    if child.precedence < parent then "(" + child.text + ")" else child.text
  }

  /** `_emit_cql` */
  function EmitCql(n: Node): (f: Fragment)
    ensures f.precedence == Rank(n)
    decreases n
  {
    match n
    case TermNode(v, exact) => Fragment("text " + Relation(exact) + " \"" + EscapeCqlLiteral(v) + "\"", PrecTerm)
    case NotNode(c) => Fragment("not " + Wrap(EmitCql(c), PrecNot), PrecNot)
    case AndNode(cs) =>
      Fragment(Join(" and ", seq(|cs|, i requires 0 <= i < |cs| => Wrap(EmitCql(cs[i]), PrecAnd))), PrecAnd)
    case OrNode(cs) =>
      Fragment(Join(" or ", seq(|cs|, i requires 0 <= i < |cs| => Wrap(EmitCql(cs[i]), PrecOr))), PrecOr)
  }

  /** The bracketing rule: AND brackets exactly its OR children, OR brackets none, NOT brackets exactly an AND or OR operand. */
  lemma ChildBrackets(c: Node)
    ensures Wrap(EmitCql(c), PrecAnd) == (if c.OrNode? then "(" + EmitCql(c).text + ")" else EmitCql(c).text)
    ensures Wrap(EmitCql(c), PrecOr) == EmitCql(c).text
    ensures Wrap(EmitCql(c), PrecNot) == (if c.AndNode? || c.OrNode? then "(" + EmitCql(c).text + ")" else EmitCql(c).text)
  {
  }

  /** The children of an AND or OR node, each placed inside a parent of precedence `parent`. */
  method EmitChildren(cs: seq<Node>, parent: nat) returns (parts: seq<string>)
    ensures parts == seq(|cs|, i requires 0 <= i < |cs| => Wrap(EmitCql(cs[i]), parent))
    decreases cs, 0
  {
    parts := [];
    var i := 0;
    while i < |cs|
      invariant 0 <= i <= |cs|
      invariant parts == seq(i, j requires 0 <= j < i => Wrap(EmitCql(cs[j]), parent))
    {
      var childText, childPrecedence := Emit(cs[i]);
      if childPrecedence < parent {
        childText := "(" + childText + ")";
      }
      parts := parts + [childText];
      i := i + 1;
    }
  }

  /** `_emit_cql`: the fragment and precedence of a node. */
  method Emit(n: Node) returns (text: string, precedence: nat)
    ensures Fragment(text, precedence) == EmitCql(n)
    decreases n, 1
  {
    match n
    case TermNode(v, exact) =>
      var relation := if exact then "adj" else "all";
      text, precedence := "text " + relation + " \"" + EscapeCqlLiteral(v) + "\"", PrecTerm;
    case NotNode(c) =>
      var childText, childPrecedence := Emit(c);
      if childPrecedence < PrecNot {
        childText := "(" + childText + ")";
      }
      text, precedence := "not " + childText, PrecNot;
    case AndNode(cs) =>
      var parts := EmitChildren(cs, PrecAnd);
      text, precedence := Join(" and ", parts), PrecAnd;
    case OrNode(cs) =>
      var parts := EmitChildren(cs, PrecOr);
      text, precedence := Join(" or ", parts), PrecOr;
  }

  /** `build_text_query_clause`, as a function of the query text. */
  function TextQueryClause(expr: string): Result<string, QueryParseError> {
    match Lex(Strip(expr))
    case Failure(e) => Failure(e)
    case Success(ts) =>
      match ParseQuery(ts, 0)
      case Failure(e) => Failure(e)
      case Success(n) => Success(EmitCql(n).text)
  }

  /** `build_text_query_clause`: strip, tokenize, parse, emit. */
  method BuildTextQueryClause(expr: string) returns (r: Result<string, QueryParseError>)
    ensures r == TextQueryClause(expr)
  {
    var tokens := Tokenize(Strip(expr));
    if tokens.Failure? {
      return Failure(tokens.error);
    }
    var parser := new BooleanQueryParser(tokens.value);
    var node := parser.Parse();
    if node.Failure? {
      return Failure(node.error);
    }
    var clause, _ := Emit(node.value);
    return Success(clause);
  }

  /** A query is rejected as empty exactly when its stripped text has no tokens. */
  lemma TextQueryEmpty(expr: string)
    ensures TextQueryClause(expr) == Failure(EmptyQuery) <==> Lex(Strip(expr)) == Success([])
  {
    LexFailsIffPhraseOpen(Strip(expr));
  }

  /** A query is rejected for an unterminated phrase exactly when its stripped text ends inside a double-quoted phrase. */
  lemma TextQueryUnterminated(expr: string)
    ensures TextQueryClause(expr) == Failure(UnterminatedPhrase) <==> QuoteRun(Strip(expr), Outside) != Outside
  {
    LexFailsIffPhraseOpen(Strip(expr));
  }
}
