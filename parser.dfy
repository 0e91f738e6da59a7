/**
  The recursive-descent parser of the boolean query language (`_BooleanQueryParser` in
  query_parser.py).

  The grammar, loosest first:  or := and (OR and)*;  and := not ((AND)? not)*;
  not := NOT not | primary;  primary := WORD | PHRASE | "(" or ")".

  `OrExpr`, `AndExpr`, `NotExpr` and `PrimaryExpr` state each rule as a function from the unread
  tokens to the node read and the tokens left over; the class `BooleanQueryParser` is the
  source's parser, whose methods move an index over the tokens and are proved to agree with them.
 */
module BooleanParser {
  import opened Wrappers
  import opened Tokenizer

  /** The syntax tree of a query (`_TermNode`, `_NotNode`, `_AndNode`, `_OrNode`). */
  datatype Node =
    | TermNode(value: string, exact: bool)
    | NotNode(child: Node)
    | AndNode(children: seq<Node>)
    | OrNode(children: seq<Node>)

  /** Every AND and OR node has at least two children. */
  predicate WellFormed(n: Node) {
    match n
    case TermNode(_, _) => true
    case NotNode(c) => WellFormed(c)
    case AndNode(cs) => |cs| >= 2 && forall i :: 0 <= i < |cs| ==> WellFormed(cs[i])
    case OrNode(cs) => |cs| >= 2 && forall i :: 0 <= i < |cs| ==> WellFormed(cs[i])
  }

  predicate AllWellFormed(cs: seq<Node>) {
    forall i :: 0 <= i < |cs| ==> WellFormed(cs[i])
  }

  /** A node read by one grammar rule, and the tokens after it. */
  datatype Parsed = Parsed(node: Node, rest: seq<Token>)

  predicate IsSuffix(rest: seq<Token>, ts: seq<Token>) {
    |rest| <= |ts| && rest == ts[|ts| - |rest|..]
  }

  lemma SuffixTrans(a: seq<Token>, b: seq<Token>, c: seq<Token>)
    requires IsSuffix(a, b) && IsSuffix(b, c)
    ensures IsSuffix(a, c)
  {
    assert c[|c| - |b|..][|b| - |a|..] == c[|c| - |a|..];
  }

  predicate HeadIs(ts: seq<Token>, k: Kind) {
    |ts| > 0 && ts[0].kind == k
  }

  /** The next token can begin an operand of an implicit AND (`_next_starts_expression`). */
  predicate StartsExpression(ts: seq<Token>) {
    |ts| > 0 && ts[0].kind in {Word, Phrase, LParen, Not}
  }

  /** The errors a grammar rule can raise: the tokens ran out, a token is out of place, or a bracket is left open. */
  predicate RuleError(e: QueryParseError) {
    e.UnexpectedEnd? || e.UnexpectedToken? || e.MissingClosingParenthesis?
  }

  /** A single operand stands alone; two or more make an OR node. */
  function OrOf(cs: seq<Node>): (n: Node)
    requires |cs| >= 1 && AllWellFormed(cs)
    ensures WellFormed(n)
    ensures |cs| == 1 ==> n == cs[0]
    ensures |cs| >= 2 ==> n == OrNode(cs)
  {
    if |cs| == 1 then cs[0] else OrNode(cs)
  }

  /** A single operand stands alone; two or more make an AND node. */
  function AndOf(cs: seq<Node>): (n: Node)
    requires |cs| >= 1 && AllWellFormed(cs)
    ensures WellFormed(n)
    ensures |cs| == 1 ==> n == cs[0]
    ensures |cs| >= 2 ==> n == AndNode(cs)
  {
    if |cs| == 1 then cs[0] else AndNode(cs)
  }

  /** or := and (OR and)* */
  function OrExpr(ts: seq<Token>): (r: Result<Parsed, QueryParseError>)
    ensures r.Success? ==> |r.value.rest| < |ts| && IsSuffix(r.value.rest, ts) && WellFormed(r.value.node)
    ensures r.Failure? ==> RuleError(r.error)
    decreases |ts|, 3
  {
    match AndExpr(ts)
    case Failure(e) => Failure(e)
    case Success(p) => OrTail(p.rest, [p.node])
  }

  /** The `(OR and)*` loop, with the operands read so far. */
  function OrTail(ts: seq<Token>, children: seq<Node>): (r: Result<Parsed, QueryParseError>)
    requires |children| >= 1 && AllWellFormed(children)
    ensures r.Success? ==> IsSuffix(r.value.rest, ts) && WellFormed(r.value.node)
    ensures r.Failure? ==> RuleError(r.error)
    decreases |ts|, 3
  {
    if HeadIs(ts, Or) then
      match AndExpr(ts[1..])
      case Failure(e) => Failure(e)
      case Success(p) =>
        var r := OrTail(p.rest, children + [p.node]);
        assert IsSuffix(ts[1..], ts);
        if r.Success? then SuffixTrans(r.value.rest, p.rest, ts[1..]); SuffixTrans(r.value.rest, ts[1..], ts); r else r
    else Success(Parsed(OrOf(children), ts))
  }

  /** and := not ((AND)? not)* */
  function AndExpr(ts: seq<Token>): (r: Result<Parsed, QueryParseError>)
    ensures r.Success? ==> |r.value.rest| < |ts| && IsSuffix(r.value.rest, ts) && WellFormed(r.value.node)
    ensures r.Failure? ==> RuleError(r.error)
    decreases |ts|, 2
  {
    match NotExpr(ts)
    case Failure(e) => Failure(e)
    case Success(p) => AndTail(p.rest, [p.node])
  }

  /** The `((AND)? not)*` loop, with the operands read so far. */
  function AndTail(ts: seq<Token>, children: seq<Node>): (r: Result<Parsed, QueryParseError>)
    requires |children| >= 1 && AllWellFormed(children)
    ensures r.Success? ==> IsSuffix(r.value.rest, ts) && WellFormed(r.value.node)
    ensures r.Failure? ==> RuleError(r.error)
    decreases |ts|, 2
  {
    if HeadIs(ts, And) then
      match NotExpr(ts[1..])
      case Failure(e) => Failure(e)
      case Success(p) => AndTail(p.rest, children + [p.node])
    else if StartsExpression(ts) then
      match NotExpr(ts)
      case Failure(e) => Failure(e)
      case Success(p) => AndTail(p.rest, children + [p.node])
    else Success(Parsed(AndOf(children), ts))
  }

  /** The AND between two operands is optional: writing it changes nothing. */
  lemma ExplicitAndOptional(v: string, ts: seq<Token>, children: seq<Node>)
    requires |children| >= 1 && AllWellFormed(children) && StartsExpression(ts)
    ensures AndTail([Token(And, v)] + ts, children) == AndTail(ts, children)
  {
    assert ([Token(And, v)] + ts)[1..] == ts;
  }

  /** not := NOT not | primary */
  function NotExpr(ts: seq<Token>): (r: Result<Parsed, QueryParseError>)
    ensures r.Success? ==> |r.value.rest| < |ts| && IsSuffix(r.value.rest, ts) && WellFormed(r.value.node)
    ensures r.Failure? ==> RuleError(r.error)
    decreases |ts|, 1
  {
    if HeadIs(ts, Not) then
      match NotExpr(ts[1..])
      case Failure(e) => Failure(e)
      case Success(p) => Success(Parsed(NotNode(p.node), p.rest))
    else PrimaryExpr(ts)
  }

  /** primary := WORD | PHRASE | "(" or ")" */
  function PrimaryExpr(ts: seq<Token>): (r: Result<Parsed, QueryParseError>)
    ensures r.Success? ==> |r.value.rest| < |ts| && IsSuffix(r.value.rest, ts) && WellFormed(r.value.node)
    ensures r.Failure? ==> RuleError(r.error)
    decreases |ts|, 0
  {
    if ts == [] then Failure(UnexpectedEnd)
    else if ts[0].kind == LParen then
      match OrExpr(ts[1..])
      case Failure(e) => Failure(e)
      case Success(p) =>
        if HeadIs(p.rest, RParen) then Success(Parsed(p.node, p.rest[1..]))
        else Failure(MissingClosingParenthesis)
    else if ts[0].kind == Phrase then Success(Parsed(TermNode(ts[0].value, true), ts[1..]))
    else if ts[0].kind == Word then Success(Parsed(TermNode(ts[0].value, false), ts[1..]))
    else Failure(UnexpectedToken(ts[0].value))
  }

  /** A whole query read from position `start` of `ts`: the list must be non-empty and every token after `start` used. */
  function ParseQuery(ts: seq<Token>, start: nat): (r: Result<Node, QueryParseError>)
    requires start <= |ts|
    ensures r.Success? ==> WellFormed(r.value)
    ensures r == Failure(EmptyQuery) <==> ts == []
    ensures r.Failure? ==> r.error != UnterminatedPhrase
  {
    if ts == [] then Failure(EmptyQuery)
    else
      match OrExpr(ts[start..])
      case Failure(e) => Failure(e)
      case Success(p) =>
        if p.rest != [] then Failure(UnexpectedToken(p.rest[0].value)) else Success(p.node)
  }

  /** The node of a rule's result, without the leftover tokens. */
  function NodeOf(r: Result<Parsed, QueryParseError>): Result<Node, QueryParseError> {
    match r
    case Success(p) => Success(p.node)
    case Failure(e) => Failure(e)
  }

  /** `_BooleanQueryParser`: a cursor over a fixed token list. */
  class BooleanQueryParser {
    const tokens: seq<Token>
    var index: nat

    ghost predicate Valid()
      reads this
    {
      index <= |tokens|
    }

    /** The source's constructor tokenizes its argument first; here the caller does (see `CqlEmitter.BuildTextQueryClause`). */
    constructor (tokens: seq<Token>)
      ensures Valid() && this.tokens == tokens && index == 0
    {
      this.tokens := tokens;
      index := 0;
    }

    /** `parse`: a whole query from the current position. */
    method Parse() returns (r: Result<Node, QueryParseError>)
      requires Valid()
      modifies this`index
      ensures Valid()
      ensures r == ParseQuery(tokens, old(index))
    {
      if tokens == [] {
        return Failure(EmptyQuery);
      }
      var node := ParseOr();
      if node.Failure? {
        return node;
      }
      if index != |tokens| {
        var token := tokens[index];
        return Failure(UnexpectedToken(token.value));
      }
      return node;
    }

    /** `_parse_or` */
    method ParseOr() returns (r: Result<Node, QueryParseError>)
      requires Valid()
      modifies this`index
      ensures Valid()
      ensures r == NodeOf(OrExpr(old(tokens[index..])))
      ensures r.Success? ==> tokens[index..] == OrExpr(old(tokens[index..])).value.rest
      decreases |tokens| - index, 3
    {
      ghost var start := tokens[index..];
      var node := ParseAnd();
      if node.Failure? {
        return node;
      }
      var children := [node.value];
      while true
        invariant Valid() && |children| >= 1 && AllWellFormed(children)
        invariant OrExpr(start) == OrTail(tokens[index..], children)
        decreases |tokens| - index
      {
        var matched := Match(Or);
        if !matched {
          break;
        }
        var next := ParseAnd();
        if next.Failure? {
          return next;
        }
        children := children + [next.value];
      }
      return Success(OrOf(children));
    }

    /** `_parse_and`: operands joined by AND, or by nothing at all. */
    method ParseAnd() returns (r: Result<Node, QueryParseError>)
      requires Valid()
      modifies this`index
      ensures Valid()
      ensures r == NodeOf(AndExpr(old(tokens[index..])))
      ensures r.Success? ==> tokens[index..] == AndExpr(old(tokens[index..])).value.rest
      decreases |tokens| - index, 2
    {
      ghost var start := tokens[index..];
      var node := ParseNot();
      if node.Failure? {
        return node;
      }
      var children := [node.value];
      while true
        invariant Valid() && |children| >= 1 && AllWellFormed(children)
        invariant AndExpr(start) == AndTail(tokens[index..], children)
        decreases |tokens| - index
      {
        var matched := Match(And);
        if !matched {
          var starts := NextStartsExpression();
          if !starts {
            break;
          }
        }
        var next := ParseNot();
        if next.Failure? {
          return next;
        }
        children := children + [next.value];
      }
      return Success(AndOf(children));
    }

    /** `_parse_not` */
    method ParseNot() returns (r: Result<Node, QueryParseError>)
      requires Valid()
      modifies this`index
      ensures Valid()
      ensures r == NodeOf(NotExpr(old(tokens[index..])))
      ensures r.Success? ==> tokens[index..] == NotExpr(old(tokens[index..])).value.rest
      decreases |tokens| - index, 1
    {
      var matched := Match(Not);
      if matched {
        var child := ParseNot();
        if child.Failure? {
          return child;
        }
        return Success(NotNode(child.value));
      }
      r := ParsePrimary();
    }

    /** `_parse_primary` */
    method ParsePrimary() returns (r: Result<Node, QueryParseError>)
      requires Valid()
      modifies this`index
      ensures Valid()
      ensures r == NodeOf(PrimaryExpr(old(tokens[index..])))
      ensures r.Success? ==> tokens[index..] == PrimaryExpr(old(tokens[index..])).value.rest
      decreases |tokens| - index, 0
    {
      var token := Peek();
      if token.None? {
        return Failure(UnexpectedEnd);
      }
      var t := token.value;
      if t.kind == LParen {
        var _ := Advance();
        var node := ParseOr();
        if node.Failure? {
          return node;
        }
        var closed := Match(RParen);
        if !closed {
          return Failure(MissingClosingParenthesis);
        }
        return node;
      }
      if t.kind == Phrase {
        var _ := Advance();
        return Success(TermNode(t.value, true));
      }
      if t.kind == Word {
        var _ := Advance();
        return Success(TermNode(t.value, false));
      }
      return Failure(UnexpectedToken(t.value));
    }

    /** `_peek`: the token under the cursor, if any. */
    method Peek() returns (t: Option<Token>)
      requires Valid()
      ensures t.Some? <==> index < |tokens|
      ensures t.Some? ==> t.value == tokens[index]
    {
      if index >= |tokens| {
        return None;
      }
      return Some(tokens[index]);
    }

    /** `_advance`: steps past the token under the cursor, if any, and returns it. */
    method Advance() returns (t: Option<Token>)
      requires Valid()
      modifies this`index
      ensures Valid()
      ensures t.Some? <==> old(index) < |tokens|
      ensures t.Some? ==> t.value == tokens[old(index)] && index == old(index) + 1
      ensures t.None? ==> index == old(index)
    {
      t := Peek();
      if t.Some? {
        index := index + 1;
      }
    }

    /** `_match`: steps past the token under the cursor exactly when it has kind `k`. */
    method Match(k: Kind) returns (matched: bool)
      requires Valid()
      modifies this`index
      ensures Valid()
      ensures matched <==> HeadIs(old(tokens[index..]), k)
      ensures index == if matched then old(index) + 1 else old(index)
    {
      var t := Peek();
      if t.Some? && t.value.kind == k {
        index := index + 1;
        return true;
      }
      return false;
    }

    /** `_next_starts_expression` */
    method NextStartsExpression() returns (b: bool)
      requires Valid()
      ensures b <==> StartsExpression(tokens[index..])
    {
      var t := Peek();
      if t.None? {
        return false;
      }
      return t.value.kind in {Word, Phrase, LParen, Not};
    }
  }
}
