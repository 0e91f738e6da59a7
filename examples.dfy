/**
  Worked queries: what the parser and the emitter make of a few typical query shapes, and
  the end-to-end clause `build_text_query_clause` returns for them,
  over arbitrary plain words; then the inputs it rejects and why.
 */
module QueryExamples {
  import opened Wrappers
  import opened Strings
  import opened Tokenizer
  import opened BooleanParser
  import opened CqlEmitter
  import opened LexExamples

  /** The clause that requires all words of `v`. */
  function AllOf(v: string): string {
    "text all \"" + EscapeCqlLiteral(v) + "\""
  }

  /** The clause that requires the exact phrase `v`. */
  function Adjacent(v: string): string {
    "text adj \"" + EscapeCqlLiteral(v) + "\""
  }

  // ---------------------------------------------------------------------------
  // One grammar step at a time, over whatever tokens follow.

  /** Tokens that end an operand of AND: nothing, an OR or a closing bracket. */
  predicate EndsConjunction(ts: seq<Token>) {
    ts == [] || ts[0].kind in {Or, RParen}
  }

  /** Tokens that end an operand of OR: nothing or a closing bracket. */
  predicate EndsDisjunction(ts: seq<Token>) {
    ts == [] || ts[0].kind == RParen
  }

  /** A word or phrase token is read as a term of its own. */
  lemma TermStep(ts: seq<Token>)
    requires ts != [] && (ts[0].kind == Word || ts[0].kind == Phrase)
    ensures NotExpr(ts) == Success(Parsed(TermNode(ts[0].value, ts[0].kind == Phrase), ts[1..]))
  {
  }

  lemma NotStep(ts: seq<Token>, n: Node, after: seq<Token>)
    requires HeadIs(ts, Not) && NotExpr(ts[1..]) == Success(Parsed(n, after))
    ensures NotExpr(ts) == Success(Parsed(NotNode(n), after))
  {
  }

  lemma GroupStep(ts: seq<Token>, n: Node, after: seq<Token>)
    requires HeadIs(ts, LParen) && OrExpr(ts[1..]) == Success(Parsed(n, after)) && HeadIs(after, RParen)
    ensures NotExpr(ts) == Success(Parsed(n, after[1..]))
  {
  }

  lemma AndStart(ts: seq<Token>, n: Node, after: seq<Token>)
    requires NotExpr(ts) == Success(Parsed(n, after))
    ensures AndExpr(ts) == AndTail(after, [n])
  {
  }

  lemma AndExplicitStep(ts: seq<Token>, cs: seq<Node>, n: Node, after: seq<Token>)
    requires |cs| >= 1 && AllWellFormed(cs)
    requires HeadIs(ts, And) && NotExpr(ts[1..]) == Success(Parsed(n, after))
    ensures AndTail(ts, cs) == AndTail(after, cs + [n])
  {
  }

  lemma AndImplicitStep(ts: seq<Token>, cs: seq<Node>, n: Node, after: seq<Token>)
    requires |cs| >= 1 && AllWellFormed(cs) && StartsExpression(ts)
    requires NotExpr(ts) == Success(Parsed(n, after))
    ensures AndTail(ts, cs) == AndTail(after, cs + [n])
  {
  }

  lemma AndDone(ts: seq<Token>, cs: seq<Node>)
    requires |cs| >= 1 && AllWellFormed(cs)
    requires EndsConjunction(ts)
    ensures AndTail(ts, cs) == Success(Parsed(AndOf(cs), ts))
  {
  }

  lemma OrStart(ts: seq<Token>, n: Node, after: seq<Token>)
    requires AndExpr(ts) == Success(Parsed(n, after))
    ensures OrExpr(ts) == OrTail(after, [n])
  {
  }

  lemma OrStep(ts: seq<Token>, cs: seq<Node>, n: Node, after: seq<Token>)
    requires |cs| >= 1 && AllWellFormed(cs)
    requires HeadIs(ts, Or) && AndExpr(ts[1..]) == Success(Parsed(n, after))
    ensures OrTail(ts, cs) == OrTail(after, cs + [n])
  {
  }

  /** `x OR y`, each side a whole conjunction, before the end of a disjunction. */
  lemma DisjunctionOfTwo(ts: seq<Token>, x: Node, after: seq<Token>, y: Node, rest: seq<Token>)
    requires AndExpr(ts) == Success(Parsed(x, after))
    requires HeadIs(after, Or) && AndExpr(after[1..]) == Success(Parsed(y, rest))
    requires EndsDisjunction(rest)
    ensures OrExpr(ts) == Success(Parsed(OrNode([x, y]), rest))
  {
    assert AllWellFormed([x]) && AllWellFormed([x, y]);
    OrStart(ts, x, after);
    OrStep(after, [x], y, rest);
    AppendSingletons(x, y);
    OrDone(rest, [x, y]);
  }

  /** `x AND y`, each side a single operand, before the end of a conjunction. */
  lemma ExplicitConjunctionOfTwo(ts: seq<Token>, x: Node, after: seq<Token>, y: Node, rest: seq<Token>)
    requires NotExpr(ts) == Success(Parsed(x, after))
    requires HeadIs(after, And) && NotExpr(after[1..]) == Success(Parsed(y, rest))
    requires EndsConjunction(rest)
    ensures AndExpr(ts) == Success(Parsed(AndNode([x, y]), rest))
  {
    assert AllWellFormed([x]) && AllWellFormed([x, y]);
    AndStart(ts, x, after);
    AndExplicitStep(after, [x], y, rest);
    AppendSingletons(x, y);
    AndDone(rest, [x, y]);
  }

  lemma OrDone(ts: seq<Token>, cs: seq<Node>)
    requires |cs| >= 1 && AllWellFormed(cs)
    requires EndsDisjunction(ts)
    ensures OrTail(ts, cs) == Success(Parsed(OrOf(cs), ts))
  {
  }

  lemma QueryDone(ts: seq<Token>, n: Node)
    requires ts != [] && OrExpr(ts) == Success(Parsed(n, []))
    ensures ParseQuery(ts, 0) == Success(n)
  {
    assert ts[0..] == ts;
  }

  /** A query that is one conjunction using every token. */
  lemma QueryOfAnd(ts: seq<Token>, n: Node)
    requires ts != [] && AndExpr(ts) == Success(Parsed(n, []))
    ensures ParseQuery(ts, 0) == Success(n)
  {
    OrStart(ts, n, []);
    OrDone([], [n]);
    QueryDone(ts, n);
  }

  /** A word followed by the end or an OR or a closing bracket is a whole operand of OR. */
  lemma WordOperand(ts: seq<Token>)
    requires ts != [] && ts[0].kind == Word
    requires EndsConjunction(ts[1..])
    ensures AndExpr(ts) == Success(Parsed(TermNode(ts[0].value, false), ts[1..]))
  {
    TermStep(ts);
    AndStart(ts, TermNode(ts[0].value, false), ts[1..]);
    AndDone(ts[1..], [TermNode(ts[0].value, false)]);
  }

  /** A query whose top-level conjunction uses every token. */
  lemma QueryOfConjunction(ts: seq<Token>, first: Node, after: seq<Token>, n: Node)
    requires NotExpr(ts) == Success(Parsed(first, after))
    requires AndTail(after, [first]) == Success(Parsed(n, []))
    ensures ParseQuery(ts, 0) == Success(n)
  {
    AndStart(ts, first, after);
    OrStart(ts, n, []);
    OrDone([], [n]);
    QueryDone(ts, n);
  }

  /** `x AND y` before the end of a conjunction. */
  lemma ConjunctionOfWords(x: string, y: string, rest: seq<Token>)
    requires EndsConjunction(rest)
    ensures AndExpr([Token(Word, x), Token(And, "AND"), Token(Word, y)] + rest)
         == Success(Parsed(AndNode([TermNode(x, false), TermNode(y, false)]), rest))
  {
    var ts := [Token(Word, x), Token(And, "AND"), Token(Word, y)] + rest;
    TermStep(ts);
    DropDrop(ts, 1, 1);
    TermStep(ts[2..]);
    DropAppend([Token(Word, x), Token(And, "AND"), Token(Word, y)], rest, 3);
    AppendEmpty(rest);
    DropDrop(ts, 2, 1);
    ExplicitConjunctionOfTwo(ts, TermNode(x, false), ts[1..], TermNode(y, false), rest);
  }

  /** A negated phrase as the last operand of a conjunction. */
  lemma NegatedPhraseLast(v: string, cs: seq<Node>)
    requires |cs| >= 1 && AllWellFormed(cs)
    ensures AndTail([Token(Not, "NOT"), Token(Phrase, v)], cs) == Success(Parsed(AndOf(cs + [NotNode(TermNode(v, true))]), []))
  {
    var ts := [Token(Not, "NOT"), Token(Phrase, v)];
    assert ts[1..][1..] == [];
    TermStep(ts[1..]);
    NotStep(ts, TermNode(v, true), []);
    AndImplicitStep(ts, cs, NotNode(TermNode(v, true)), []);
    AndDone([], cs + [NotNode(TermNode(v, true))]);
  }

  // ---------------------------------------------------------------------------
  // Parsing.

  /** `left right`: adjacent operands are ANDed. */
  lemma ParseImplicitAnd(left: string, right: string)
    ensures ParseQuery([Token(Word, left), Token(Word, right)], 0)
         == Success(AndNode([TermNode(left, false), TermNode(right, false)]))
  {
    var l, r := TermNode(left, false), TermNode(right, false);
    var ts := [Token(Word, left), Token(Word, right)];
    assert ts[1..][1..] == [];
    TermStep(ts);
    TermStep(ts[1..]);
    AndStart(ts, l, ts[1..]);
    AndImplicitStep(ts[1..], [l], r, []);
    assert [l] + [r] == [l, r];
    AndDone([], [l, r]);
    OrStart(ts, AndNode([l, r]), []);
    OrDone([], [AndNode([l, r])]);
    QueryDone(ts, AndNode([l, r]));
  }

  /** `left AND right`: an explicit AND gives the same tree as the implicit one. */
  lemma ParseExplicitAnd(left: string, right: string)
    ensures ParseQuery([Token(Word, left), Token(And, "AND"), Token(Word, right)], 0)
         == Success(AndNode([TermNode(left, false), TermNode(right, false)]))
  {
    var l, r := TermNode(left, false), TermNode(right, false);
    var ts := [Token(Word, left), Token(And, "AND"), Token(Word, right)];
    var r1 := ts[1..];
    assert r1[1..] == ts[2..] && ts[2..][1..] == [];
    TermStep(ts);
    TermStep(ts[2..]);
    AndStart(ts, l, r1);
    AndExplicitStep(r1, [l], r, []);
    assert [l] + [r] == [l, r];
    AndDone([], [l, r]);
    OrStart(ts, AndNode([l, r]), []);
    OrDone([], [AndNode([l, r])]);
    QueryDone(ts, AndNode([l, r]));
  }

  /** `NOT NOT word`: NOT nests to the right. */
  lemma ParseDoubleNot(word: string)
    ensures ParseQuery([Token(Not, "NOT"), Token(Not, "NOT"), Token(Word, word)], 0)
         == Success(NotNode(NotNode(TermNode(word, false))))
  {
    var n := NotNode(NotNode(TermNode(word, false)));
    var ts := [Token(Not, "NOT"), Token(Not, "NOT"), Token(Word, word)];
    assert ts[1..][1..] == ts[2..] && ts[2..][1..] == [];
    TermStep(ts[2..]);
    NotStep(ts[1..], TermNode(word, false), []);
    NotStep(ts, NotNode(TermNode(word, false)), []);
    AndStart(ts, n, []);
    AndDone([], [n]);
    OrStart(ts, n, []);
    OrDone([], [n]);
    QueryDone(ts, n);
  }

  /** `a OR b AND c`: AND binds tighter than OR. */
  lemma ParseOrAnd(a: string, b: string, c: string)
    ensures ParseQuery([Token(Word, a), Token(Or, "OR"), Token(Word, b), Token(And, "AND"), Token(Word, c)], 0)
         == Success(OrNode([TermNode(a, false), AndNode([TermNode(b, false), TermNode(c, false)])]))
  {
    var ta := TermNode(a, false);
    var bc := AndNode([TermNode(b, false), TermNode(c, false)]);
    var ts := [Token(Word, a), Token(Or, "OR"), Token(Word, b), Token(And, "AND"), Token(Word, c)];
    WordOperand(ts);
    assert AndExpr(ts[1..][1..]) == Success(Parsed(bc, [])) by {
      DropDrop(ts, 1, 1);
      AppendEmpty([Token(Word, b), Token(And, "AND"), Token(Word, c)]);
      ConjunctionOfWords(b, c, []);
    }
    DisjunctionOfTwo(ts, ta, ts[1..], bc, []);
    QueryDone(ts, OrNode([ta, bc]));
  }

  /** `x OR y` before the end or a closing bracket. */
  lemma OrOfWords(x: string, y: string, rest: seq<Token>)
    requires EndsDisjunction(rest)
    ensures OrExpr([Token(Word, x), Token(Or, "OR"), Token(Word, y)] + rest)
         == Success(Parsed(OrNode([TermNode(x, false), TermNode(y, false)]), rest))
  {
    var ts := [Token(Word, x), Token(Or, "OR"), Token(Word, y)] + rest;
    WordOperand(ts);
    assert AndExpr(ts[1..][1..]) == Success(Parsed(TermNode(y, false), rest)) by {
      DropDrop(ts, 1, 1);
      DropAppend([Token(Word, x), Token(Or, "OR"), Token(Word, y)], rest, 2);
      DropDrop(ts, 2, 1);
      DropAppend([Token(Word, x), Token(Or, "OR"), Token(Word, y)], rest, 3);
      AppendEmpty(rest);
      WordOperand(ts[2..]);
    }
    DisjunctionOfTwo(ts, TermNode(x, false), ts[1..], TermNode(y, false), rest);
  }

  /** `(x OR y)` in front of any tokens. */
  lemma GroupedOrOfWords(x: string, y: string, rest: seq<Token>)
    ensures NotExpr([Token(LParen, "("), Token(Word, x), Token(Or, "OR"), Token(Word, y), Token(RParen, ")")] + rest)
         == Success(Parsed(OrNode([TermNode(x, false), TermNode(y, false)]), rest))
  {
    var ts := [Token(LParen, "("), Token(Word, x), Token(Or, "OR"), Token(Word, y), Token(RParen, ")")] + rest;
    var closing := [Token(RParen, ")")] + rest;
    assert ts[1..] == [Token(Word, x), Token(Or, "OR"), Token(Word, y)] + closing;
    assert closing[1..] == rest;
    OrOfWords(x, y, closing);
    GroupStep(ts, OrNode([TermNode(x, false), TermNode(y, false)]), closing);
  }

  /** `(a OR b) AND c`: brackets override precedence. */
  lemma ParseGrouped(a: string, b: string, c: string)
    ensures ParseQuery([Token(LParen, "("), Token(Word, a), Token(Or, "OR"), Token(Word, b), Token(RParen, ")"), Token(And, "AND"), Token(Word, c)], 0)
         == Success(AndNode([OrNode([TermNode(a, false), TermNode(b, false)]), TermNode(c, false)]))
  {
    var tc := TermNode(c, false);
    var ab := OrNode([TermNode(a, false), TermNode(b, false)]);
    var ts := [Token(LParen, "("), Token(Word, a), Token(Or, "OR"), Token(Word, b), Token(RParen, ")"), Token(And, "AND"), Token(Word, c)];
    assert NotExpr(ts) == Success(Parsed(ab, ts[5..])) by {
      SplitAt(ts, 5);
      assert ts[..5] == [Token(LParen, "("), Token(Word, a), Token(Or, "OR"), Token(Word, b), Token(RParen, ")")];
      GroupedOrOfWords(a, b, ts[5..]);
    }
    assert NotExpr(ts[5..][1..]) == Success(Parsed(tc, [])) by {
      DropDrop(ts, 5, 1);
      TermStep(ts[6..]);
      DropDrop(ts, 6, 1);
    }
    ExplicitConjunctionOfTwo(ts, ab, ts[5..], tc, []);
    QueryOfAnd(ts, AndNode([ab, tc]));
  }

  /** The worked example's tokens, as the pieces the parser reads them in. */
  lemma MagicTokens(magic: string, illusion: string, escape: string, tricks: string)
    ensures [Token(Word, magic)] + ([Token(And, "AND")] + ([Token(LParen, "("), Token(Word, illusion), Token(Or, "OR"), Token(Word, escape), Token(RParen, ")")] + [Token(Not, "NOT"), Token(Phrase, tricks)]))
         == [Token(Word, magic), Token(And, "AND"), Token(LParen, "("), Token(Word, illusion), Token(Or, "OR"), Token(Word, escape), Token(RParen, ")"), Token(Not, "NOT"), Token(Phrase, tricks)]
  {
  }

  /** The worked example: an explicit AND, a bracketed OR, and an implicitly ANDed NOT of a phrase. */
  lemma ParseMagic(magic: string, illusion: string, escape: string, tricks: string)
    ensures ParseQuery([Token(Word, magic), Token(And, "AND"), Token(LParen, "("), Token(Word, illusion), Token(Or, "OR"), Token(Word, escape), Token(RParen, ")"), Token(Not, "NOT"), Token(Phrase, tricks)], 0)
         == Success(AndNode([TermNode(magic, false), OrNode([TermNode(illusion, false), TermNode(escape, false)]), NotNode(TermNode(tricks, true))]))
  {
    var tm := TermNode(magic, false);
    var tp := NotNode(TermNode(tricks, true));
    var either := OrNode([TermNode(illusion, false), TermNode(escape, false)]);
    var negated := [Token(Not, "NOT"), Token(Phrase, tricks)];
    var bracket := [Token(LParen, "("), Token(Word, illusion), Token(Or, "OR"), Token(Word, escape), Token(RParen, ")")];
    var rest := [Token(And, "AND")] + (bracket + negated);
    var ts := [Token(Word, magic)] + rest;
    DropHead(Token(Word, magic), rest);
    DropHead(Token(And, "AND"), bracket + negated);
    assert AndTail(rest, [tm]) == AndTail(negated, [tm, either]) by {
      GroupedOrOfWords(illusion, escape, negated);
      AndExplicitStep(rest, [tm], either, negated);
      AppendSingletons(tm, either);
    }
    assert AndTail(negated, [tm, either]) == Success(Parsed(AndNode([tm, either, tp]), [])) by {
      NegatedPhraseLast(tricks, [tm, either]);
      AppendToPair(tm, either, tp);
    }
    TermStep(ts);
    QueryOfConjunction(ts, tm, rest, AndNode([tm, either, tp]));
    MagicTokens(magic, illusion, escape, tricks);
  }

  // ---------------------------------------------------------------------------
  // Emitting.

  lemma JoinTwo(sep: string, x: string, y: string)
    ensures Join(sep, [x, y]) == x + sep + y
  {
    assert [x, y][1..] == [y];
  }

  lemma JoinThree(sep: string, x: string, y: string, z: string)
    ensures Join(sep, [x, y, z]) == x + sep + (y + sep + z)
  {
    assert [x, y, z][1..] == [y, z];
    JoinTwo(sep, y, z);
  }

  /** A word is searched with `all`, a phrase with `adj`. */
  lemma TermClauses(v: string)
    ensures EmitCql(TermNode(v, false)).text == AllOf(v)
    ensures EmitCql(TermNode(v, true)).text == Adjacent(v)
  {
    assert "text " + "all" + " \"" == "text all \"";
    assert "text " + "adj" + " \"" == "text adj \"";
  }

  lemma EmitAnd2(x: Node, y: Node)
    ensures EmitCql(AndNode([x, y])).text == Wrap(EmitCql(x), PrecAnd) + " and " + Wrap(EmitCql(y), PrecAnd)
  {
    var cs := [x, y];
    var parts := seq(|cs|, i requires 0 <= i < |cs| => Wrap(EmitCql(cs[i]), PrecAnd));
    assert parts == [Wrap(EmitCql(x), PrecAnd), Wrap(EmitCql(y), PrecAnd)];
    JoinTwo(" and ", parts[0], parts[1]);
  }

  lemma EmitAnd3(x: Node, y: Node, z: Node)
    ensures EmitCql(AndNode([x, y, z])).text
         == Wrap(EmitCql(x), PrecAnd) + " and " + (Wrap(EmitCql(y), PrecAnd) + " and " + Wrap(EmitCql(z), PrecAnd))
  {
    var cs := [x, y, z];
    var parts := seq(|cs|, i requires 0 <= i < |cs| => Wrap(EmitCql(cs[i]), PrecAnd));
    assert parts == [Wrap(EmitCql(x), PrecAnd), Wrap(EmitCql(y), PrecAnd), Wrap(EmitCql(z), PrecAnd)];
    JoinThree(" and ", parts[0], parts[1], parts[2]);
  }

  lemma EmitOr2(x: Node, y: Node)
    ensures EmitCql(OrNode([x, y])).text == Wrap(EmitCql(x), PrecOr) + " or " + Wrap(EmitCql(y), PrecOr)
  {
    var cs := [x, y];
    var parts := seq(|cs|, i requires 0 <= i < |cs| => Wrap(EmitCql(cs[i]), PrecOr));
    assert parts == [Wrap(EmitCql(x), PrecOr), Wrap(EmitCql(y), PrecOr)];
    JoinTwo(" or ", parts[0], parts[1]);
  }

  lemma EmitImplicitAnd(left: string, right: string)
    ensures EmitCql(AndNode([TermNode(left, false), TermNode(right, false)])).text == AllOf(left) + " and " + AllOf(right)
  {
    EmitAnd2(TermNode(left, false), TermNode(right, false));
    TermClauses(left);
    TermClauses(right);
  }

  lemma EmitDoubleNot(word: string)
    ensures EmitCql(NotNode(NotNode(TermNode(word, false)))).text == "not " + ("not " + AllOf(word))
  {
    TermClauses(word);
  }

  /** The AND inside an OR needs no brackets. */
  lemma EmitOrAnd(a: string, b: string, c: string)
    ensures EmitCql(OrNode([TermNode(a, false), AndNode([TermNode(b, false), TermNode(c, false)])])).text
         == AllOf(a) + " or " + (AllOf(b) + " and " + AllOf(c))
  {
    EmitImplicitAnd(b, c);
    TermClauses(a);
    EmitOr2(TermNode(a, false), AndNode([TermNode(b, false), TermNode(c, false)]));
  }

  /** The OR inside an AND is bracketed. */
  lemma EmitGrouped(a: string, b: string, c: string)
    ensures EmitCql(AndNode([OrNode([TermNode(a, false), TermNode(b, false)]), TermNode(c, false)])).text
         == "(" + (AllOf(a) + " or " + AllOf(b)) + ")" + " and " + AllOf(c)
  {
    TermClauses(a);
    TermClauses(b);
    TermClauses(c);
    EmitOr2(TermNode(a, false), TermNode(b, false));
    EmitAnd2(OrNode([TermNode(a, false), TermNode(b, false)]), TermNode(c, false));
  }

  /** The worked example's clause: the OR is bracketed and the NOT joins the conjunction with ` and `. */
  lemma EmitMagic(magic: string, illusion: string, escape: string, tricks: string)
    ensures EmitCql(AndNode([TermNode(magic, false), OrNode([TermNode(illusion, false), TermNode(escape, false)]), NotNode(TermNode(tricks, true))])).text
         == AllOf(magic) + " and " + ("(" + (AllOf(illusion) + " or " + AllOf(escape)) + ")" + " and " + ("not " + Adjacent(tricks)))
  {
    TermClauses(magic);
    TermClauses(illusion);
    TermClauses(escape);
    TermClauses(tricks);
    EmitOr2(TermNode(illusion, false), TermNode(escape, false));
    EmitAnd3(TermNode(magic, false), OrNode([TermNode(illusion, false), TermNode(escape, false)]), NotNode(TermNode(tricks, true)));
  }

  // ---------------------------------------------------------------------------
  // From query text to clause.

  /** The first and last characters of a plain word are not whitespace. */
  lemma PlainWordEnds(w: string)
    requires PlainWord(w)
    ensures !IsSpace(w[0]) && !IsSpace(w[|w| - 1])
  {
    WordCharsAll(w);
  }

  lemma TextQueryImplicitAnd(left: string, right: string)
    requires PlainWord(left) && PlainWord(right)
    ensures TextQueryClause(left + " " + right) == Success(AllOf(left) + " and " + AllOf(right))
  {
    var q := left + " " + right;
    PlainWordEnds(left);
    PlainWordEnds(right);
    assert q[0] == left[0] && q[|q| - 1] == right[|right| - 1];
    StripUnchanged(q);
    LexImplicitAnd(left, right);
    ParseImplicitAnd(left, right);
    EmitImplicitAnd(left, right);
  }

  /** With or without the AND, the clause is the same. */
  lemma TextQueryExplicitAnd(left: string, right: string)
    requires PlainWord(left) && PlainWord(right)
    ensures TextQueryClause(left + " AND " + right) == TextQueryClause(left + " " + right)
    ensures TextQueryClause(left + " AND " + right) == Success(AllOf(left) + " and " + AllOf(right))
  {
    var q := left + " AND " + right;
    PlainWordEnds(left);
    PlainWordEnds(right);
    assert q[0] == left[0] && q[|q| - 1] == right[|right| - 1];
    StripUnchanged(q);
    LexExplicitAnd(left, right);
    ParseExplicitAnd(left, right);
    EmitImplicitAnd(left, right);
    TextQueryImplicitAnd(left, right);
  }

  lemma TextQueryDoubleNot(word: string)
    requires PlainWord(word)
    ensures TextQueryClause("NOT NOT " + word) == Success("not " + ("not " + AllOf(word)))
  {
    var q := "NOT NOT " + word;
    PlainWordEnds(word);
    assert q[0] == 'N' && q[|q| - 1] == word[|word| - 1];
    StripUnchanged(q);
    LexDoubleNot(word);
    ParseDoubleNot(word);
    EmitDoubleNot(word);
  }

  lemma TextQueryOrAnd(a: string, b: string, c: string)
    requires PlainWord(a) && PlainWord(b) && PlainWord(c)
    ensures TextQueryClause(a + " OR " + b + " AND " + c) == Success(AllOf(a) + " or " + (AllOf(b) + " and " + AllOf(c)))
  {
    var q := a + " OR " + b + " AND " + c;
    PlainWordEnds(a);
    PlainWordEnds(c);
    assert q[0] == a[0] && q[|q| - 1] == c[|c| - 1];
    StripUnchanged(q);
    LexOrAnd(a, b, c);
    ParseOrAnd(a, b, c);
    EmitOrAnd(a, b, c);
  }

  lemma TextQueryGrouped(a: string, b: string, c: string)
    requires PlainWord(a) && PlainWord(b) && PlainWord(c)
    ensures TextQueryClause("(" + a + " OR " + b + ") AND " + c) == Success("(" + (AllOf(a) + " or " + AllOf(b)) + ")" + " and " + AllOf(c))
  {
    var q := "(" + a + " OR " + b + ") AND " + c;
    PlainWordEnds(c);
    assert q[0] == '(' && q[|q| - 1] == c[|c| - 1];
    StripUnchanged(q);
    LexGrouped(a, b, c);
    ParseGrouped(a, b, c);
    EmitGrouped(a, b, c);
  }

  /** The worked example `magic AND (illusion OR escape) NOT "card tricks"`, over any words and phrase. */
  lemma TextQueryMagic(magic: string, illusion: string, escape: string, tricks: string)
    requires PlainWord(magic) && PlainWord(illusion) && PlainWord(escape)
    ensures TextQueryClause(magic + " AND (" + illusion + " OR " + escape + ") NOT \"" + BackslashEscape(tricks) + "\"")
         == Success(AllOf(magic) + " and " + ("(" + (AllOf(illusion) + " or " + AllOf(escape)) + ")" + " and " + ("not " + Adjacent(tricks))))
  {
    var q := magic + " AND (" + illusion + " OR " + escape + ") NOT \"" + BackslashEscape(tricks) + "\"";
    PlainWordEnds(magic);
    assert q[0] == magic[0] && q[|q| - 1] == '"';
    StripUnchanged(q);
    LexMagic(magic, illusion, escape, tricks);
    ParseMagic(magic, illusion, escape, tricks);
    EmitMagic(magic, illusion, escape, tricks);
  }

  // ---------------------------------------------------------------------------
  // Rejected queries.

  /** A query cannot start with AND, OR or a closing bracket: the offending token is reported. */
  lemma OperatorFirstRejected(ts: seq<Token>)
    requires ts != [] && ts[0].kind in {And, Or, RParen}
    ensures ParseQuery(ts, 0) == Failure(UnexpectedToken(ts[0].value))
  {
    var e := Failure(UnexpectedToken(ts[0].value));
    assert PrimaryExpr(ts) == e;
    assert NotExpr(ts) == e;
    assert AndExpr(ts) == e;
    assert OrExpr(ts) == e;
    assert ts[0..] == ts;
  }

  /** A bracket opened in front of a complete query and never closed. */
  lemma UnclosedBracketRejected(ts: seq<Token>, n: Node)
    requires OrExpr(ts) == Success(Parsed(n, []))
    ensures ParseQuery([Token(LParen, "(")] + ts, 0) == Failure(MissingClosingParenthesis)
  {
    var q := [Token(LParen, "(")] + ts;
    var e := Failure(MissingClosingParenthesis);
    assert q[1..] == ts && q[0..] == q;
    assert PrimaryExpr(q) == e;
    assert NotExpr(q) == e;
    assert AndExpr(q) == e;
    assert OrExpr(q) == e;
  }

  /** `word )`: a token left over after a complete query is reported. */
  lemma TrailingBracketRejected(word: string)
    ensures ParseQuery([Token(Word, word), Token(RParen, ")")], 0) == Failure(UnexpectedToken(")"))
  {
    var ts := [Token(Word, word), Token(RParen, ")")];
    var n := TermNode(word, false);
    TermStep(ts);
    AndStart(ts, n, ts[1..]);
    AndDone(ts[1..], [n]);
    OrStart(ts, n, ts[1..]);
    OrDone(ts[1..], [n]);
    assert ts[0..] == ts;
  }

  /** `word AND`: an operator with nothing after it. */
  lemma DanglingAndRejected(word: string)
    ensures ParseQuery([Token(Word, word), Token(And, "AND")], 0) == Failure(UnexpectedEnd)
  {
    var ts := [Token(Word, word), Token(And, "AND")];
    var n := TermNode(word, false);
    TermStep(ts);
    AndStart(ts, n, ts[1..]);
    assert ts[1..][1..] == [];
    assert NotExpr([]) == Failure(UnexpectedEnd);
    assert AndTail(ts[1..], [n]) == Failure(UnexpectedEnd);
    assert OrExpr(ts) == Failure(UnexpectedEnd);
    assert ts[0..] == ts;
  }
}
