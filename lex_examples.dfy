/**
  What the tokenizer makes of a few typical query shapes, over arbitrary plain words (and, for
  the phrase, an arbitrary phrase value written with its backslashes and quotes escaped).

  Each shape is read right to left, one piece at a time, with the step lemmas below: a word, an
  operator word and its space, a space, a bracket, a quoted phrase, and a few pieces made of
  these. For the longer shapes the reading is kept apart from the bookkeeping: `...Nested`
  reads the text grouped the way the pieces meet, `...Tokens` flattens the token list and
  `...Shape` regroups the text.
 */
module LexExamples {
  import opened Wrappers
  import opened Strings
  import opened Tokenizer

  /** Every character of `s` can be part of a bare word. */
  predicate WordChars(s: string)
    decreases |s|
  {
    s == [] || (IsWordChar(s[0]) && WordChars(s[1..]))
  }

  lemma {:induction false} WordCharsAll(s: string)
    requires WordChars(s)
    ensures forall k :: 0 <= k < |s| ==> IsWordChar(s[k])
    decreases |s|
  {
    if s != [] {
      WordCharsAll(s[1..]);
      assert forall k :: 1 <= k < |s| ==> s[k] == s[1..][k - 1];
    }
  }

  /** A word the tokenizer reads as a search term: a non-empty run of word characters that is no operator. */
  predicate PlainWord(w: string) {
    w != [] && WordChars(w) && !IsKeyword(w)
  }

  // One piece in front of text whose tokens are `ts`.

  /** A plain word, in front of text that cannot continue it, is one WORD token. */
  lemma WordStep(w: string, tail: string, ts: seq<Token>)
    requires PlainWord(w) && Lex(tail) == Success(ts) && (tail == [] || !IsWordChar(tail[0]))
    ensures Lex(w + tail) == Success([Token(Word, w)] + ts)
  {
    WordCharsAll(w);
    LexWordThen(w, tail);
  }

  /** An upper-case operator word and the space after it are its operator token. */
  lemma OperatorStep(t: Token, tail: string, ts: seq<Token>)
    requires t == Token(And, "AND") || t == Token(Or, "OR") || t == Token(Not, "NOT")
    requires Lex(tail) == Success(ts)
    ensures Lex(t.value + " " + tail) == Success([t] + ts)
  {
    UpperFixed(t.value);
    LexSpaceThen(' ', tail);
    assert t.value + " " + tail == t.value + ([' '] + tail);
    LexWordThen(t.value, [' '] + tail);
  }

  /** A space gives no token. */
  lemma SpaceStep(tail: string, ts: seq<Token>)
    requires Lex(tail) == Success(ts)
    ensures Lex(" " + tail) == Success(ts)
  {
    LexSpaceThen(' ', tail);
  }

  /** A bracket is a token of its own. */
  lemma BracketStep(t: Token, tail: string, ts: seq<Token>)
    requires (t == Token(LParen, "(") || t == Token(RParen, ")")) && Lex(tail) == Success(ts)
    ensures Lex(t.value + tail) == Success([t] + ts)
  {
    LexSymbolThen(t.value[0], tail);
    assert t.value == [t.value[0]];
  }

  /** A quoted, escaped phrase is one PHRASE token carrying its value. */
  lemma PhraseStep(v: string, tail: string, ts: seq<Token>)
    requires Lex(tail) == Success(ts)
    ensures Lex("\"" + BackslashEscape(v) + "\"" + tail) == Success([Token(Phrase, v)] + ts)
  {
    LexPhraseThen(v, tail);
  }

  /** A plain word on its own is one WORD token. */
  lemma WordAlone(w: string)
    requires PlainWord(w)
    ensures Lex(w) == Success([Token(Word, w)])
  {
    assert Lex("") == Success([]);
    WordStep(w, "", []);
    assert w + "" == w;
    assert [Token(Word, w)] + [] == [Token(Word, w)];
  }

  lemma SpacedShape(w: string, v: string, tail: string)
    ensures w + " " + v + " " + tail == w + (" " + (v + " " + tail))
  {
  }

  /** A plain word and an upper-case operator word between spaces are a WORD and an operator token. */
  lemma WordOperatorStep(w: string, t: Token, tail: string, ts: seq<Token>)
    requires PlainWord(w) && (t == Token(And, "AND") || t == Token(Or, "OR") || t == Token(Not, "NOT"))
    requires Lex(tail) == Success(ts)
    ensures Lex(w + " " + t.value + " " + tail) == Success([Token(Word, w), t] + ts)
  {
    OperatorStep(t, tail, ts);
    SpaceStep(t.value + " " + tail, [t] + ts);
    WordStep(w, " " + (t.value + " " + tail), [t] + ts);
    SpacedShape(w, t.value, tail);
    assert [Token(Word, w)] + ([t] + ts) == [Token(Word, w), t] + ts;
  }

  /** A closing bracket and an upper-case operator word between spaces are two tokens. */
  lemma CloseOperatorStep(t: Token, tail: string, ts: seq<Token>)
    requires t == Token(And, "AND") || t == Token(Or, "OR") || t == Token(Not, "NOT")
    requires Lex(tail) == Success(ts)
    ensures Lex(")" + " " + t.value + " " + tail) == Success([Token(RParen, ")"), t] + ts)
  {
    OperatorStep(t, tail, ts);
    SpaceStep(t.value + " " + tail, [t] + ts);
    BracketStep(Token(RParen, ")"), " " + (t.value + " " + tail), [t] + ts);
    SpacedShape(")", t.value, tail);
    assert [Token(RParen, ")")] + ([t] + ts) == [Token(RParen, ")"), t] + ts;
  }

  /** An opening bracket, two plain words with `OR` between them, and text that cannot continue the second word. */
  lemma GroupStep(a: string, b: string, tail: string, ts: seq<Token>)
    requires PlainWord(a) && PlainWord(b) && Lex(tail) == Success(ts) && (tail == [] || !IsWordChar(tail[0]))
    ensures Lex("(" + a + " OR " + b + tail) == Success([Token(LParen, "("), Token(Word, a), Token(Or, "OR"), Token(Word, b)] + ts)
  {
    GroupNested(a, b, tail, ts);
    GroupTokens(a, b, ts);
    GroupShape(a, b, tail);
  }

  lemma GroupNested(a: string, b: string, tail: string, ts: seq<Token>)
    requires PlainWord(a) && PlainWord(b) && Lex(tail) == Success(ts) && (tail == [] || !IsWordChar(tail[0]))
    ensures Lex("(" + (a + " OR " + (b + tail))) == Success([Token(LParen, "(")] + ([Token(Word, a), Token(Or, "OR")] + ([Token(Word, b)] + ts)))
  {
    WordStep(b, tail, ts);
    OrThen(a, b + tail, [Token(Word, b)] + ts);
    BracketStep(Token(LParen, "("), a + " OR " + (b + tail), [Token(Word, a), Token(Or, "OR")] + ([Token(Word, b)] + ts));
  }

  lemma GroupTokens(a: string, b: string, ts: seq<Token>)
    ensures [Token(LParen, "(")] + ([Token(Word, a), Token(Or, "OR")] + ([Token(Word, b)] + ts))
         == [Token(LParen, "("), Token(Word, a), Token(Or, "OR"), Token(Word, b)] + ts
  {
  }

  lemma GroupShape(a: string, b: string, tail: string)
    ensures "(" + a + " OR " + b + tail == "(" + (a + " OR " + (b + tail))
  {
  }

  /** A plain word and `OR` in front of any text whose tokens are `ts`. */
  lemma OrThen(a: string, tail: string, ts: seq<Token>)
    requires PlainWord(a) && Lex(tail) == Success(ts)
    ensures Lex(a + " OR " + tail) == Success([Token(Word, a), Token(Or, "OR")] + ts)
  {
    WordOperatorStep(a, Token(Or, "OR"), tail, ts);
    OrShape(a, tail);
  }

  lemma OrShape(a: string, tail: string)
    ensures a + " OR " + tail == a + " " + "OR" + " " + tail
  {
  }

  /** A quoted, escaped phrase on its own is one PHRASE token. */
  lemma PhraseAlone(v: string)
    ensures Lex("\"" + BackslashEscape(v) + "\"") == Success([Token(Phrase, v)])
  {
    assert Lex("") == Success([]);
    PhraseStep(v, "", []);
    assert "\"" + BackslashEscape(v) + "\"" + "" == "\"" + BackslashEscape(v) + "\"";
    assert [Token(Phrase, v)] + [] == [Token(Phrase, v)];
  }

  // The shapes.

  /** Two words side by side are two word tokens. */
  lemma LexImplicitAnd(left: string, right: string)
    requires PlainWord(left) && PlainWord(right)
    ensures Lex(left + " " + right) == Success([Token(Word, left), Token(Word, right)])
  {
    WordAlone(right);
    SpaceStep(right, [Token(Word, right)]);
    WordStep(left, " " + right, [Token(Word, right)]);
    assert left + " " + right == left + (" " + right);
    assert [Token(Word, left)] + [Token(Word, right)] == [Token(Word, left), Token(Word, right)];
  }

  lemma ExplicitAndShape(left: string, right: string)
    ensures left + " AND " + right == left + " " + "AND" + " " + right
  {
  }

  /** An upper-case `AND` between two words is an AND token. */
  lemma LexExplicitAnd(left: string, right: string)
    requires PlainWord(left) && PlainWord(right)
    ensures Lex(left + " AND " + right) == Success([Token(Word, left), Token(And, "AND"), Token(Word, right)])
  {
    WordAlone(right);
    WordOperatorStep(left, Token(And, "AND"), right, [Token(Word, right)]);
    ExplicitAndShape(left, right);
    assert [Token(Word, left), Token(And, "AND")] + [Token(Word, right)] == [Token(Word, left), Token(And, "AND"), Token(Word, right)];
  }

  /** Two `NOT`s in a row are two NOT tokens. */
  lemma LexDoubleNot(word: string)
    requires PlainWord(word)
    ensures Lex("NOT NOT " + word) == Success([Token(Not, "NOT"), Token(Not, "NOT"), Token(Word, word)])
  {
    var t2 := [Token(Word, word)];
    WordAlone(word);
    var s1 := "NOT" + " " + word;
    var t1 := [Token(Not, "NOT")] + t2;
    OperatorStep(Token(Not, "NOT"), word, t2);
    OperatorStep(Token(Not, "NOT"), s1, t1);
    assert "NOT NOT " + word == "NOT" + " " + s1;
    assert [Token(Not, "NOT")] + t1 == [Token(Not, "NOT"), Token(Not, "NOT"), Token(Word, word)];
  }

  lemma OrAndShape(a: string, b: string, c: string)
    ensures a + " OR " + b + " AND " + c == a + " OR " + (b + " AND " + c)
  {
  }

  /** Operators keep their order in the token list; precedence is left to the parser. */
  lemma LexOrAnd(a: string, b: string, c: string)
    requires PlainWord(a) && PlainWord(b) && PlainWord(c)
    ensures Lex(a + " OR " + b + " AND " + c) == Success([Token(Word, a), Token(Or, "OR"), Token(Word, b), Token(And, "AND"), Token(Word, c)])
  {
    OrAndNested(a, b, c);
    OrAndTokens(a, b, c);
    OrAndShape(a, b, c);
  }

  lemma OrAndNested(a: string, b: string, c: string)
    requires PlainWord(a) && PlainWord(b) && PlainWord(c)
    ensures Lex(a + " OR " + (b + " AND " + c)) == Success([Token(Word, a), Token(Or, "OR")] + [Token(Word, b), Token(And, "AND"), Token(Word, c)])
  {
    LexExplicitAnd(b, c);
    OrThen(a, b + " AND " + c, [Token(Word, b), Token(And, "AND"), Token(Word, c)]);
  }

  lemma OrAndTokens(a: string, b: string, c: string)
    ensures [Token(Word, a), Token(Or, "OR")] + [Token(Word, b), Token(And, "AND"), Token(Word, c)]
         == [Token(Word, a), Token(Or, "OR"), Token(Word, b), Token(And, "AND"), Token(Word, c)]
  {
  }

  lemma GroupedShape(a: string, b: string, c: string)
    ensures "(" + a + " OR " + b + ") AND " + c == "(" + a + " OR " + b + (")" + " " + "AND" + " " + c)
  {
  }

  /** Brackets are tokens of their own, with no space needed next to them. */
  lemma LexGrouped(a: string, b: string, c: string)
    requires PlainWord(a) && PlainWord(b) && PlainWord(c)
    ensures Lex("(" + a + " OR " + b + ") AND " + c) == Success([Token(LParen, "("), Token(Word, a), Token(Or, "OR"), Token(Word, b), Token(RParen, ")"), Token(And, "AND"), Token(Word, c)])
  {
    var s1 := ")" + " " + "AND" + " " + c;
    var t1 := [Token(RParen, ")"), Token(And, "AND")] + [Token(Word, c)];
    WordAlone(c);
    CloseOperatorStep(Token(And, "AND"), c, [Token(Word, c)]);
    GroupStep(a, b, s1, t1);
    GroupedShape(a, b, c);
    assert [Token(LParen, "("), Token(Word, a), Token(Or, "OR"), Token(Word, b)] + t1
        == [Token(LParen, "("), Token(Word, a), Token(Or, "OR"), Token(Word, b), Token(RParen, ")"), Token(And, "AND"), Token(Word, c)];
  }

  lemma MagicShape(magic: string, illusion: string, escape: string, tricks: string)
    ensures magic + " AND (" + illusion + " OR " + escape + ") NOT \"" + BackslashEscape(tricks) + "\""
         == magic + " " + "AND" + " " + ("(" + illusion + " OR " + escape + (")" + " " + "NOT" + " " + ("\"" + BackslashEscape(tricks) + "\"")))
  {
  }

  /** The worked example `magic AND (illusion OR escape) NOT "…"`, with its words and its phrase left open. */
  lemma LexMagic(magic: string, illusion: string, escape: string, tricks: string)
    requires PlainWord(magic) && PlainWord(illusion) && PlainWord(escape)
    ensures Lex(magic + " AND (" + illusion + " OR " + escape + ") NOT \"" + BackslashEscape(tricks) + "\"") == Success([Token(Word, magic), Token(And, "AND"), Token(LParen, "("), Token(Word, illusion), Token(Or, "OR"), Token(Word, escape), Token(RParen, ")"), Token(Not, "NOT"), Token(Phrase, tricks)])
  {
    MagicNested(magic, illusion, escape, tricks);
    MagicTokens(magic, illusion, escape, tricks);
    MagicShape(magic, illusion, escape, tricks);
  }

  lemma MagicNested(magic: string, illusion: string, escape: string, tricks: string)
    requires PlainWord(magic) && PlainWord(illusion) && PlainWord(escape)
    ensures Lex(magic + " " + "AND" + " " + ("(" + illusion + " OR " + escape + (")" + " " + "NOT" + " " + ("\"" + BackslashEscape(tricks) + "\""))))
         == Success([Token(Word, magic), Token(And, "AND")] + ([Token(LParen, "("), Token(Word, illusion), Token(Or, "OR"), Token(Word, escape)] + ([Token(RParen, ")"), Token(Not, "NOT")] + [Token(Phrase, tricks)])))
  {
    var s3 := "\"" + BackslashEscape(tricks) + "\"";
    var t3 := [Token(Phrase, tricks)];
    PhraseAlone(tricks);
    var s2 := ")" + " " + "NOT" + " " + s3;
    var t2 := [Token(RParen, ")"), Token(Not, "NOT")] + t3;
    CloseOperatorStep(Token(Not, "NOT"), s3, t3);
    var s1 := "(" + illusion + " OR " + escape + s2;
    var t1 := [Token(LParen, "("), Token(Word, illusion), Token(Or, "OR"), Token(Word, escape)] + t2;
    GroupStep(illusion, escape, s2, t2);
    WordOperatorStep(magic, Token(And, "AND"), s1, t1);
  }

  lemma MagicTokens(magic: string, illusion: string, escape: string, tricks: string)
    ensures [Token(Word, magic), Token(And, "AND")] + ([Token(LParen, "("), Token(Word, illusion), Token(Or, "OR"), Token(Word, escape)] + ([Token(RParen, ")"), Token(Not, "NOT")] + [Token(Phrase, tricks)]))
         == [Token(Word, magic), Token(And, "AND"), Token(LParen, "("), Token(Word, illusion), Token(Or, "OR"), Token(Word, escape), Token(RParen, ")"), Token(Not, "NOT"), Token(Phrase, tricks)]
  {
  }
}
