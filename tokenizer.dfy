/**
  The lexer of the boolean query language (`_tokenize` in query_parser.py).

  `Lex` states the tokenizer as a recursive function over the unread suffix of the input;
  `Tokenize` is the source's index-advancing loop, proved to compute `Lex`.
 */
module Tokenizer {
  import opened Wrappers
  import opened Strings

  datatype Kind = Word | Phrase | And | Or | Not | LParen | RParen

  /** One lexical unit of a query: its kind and the text it carries. */
  datatype Token = Token(kind: Kind, value: string)

  /** The reasons a text query is rejected (`QueryParseError`), one per message the source raises. */
  datatype QueryParseError =
    | UnterminatedPhrase
    | EmptyQuery
    | UnexpectedToken(value: string)
    | UnexpectedEnd
    | MissingClosingParenthesis

  function Message(e: QueryParseError): string {
    match e
    case UnterminatedPhrase => "Unterminated quoted phrase"
    case EmptyQuery => "Query is empty"
    case UnexpectedToken(v) => "Unexpected token '" + v + "'"
    case UnexpectedEnd => "Unexpected end of query"
    case MissingClosingParenthesis => "Missing closing parenthesis"
  }

  /** The characters a bare word is made of. */
  predicate IsWordChar(c: char) {
    !IsSpace(c) && c != '(' && c != ')' && c != '"' && c != '!'
  }

  /** The length of the bare word at the start of `s`. */
  function WordLength(s: string): (n: nat)
    ensures n <= |s|
    ensures forall k :: 0 <= k < n ==> IsWordChar(s[k])
    ensures n < |s| ==> !IsWordChar(s[n])
    decreases |s|
  {
    if s != [] && IsWordChar(s[0]) then 1 + WordLength(s[1..]) else 0
  }

  /** Words that the tokenizer reads as operators, whatever their letter case. */
  predicate IsKeyword(w: string) {
    var u := Upper(w);
    u == "AND" || u == "&&" || u == "OR" || u == "||" || u == "NOT"
  }

  /** The token a bare word becomes. */
  function Classify(w: string): (t: Token)
    ensures t.kind == Word <==> !IsKeyword(w)
    ensures t.kind == Word ==> t.value == w
    ensures t.kind == And <==> Upper(w) == "AND" || Upper(w) == "&&"
    ensures t.kind == Or <==> Upper(w) == "OR" || Upper(w) == "||"
    ensures t.kind == Not <==> Upper(w) == "NOT"
    ensures t.kind != Word ==> t == Token(t.kind, if t.kind == And then "AND" else if t.kind == Or then "OR" else "NOT")
  {
    var u := Upper(w);
    if u == "AND" || u == "&&" then Token(And, "AND")
    else if u == "OR" || u == "||" then Token(Or, "OR")
    else if u == "NOT" then Token(Not, "NOT")
    else Token(Word, w)
  }

  /** Operators are recognised in any letter case: a word is classified as its upper-case form is. */
  lemma ClassifyIgnoresCase(w: string)
    ensures Classify(w).kind == Classify(Upper(w)).kind
    ensures Classify(w).kind != Word ==> Classify(w) == Classify(Upper(w))
  {
    assert Upper(Upper(w)) == Upper(w);
  }

  /** A quoted phrase read up to its closing quote: its unescaped value and how many characters were consumed, closing quote included. */
  datatype PhraseScan = PhraseScan(value: string, used: nat)

  function Extend(prefix: string, n: nat, r: Option<PhraseScan>): Option<PhraseScan> {
    match r
    case None => None
    case Some(p) => Some(PhraseScan(prefix + p.value, n + p.used))
  }

  /** Reads the inside of a phrase; `escaped` says the previous character was a backslash. */
  function ScanPhrase(s: string, escaped: bool): (r: Option<PhraseScan>)
    ensures r.Some? ==> 1 <= r.value.used <= |s|
    decreases |s|
  {
    if s == [] then None
    else if escaped then Extend([s[0]], 1, ScanPhrase(s[1..], false))
    else if s[0] == '\\' then Extend([], 1, ScanPhrase(s[1..], true))
    else if s[0] == '"' then Some(PhraseScan([], 1))
    else Extend([s[0]], 1, ScanPhrase(s[1..], false))
  }

  function Prepend(ts: seq<Token>, r: Result<seq<Token>, QueryParseError>): Result<seq<Token>, QueryParseError> {
    match r
    case Success(rest) => Success(ts + rest)
    case Failure(e) => Failure(e)
  }

  /** A successful `Prepend` prepends to a successful result. */
  lemma PrependSuccess(ts: seq<Token>, r: Result<seq<Token>, QueryParseError>)
    requires Prepend(ts, r).Success?
    ensures r.Success? && Prepend(ts, r).value == ts + r.value
  {
  }

  /** The tokens of `s`, read left to right. */
  function Lex(s: string): Result<seq<Token>, QueryParseError>
    decreases |s|
  {
    if s == [] then Success([])
    else if IsSpace(s[0]) then Lex(s[1..])
    else if s[0] == '"' then
      match ScanPhrase(s[1..], false)
      case None => Failure(UnterminatedPhrase)
      case Some(p) => Prepend([Token(Phrase, p.value)], Lex(s[1 + p.used..]))
    else if s[0] == '(' then Prepend([Token(LParen, "(")], Lex(s[1..]))
    else if s[0] == ')' then Prepend([Token(RParen, ")")], Lex(s[1..]))
    else if s[0] == '!' then Prepend([Token(Not, "NOT")], Lex(s[1..]))
    else
      var n := WordLength(s);
      Prepend([Classify(s[..n])], Lex(s[n..]))
  }

  lemma PrependAssoc(a: seq<Token>, b: seq<Token>, r: Result<seq<Token>, QueryParseError>)
    ensures Prepend(a, Prepend(b, r)) == Prepend(a + b, r)
  {
    if r.Success? {
      AppendAssoc(a, b, r.value);
    }
  }

  lemma PrependNil(r: Result<seq<Token>, QueryParseError>)
    ensures Prepend([], r) == r
  {
    if r.Success? {
      AppendEmpty(r.value);
    }
  }

  lemma ExtendNil(r: Option<PhraseScan>)
    ensures Extend([], 0, r) == r
  {
    if r.Some? {
      AppendEmpty(r.value.value);
    }
  }

  lemma ExtendAssoc(a: string, m: nat, b: string, n: nat, r: Option<PhraseScan>)
    ensures Extend(a, m, Extend(b, n, r)) == Extend(a + b, m + n, r)
  {
    if r.Some? {
      AppendAssoc(a, b, r.value.value);
    }
  }

  /** How `Lex` reads an input that opens with a phrase that closes. */
  lemma LexPhraseStep(s: string)
    requires s != [] && s[0] == '"' && ScanPhrase(s[1..], false).Some?
    ensures var p := ScanPhrase(s[1..], false).value;
      Lex(s) == Prepend([Token(Phrase, p.value)], Lex(s[1 + p.used..]))
  {
  }

  /** `Lex` skips a space at position `i`. */
  lemma LexAtSpace(expr: string, i: nat)
    requires i < |expr| && IsSpace(expr[i])
    ensures Lex(expr[i..]) == Lex(expr[i + 1..])
  {
    DropDrop(expr, i, 1);
  }

  /** `Lex` reads the phrase opening at position `i` and closing just before `end`. */
  lemma LexAtPhrase(expr: string, i: nat, value: string, end: nat)
    requires i < |expr| && expr[i] == '"' && i + 1 <= end <= |expr|
    requires ScanPhrase(expr[i + 1..], false) == Some(PhraseScan(value, end - (i + 1)))
    ensures Lex(expr[i..]) == Prepend([Token(Phrase, value)], Lex(expr[end..]))
  {
    var s := expr[i..];
    calc {
      Lex(s);
      == { DropDrop(expr, i, 1); LexPhraseStep(s); }
      Prepend([Token(Phrase, value)], Lex(s[1 + (end - (i + 1))..]));
      == { DropDrop(expr, i, end - i); }
      Prepend([Token(Phrase, value)], Lex(expr[end..]));
    }
  }

  /** `Lex` fails on a phrase opening at position `i` that never closes. */
  lemma LexAtOpenPhrase(expr: string, i: nat)
    requires i < |expr| && expr[i] == '"' && ScanPhrase(expr[i + 1..], false).None?
    ensures Lex(expr[i..]) == Failure(UnterminatedPhrase)
  {
    DropDrop(expr, i, 1);
  }

  /** `Lex` reads a bracket or `!` at position `i` as a token of its own. */
  lemma LexAtSymbol(expr: string, i: nat)
    requires i < |expr| && (expr[i] == '(' || expr[i] == ')' || expr[i] == '!')
    ensures expr[i] == '(' ==> Lex(expr[i..]) == Prepend([Token(LParen, "(")], Lex(expr[i + 1..]))
    ensures expr[i] == ')' ==> Lex(expr[i..]) == Prepend([Token(RParen, ")")], Lex(expr[i + 1..]))
    ensures expr[i] == '!' ==> Lex(expr[i..]) == Prepend([Token(Not, "NOT")], Lex(expr[i + 1..]))
  {
    DropDrop(expr, i, 1);
  }

  /** `Lex` reads the bare word from position `i` to `next` as one token. */
  lemma LexAtWord(expr: string, i: nat, next: nat)
    requires i < |expr| && IsWordChar(expr[i]) && next == i + WordLength(expr[i..])
    ensures Lex(expr[i..]) == Prepend([Classify(expr[i..next])], Lex(expr[next..]))
  {
    var n := WordLength(expr[i..]);
    TakeDrop(expr, i, n);
    DropDrop(expr, i, n);
  }

  method ReadPhrase(expr: string, begin: nat) returns (value: string, next: nat, closed: bool)
    requires begin <= |expr|
    ensures closed <==> ScanPhrase(expr[begin..], false).Some?
    ensures closed ==> begin <= next <= |expr| && ScanPhrase(expr[begin..], false) == Some(PhraseScan(value, next - begin))
  {
    var i := begin;
    var length := |expr|;
    var buf: string := [];
    var escaped := false;
    closed := false;
    ExtendNil(ScanPhrase(expr[i..], false));
    while i < length && !closed
      invariant begin <= i <= length
      invariant closed ==> ScanPhrase(expr[begin..], false) == Some(PhraseScan(buf, i - begin))
      invariant !closed ==> ScanPhrase(expr[begin..], false) == Extend(buf, i - begin, ScanPhrase(expr[i..], escaped))
      decreases length - i, if closed then 0 else 1
    {
      var curr := expr[i];
      ghost var before := i;
      assert expr[before + 1..] == expr[before..][1..];
      i := i + 1;
      if escaped {
        ExtendAssoc(buf, before - begin, [curr], 1, ScanPhrase(expr[i..], false));
        buf := buf + [curr];
        escaped := false;
      } else if curr == '\\' {
        ExtendAssoc(buf, before - begin, [], 1, ScanPhrase(expr[i..], true));
        assert buf + [] == buf;
        escaped := true;
      } else if curr == '"' {
        assert buf + [] == buf;
        closed := true;
      } else {
        ExtendAssoc(buf, before - begin, [curr], 1, ScanPhrase(expr[i..], false));
        buf := buf + [curr];
      }
    }
    value, next := buf, i;
  }

  /** The word-reading loop nested in `_tokenize`: the index just past the bare word starting at `start`. */
  method ReadWord(expr: string, start: nat) returns (i: nat)
    requires start <= |expr|
    ensures i == start + WordLength(expr[start..]) && i <= |expr|
  {
    i := start;
    while i < |expr| && IsWordChar(expr[i])
      invariant start <= i <= |expr|
      invariant forall k :: start <= k < i ==> IsWordChar(expr[k])
      decreases |expr| - i
    {
      i := i + 1;
    }
    assert WordLength(expr[start..]) == i - start;
  }

  /** `_tokenize`: the source's scanning loop. */
  method Tokenize(expr: string) returns (r: Result<seq<Token>, QueryParseError>)
    ensures r == Lex(expr)
  {
    var tokens: seq<Token> := [];
    var i := 0;
    var length := |expr|;
    assert expr[0..] == expr;
    PrependNil(Lex(expr));
    while i < length
      invariant 0 <= i <= length
      invariant Lex(expr) == Prepend(tokens, Lex(expr[i..]))
      decreases length - i
    {
      var ch := expr[i];
      if IsSpace(ch) {
        LexAtSpace(expr, i);
        i := i + 1;
        continue;
      }
      var t: Token;
      var next: nat;
      if ch == '"' {
        var value, end, closed := ReadPhrase(expr, i + 1);
        if !closed {
          LexAtOpenPhrase(expr, i);
          return Failure(UnterminatedPhrase);
        }
        t, next := Token(Phrase, value), end;
        LexAtPhrase(expr, i, value, end);
      } else if ch == '(' || ch == ')' {
        t := if ch == '(' then Token(LParen, "(") else Token(RParen, ")");
        next := i + 1;
        LexAtSymbol(expr, i);
      } else if ch == '!' {
        t, next := Token(Not, "NOT"), i + 1;
        LexAtSymbol(expr, i);
      } else {
        next := ReadWord(expr, i);
        t := Classify(expr[i..next]);
        LexAtWord(expr, i, next);
      }
      PrependAssoc(tokens, [t], Lex(expr[next..]));
      tokens := tokens + [t];
      i := next;
    }
    assert expr[i..] == [];
    AppendEmpty(tokens);
    return Success(tokens);
  }

  // ---------------------------------------------------------------------------
  // When tokenizing fails: an independent account of where phrases open and close.

  /** Where a left-to-right reader stands with respect to double-quoted phrases. */
  datatype QuoteState = Outside | Inside | InsideEscaped

  function QuoteStep(q: QuoteState, c: char): QuoteState {
    match q
    case Outside => if c == '"' then Inside else Outside
    case Inside => if c == '\\' then InsideEscaped else if c == '"' then Outside else Inside
    case InsideEscaped => Inside
  }

  function QuoteRun(s: string, q: QuoteState): QuoteState
    decreases |s|
  {
    if s == [] then q else QuoteRun(s[1..], QuoteStep(q, s[0]))
  }

  lemma {:induction false} QuoteRunSkips(s: string, n: nat)
    requires n <= |s|
    requires forall k :: 0 <= k < n ==> s[k] != '"'
    ensures QuoteRun(s, Outside) == QuoteRun(s[n..], Outside)
  {
    if n > 0 {
      QuoteRunSkips(s[1..], n - 1);
      assert s[1..][n - 1..] == s[n..];
    }
  }

  lemma {:induction false} ScanPhraseQuoteRun(s: string, escaped: bool)
    ensures var q := if escaped then InsideEscaped else Inside;
            match ScanPhrase(s, escaped)
            case None => QuoteRun(s, q) != Outside
            case Some(p) => QuoteRun(s, q) == QuoteRun(s[p.used..], Outside)
  {
    if s != [] {
      if escaped {
        ScanPhraseQuoteRun(s[1..], false);
        if ScanPhrase(s[1..], false).Some? {
          var p := ScanPhrase(s[1..], false).value;
          assert s[1..][p.used..] == s[1 + p.used..];
        }
      } else if s[0] == '\\' {
        ScanPhraseQuoteRun(s[1..], true);
        if ScanPhrase(s[1..], true).Some? {
          var p := ScanPhrase(s[1..], true).value;
          assert s[1..][p.used..] == s[1 + p.used..];
        }
      } else if s[0] == '"' {
      } else {
        ScanPhraseQuoteRun(s[1..], false);
        if ScanPhrase(s[1..], false).Some? {
          var p := ScanPhrase(s[1..], false).value;
          assert s[1..][p.used..] == s[1 + p.used..];
        }
      }
    }
  }

  /** Tokenizing fails exactly when the input ends inside a phrase, and then only for that reason. */
  lemma {:induction false} LexFailsIffPhraseOpen(s: string)
    ensures Lex(s).Failure? <==> QuoteRun(s, Outside) != Outside
    ensures Lex(s).Failure? ==> Lex(s).error == UnterminatedPhrase
    decreases |s|
  {
    if s == [] {
    } else if IsSpace(s[0]) || s[0] == '(' || s[0] == ')' || s[0] == '!' {
      LexFailsIffPhraseOpen(s[1..]);
    } else if s[0] == '"' {
      ScanPhraseQuoteRun(s[1..], false);
      match ScanPhrase(s[1..], false)
      case None =>
      case Some(p) =>
        assert s[1..][p.used..] == s[1 + p.used..];
        LexFailsIffPhraseOpen(s[1 + p.used..]);
    } else {
      var n := WordLength(s);
      QuoteRunSkips(s, n);
      LexFailsIffPhraseOpen(s[n..]);
    }
  }

  // ---------------------------------------------------------------------------
  // What the tokens look like.

  /** The tokens the tokenizer produces, each with the text it gives them. */
  predicate Canonical(t: Token) {
    match t.kind
    case Word => t.value != [] && (forall k :: 0 <= k < |t.value| ==> IsWordChar(t.value[k])) && !IsKeyword(t.value)
    case Phrase => true
    case And => t.value == "AND"
    case Or => t.value == "OR"
    case Not => t.value == "NOT"
    case LParen => t.value == "("
    case RParen => t.value == ")"
  }

  predicate AllCanonical(ts: seq<Token>) {
    forall k :: 0 <= k < |ts| ==> Canonical(ts[k])
  }

  /** A canonical token in front of canonical tokens. */
  lemma PrependCanonical(t: Token, r: Result<seq<Token>, QueryParseError>)
    requires Canonical(t) && r.Success? && AllCanonical(r.value)
    ensures Prepend([t], r).Success? && AllCanonical(Prepend([t], r).value)
  {
    var ts := [t] + r.value;
    forall k | 0 <= k < |ts|
      ensures Canonical(ts[k])
    {
      if k > 0 {
        assert ts[k] == r.value[k - 1];
      }
    }
  }

  /** Words are non-empty runs of word characters that are not operators; operators and brackets carry fixed text. */
  lemma {:induction false} LexCanonical(s: string)
    requires Lex(s).Success?
    ensures AllCanonical(Lex(s).value)
    decreases |s|
  {
    if s == [] {
    } else if IsSpace(s[0]) {
      LexCanonical(s[1..]);
    } else if s[0] == '"' {
      var p := ScanPhrase(s[1..], false).value;
      LexPhraseStep(s);
      LexCanonical(s[1 + p.used..]);
      PrependCanonical(Token(Phrase, p.value), Lex(s[1 + p.used..]));
    } else if s[0] == '(' || s[0] == ')' || s[0] == '!' {
      var t := if s[0] == '(' then Token(LParen, "(") else if s[0] == ')' then Token(RParen, ")") else Token(Not, "NOT");
      assert Lex(s) == Prepend([t], Lex(s[1..]));
      LexCanonical(s[1..]);
      PrependCanonical(t, Lex(s[1..]));
    } else {
      var n := WordLength(s);
      var w := s[..n];
      assert Lex(s) == Prepend([Classify(w)], Lex(s[n..]));
      LexCanonical(s[n..]);
      assert forall k :: 0 <= k < |w| ==> IsWordChar(w[k]);
      PrependCanonical(Classify(w), Lex(s[n..]));
    }
  }

  // ---------------------------------------------------------------------------
  // Tokenizing is the inverse of writing the tokens back out.

  /** Writes a token back as query text; a phrase is quoted with its backslashes and quotes escaped. */
  function RenderToken(t: Token): string {
    if t.kind == Phrase then "\"" + BackslashEscape(t.value) + "\"" else t.value
  }

  /** Writes tokens back as query text, each followed by a space. */
  function Render(ts: seq<Token>): string
    decreases |ts|
  {
    if ts == [] then "" else RenderToken(ts[0]) + " " + Render(ts[1..])
  }

  /** Reading an ordinary character inside a phrase. */
  lemma ScanPlainChar(c: char, rest: string)
    requires c != '\\' && c != '"'
    ensures ScanPhrase([c] + rest, false) == Extend([c], 1, ScanPhrase(rest, false))
  {
    DropAppend([c], rest, 1);
    assert [c][1..] == [];
    AppendEmpty(rest);
  }

  /** Reading a backslash and the character it escapes inside a phrase. */
  lemma ScanEscapePair(c: char, rest: string)
    ensures ScanPhrase(['\\', c] + rest, false) == Extend([c], 2, ScanPhrase(rest, false))
  {
    var s := ['\\', c] + rest;
    DropAppend(['\\', c], rest, 1);
    assert ['\\', c][1..] == [c];
    DropAppend([c], rest, 1);
    assert [c][1..] == [];
    AppendEmpty(rest);
    assert s[1..][1..] == rest;
    if ScanPhrase(rest, false).Some? {
      AppendEmpty([c] + ScanPhrase(rest, false).value.value);
    }
  }

  /** An escaped value inside a phrase reads back as itself, followed by whatever comes after it. */
  lemma {:induction false} ScanEscapedPrefix(v: string, t: string)
    ensures ScanPhrase(BackslashEscape(v) + t, false) == Extend(v, |BackslashEscape(v)|, ScanPhrase(t, false))
    decreases |v|
  {
    if v == [] {
      AppendEmpty(t);
      ExtendNil(ScanPhrase(t, false));
    } else {
      var e := BackslashEscape(v[1..]);
      var x: string := if v[0] == '\\' || v[0] == '"' then ['\\', v[0]] else [v[0]];
      var r := ScanPhrase(t, false);
      calc {
        ScanPhrase(BackslashEscape(v) + t, false);
        == { assert BackslashEscape(v) == x + e; AppendAssoc(x, e, t); }
        ScanPhrase(x + (e + t), false);
        == { if v[0] == '\\' || v[0] == '"' { ScanEscapePair(v[0], e + t); } else { ScanPlainChar(v[0], e + t); } }
        Extend([v[0]], |x|, ScanPhrase(e + t, false));
        == { ScanEscapedPrefix(v[1..], t); }
        Extend([v[0]], |x|, Extend(v[1..], |e|, r));
        == { ExtendAssoc([v[0]], |x|, v[1..], |e|, r); }
        Extend([v[0]] + v[1..], |x| + |e|, r);
        == { HeadTail(v); assert BackslashEscape(v) == x + e; }
        Extend(v, |BackslashEscape(v)|, r);
      }
    }
  }

  /** A phrase written with `BackslashEscape` reads back as the same value, ending right after its closing quote. */
  lemma ScanEscaped(v: string, tail: string)
    ensures ScanPhrase(BackslashEscape(v) + "\"" + tail, false) == Some(PhraseScan(v, |BackslashEscape(v)| + 1))
  {
    var t := "\"" + tail;
    AppendAssoc(BackslashEscape(v), "\"", tail);
    ScanEscapedPrefix(v, t);
    assert ScanPhrase(t, false) == Some(PhraseScan([], 1));
    AppendEmpty(v);
  }

  lemma UpperFixed(w: string)
    requires w == "AND" || w == "OR" || w == "NOT"
    ensures Upper(w) == w
  {
  }

  /** Whitespace in front of the input is skipped. */
  lemma LexSpaceThen(c: char, tail: string)
    requires IsSpace(c)
    ensures Lex([c] + tail) == Lex(tail)
  {
    assert ([c] + tail)[1..] == tail;
  }

  /** A bracket or `!` in front of the input is a token of its own. */
  lemma LexSymbolThen(c: char, tail: string)
    requires c == '(' || c == ')' || c == '!'
    ensures Lex([c] + tail) == Prepend([if c == '(' then Token(LParen, "(") else if c == ')' then Token(RParen, ")") else Token(Not, "NOT")], Lex(tail))
  {
    assert ([c] + tail)[1..] == tail;
  }

  /** A bare word in front of the input ends where the word characters end. */
  lemma LexWordThen(w: string, tail: string)
    requires w != [] && forall k :: 0 <= k < |w| ==> IsWordChar(w[k])
    requires tail == [] || !IsWordChar(tail[0])
    ensures Lex(w + tail) == Prepend([Classify(w)], Lex(tail))
  {
    var s := w + tail;
    assert s[0] == w[0];
    WordLengthOfWord(w, tail);
    assert s[..|w|] == w;
    assert s[|w|..] == tail;
  }

  lemma {:induction false} WordLengthOfWord(w: string, tail: string)
    requires forall k :: 0 <= k < |w| ==> IsWordChar(w[k])
    requires tail == [] || !IsWordChar(tail[0])
    ensures WordLength(w + tail) == |w|
    decreases |w|
  {
    if w == [] {
      assert w + tail == tail;
    } else {
      WordLengthOfWord(w[1..], tail);
      assert (w + tail)[0] == w[0];
      assert (w + tail)[1..] == w[1..] + tail;
    }
  }

  /** A phrase written with `BackslashEscape` in front of the input reads back as its value. */
  lemma LexPhraseThen(v: string, tail: string)
    ensures Lex("\"" + BackslashEscape(v) + "\"" + tail) == Prepend([Token(Phrase, v)], Lex(tail))
  {
    var e := BackslashEscape(v);
    var s := "\"" + e + "\"" + tail;
    assert s[1..] == e + "\"" + tail;
    ScanEscaped(v, tail);
    assert s[1 + (|e| + 1)..] == tail;
  }

  lemma LexRenderPhrase(t: Token, tail: string)
    requires t.kind == Phrase
    ensures Lex(RenderToken(t) + " " + tail) == Prepend([t], Lex(tail))
  {
    assert RenderToken(t) + " " + tail == "\"" + BackslashEscape(t.value) + "\"" + (" " + tail);
    LexPhraseThen(t.value, " " + tail);
    LexSpaceThen(' ', tail);
  }

  lemma LexRenderBracket(t: Token, tail: string)
    requires t == Token(LParen, "(") || t == Token(RParen, ")")
    ensures Lex(RenderToken(t) + " " + tail) == Prepend([t], Lex(tail))
  {
    assert RenderToken(t) + " " + tail == [t.value[0]] + (" " + tail);
    LexSymbolThen(t.value[0], " " + tail);
    LexSpaceThen(' ', tail);
  }

  lemma LexRenderWord(t: Token, tail: string)
    requires Canonical(t) && t.kind in {Word, And, Or, Not}
    ensures Lex(RenderToken(t) + " " + tail) == Prepend([t], Lex(tail))
  {
    var w := t.value;
    if t.kind != Word {
      UpperFixed(w);
    }
    assert Classify(w) == t;
    assert forall k :: 0 <= k < |w| ==> IsWordChar(w[k]);
    assert RenderToken(t) + " " + tail == w + (" " + tail);
    LexWordThen(w, " " + tail);
    LexSpaceThen(' ', tail);
  }

  /** One canonical token, written out and followed by a space, reads back as itself. */
  lemma LexRenderToken(t: Token, tail: string)
    requires Canonical(t)
    ensures Lex(RenderToken(t) + " " + tail) == Prepend([t], Lex(tail))
  {
    if t.kind == Phrase {
      LexRenderPhrase(t, tail);
    } else if t.kind == LParen || t.kind == RParen {
      LexRenderBracket(t, tail);
    } else {
      LexRenderWord(t, tail);
    }
  }

  /** Every sequence of canonical tokens is what the tokenizer reads from its rendering. */
  lemma {:induction false} LexRender(ts: seq<Token>)
    requires AllCanonical(ts)
    ensures Lex(Render(ts)) == Success(ts)
    decreases |ts|
  {
    if ts != [] {
      calc {
        Lex(Render(ts));
        == { LexRenderToken(ts[0], Render(ts[1..])); }
        Prepend([ts[0]], Lex(Render(ts[1..])));
        == { LexRender(ts[1..]); }
        Prepend([ts[0]], Success(ts[1..]));
        == { HeadTail(ts); }
        Success(ts);
      }
    }
  }

  /** A phrase body with no quote and no backslash never closes. */
  lemma {:induction false} ScanPhraseOpen(s: string)
    requires Lacks(s, '"') && Lacks(s, '\\')
    ensures ScanPhrase(s, false) == None
    decreases |s|
  {
    if s != [] {
      ScanPhraseOpen(s[1..]);
    }
  }

  // ---------------------------------------------------------------------------
  // Tokenizing is compositional at token boundaries.

  /** A phrase that closes inside `s` closes at the same place whatever follows `s`. */
  lemma {:induction false} ScanPhraseAppend(s: string, t: string, escaped: bool)
    requires ScanPhrase(s, escaped).Some?
    ensures ScanPhrase(s + t, escaped) == ScanPhrase(s, escaped)
    decreases |s|
  {
    assert (s + t)[0] == s[0];
    if escaped || s[0] != '"' {
      assert (s + t)[1..] == s[1..] + t;
      ScanPhraseAppend(s[1..], t, !escaped && s[0] == '\\');
    }
  }

  /** A bare word that ends inside `a` ends at the same place whatever follows `a`. */
  lemma {:induction false} WordLengthAppend(a: string, b: string)
    requires WordLength(a) < |a|
    ensures WordLength(a + b) == WordLength(a)
    decreases |a|
  {
    assert (a + b)[0] == a[0];
    if IsWordChar(a[0]) {
      assert (a + b)[1..] == a[1..] + b;
      WordLengthAppend(a[1..], b);
    }
  }

  /** The seam between `a` and `b` does not fall inside a bare word. */
  predicate Seam(a: string, b: string) {
    a == [] || b == [] || !IsWordChar(a[|a| - 1]) || !IsWordChar(b[0])
  }

  /** Two texts whose seam does not fall inside a bare word tokenize separately: the tokens of `a + b` are those of `a` followed by those of `b`. */
  lemma {:induction false} LexAppend(a: string, b: string)
    requires Lex(a).Success? && Seam(a, b)
    ensures Lex(a + b) == Prepend(Lex(a).value, Lex(b))
    decreases |a|, 1
  {
    if a == [] {
      assert a + b == b;
      PrependNil(Lex(b));
    } else if IsSpace(a[0]) {
      LexAppendSpace(a, b);
    } else if a[0] == '"' {
      LexAppendPhrase(a, b);
    } else if a[0] == '(' || a[0] == ')' || a[0] == '!' {
      LexAppendSymbol(a, b);
    } else {
      LexAppendWord(a, b);
    }
  }

  lemma {:induction false} LexAppendSpace(a: string, b: string)
    requires a != [] && IsSpace(a[0]) && Lex(a).Success? && Seam(a, b)
    ensures Lex(a + b) == Prepend(Lex(a).value, Lex(b))
    decreases |a|, 0
  {
    var s := a + b;
    assert s[0] == a[0];
    assert s[1..] == a[1..] + b;
    LexAppend(a[1..], b);
  }

  lemma {:induction false} LexAppendPhrase(a: string, b: string)
    requires a != [] && a[0] == '"' && Lex(a).Success? && Seam(a, b)
    ensures Lex(a + b) == Prepend(Lex(a).value, Lex(b))
    decreases |a|, 0
  {
    var p := ScanPhrase(a[1..], false).value;
    var t := Token(Phrase, p.value);
    var c := a[1 + p.used..];
    LexPhraseStep(a);
    PrependSuccess([t], Lex(c));
    assert Seam(c, b) by {
      if c != [] {
        assert c[|c| - 1] == a[|a| - 1];
      }
    }
    assert ScanPhrase((a + b)[1..], false) == Some(p) by {
      DropAppend(a, b, 1);
      ScanPhraseAppend(a[1..], b, false);
    }
    assert (a + b)[1 + p.used..] == c + b by {
      DropAppend(a, b, 1 + p.used);
    }
    LexPhraseStep(a + b);
    LexAppend(c, b);
    PrependAssoc([t], Lex(c).value, Lex(b));
  }

  lemma {:induction false} LexAppendSymbol(a: string, b: string)
    requires a != [] && (a[0] == '(' || a[0] == ')' || a[0] == '!') && Lex(a).Success? && Seam(a, b)
    ensures Lex(a + b) == Prepend(Lex(a).value, Lex(b))
    decreases |a|, 0
  {
    var s := a + b;
    assert s[0] == a[0];
    assert s[1..] == a[1..] + b;
    var t := if a[0] == '(' then Token(LParen, "(") else if a[0] == ')' then Token(RParen, ")") else Token(Not, "NOT");
    assert Lex(a) == Prepend([t], Lex(a[1..]));
    LexAppend(a[1..], b);
    PrependAssoc([t], Lex(a[1..]).value, Lex(b));
  }

  lemma {:induction false} LexAppendWord(a: string, b: string)
    requires a != [] && IsWordChar(a[0]) && Lex(a).Success? && Seam(a, b)
    ensures Lex(a + b) == Prepend(Lex(a).value, Lex(b))
    decreases |a|, 0
  {
    var s := a + b;
    assert s[0] == a[0];
    var n := WordLength(a);
    if n < |a| {
      WordLengthAppend(a, b);
    } else {
      assert a[..n] == a;
      WordLengthOfWord(a, b);
    }
    assert s[..n] == a[..n];
    assert s[n..] == a[n..] + b;
    assert Lex(a) == Prepend([Classify(a[..n])], Lex(a[n..]));
    LexAppend(a[n..], b);
    PrependAssoc([Classify(a[..n])], Lex(a[n..]).value, Lex(b));
  }
}
