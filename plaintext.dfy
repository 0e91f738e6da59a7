/**
  The whitespace passes that end `_html_to_plain_text` in client.py. Each regular
  expression substitution is a function that reads its input left to right and replaces
  every leftmost, greedy match, as Python's `re.sub` does.
 */
module PlainText {
  import opened Strings

  /** The characters of the class `[\t\x0b\f]`. */
  const TabLike: set<char> := {'\t', '\U{000B}', '\U{000C}'}

  /** No carriage return, tab, vertical tab or form feed. */
  predicate Clean(s: string) {
    forall i :: 0 <= i < |s| ==> s[i] != '\r' && s[i] !in TabLike
  }

  /** No `a` directly followed by `b`. */
  predicate NoPair(s: string, a: char, b: char) {
    forall i :: 1 <= i < |s| ==> !(s[i - 1] == a && s[i] == b)
  }

  /** No three newlines in a row, that is at most one blank line at a time. */
  predicate NoTriple(s: string) {
    forall i :: 2 <= i < |s| ==> !(s[i - 2] == '\n' && s[i - 1] == '\n' && s[i] == '\n')
  }

  /** What the client promises of its plain text: no CR, tab, VT or FF, no double space, no space next to a newline, no whitespace at either end. */
  predicate IsPlainText(t: string) {
    && Clean(t)
    && NoPair(t, ' ', ' ')
    && NoPair(t, ' ', '\n')
    && NoPair(t, '\n', ' ')
    && (t == [] || (!IsSpace(t[0]) && !IsSpace(t[|t| - 1])))
  }

  /** `re.sub(r'[\t\x0b\f]+', ' ', text)` */
  function TabsToSpaces(s: string): (r: string)
    ensures s != [] ==> r != [] && r[0] == (if s[0] in TabLike then ' ' else s[0])
    decreases |s|
  {
    if s == [] then []
    else if s[0] in TabLike then [' '] + TabsToSpaces(s[Span(s, TabLike)..])
    else [s[0]] + TabsToSpaces(s[1..])
  }

  /** `re.sub(r'\n{3,}', '\n\n', text)` */
  function CollapseNewlines(s: string): (r: string)
    ensures s != [] ==> r != [] && r[0] == s[0]
    decreases |s|
  {
    if s == [] then []
    else if s[0] == '\n' then
      var k := Span(s, {'\n'});
      (if k >= 3 then "\n\n" else s[..k]) + CollapseNewlines(s[k..])
    else [s[0]] + CollapseNewlines(s[1..])
  }

  /** `re.sub(r' +\n', '\n', text)`: a run of spaces is dropped when a newline follows it. */
  function DropSpacesBeforeNewline(s: string): (r: string)
    ensures s != [] ==> r != []
    ensures s != [] && s[0] != ' ' ==> r[0] == s[0]
    decreases |s|
  {
    if s == [] then []
    else if s[0] == ' ' then
      var k := Span(s, {' '});
      (if k < |s| && s[k] == '\n' then [] else s[..k]) + DropSpacesBeforeNewline(s[k..])
    else [s[0]] + DropSpacesBeforeNewline(s[1..])
  }

  /** `re.sub(r'\n +', '\n', text)`: the run of spaces after a newline is dropped. */
  function DropSpacesAfterNewline(s: string): (r: string)
    ensures s != [] ==> r != [] && r[0] == s[0]
    decreases |s|
  {
    if s == [] then []
    else if s[0] == '\n' then ['\n'] + DropSpacesAfterNewline(s[1 + Span(s[1..], {' '})..])
    else [s[0]] + DropSpacesAfterNewline(s[1..])
  }

  /** `re.sub(r' {2,}', ' ', text)` */
  function SqueezeSpaces(s: string): (r: string)
    ensures s != [] ==> r != [] && r[0] == s[0]
    decreases |s|
  {
    if s == [] then []
    else if s[0] == ' ' then [' '] + SqueezeSpaces(s[Span(s, {' '})..])
    else [s[0]] + SqueezeSpaces(s[1..])
  }

  /** Lines 463-472 of `_html_to_plain_text` in the order the client runs them. */
  function NormalizeAsWritten(text: string): string {
    Strip(SqueezeSpaces(DropSpacesAfterNewline(DropSpacesBeforeNewline(CollapseNewlines(TabsToSpaces(ReplaceAll(text, "\r", "")))))))
  }

  /** The same passes with the blank-line collapse moved after the space passes, so that lines holding only spaces count as blank. */
  function Normalize(text: string): string {
    Strip(CollapseNewlines(SqueezeSpaces(DropSpacesAfterNewline(DropSpacesBeforeNewline(TabsToSpaces(ReplaceAll(text, "\r", "")))))))
  }

  /**
    `_html_to_plain_text`. Lines 452-462 (break and block tags turned into newlines, every
    other tag removed, `<hr>` restored, HTML entities unescaped) are `markup`.
   */
  function HtmlToPlainText(html: string, markup: string -> string): string {
    NormalizeAsWritten(markup(html))
  }

  /** Whatever the markup steps give, the text has no CR, tab, VT or FF, no double space, no space next to a newline and no whitespace at either end. */
  lemma HtmlToPlainTextIsPlain(html: string, markup: string -> string)
    ensures IsPlainText(HtmlToPlainText(html, markup))
  {
    NormalizeAsWrittenPlain(markup(html));
  }

  /** `_html_to_plain_text` with the blank-line collapse after the space passes. */
  function HtmlToPlainTextCorrected(html: string, markup: string -> string): string {
    Normalize(markup(html))
  }

  /** The corrected conversion keeps every promise of the client's and also never leaves two blank lines in a row. */
  lemma HtmlToPlainTextCorrectedIsPlain(html: string, markup: string -> string)
    ensures IsPlainText(HtmlToPlainTextCorrected(html, markup)) && NoTriple(HtmlToPlainTextCorrected(html, markup))
  {
    NormalizePlain(markup(html));
  }

  /** Converting the corrected conversion's text again changes nothing. */
  lemma HtmlToPlainTextCorrectedSettles(html: string, markup: string -> string)
    ensures Normalize(HtmlToPlainTextCorrected(html, markup)) == HtmlToPlainTextCorrected(html, markup)
  {
    NormalizeIdempotent(markup(html));
  }

  // Facts about slices and concatenations.

  lemma NoPairJoin(x: string, y: string, a: char, b: char)
    requires NoPair(x, a, b) && NoPair(y, a, b)
    requires x == [] || y == [] || !(x[|x| - 1] == a && y[0] == b)
    ensures NoPair(x + y, a, b)
  {
    var s := x + y;
    forall i | 1 <= i < |s|
      ensures !(s[i - 1] == a && s[i] == b)
    {
      if i < |x| {
        assert s[i - 1] == x[i - 1] && s[i] == x[i];
      } else if i > |x| {
        assert s[i - 1] == y[i - 1 - |x|] && s[i] == y[i - |x|];
      }
    }
  }

  lemma SliceKeeps(s: string, i: nat, j: nat)
    requires i <= j <= |s|
    ensures Clean(s) ==> Clean(s[i..j])
    ensures forall a, b :: NoPair(s, a, b) ==> NoPair(s[i..j], a, b)
    ensures NoTriple(s) ==> NoTriple(s[i..j])
  {
    var t := s[i..j];
    forall a, b | NoPair(s, a, b)
      ensures NoPair(t, a, b)
    {
      forall m | 1 <= m < |t|
        ensures !(t[m - 1] == a && t[m] == b)
      {
        assert t[m - 1] == s[i + m - 1] && t[m] == s[i + m];
      }
    }
    if NoTriple(s) {
      forall m | 2 <= m < |t|
        ensures !(t[m - 2] == '\n' && t[m - 1] == '\n' && t[m] == '\n')
      {
        assert t[m - 2] == s[i + m - 2] && t[m - 1] == s[i + m - 1] && t[m] == s[i + m];
      }
    }
  }

  lemma StripKeeps(s: string)
    ensures Clean(s) ==> Clean(Strip(s))
    ensures forall a, b :: NoPair(s, a, b) ==> NoPair(Strip(s), a, b)
    ensures NoTriple(s) ==> NoTriple(Strip(s))
  {
    var t := TrimStart(s);
    var r := TrimEnd(t);
    assert t == s[|s| - |t|..|s|];
    assert r == t[0..|r|];
    SliceKeeps(s, |s| - |t|, |s|);
    SliceKeeps(t, 0, |r|);
  }

  lemma NoTripleCons(c: char, y: string)
    requires c != '\n' && NoTriple(y)
    ensures NoTriple([c] + y)
  {
    var s := [c] + y;
    forall i | 2 <= i < |s|
      ensures !(s[i - 2] == '\n' && s[i - 1] == '\n' && s[i] == '\n')
    {
      if i > 2 {
        assert s[i - 2] == y[i - 3];
      }
    }
  }

  lemma NoTripleRun(x: string, y: string)
    requires |x| <= 2 && NoTriple(y) && (y == [] || y[0] != '\n')
    ensures NoTriple(x + y)
  {
    var s := x + y;
    forall i | 2 <= i < |s|
      ensures !(s[i - 2] == '\n' && s[i - 1] == '\n' && s[i] == '\n')
    {
      if i - 2 >= |x| {
        assert s[i - 2] == y[i - 2 - |x|] && s[i - 1] == y[i - 1 - |x|] && s[i] == y[i - |x|];
      } else if i - 1 == |x| {
        assert s[i - 1] == y[0];
      } else {
        assert s[i] == y[i - |x|];
        assert i - |x| == 0;
      }
    }
  }

  // Each pass.

  /** Removing carriage returns leaves none. */
  lemma CarriageReturnsRemoved(s: string)
    ensures Lacks(ReplaceAll(s, "\r", ""), '\r')
  {
    ReplaceCharRemoves(s, '\r', "");
  }

  /** After the tab pass no tab, VT or FF is left, and no carriage return reappears. */
  lemma {:induction false} TabsToSpacesCleans(s: string)
    requires Lacks(s, '\r')
    ensures Clean(TabsToSpaces(s))
    decreases |s|
  {
    if s != [] {
      var k := if s[0] in TabLike then Span(s, TabLike) else 1;
      TabsToSpacesCleans(s[k..]);
    }
  }

  lemma {:induction false} CollapseNewlinesKeepsClean(s: string)
    requires Clean(s)
    ensures Clean(CollapseNewlines(s))
    decreases |s|
  {
    if s != [] {
      var k := if s[0] == '\n' then Span(s, {'\n'}) else 1;
      CollapseNewlinesKeepsClean(s[k..]);
    }
  }

  lemma {:induction false} DropSpacesBeforeNewlineKeepsClean(s: string)
    requires Clean(s)
    ensures Clean(DropSpacesBeforeNewline(s))
    decreases |s|
  {
    if s != [] {
      var k := if s[0] == ' ' then Span(s, {' '}) else 1;
      DropSpacesBeforeNewlineKeepsClean(s[k..]);
    }
  }

  lemma {:induction false} DropSpacesAfterNewlineKeepsClean(s: string)
    requires Clean(s)
    ensures Clean(DropSpacesAfterNewline(s))
    decreases |s|
  {
    if s != [] {
      var k := if s[0] == '\n' then 1 + Span(s[1..], {' '}) else 1;
      DropSpacesAfterNewlineKeepsClean(s[k..]);
    }
  }

  lemma {:induction false} SqueezeSpacesKeepsClean(s: string)
    requires Clean(s)
    ensures Clean(SqueezeSpaces(s))
    decreases |s|
  {
    if s != [] {
      var k := if s[0] == ' ' then Span(s, {' '}) else 1;
      SqueezeSpacesKeepsClean(s[k..]);
    }
  }

  /** After ` +\n` no space stands directly before a newline. */
  lemma {:induction false} DropSpacesBeforeNewlineSeparates(s: string)
    ensures NoPair(DropSpacesBeforeNewline(s), ' ', '\n')
    decreases |s|
  {
    if s != [] {
      if s[0] == ' ' {
        var k := Span(s, {' '});
        var rest := DropSpacesBeforeNewline(s[k..]);
        DropSpacesBeforeNewlineSeparates(s[k..]);
        if k < |s| && s[k] == '\n' {
          assert DropSpacesBeforeNewline(s) == rest;
        } else {
          NoPairJoin(s[..k], rest, ' ', '\n');
        }
      } else {
        DropSpacesBeforeNewlineSeparates(s[1..]);
        NoPairJoin([s[0]], DropSpacesBeforeNewline(s[1..]), ' ', '\n');
      }
    }
  }

  /** After `\n +` no space stands directly after a newline. */
  lemma {:induction false} DropSpacesAfterNewlineSeparates(s: string)
    ensures NoPair(DropSpacesAfterNewline(s), '\n', ' ')
    decreases |s|
  {
    if s != [] {
      var k := if s[0] == '\n' then 1 + Span(s[1..], {' '}) else 1;
      DropSpacesAfterNewlineSeparates(s[k..]);
      NoPairJoin([s[0]], DropSpacesAfterNewline(s[k..]), '\n', ' ');
    }
  }

  /** `\n +` does not put a space back before a newline. */
  lemma {:induction false} DropSpacesAfterNewlineKeeps(s: string)
    requires NoPair(s, ' ', '\n')
    ensures NoPair(DropSpacesAfterNewline(s), ' ', '\n')
    decreases |s|
  {
    if s != [] {
      var k := if s[0] == '\n' then 1 + Span(s[1..], {' '}) else 1;
      SliceKeeps(s, k, |s|);
      DropSpacesAfterNewlineKeeps(s[k..]);
      NoPairJoin([s[0]], DropSpacesAfterNewline(s[k..]), ' ', '\n');
    }
  }

  /** After ` {2,}` no two spaces are adjacent. */
  lemma {:induction false} SqueezeSpacesSeparates(s: string)
    ensures NoPair(SqueezeSpaces(s), ' ', ' ')
    decreases |s|
  {
    if s != [] {
      var k := if s[0] == ' ' then Span(s, {' '}) else 1;
      SqueezeSpacesSeparates(s[k..]);
      NoPairJoin([s[0]], SqueezeSpaces(s[k..]), ' ', ' ');
    }
  }

  /** Squeezing spaces keeps every other forbidden pair away. */
  lemma {:induction false} SqueezeSpacesKeeps(s: string, a: char, b: char)
    requires !(a == ' ' && b == ' ') && NoPair(s, a, b)
    ensures NoPair(SqueezeSpaces(s), a, b)
    decreases |s|
  {
    if s != [] {
      var k := if s[0] == ' ' then Span(s, {' '}) else 1;
      assert s[k - 1] == s[0];
      SliceKeeps(s, k, |s|);
      SqueezeSpacesKeeps(s[k..], a, b);
      NoPairJoin([s[0]], SqueezeSpaces(s[k..]), a, b);
    }
  }

  /** After `\n{3,}` no three newlines are adjacent. */
  lemma {:induction false} CollapseNewlinesLimits(s: string)
    ensures NoTriple(CollapseNewlines(s))
    decreases |s|
  {
    if s != [] {
      if s[0] == '\n' {
        var k := Span(s, {'\n'});
        CollapseNewlinesLimits(s[k..]);
        NoTripleRun(if k >= 3 then "\n\n" else s[..k], CollapseNewlines(s[k..]));
      } else {
        CollapseNewlinesLimits(s[1..]);
        NoTripleCons(s[0], CollapseNewlines(s[1..]));
      }
    }
  }

  /** Collapsing newline runs keeps every forbidden pair other than two newlines away. */
  lemma {:induction false} CollapseNewlinesKeeps(s: string, a: char, b: char)
    requires !(a == '\n' && b == '\n') && NoPair(s, a, b)
    ensures NoPair(CollapseNewlines(s), a, b)
    decreases |s|
  {
    if s != [] {
      if s[0] == '\n' {
        var k := Span(s, {'\n'});
        var head := if k >= 3 then "\n\n" else s[..k];
        assert s[k - 1] == '\n';
        SliceKeeps(s, k, |s|);
        CollapseNewlinesKeeps(s[k..], a, b);
        NoPairJoin(head, CollapseNewlines(s[k..]), a, b);
      } else {
        SliceKeeps(s, 1, |s|);
        CollapseNewlinesKeeps(s[1..], a, b);
        NoPairJoin([s[0]], CollapseNewlines(s[1..]), a, b);
      }
    }
  }

  // The whole chain.

  /** The text the client writes to its cache meets every promise of the whitespace passes. */
  lemma NormalizeAsWrittenPlain(text: string)
    ensures IsPlainText(NormalizeAsWritten(text))
  {
    var s1 := ReplaceAll(text, "\r", "");
    CarriageReturnsRemoved(text);
    var s2 := TabsToSpaces(s1);
    TabsToSpacesCleans(s1);
    var s3 := CollapseNewlines(s2);
    CollapseNewlinesKeepsClean(s2);
    var s4 := DropSpacesBeforeNewline(s3);
    DropSpacesBeforeNewlineKeepsClean(s3);
    DropSpacesBeforeNewlineSeparates(s3);
    var s5 := DropSpacesAfterNewline(s4);
    DropSpacesAfterNewlineKeepsClean(s4);
    DropSpacesAfterNewlineSeparates(s4);
    DropSpacesAfterNewlineKeeps(s4);
    var s6 := SqueezeSpaces(s5);
    SqueezeSpacesKeepsClean(s5);
    SqueezeSpacesSeparates(s5);
    SqueezeSpacesKeeps(s5, ' ', '\n');
    SqueezeSpacesKeeps(s5, '\n', ' ');
    StripKeeps(s6);
    StripEnds(s6);
  }

  /** With the blank-line collapse last, the text also never holds two blank lines in a row. */
  lemma NormalizePlain(text: string)
    ensures IsPlainText(Normalize(text)) && NoTriple(Normalize(text))
  {
    var s1 := ReplaceAll(text, "\r", "");
    CarriageReturnsRemoved(text);
    var s2 := TabsToSpaces(s1);
    TabsToSpacesCleans(s1);
    var s3 := DropSpacesBeforeNewline(s2);
    DropSpacesBeforeNewlineKeepsClean(s2);
    DropSpacesBeforeNewlineSeparates(s2);
    var s4 := DropSpacesAfterNewline(s3);
    DropSpacesAfterNewlineKeepsClean(s3);
    DropSpacesAfterNewlineSeparates(s3);
    DropSpacesAfterNewlineKeeps(s3);
    var s5 := SqueezeSpaces(s4);
    SqueezeSpacesKeepsClean(s4);
    SqueezeSpacesSeparates(s4);
    SqueezeSpacesKeeps(s4, ' ', '\n');
    SqueezeSpacesKeeps(s4, '\n', ' ');
    var s6 := CollapseNewlines(s5);
    CollapseNewlinesKeepsClean(s5);
    CollapseNewlinesLimits(s5);
    CollapseNewlinesKeeps(s5, ' ', ' ');
    CollapseNewlinesKeeps(s5, ' ', '\n');
    CollapseNewlinesKeeps(s5, '\n', ' ');
    StripKeeps(s6);
    StripEnds(s6);
  }

  // Each pass leaves text without a match unchanged.

  lemma {:induction false} CarriageReturnsAbsent(s: string)
    requires Lacks(s, '\r')
    ensures ReplaceAll(s, "\r", "") == s
    decreases |s|
  {
    if s != [] {
      CarriageReturnsAbsent(s[1..]);
      ReplaceCharCons(s[0], s[1..], '\r', "");
      assert s == [s[0]] + s[1..];
    }
  }

  lemma {:induction false} TabsToSpacesFixes(s: string)
    requires Clean(s)
    ensures TabsToSpaces(s) == s
    decreases |s|
  {
    if s != [] {
      TabsToSpacesFixes(s[1..]);
      assert s == [s[0]] + s[1..];
    }
  }

  lemma NoPairSuffix(s: string, k: nat, a: char, b: char)
    requires k <= |s| && NoPair(s, a, b)
    ensures NoPair(s[k..], a, b)
  {
    var t := s[k..];
    forall m | 1 <= m < |t|
      ensures !(t[m - 1] == a && t[m] == b)
    {
      assert t[m - 1] == s[k + m - 1] && t[m] == s[k + m];
    }
  }

  /** A run of spaces not followed by a newline is kept. */
  lemma DropBeforeKeepsRun(s: string)
    requires s != [] && s[0] == ' '
    requires var k := Span(s, {' '}); !(k < |s| && s[k] == '\n')
    ensures DropSpacesBeforeNewline(s) == s[..Span(s, {' '})] + DropSpacesBeforeNewline(s[Span(s, {' '})..])
  {
  }

  /** A character other than a space is kept. */
  lemma DropBeforeKeepsChar(s: string)
    requires s != [] && s[0] != ' '
    ensures DropSpacesBeforeNewline(s) == [s[0]] + DropSpacesBeforeNewline(s[1..])
  {
  }

  lemma {:induction false} DropSpacesBeforeNewlineFixes(s: string)
    requires NoPair(s, ' ', '\n')
    ensures DropSpacesBeforeNewline(s) == s
    decreases |s|
  {
    if s != [] {
      if s[0] == ' ' {
        var k := Span(s, {' '});
        assert 1 <= k && s[k - 1] == ' ';
        DropBeforeKeepsRun(s);
        NoPairSuffix(s, k, ' ', '\n');
        DropSpacesBeforeNewlineFixes(s[k..]);
        SplitAt(s, k);
      } else {
        DropBeforeKeepsChar(s);
        NoPairSuffix(s, 1, ' ', '\n');
        DropSpacesBeforeNewlineFixes(s[1..]);
        SplitAt(s, 1);
      }
    }
  }

  lemma {:induction false} DropSpacesAfterNewlineFixes(s: string)
    requires NoPair(s, '\n', ' ')
    ensures DropSpacesAfterNewline(s) == s
    decreases |s|
  {
    if s != [] {
      if s[0] == '\n' {
        assert Span(s[1..], {' '}) == 0;
      }
      SliceKeeps(s, 1, |s|);
      DropSpacesAfterNewlineFixes(s[1..]);
      assert s == [s[0]] + s[1..];
    }
  }

  lemma {:induction false} SqueezeSpacesFixes(s: string)
    requires NoPair(s, ' ', ' ')
    ensures SqueezeSpaces(s) == s
    decreases |s|
  {
    if s != [] {
      if s[0] == ' ' {
        assert Span(s, {' '}) == 1;
      }
      SliceKeeps(s, 1, |s|);
      SqueezeSpacesFixes(s[1..]);
      assert s == [s[0]] + s[1..];
    }
  }

  /** Without three newlines in a row, no run of newlines is longer than two. */
  lemma NewlineRunBound(s: string)
    requires NoTriple(s)
    ensures Span(s, {'\n'}) <= 2
  {
    if |s| >= 3 {
      assert !(s[0] == '\n' && s[1] == '\n' && s[2] == '\n');
    }
  }

  lemma {:induction false} CollapseNewlinesFixes(s: string)
    requires NoTriple(s)
    ensures CollapseNewlines(s) == s
    decreases |s|
  {
    if s != [] {
      var k := if s[0] == '\n' then Span(s, {'\n'}) else 1;
      NewlineRunBound(s);
      SliceKeeps(s, k, |s|);
      CollapseNewlinesFixes(s[k..]);
      assert s == s[..k] + s[k..];
    }
  }

  /** Plain text with no two blank lines in a row passes through every pass unchanged. */
  lemma NormalizeFixes(t: string)
    requires IsPlainText(t) && NoTriple(t)
    ensures Normalize(t) == t
  {
    assert Lacks(t, '\r');
    CarriageReturnsAbsent(t);
    TabsToSpacesFixes(t);
    DropSpacesBeforeNewlineFixes(t);
    DropSpacesAfterNewlineFixes(t);
    SqueezeSpacesFixes(t);
    CollapseNewlinesFixes(t);
    StripUnchanged(t);
  }

  /** Normalizing twice gives what normalizing once gives. */
  lemma NormalizeIdempotent(text: string)
    ensures Normalize(Normalize(text)) == Normalize(text)
  {
    NormalizePlain(text);
    NormalizeFixes(Normalize(text));
  }

  // The order of the passes, on a line `x`, two lines holding one space each, and a line `y`.

  function SpaceOnlyLines(x: char, y: char): string {
    [x, '\n', ' ', '\n', ' ', '\n', y]
  }

  lemma SpaceOnlyLinesFacts(x: char, y: char)
    requires !IsSpace(x) && !IsSpace(y)
    ensures SpaceOnlyLines(x, y) == [x] + (['\n'] + ([' ', '\n'] + ([' ', '\n'] + [y])))
    ensures Lacks(SpaceOnlyLines(x, y), '\r') && Clean(SpaceOnlyLines(x, y)) && NoTriple(SpaceOnlyLines(x, y))
  {
  }

  lemma ThreeNewlinesFacts(x: char, y: char)
    requires !IsSpace(x) && !IsSpace(y)
    ensures [x] + (['\n'] + (['\n'] + (['\n'] + [y]))) == [x, '\n', '\n', '\n', y]
    ensures Lacks([x, '\n', '\n', '\n', y], '\r') && Clean([x, '\n', '\n', '\n', y])
    ensures NoPair([x, '\n', '\n', '\n', y], '\n', ' ') && NoPair([x, '\n', '\n', '\n', y], ' ', ' ')
    ensures !NoTriple([x, '\n', '\n', '\n', y])
  {
    var t := [x, '\n', '\n', '\n', y];
    assert t[1] == '\n' && t[2] == '\n' && t[3] == '\n';
  }

  lemma TwoNewlinesFacts(x: char, y: char)
    requires !IsSpace(x) && !IsSpace(y)
    ensures IsPlainText([x, '\n', '\n', y]) && NoTriple([x, '\n', '\n', y])
  {
  }

  lemma DropBeforeSteps(c: char, t: string)
    ensures c != ' ' ==> DropSpacesBeforeNewline([c] + t) == [c] + DropSpacesBeforeNewline(t)
    ensures DropSpacesBeforeNewline([' ', '\n'] + t) == DropSpacesBeforeNewline(['\n'] + t)
  {
    var s := [' ', '\n'] + t;
    assert s[1..] == ['\n'] + t;
    assert Span(s, {' '}) == 1;
    assert ([c] + t)[1..] == t;
  }

  lemma SpacesBeforeNewlinesDropped(x: char, y: char)
    requires !IsSpace(x) && !IsSpace(y)
    ensures DropSpacesBeforeNewline(SpaceOnlyLines(x, y)) == [x, '\n', '\n', '\n', y]
  {
    SpaceOnlyLinesFacts(x, y);
    ThreeNewlinesFacts(x, y);
    var c := [' ', '\n'] + [y];
    var b := [' ', '\n'] + c;
    var a := ['\n'] + b;
    DropBeforeSteps(x, a);
    DropBeforeSteps('\n', b);
    DropBeforeSteps(' ', c);
    DropBeforeSteps('\n', c);
    DropBeforeSteps(' ', [y]);
    DropBeforeSteps('\n', [y]);
    DropBeforeSteps(y, []);
    assert [y] + [] == [y];
  }

  lemma SpanCons(c: char, t: string, cs: set<char>)
    requires c in cs
    ensures Span([c] + t, cs) == 1 + Span(t, cs)
  {
    assert ([c] + t)[1..] == t;
  }

  lemma CollapseThree(x: char, y: char)
    requires !IsSpace(x) && !IsSpace(y)
    ensures CollapseNewlines([x, '\n', '\n', '\n', y]) == [x, '\n', '\n', y]
  {
    ThreeNewlinesFacts(x, y);
    var r := ['\n'] + (['\n'] + (['\n'] + [y]));
    SpanCons('\n', ['\n'] + (['\n'] + [y]), {'\n'});
    SpanCons('\n', ['\n'] + [y], {'\n'});
    SpanCons('\n', [y], {'\n'});
    assert Span(r, {'\n'}) == 3;
    assert r[3..] == [y];
    assert ([x] + r)[1..] == r;
    assert CollapseNewlines([y]) == [y] by {
      assert [y][1..] == [];
    }
  }

  /** Lines that hold only spaces are not yet empty when the client collapses blank lines, so two blank lines survive. */
  lemma SpaceOnlyLinesSurvive(x: char, y: char)
    requires !IsSpace(x) && !IsSpace(y)
    ensures NormalizeAsWritten(SpaceOnlyLines(x, y)) == [x, '\n', '\n', '\n', y]
    ensures !NoTriple(NormalizeAsWritten(SpaceOnlyLines(x, y)))
  {
    var s := SpaceOnlyLines(x, y);
    var t := [x, '\n', '\n', '\n', y];
    SpaceOnlyLinesFacts(x, y);
    ThreeNewlinesFacts(x, y);
    CarriageReturnsAbsent(s);
    TabsToSpacesFixes(s);
    CollapseNewlinesFixes(s);
    SpacesBeforeNewlinesDropped(x, y);
    DropSpacesAfterNewlineFixes(t);
    SqueezeSpacesFixes(t);
    StripUnchanged(t);
  }

  /** With the collapse last, the same text keeps a single blank line. */
  lemma SpaceOnlyLinesCollapse(x: char, y: char)
    requires !IsSpace(x) && !IsSpace(y)
    ensures Normalize(SpaceOnlyLines(x, y)) == [x, '\n', '\n', y]
  {
    var s := SpaceOnlyLines(x, y);
    var t := [x, '\n', '\n', '\n', y];
    SpaceOnlyLinesFacts(x, y);
    ThreeNewlinesFacts(x, y);
    CarriageReturnsAbsent(s);
    TabsToSpacesFixes(s);
    SpacesBeforeNewlinesDropped(x, y);
    DropSpacesAfterNewlineFixes(t);
    SqueezeSpacesFixes(t);
    CollapseThree(x, y);
    TwoNewlinesFacts(x, y);
    StripUnchanged([x, '\n', '\n', y]);
  }

  /** The client's order is not idempotent: normalizing its output again changes it. */
  lemma NormalizeAsWrittenNotIdempotent(x: char, y: char)
    requires !IsSpace(x) && !IsSpace(y)
    ensures NormalizeAsWritten(NormalizeAsWritten(SpaceOnlyLines(x, y))) != NormalizeAsWritten(SpaceOnlyLines(x, y))
  {
    SpaceOnlyLinesSurvive(x, y);
    var t := [x, '\n', '\n', '\n', y];
    var u := [x, '\n', '\n', y];
    ThreeNewlinesFacts(x, y);
    TwoNewlinesFacts(x, y);
    CarriageReturnsAbsent(t);
    TabsToSpacesFixes(t);
    CollapseThree(x, y);
    DropSpacesBeforeNewlineFixes(u);
    DropSpacesAfterNewlineFixes(u);
    SqueezeSpacesFixes(u);
    StripUnchanged(u);
    assert |u| != |t|;
  }

  /** With markup steps that change nothing, `_html_to_plain_text` turns `x`, two lines of one space and `y` into text with two blank lines. */
  lemma HtmlToPlainTextKeepsTwoBlankLines(x: char, y: char)
    requires !IsSpace(x) && !IsSpace(y)
    ensures HtmlToPlainText(SpaceOnlyLines(x, y), s => s) == [x, '\n', '\n', '\n', y]
    ensures HtmlToPlainTextCorrected(SpaceOnlyLines(x, y), s => s) == [x, '\n', '\n', y]
  {
    SpaceOnlyLinesSurvive(x, y);
    SpaceOnlyLinesCollapse(x, y);
  }
}
