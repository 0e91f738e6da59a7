/**
  The per-item cleanup of `_parse_content_search_response` in client.py. The XML document is
  abstract: `None` when it does not parse, otherwise its `item` elements in document order, each
  with the text of its `content` and `p_id` children (`None` when the child or its text is missing).
 */
module ContentSearch {
  import opened Wrappers
  import opened Strings

  /** One `item` element of a ContentSearch response. */
  datatype Item = Item(content: Option<string>, pageId: Option<string>)

  /** One returned snippet: its text and its page identifier (such as `PAG_200`). */
  datatype Snippet = Snippet(text: string, page: Option<string>)

  /** How many leading characters of `s` differ from `c`. */
  function CountUntil(s: string, c: char): (k: nat)
    ensures k <= |s|
    ensures forall i :: 0 <= i < k ==> s[i] != c
    ensures k < |s| ==> s[k] == c
    decreases |s|
  {
    if s == [] || s[0] == c then 0 else 1 + CountUntil(s[1..], c)
  }

  /** The length of the tag `<[^>]+>` that starts `s`, or 0 when `s` does not start with one. */
  function TagLength(s: string): (n: nat)
    ensures n <= |s|
    ensures n > 0 ==> n >= 3 && s[0] == '<' && s[n - 1] == '>' && Lacks(s[1..n - 1], '>')
  {
    if s != [] && s[0] == '<' then
      var k := CountUntil(s[1..], '>');
      if 1 <= k < |s| - 1 then
        assert forall i :: 0 <= i < k ==> s[1..k + 1][i] == s[1..][i];
        k + 2
      else 0
    else 0
  }

  /** `re.sub(r'<[^>]+>', '', text)`: every tag removed, scanning left to right. */
  function StripTags(s: string): (r: string)
    ensures |r| <= |s|
    decreases |s|
  {
    if s == [] then []
    else if TagLength(s) > 0 then StripTags(s[TagLength(s)..])
    else [s[0]] + StripTags(s[1..])
  }

  /** Text with no `<` passes through tag removal unchanged. */
  lemma {:induction false} StripTagsKeepsText(a: string, b: string)
    requires Lacks(a, '<')
    ensures StripTags(a + b) == a + StripTags(b)
    decreases |a|
  {
    if a != [] {
      var s := a + b;
      calc {
        StripTags(s);
        == { assert s[0] == a[0]; assert TagLength(s) == 0; DropAppend(a, b, 1); }
        [a[0]] + StripTags(a[1..] + b);
        == { StripTagsKeepsText(a[1..], b); }
        [a[0]] + (a[1..] + StripTags(b));
        == { AppendAssoc([a[0]], a[1..], StripTags(b)); HeadTail(a); }
        a + StripTags(b);
      }
    } else {
      AppendEmpty(b);
    }
  }

  /** A tag `<t>` is dropped as a whole, and what follows it is stripped in turn. */
  lemma StripTagsDropsTag(t: string, rest: string)
    requires t != [] && Lacks(t, '>')
    ensures StripTags("<" + t + ">" + rest) == StripTags(rest)
  {
    var s := "<" + t + ">" + rest;
    assert s[1..] == t + ">" + rest;
    var k := CountUntil(s[1..], '>');
    assert s[1..][|t|] == '>';
    assert forall i :: 0 <= i < |t| ==> s[1..][i] == t[i];
    assert k == |t|;
    assert s[|t| + 2..] == rest;
  }

  /** A word of `str.split()`: non-empty, with no whitespace. */
  predicate IsWord(w: string) {
    w != [] && forall i :: 0 <= i < |w| ==> !IsSpace(w[i])
  }

  /** How many leading characters of `s` are not whitespace. */
  function WordLength(s: string): (k: nat)
    ensures k <= |s|
    ensures forall i :: 0 <= i < k ==> !IsSpace(s[i])
    ensures k < |s| ==> IsSpace(s[k])
    decreases |s|
  {
    if s == [] || IsSpace(s[0]) then 0 else 1 + WordLength(s[1..])
  }

  /** `text.split()`: the maximal runs of non-whitespace characters, in order. */
  function Words(s: string): (ws: seq<string>)
    ensures forall i :: 0 <= i < |ws| ==> IsWord(ws[i])
    decreases |s|
  {
    if s == [] then []
    else if IsSpace(s[0]) then Words(s[1..])
    else
      var k := WordLength(s);
      [s[..k]] + Words(s[k..])
  }

  /** `' '.join(text.split())` */
  function CollapseWhitespace(s: string): string {
    Join(" ", Words(s))
  }

  /** Text as snippet cleanup leaves it: non-empty, no whitespace but single spaces, none at either end. */
  predicate Collapsed(t: string) {
    && t != []
    && t[0] != ' ' && t[|t| - 1] != ' '
    && (forall i :: 0 <= i < |t| && IsSpace(t[i]) ==> t[i] == ' ')
    && (forall i :: 1 <= i < |t| ==> !(t[i - 1] == ' ' && t[i] == ' '))
  }

  /** Words joined by single spaces are collapsed text. */
  lemma {:induction false} JoinCollapsed(ws: seq<string>)
    requires ws != [] && forall i :: 0 <= i < |ws| ==> IsWord(ws[i])
    ensures Collapsed(Join(" ", ws))
    decreases |ws|
  {
    if |ws| > 1 {
      var w := ws[0];
      JoinCollapsed(ws[1..]);
      var rest := Join(" ", ws[1..]);
      var t := w + " " + rest;
      assert Join(" ", ws) == t;
      assert forall i :: 0 <= i < |w| ==> t[i] == w[i];
      assert t[|w|] == ' ';
      assert forall i :: |w| < i < |t| ==> t[i] == rest[i - |w| - 1];
      assert IsWord(w);
    }
  }

  /** Splitting after a word and a whitespace character gives that word first. */
  lemma WordsAfterWord(w: string, tail: string)
    requires IsWord(w) && tail != [] && IsSpace(tail[0])
    ensures Words(w + tail) == [w] + Words(tail)
  {
    var s := w + tail;
    assert s[0] == w[0];
    assert forall i :: 0 <= i < |w| ==> s[i] == w[i];
    assert s[|w|] == tail[0];
    assert WordLength(s) == |w|;
    assert s[..|w|] == w && s[|w|..] == tail;
  }

  /** A single word splits into itself. */
  lemma WordsOfWord(w: string)
    requires IsWord(w)
    ensures Words(w) == [w]
  {
    assert WordLength(w) == |w|;
    assert w[..|w|] == w && w[|w|..] == [];
  }

  /** Splitting words joined by single spaces gives the words back. */
  lemma {:induction false} WordsOfJoin(ws: seq<string>)
    requires forall i :: 0 <= i < |ws| ==> IsWord(ws[i])
    ensures Words(Join(" ", ws)) == ws
    decreases |ws|
  {
    if |ws| == 1 {
      WordsOfWord(ws[0]);
    } else if |ws| > 1 {
      var rest := Join(" ", ws[1..]);
      assert Join(" ", ws) == ws[0] + (" " + rest);
      assert IsWord(ws[0]);
      WordsAfterWord(ws[0], " " + rest);
      assert (" " + rest)[1..] == rest;
      assert Words(" " + rest) == Words(rest);
      WordsOfJoin(ws[1..]);
      assert ws == [ws[0]] + ws[1..];
    }
  }

  /** Collapsing whitespace twice is collapsing it once. */
  lemma CollapseIdempotent(s: string)
    ensures CollapseWhitespace(CollapseWhitespace(s)) == CollapseWhitespace(s)
  {
    WordsOfJoin(Words(s));
  }

  /** Joining words gives empty text only for no words. */
  lemma JoinEmpty(ws: seq<string>)
    requires forall i :: 0 <= i < |ws| ==> IsWord(ws[i])
    ensures Join(" ", ws) == [] <==> ws == []
  {
    if ws != [] {
      JoinCollapsed(ws);
    }
  }

  /** `p_id`'s text, or `None` when the element or its text is missing or empty. */
  function PageOf(item: Item): (page: Option<string>)
    ensures page.Some? <==> item.pageId.Some? && item.pageId.value != []
    ensures page.Some? ==> page == item.pageId
  {
    if item.pageId.Some? && item.pageId.value != [] then item.pageId else None
  }

  /** The snippet one item gives: its content without tags and with whitespace collapsed, unless that leaves nothing. */
  function SnippetOf(item: Item): Option<Snippet> {
    match item.content
    case None => None
    case Some(content) =>
      if content == [] then None
      else
        var text := CollapseWhitespace(StripTags(content));
        if text == [] then None else Some(Snippet(text, PageOf(item)))
  }

  /** An item gives a snippet exactly when its content has a word outside its tags; the snippet's text is collapsed. */
  lemma SnippetOfKeeps(item: Item)
    ensures SnippetOf(item).Some? <==> item.content.Some? && Words(StripTags(item.content.value)) != []
    ensures SnippetOf(item).Some? ==>
      && SnippetOf(item).value.text == CollapseWhitespace(StripTags(item.content.value))
      && Collapsed(SnippetOf(item).value.text)
      && SnippetOf(item).value.page == PageOf(item)
  {
    if item.content.Some? {
      var ws := Words(StripTags(item.content.value));
      JoinEmpty(ws);
      if ws != [] {
        JoinCollapsed(ws);
      }
    }
  }

  /** The snippet of one item, as a list of zero or one. */
  function SnippetList(item: Item): (snippets: seq<Snippet>)
    ensures |snippets| <= 1
  {
    match SnippetOf(item) case Some(snippet) => [snippet] case None => []
  }

  /** The snippets of the items, in order: those items that give one. */
  function Snippets(items: seq<Item>): (snippets: seq<Snippet>)
    ensures |snippets| <= |items|
    decreases |items|
  {
    if items == [] then []
    else
      SnippetList(items[0]) + Snippets(items[1..])
  }

  /** The snippets of two runs of items are those of the first run followed by those of the second. */
  lemma {:induction false} SnippetsConcat(a: seq<Item>, b: seq<Item>)
    ensures Snippets(a + b) == Snippets(a) + Snippets(b)
    decreases |a|
  {
    if a != [] {
      assert (a + b)[0] == a[0] && (a + b)[1..] == a[1..] + b;
      SnippetsConcat(a[1..], b);
      var first := SnippetList(a[0]);
      assert first + (Snippets(a[1..]) + Snippets(b)) == (first + Snippets(a[1..])) + Snippets(b);
    } else {
      assert a + b == b;
    }
  }

  /** Every snippet has collapsed, non-empty text, and a page that is `None` or non-empty. */
  lemma {:induction false} SnippetsAreClean(items: seq<Item>)
    ensures forall i :: 0 <= i < |Snippets(items)| ==>
      Collapsed(Snippets(items)[i].text) && (Snippets(items)[i].page.Some? ==> Snippets(items)[i].page.value != [])
    decreases |items|
  {
    if items != [] {
      SnippetOfKeeps(items[0]);
      SnippetsAreClean(items[1..]);
    }
  }

  /** `_parse_content_search_response` as a function of the parsed document: a document that does not parse gives no snippets. */
  function ParseContentSearch(doc: Option<seq<Item>>): (snippets: seq<Snippet>)
    ensures doc.None? ==> snippets == []
  {
    match doc
    case None => []
    case Some(items) => Snippets(items)
  }

  /** The loop of `_parse_content_search_response` over the document's items. */
  method ParseContentSearchResponse(doc: Option<seq<Item>>) returns (snippets: seq<Snippet>)
    ensures snippets == ParseContentSearch(doc)
  {
    snippets := [];
    if doc.None? {
      return;
    }
    var items := doc.value;
    var i := 0;
    while i < |items|
      invariant 0 <= i <= |items|
      invariant snippets == Snippets(items[..i])
    {
      var item := items[i];
      assert items[..i + 1] == items[..i] + [item];
      SnippetsConcat(items[..i], [item]);
      assert [item][1..] == [];
      assert Snippets(items[..i + 1]) == snippets + SnippetList(item);
      if item.content.Some? && item.content.value != [] {
        var text := CollapseWhitespace(StripTags(item.content.value));
        var page := if item.pageId.Some? && item.pageId.value != [] then item.pageId else None;
        assert page == PageOf(item);
        if text != [] {
          assert SnippetOf(item) == Some(Snippet(text, page));
          snippets := snippets + [Snippet(text, page)];
        } else {
          assert SnippetOf(item) == None;
          assert snippets + [] == snippets;
        }
      } else {
        assert SnippetOf(item) == None;
        assert snippets + [] == snippets;
      }
      i := i + 1;
    }
    assert items[..i] == items;
  }
}
