/**
  The SRU search request of client.py: `_build_cql_query`, which joins one CQL clause per
  filter, and the paging parameters `search` sends with it.
 */
module GallicaQuery {
  import opened Wrappers
  import opened Strings
  import opened Tokenizer
  import opened CqlEmitter

  /** The filters of one `search` call. A missing list (`None`) behaves as an empty one. */
  datatype SearchFilters = SearchFilters(
    query: string,
    title: Option<string>,
    creators: seq<string>,
    docTypes: seq<string>,
    dateStart: Option<int>,
    dateEnd: Option<int>,
    language: Option<string>,
    publicDomainOnly: bool)

  const SortSuffix := " sortby dc.date/sort.ascending"
  const MatchAll := "gallica any \"\""
  const PublicDomainClause := "dc.rights any \"domaine public\""

  /** `<index> <relation> "<value>"`, the value put between the quotes as it is, without any escaping. */
  function Clause(index: string, relation: string, value: string): string {
    index + " " + relation + " \"" + value + "\""
  }

  /** One clause per value, in order. */
  function FieldClauses(index: string, relation: string, values: seq<string>): (clauses: seq<string>)
    ensures |clauses| == |values|
    ensures forall i :: 0 <= i < |values| ==> clauses[i] == Clause(index, relation, values[i])
  {
    seq(|values|, i requires 0 <= i < |values| => Clause(index, relation, values[i]))
  }

  /** A single clause bare; two or more joined by ` or ` inside one pair of parentheses. */
  function AnyOf(clauses: seq<string>): string
    requires clauses != []
  {
    if |clauses| == 1 then clauses[0] else "(" + Join(" or ", clauses) + ")"
  }

  /** The text clause, present when the query is not blank; a query the parser rejects fails the whole build. */
  function TextPart(f: SearchFilters): Result<seq<string>, QueryParseError> {
    if Strip(f.query) == [] then Success([])
    else
      match TextQueryClause(Strip(f.query))
      case Failure(e) => Failure(e)
      case Success(clause) => Success([clause])
  }

  function TitlePart(f: SearchFilters): seq<string> {
    if f.title.Some? && Strip(f.title.value) != [] then [Clause("dc.title", "all", Strip(f.title.value))] else []
  }

  function CreatorPart(f: SearchFilters): seq<string> {
    if f.creators != [] then [AnyOf(FieldClauses("dc.creator", "all", f.creators))] else []
  }

  function TypePart(f: SearchFilters): seq<string> {
    if f.docTypes != [] then [AnyOf(FieldClauses("dc.type", "adj", f.docTypes))] else []
  }

  function StartPart(f: SearchFilters): seq<string> {
    if f.dateStart.Some? then ["dc.date >= " + IntToDecimal(f.dateStart.value)] else []
  }

  function EndPart(f: SearchFilters): seq<string> {
    if f.dateEnd.Some? then ["dc.date <= " + IntToDecimal(f.dateEnd.value)] else []
  }

  function LanguagePart(f: SearchFilters): seq<string> {
    if f.language.Some? && f.language.value != [] then [Clause("dc.language", "adj", f.language.value)] else []
  }

  function RightsPart(f: SearchFilters): seq<string> {
    if f.publicDomainOnly then [PublicDomainClause] else []
  }

  /** The clauses of the filters other than the text, in the order the client appends them. */
  function FilterParts(f: SearchFilters): seq<string> {
    TitlePart(f) + CreatorPart(f) + TypePart(f) + StartPart(f) + EndPart(f) + LanguagePart(f) + RightsPart(f)
  }

  /** Every clause of the query, the text clause first. */
  function CqlParts(f: SearchFilters): Result<seq<string>, QueryParseError> {
    match TextPart(f)
    case Failure(e) => Failure(e)
    case Success(text) => Success(text + FilterParts(f))
  }

  /** `_build_cql_query` as a function of the filters. */
  function CqlQuery(f: SearchFilters): Result<string, QueryParseError> {
    match CqlParts(f)
    case Failure(e) => Failure(e)
    case Success(parts) => Success((if parts == [] then MatchAll else Join(" and ", parts)) + SortSuffix)
  }

  /** Appending seven runs one after another is appending their concatenation. */
  lemma AppendRuns<T>(p0: seq<T>, a: seq<T>, b: seq<T>, c: seq<T>, d: seq<T>, e: seq<T>, g: seq<T>, h: seq<T>,
                      p1: seq<T>, p2: seq<T>, p3: seq<T>, p4: seq<T>, p5: seq<T>, p6: seq<T>, p7: seq<T>)
    requires p1 == p0 + a && p2 == p1 + b && p3 == p2 + c && p4 == p3 + d
    requires p5 == p4 + e && p6 == p5 + g && p7 == p6 + h
    ensures p7 == p0 + (a + b + c + d + e + g + h)
  {
  }

  /** A concatenation of seven runs is empty exactly when each run is. */
  lemma EmptyRuns<T>(a: seq<T>, b: seq<T>, c: seq<T>, d: seq<T>, e: seq<T>, g: seq<T>, h: seq<T>)
    ensures a + b + c + d + e + g + h == [] <==> a == [] && b == [] && c == [] && d == [] && e == [] && g == [] && h == []
  {
    assert |a + b + c + d + e + g + h| == |a| + |b| + |c| + |d| + |e| + |g| + |h|;
  }

  /** Seven single clauses in a row. */
  lemma SingleRuns<T>(a: seq<T>, b: seq<T>, c: seq<T>, d: seq<T>, e: seq<T>, g: seq<T>, h: seq<T>,
                      xa: T, xb: T, xc: T, xd: T, xe: T, xg: T, xh: T)
    requires a == [xa] && b == [xb] && c == [xc] && d == [xd] && e == [xe] && g == [xg] && h == [xh]
    ensures a + b + c + d + e + g + h == [xa, xb, xc, xd, xe, xg, xh]
  {
  }

  /** Whether `f` sets no criterion at all. */
  predicate NoCriteria(f: SearchFilters) {
    && Strip(f.query) == []
    && (f.title.None? || Strip(f.title.value) == [])
    && f.creators == [] && f.docTypes == []
    && f.dateStart.None? && f.dateEnd.None?
    && (f.language.None? || f.language.value == [])
    && !f.publicDomainOnly
  }

  /** Every query built ends with the sort clause. */
  lemma QueryIsSorted(f: SearchFilters)
    requires CqlQuery(f).Success?
    ensures EndsWith(CqlQuery(f).value, SortSuffix)
  {
    var body := if CqlParts(f).value == [] then MatchAll else Join(" and ", CqlParts(f).value);
    assert CqlQuery(f).value == body + SortSuffix;
    assert (body + SortSuffix)[|body|..] == SortSuffix;
  }

  /** There are no clauses exactly when no criterion is set, and then the query matches everything. */
  lemma NoCriteriaMatchesAll(f: SearchFilters)
    ensures CqlParts(f) == Success([]) <==> NoCriteria(f)
    ensures NoCriteria(f) ==> CqlQuery(f) == Success(MatchAll + SortSuffix)
  {
    EmptyRuns(TitlePart(f), CreatorPart(f), TypePart(f), StartPart(f), EndPart(f), LanguagePart(f), RightsPart(f));
    if TextPart(f).Success? {
      assert |TextPart(f).value + FilterParts(f)| == |TextPart(f).value| + |FilterParts(f)|;
    }
  }

  /** The build fails exactly when the query is not blank and the parser rejects it, and then with the parser's error. */
  lemma TextErrorPropagates(f: SearchFilters)
    ensures CqlQuery(f).Failure? <==> Strip(f.query) != [] && TextQueryClause(Strip(f.query)).Failure?
    ensures CqlQuery(f).Failure? ==> CqlQuery(f).error == TextQueryClause(Strip(f.query)).error
  {
  }

  /** A single creator is emitted bare; several are or-ed inside one pair of parentheses, in order. */
  lemma CreatorAlternatives(f: SearchFilters, a: string, b: string)
    ensures f.creators == [a] ==> CreatorPart(f) == [Clause("dc.creator", "all", a)]
    ensures f.creators == [a, b] ==>
      CreatorPart(f) == ["(" + Clause("dc.creator", "all", a) + " or " + Clause("dc.creator", "all", b) + ")"]
  {
    if f.creators == [a] {
      assert FieldClauses("dc.creator", "all", f.creators)[0] == Clause("dc.creator", "all", a);
    }
    if f.creators == [a, b] {
      var cs := FieldClauses("dc.creator", "all", f.creators);
      assert cs == [Clause("dc.creator", "all", a), Clause("dc.creator", "all", b)];
      assert cs[1..] == [cs[1]];
      assert Join(" or ", cs[1..]) == cs[1];
      assert Join(" or ", cs) == cs[0] + " or " + cs[1];
      assert "(" + (cs[0] + " or " + cs[1]) + ")" == "(" + cs[0] + " or " + cs[1] + ")";
    }
  }

  /**
    Values are interpolated without escaping: one creator whose name holds `" or dc.creator all "`
    gives the same text as two creators or-ed together, without the parentheses.
   */
  lemma CreatorQuoteInjects(a: string, b: string)
    ensures Clause("dc.creator", "all", a + "\" or dc.creator all \"" + b)
      == Clause("dc.creator", "all", a) + " or " + Clause("dc.creator", "all", b)
  {
  }

  /** The filter clauses come in a fixed order (they follow the text clause in `CqlParts`). */
  lemma AllFiltersInOrder(f: SearchFilters, title: string, creator: string, docType: string,
                          start: int, end: int, lang: string)
    requires f.title == Some(title) && Strip(title) == title && title != []
    requires f.creators == [creator] && f.docTypes == [docType]
    requires f.dateStart == Some(start) && f.dateEnd == Some(end)
    requires f.language == Some(lang) && lang != [] && f.publicDomainOnly
    ensures FilterParts(f) == [Clause("dc.title", "all", title), Clause("dc.creator", "all", creator),
      Clause("dc.type", "adj", docType), "dc.date >= " + IntToDecimal(start), "dc.date <= " + IntToDecimal(end),
      Clause("dc.language", "adj", lang), PublicDomainClause]
  {
    var ti := Clause("dc.title", "all", title);
    var c := Clause("dc.creator", "all", creator);
    var ty := Clause("dc.type", "adj", docType);
    assert FieldClauses("dc.creator", "all", f.creators)[0] == c;
    assert FieldClauses("dc.type", "adj", f.docTypes)[0] == ty;
    SingleRuns(TitlePart(f), CreatorPart(f), TypePart(f), StartPart(f), EndPart(f), LanguagePart(f), RightsPart(f),
      ti, c, ty, "dc.date >= " + IntToDecimal(start), "dc.date <= " + IntToDecimal(end),
      Clause("dc.language", "adj", lang), PublicDomainClause);
  }

  /** The creators and document types step of `_build_cql_query`: nothing for no values, otherwise their clauses or-ed together. */
  method AppendAlternatives(parts: seq<string>, index: string, relation: string, values: seq<string>) returns (r: seq<string>)
    ensures r == parts + if values != [] then [AnyOf(FieldClauses(index, relation, values))] else []
  {
    r := parts;
    if values != [] {
      var clauses := FieldClauses(index, relation, values);
      if |clauses| == 1 {
        r := r + [clauses[0]];
      } else {
        r := r + ["(" + Join(" or ", clauses) + ")"];
      }
    } else {
      assert r == parts + [];
    }
  }

  /** The text step of `_build_cql_query`: the clause for a query that is not blank, or the parser's error. */
  method AppendTextClause(f: SearchFilters) returns (r: Result<seq<string>, QueryParseError>)
    ensures r == TextPart(f)
  {
    var parts: seq<string> := [];
    var query := Strip(f.query);
    if query != [] {
      var clause := BuildTextQueryClause(query);
      if clause.Failure? {
        return Failure(clause.error);
      }
      AppendEmpty([clause.value]);
      parts := parts + [clause.value];
    }
    return Success(parts);
  }

  /** `_build_cql_query`: appends one clause per filter given, then joins them and adds the sort clause. */
  method BuildCqlQuery(f: SearchFilters) returns (r: Result<string, QueryParseError>)
    ensures r == CqlQuery(f)
  {
    var text := AppendTextClause(f);
    if text.Failure? {
      return Failure(text.error);
    }
    var parts := AppendFilterClauses(f, text.value);
    assert CqlParts(f) == Success(parts);
    var cql;
    if parts == [] {
      cql := MatchAll;
    } else {
      cql := Join(" and ", parts);
    }
    return Success(cql + SortSuffix);
  }

  /** The filter steps of `_build_cql_query`, each appending its clause when its filter is given. */
  method AppendFilterClauses(f: SearchFilters, text: seq<string>) returns (parts: seq<string>)
    ensures parts == text + FilterParts(f)
  {
    parts := text;
    ghost var p0 := parts;
    if f.title.Some? && Strip(f.title.value) != [] {
      parts := parts + [Clause("dc.title", "all", Strip(f.title.value))];
    }
    assert parts == p0 + TitlePart(f);
    ghost var p1 := parts;
    parts := AppendAlternatives(parts, "dc.creator", "all", f.creators);
    assert parts == p1 + CreatorPart(f);
    ghost var p2 := parts;
    parts := AppendAlternatives(parts, "dc.type", "adj", f.docTypes);
    assert parts == p2 + TypePart(f);
    ghost var p3 := parts;
    if f.dateStart.Some? {
      parts := parts + ["dc.date >= " + IntToDecimal(f.dateStart.value)];
    }
    assert parts == p3 + StartPart(f);
    ghost var p4 := parts;
    if f.dateEnd.Some? {
      parts := parts + ["dc.date <= " + IntToDecimal(f.dateEnd.value)];
    }
    assert parts == p4 + EndPart(f);
    ghost var p5 := parts;
    if f.language.Some? && f.language.value != [] {
      parts := parts + [Clause("dc.language", "adj", f.language.value)];
    }
    assert parts == p5 + LanguagePart(f);
    ghost var p6 := parts;
    if f.publicDomainOnly {
      parts := parts + [PublicDomainClause];
    }
    assert parts == p6 + RightsPart(f);
    AppendRuns(p0, TitlePart(f), CreatorPart(f), TypePart(f), StartPart(f), EndPart(f), LanguagePart(f), RightsPart(f),
      p1, p2, p3, p4, p5, p6, parts);
  }

  /** The largest page the server returns. */
  const MaxRecords := 50

  /** `min(records_per_page, 50)`, the `maximumRecords` sent. */
  function MaximumRecords(recordsPerPage: int): (n: int)
    ensures n <= MaxRecords && n <= recordsPerPage
    ensures n == recordsPerPage || n == MaxRecords
  {
    if recordsPerPage < MaxRecords then recordsPerPage else MaxRecords
  }

  /** `startRecord` as `search` computes it: from the page size asked for, before it is capped. */
  function StartRecordAsWritten(page: int, recordsPerPage: int): int {
    (page - 1) * recordsPerPage + 1
  }

  /** `startRecord` from the page size actually sent. */
  function StartRecord(page: int, recordsPerPage: int): int {
    (page - 1) * MaximumRecords(recordsPerPage) + 1
  }

  /** With more than 50 records a page asked for, the as-written start skips records: with 100, page 1 returns records 1 to 50 and page 2 starts at 101. */
  lemma PagesSkipRecords()
    ensures MaximumRecords(100) == 50
    ensures StartRecordAsWritten(1, 100) == 1 && StartRecordAsWritten(2, 100) == 101
    ensures StartRecordAsWritten(1, 100) + MaximumRecords(100) < StartRecordAsWritten(2, 100)
  {
  }

  /** Where 50 or fewer records a page are asked for, both starts agree. */
  lemma StartsAgreeWhenSmall(page: int, recordsPerPage: int)
    requires recordsPerPage <= MaxRecords
    ensures StartRecordAsWritten(page, recordsPerPage) == StartRecord(page, recordsPerPage)
  {
  }

  /** With the start computed from the page size sent, consecutive pages tile the results: each starts where the previous one ends. */
  lemma {:induction false} PagesTile(page: int, recordsPerPage: int)
    requires page >= 1 && recordsPerPage >= 1
    ensures StartRecord(1, recordsPerPage) == 1
    ensures 1 <= MaximumRecords(recordsPerPage) <= MaxRecords
    ensures StartRecord(page + 1, recordsPerPage) == StartRecord(page, recordsPerPage) + MaximumRecords(recordsPerPage)
    ensures StartRecord(page, recordsPerPage) >= 1
  {
    var n := MaximumRecords(recordsPerPage);
    assert page * n == (page - 1) * n + n;
    assert (page - 1) * n >= 0;
  }

  /** The SRU request parameters of `search`. `startRecord` comes from the page size asked for, as the client computes it; for page sizes up to 50 it is the start at which pages tile. */
  function SearchParameters(cql: string, page: int, recordsPerPage: int, exactSearch: bool): (params: map<string, string>)
    ensures params.Keys == {"version", "operation", "query", "startRecord", "maximumRecords", "collapsing", "exactSearch"}
    ensures params["query"] == cql
    ensures params["startRecord"] == IntToDecimal(StartRecordAsWritten(page, recordsPerPage))
    ensures recordsPerPage <= MaxRecords ==> params["startRecord"] == IntToDecimal(StartRecord(page, recordsPerPage))
    ensures params["maximumRecords"] == IntToDecimal(MaximumRecords(recordsPerPage))
    ensures params["exactSearch"] == if exactSearch then "true" else "false"
  {
    map[
      "version" := "1.2",
      "operation" := "searchRetrieve",
      "query" := cql,
      "startRecord" := IntToDecimal(StartRecordAsWritten(page, recordsPerPage)),
      "maximumRecords" := IntToDecimal(MaximumRecords(recordsPerPage)),
      "collapsing" := "false",
      "exactSearch" := if exactSearch then "true" else "false"]
  }
}
