# Gallica query translator and client core, in Dafny

This project models the two parts of the `gallica_mcp` package that hold real logic, and proves properties of the model.

**The boolean query translator of `query_parser.py`.**
- The tokenizer (`_tokenize`) reads words, quoted phrases with backslash escapes, `AND`/`&&`, `OR`/`||`, `NOT`/`!` and brackets.
- The recursive-descent parser `_BooleanQueryParser` builds a syntax tree. OR binds loosest, then AND (explicit or implicit), then prefix NOT, then a primary.
- The emitter (`_emit_cql`, `_escape_cql_literal`) writes the tree as a CQL clause.
- `build_text_query_clause` chains the three.

**The deterministic parts of `GallicaClient` in `client.py`.**
- The SRU query builder `_build_cql_query` and the paging parameters of `search`.
- Identifier normalization, the cache file name and the texteBrut URLs.
- The URL fall-back loop of `_retrieve_texte_brut`.
- The pacing rule of `_wait_for_request_slot`.
- The read-through cache of `download_text`.
- The snippet cleanup of `_parse_content_search_response`.
- The whitespace passes that end `_html_to_plain_text`.

The model keeps the source's form.
- Loops are methods with `while` loops, proved equal to recursive specification functions:
  - the tokenizer (`Tokenizer.Tokenize` computes `Lex`);
  - the URL fall-back (`TextDownload.TryUrls` computes `FirstAnswer`);
  - the children loop of `_emit_cql` (`CqlEmitter.EmitChildren` computes `EmitCql`'s children);
  - the snippet loop (`ContentSearch.ParseContentSearchResponse` computes `ParseContentSearch`).
- The query builder is a method of straight-line appends (`GallicaQuery.BuildCqlQuery`, `AppendFilterClauses`), proved equal to `CqlQuery`. The list comprehensions of `_build_cql_query` are sequence comprehensions in `FieldClauses`.
- Objects that update their fields are classes:
  - the parser's cursor (`BooleanParser.BooleanQueryParser`);
  - the pacing state (`RequestPacing.RequestPacer`);
  - the cache directory with its request log (`TextDownload.TextCache`).
  Their methods are proved against the same functions.
- Pure code is functions and lemmas, for example the recursion of the emitter, normalization and the regular-expression passes.

The network is a function `server` from a URL to a transport error or a response with a status and a body. The event loop's clock is two readings per call: on entry, and on waking. The cache directory is a map from file name to text. The markup steps of `_html_to_plain_text` (lines 452-462) are a function parameter `markup`.

Three facts about the code that the model keeps:
- **A negated operand joins with ` and `.** An implicit AND joins its operands with ` and `, so a trailing `NOT` becomes ` and not …`. For the worked example `magic AND (illusion OR escape) NOT "card tricks"` the clause is `text all "magic" and (text all "illusion" or text all "escape") and not text adj "card tricks"` (`QueryExamples.TextQueryMagic`).
- **The colon stays in the cache key.** The key is only `identifier.replace('ark:/', '').replace('/', '_')`, so two spellings of one ARK get two cache files (`Identifiers.CacheKeyFollowsSpelling`).
- **Operators match in any letter case.** Operator words are recognised through `upper()` (`Tokenizer.ClassifyIgnoresCase`).

Filter values other than the text query are interpolated into the CQL without escaping, as the code does. `GallicaQuery.CreatorQuoteInjects` shows a creator name that reads as two or-ed creators.

## Model

| member | source | states |
|---|---|---|
| Tokenizer.WordLength | src/gallica_mcp/query_parser.py:66-73 | the bare word at the start of the input is the longest run of characters that are not whitespace, `(`, `)`, `"` or `!` |
| Tokenizer.Classify | src/gallica_mcp/query_parser.py:75-84 | a word becomes AND, OR or NOT exactly when its upper-cased form is `AND`/`&&`, `OR`/`\|\|` or `NOT`, with the fixed texts `AND`, `OR`, `NOT`; any other word is a WORD carrying its original text |
| Tokenizer.ClassifyIgnoresCase | src/gallica_mcp/query_parser.py:76-82 | a word and its upper-case form are classified alike |
| Tokenizer.LexPhraseStep | src/gallica_mcp/query_parser.py:34-54 | a phrase that closes becomes one PHRASE token, and reading resumes after its closing quote |
| Tokenizer.LexAtSpace | src/gallica_mcp/query_parser.py:30-32 | whitespace at the cursor is skipped |
| Tokenizer.LexAtPhrase | src/gallica_mcp/query_parser.py:34-54 | a phrase opening at the cursor yields its unescaped value, and the cursor moves past its closing quote |
| Tokenizer.LexAtOpenPhrase | src/gallica_mcp/query_parser.py:51-52 | a phrase that never closes fails with the unterminated-phrase error |
| Tokenizer.LexAtSymbol | src/gallica_mcp/query_parser.py:56-64 | `(` is LPAREN, `)` is RPAREN and `!` is NOT, each one character |
| Tokenizer.LexAtWord | src/gallica_mcp/query_parser.py:66-84 | the bare word at the cursor is read whole and classified |
| Tokenizer.ReadPhrase | src/gallica_mcp/query_parser.py:34-53 | the inner phrase loop closes exactly when the phrase scan succeeds, and then gives its value and the index after the closing quote |
| Tokenizer.ReadWord | src/gallica_mcp/query_parser.py:66-73 | the word loop stops just after the bare word |
| Tokenizer.Tokenize | src/gallica_mcp/query_parser.py:21-86 | the scanning loop gives exactly the tokens, or the error, of the recursive definition `Lex` |
| Tokenizer.ScanPhraseQuoteRun | src/gallica_mcp/query_parser.py:38-52 | when a phrase scan fails the text ends inside the phrase; when it succeeds, quote tracking resumes outside a phrase after the closing quote |
| Tokenizer.LexFailsIffPhraseOpen | src/gallica_mcp/query_parser.py:34-52 | tokenizing fails exactly when the input ends inside a quoted phrase, and then only with the unterminated-phrase error |
| Tokenizer.LexCanonical | src/gallica_mcp/query_parser.py:56-84 | every WORD is non-empty, has only word characters and is no operator; operators and brackets carry their fixed texts |
| Tokenizer.ScanPlainChar | src/gallica_mcp/query_parser.py:48-50 | an ordinary character inside a phrase is kept |
| Tokenizer.ScanEscapePair | src/gallica_mcp/query_parser.py:41-47 | a backslash is dropped and the character after it is kept literally, a quote included |
| Tokenizer.ScanEscapedPrefix | src/gallica_mcp/query_parser.py:38-50 | a backslash-escaped value inside a phrase reads back as the value, whatever follows it |
| Tokenizer.ScanEscaped | src/gallica_mcp/query_parser.py:38-53 | a phrase written with backslash escapes reads back as its value and ends right after its closing quote |
| Tokenizer.ScanPhraseOpen | src/gallica_mcp/query_parser.py:38-52 | a phrase body with no quote and no backslash never closes |
| Tokenizer.LexSpaceThen | src/gallica_mcp/query_parser.py:30-32 | leading whitespace gives no token |
| Tokenizer.LexSymbolThen | src/gallica_mcp/query_parser.py:56-64 | a leading bracket or `!` is one token |
| Tokenizer.LexWordThen | src/gallica_mcp/query_parser.py:66-84 | a leading word ends where its word characters end and is classified |
| Tokenizer.WordLengthOfWord | src/gallica_mcp/query_parser.py:66-73 | a run of word characters followed by a non-word character is one whole word |
| Tokenizer.LexPhraseThen | src/gallica_mcp/query_parser.py:34-54 | a leading escaped, quoted phrase is one PHRASE token carrying the unescaped value |
| Tokenizer.LexRenderToken | src/gallica_mcp/query_parser.py:21-86 | a canonical token, written out and followed by a space, reads back as itself |
| Tokenizer.LexRender | src/gallica_mcp/query_parser.py:21-86 | every list of canonical tokens is what the tokenizer reads from its rendering (round trip) |
| Tokenizer.ScanPhraseAppend | src/gallica_mcp/query_parser.py:38-52 | a phrase that closes ends at the same place whatever text follows |
| Tokenizer.WordLengthAppend | src/gallica_mcp/query_parser.py:66-73 | a word that ends inside a text ends at the same place whatever follows |
| Tokenizer.LexAppend | src/gallica_mcp/query_parser.py:21-86 | two texts whose seam is not inside a bare word tokenize separately: the tokens of the concatenation are the first text's tokens followed by the second's |
| LexExamples.LexImplicitAnd | src/gallica_mcp/query_parser.py:21-86 | `left right` gives two WORD tokens |
| LexExamples.LexExplicitAnd | src/gallica_mcp/query_parser.py:21-86 | `left AND right` gives WORD, AND, WORD |
| LexExamples.LexDoubleNot | src/gallica_mcp/query_parser.py:21-86 | `NOT NOT word` gives NOT, NOT, WORD |
| LexExamples.LexOrAnd | src/gallica_mcp/query_parser.py:21-86 | `a OR b AND c` gives its five tokens |
| LexExamples.LexGrouped | src/gallica_mcp/query_parser.py:21-86 | `(a OR b) AND c` gives its seven tokens |
| LexExamples.LexMagic | src/gallica_mcp/query_parser.py:21-86 | `magic AND (illusion OR escape) NOT "…"` gives the nine tokens of the worked example, the phrase unescaped |
| BooleanParser.OrOf | src/gallica_mcp/query_parser.py:136-138 | a single operand is returned bare; two or more make an OR node |
| BooleanParser.AndOf | src/gallica_mcp/query_parser.py:150-152 | a single operand is returned bare; two or more make an AND node |
| BooleanParser.OrExpr | src/gallica_mcp/query_parser.py:131-138 | an OR expression consumes at least one token and leaves a suffix; its tree is well formed (every AND and OR node has at least two children); it fails only with a grammar error |
| BooleanParser.OrTail | src/gallica_mcp/query_parser.py:134-135 | the `OR` loop leaves a suffix and a well-formed tree, or a grammar error |
| BooleanParser.AndExpr | src/gallica_mcp/query_parser.py:140-152 | the same for an AND expression, explicit or implicit |
| BooleanParser.AndTail | src/gallica_mcp/query_parser.py:143-149 | the same for the AND loop |
| BooleanParser.ExplicitAndOptional | src/gallica_mcp/query_parser.py:143-149 | before a token that starts an operand, writing `AND` changes nothing: `a b` and `a AND b` parse alike |
| BooleanParser.NotExpr | src/gallica_mcp/query_parser.py:154-158 | the same for a NOT expression |
| BooleanParser.PrimaryExpr | src/gallica_mcp/query_parser.py:160-180 | the same for a primary |
| BooleanParser.ParseQuery | src/gallica_mcp/query_parser.py:122-129 | a parsed query is well formed; the empty-query error occurs exactly for an empty token list; parsing never reports an unterminated phrase |
| BooleanParser.BooleanQueryParser.constructor | src/gallica_mcp/query_parser.py:117-120 | the cursor starts at 0 over the given tokens |
| BooleanParser.BooleanQueryParser.Parse | src/gallica_mcp/query_parser.py:122-129 | `parse` gives exactly `ParseQuery` from the cursor |
| BooleanParser.BooleanQueryParser.ParseOr | src/gallica_mcp/query_parser.py:131-138 | `_parse_or` gives the node of `OrExpr`, and the cursor stops where `OrExpr` leaves off |
| BooleanParser.BooleanQueryParser.ParseAnd | src/gallica_mcp/query_parser.py:140-152 | `_parse_and` gives the node of `AndExpr`, and the cursor stops where it leaves off |
| BooleanParser.BooleanQueryParser.ParseNot | src/gallica_mcp/query_parser.py:154-158 | `_parse_not` gives the node of `NotExpr`, and the cursor stops where it leaves off |
| BooleanParser.BooleanQueryParser.ParsePrimary | src/gallica_mcp/query_parser.py:160-180 | `_parse_primary` gives the node of `PrimaryExpr`, and the cursor stops where it leaves off |
| BooleanParser.BooleanQueryParser.Peek | src/gallica_mcp/query_parser.py:182-185 | the token under the cursor, or none at the end |
| BooleanParser.BooleanQueryParser.Advance | src/gallica_mcp/query_parser.py:187-191 | steps past and returns the token under the cursor, if there is one |
| BooleanParser.BooleanQueryParser.Match | src/gallica_mcp/query_parser.py:193-198 | steps past the token under the cursor exactly when it has the kind asked for |
| BooleanParser.BooleanQueryParser.NextStartsExpression | src/gallica_mcp/query_parser.py:200-204 | true exactly when the next token is WORD, PHRASE, LPAREN or NOT |
| CqlEmitter.EscapeCqlLiteralIsBackslashEscape | src/gallica_mcp/query_parser.py:213-215 | the two replace passes put exactly one backslash before each backslash and each double quote |
| CqlEmitter.LiteralReadsBack | src/gallica_mcp/query_parser.py:213-215 | un-escaping a quoted escaped literal recovers the value and stops at its own closing quote |
| CqlEmitter.EmitCql | src/gallica_mcp/query_parser.py:218-249 | every fragment carries its node's precedence: term 4, NOT 3, AND 2, OR 1 |
| CqlEmitter.ChildBrackets | src/gallica_mcp/query_parser.py:225-247 | AND brackets exactly its OR children, OR brackets none, NOT brackets exactly an AND or OR operand |
| CqlEmitter.EmitChildren | src/gallica_mcp/query_parser.py:232-237 | the children loop gives each child's fragment, bracketed when it binds more loosely than the parent |
| CqlEmitter.Emit | src/gallica_mcp/query_parser.py:218-249 | the recursive emitter computes `EmitCql` |
| CqlEmitter.BuildTextQueryClause | src/gallica_mcp/query_parser.py:252-257 | strip, tokenize, parse and emit, with the first error passed on |
| CqlEmitter.TextQueryEmpty | src/gallica_mcp/query_parser.py:252-257 | a query is rejected as empty exactly when its stripped text has no tokens |
| CqlEmitter.TextQueryUnterminated | src/gallica_mcp/query_parser.py:252-257 | a query is rejected for an unterminated phrase exactly when its stripped text ends inside a phrase |
| QueryExamples.ParseImplicitAnd | src/gallica_mcp/query_parser.py:140-152 | `a b` parses to AND(a, b) |
| QueryExamples.ParseExplicitAnd | src/gallica_mcp/query_parser.py:140-152 | `a AND b` parses to the same AND(a, b) |
| QueryExamples.ParseDoubleNot | src/gallica_mcp/query_parser.py:154-158 | `NOT NOT a` parses to Not(Not(a)) |
| QueryExamples.ParseOrAnd | src/gallica_mcp/query_parser.py:131-152 | `a OR b AND c` parses to OR(a, AND(b, c)) |
| QueryExamples.OrOfWords | src/gallica_mcp/query_parser.py:131-138 | `x OR y` before the end or `)` is OR(x, y) |
| QueryExamples.GroupedOrOfWords | src/gallica_mcp/query_parser.py:165-170 | `(x OR y)` is OR(x, y) |
| QueryExamples.ParseGrouped | src/gallica_mcp/query_parser.py:131-170 | `(a OR b) AND c` parses to AND(OR(a, b), c) |
| QueryExamples.ParseMagic | src/gallica_mcp/query_parser.py:122-180 | the worked example parses to AND(magic, OR(illusion, escape), NOT(phrase)) |
| QueryExamples.TermClauses | src/gallica_mcp/query_parser.py:220-223 | a word is `text all "…"`, a phrase `text adj "…"` |
| QueryExamples.EmitAnd2 | src/gallica_mcp/query_parser.py:231-238 | two AND children are joined by ` and ` |
| QueryExamples.EmitOr2 | src/gallica_mcp/query_parser.py:240-247 | two OR children are joined by ` or ` |
| QueryExamples.EmitImplicitAnd | src/gallica_mcp/query_parser.py:218-238 | AND(a, b) emits `text all "a" and text all "b"` |
| QueryExamples.EmitDoubleNot | src/gallica_mcp/query_parser.py:225-229 | Not(Not(a)) emits `not not text all "a"` without brackets |
| QueryExamples.EmitOrAnd | src/gallica_mcp/query_parser.py:231-247 | an AND inside an OR needs no brackets |
| QueryExamples.EmitGrouped | src/gallica_mcp/query_parser.py:231-247 | an OR inside an AND is bracketed |
| QueryExamples.EmitMagic | src/gallica_mcp/query_parser.py:218-247 | the worked example's tree emits `text all "magic" and (… or …) and not text adj "…"`, bracketing the OR and joining the NOT with ` and ` |
| QueryExamples.TextQueryImplicitAnd | src/gallica_mcp/query_parser.py:252-257 | `a b` gives `text all "a" and text all "b"` for any plain words |
| QueryExamples.TextQueryExplicitAnd | src/gallica_mcp/query_parser.py:252-257 | `a AND b` gives the same clause as `a b` |
| QueryExamples.TextQueryDoubleNot | src/gallica_mcp/query_parser.py:252-257 | `NOT NOT a` gives `not not text all "a"` |
| QueryExamples.TextQueryOrAnd | src/gallica_mcp/query_parser.py:252-257 | `a OR b AND c` gives its clause without brackets |
| QueryExamples.TextQueryGrouped | src/gallica_mcp/query_parser.py:252-257 | `(a OR b) AND c` brackets the OR |
| QueryExamples.TextQueryMagic | src/gallica_mcp/query_parser.py:252-257 | `magic AND (illusion OR escape) NOT "card tricks"` gives `text all "magic" and (text all "illusion" or text all "escape") and not text adj "card tricks"`, for any words and phrase |
| QueryExamples.OperatorFirstRejected | src/gallica_mcp/query_parser.py:160-180 | a query starting with AND, OR or `)` fails, naming that token |
| QueryExamples.UnclosedBracketRejected | src/gallica_mcp/query_parser.py:165-169 | a `(` whose expression runs to the end of the tokens fails with the missing-parenthesis error |
| QueryExamples.TrailingBracketRejected | src/gallica_mcp/query_parser.py:126-128 | a stray `)` after a word fails, naming it |
| QueryExamples.DanglingAndRejected | src/gallica_mcp/query_parser.py:161-163 | `a AND` fails with the unexpected-end error |
| GallicaQuery.FieldClauses | src/gallica_mcp/client.py:344 | one clause `index relation "value"` per value, in order, value unescaped |
| GallicaQuery.QueryIsSorted | src/gallica_mcp/client.py:379 | every query built ends with ` sortby dc.date/sort.ascending` |
| GallicaQuery.NoCriteriaMatchesAll | src/gallica_mcp/client.py:372-379 | there are no clauses exactly when no criterion is set, and then the query is `gallica any ""` with the sort clause |
| GallicaQuery.TextErrorPropagates | src/gallica_mcp/client.py:335-336 | the build fails exactly when the text query is not blank and the parser rejects it, and then with the parser's error |
| GallicaQuery.CreatorAlternatives | src/gallica_mcp/client.py:343-348 | one creator is emitted bare; two are joined by ` or ` inside one pair of brackets, in order |
| GallicaQuery.CreatorQuoteInjects | src/gallica_mcp/client.py:344 | a creator name containing `" or dc.creator all "` gives the same text as two or-ed creators, because values are not escaped |
| GallicaQuery.AllFiltersInOrder | src/gallica_mcp/client.py:338-370 | the filter clauses come as title, creators, types, start date, end date, language, rights |
| GallicaQuery.AppendAlternatives | src/gallica_mcp/client.py:343-356 | the creators or types step appends nothing for no values, else their clauses or-ed together |
| GallicaQuery.AppendTextClause | src/gallica_mcp/client.py:335-336 | the text step appends the parsed clause of a non-blank query, or fails with the parser's error |
| GallicaQuery.AppendFilterClauses | src/gallica_mcp/client.py:338-370 | the remaining steps append each given filter's clause, in order |
| GallicaQuery.BuildCqlQuery | src/gallica_mcp/client.py:332-379 | `_build_cql_query` computes `CqlQuery`: its clauses joined by ` and `, or the match-all clause, then the sort clause |
| GallicaQuery.MaximumRecords | src/gallica_mcp/client.py:105 | the page size sent is the size asked for, capped at 50 |
| GallicaQuery.PagesSkipRecords | src/gallica_mcp/client.py:101-105 | with 100 records a page asked for, page 1 returns records 1-50 while page 2 starts at record 101 |
| GallicaQuery.StartsAgreeWhenSmall | src/gallica_mcp/client.py:101-105 | for page sizes up to 50 the as-written start and the corrected start agree |
| GallicaQuery.PagesTile | src/gallica_mcp/client.py:101-105 | with the start taken from the page size sent, page 1 starts at record 1 and each page starts where the previous one ends |
| GallicaQuery.SearchParameters | src/gallica_mcp/client.py:101-116 | the seven SRU parameters, with the query, page size and exact-search flag as computed, and `startRecord` computed from the page size asked for, as line 102 does; for page sizes up to 50 it equals the start at which pages tile |
| Identifiers.NormalizeIdentifier | src/gallica_mcp/client.py:406-414 | the result always starts with `ark:/` |
| Identifiers.ArkOf | src/gallica_mcp/client.py:409-414 | once the identifier is stripped, every spelling gives an `ark:/` string |
| Identifiers.NormalizeKeepsArk | src/gallica_mcp/client.py:408-410 | the stripped identifier is returned unchanged exactly when it starts with `ark:/` |
| Identifiers.NormalizedIsStripped | src/gallica_mcp/client.py:406-414 | a normalized identifier has no whitespace at either end |
| Identifiers.NormalizeIdempotent | src/gallica_mcp/client.py:406-414 | normalizing twice is normalizing once |
| Identifiers.NormalizeUnprefixed | src/gallica_mcp/client.py:411-414 | a stripped identifier not starting with `ark:` gets `ark:/` in place of its leading slashes |
| Identifiers.BareSpelling | src/gallica_mcp/client.py:413-414 | `name` becomes `ark:/name` |
| Identifiers.SlashSpelling | src/gallica_mcp/client.py:413-414 | `/name` becomes `ark:/name` |
| Identifiers.ColonSpelling | src/gallica_mcp/client.py:411-414 | `ark:name` becomes `ark:/name` |
| Identifiers.ArkSpelling | src/gallica_mcp/client.py:409-410 | `ark:/name` stays as it is |
| Identifiers.CacheKey | src/gallica_mcp/client.py:215 | the cache key has no `/` |
| Identifiers.CacheFileName | src/gallica_mcp/client.py:217 | the cache file name has no `/`, so the file lies directly in the cache directory |
| Identifiers.CacheKeyOfArk | src/gallica_mcp/client.py:215 | the key of `ark:/naan/name` is `naan_name` |
| Identifiers.CacheKeyOfBare | src/gallica_mcp/client.py:215 | the key of `ark:/name` is `name` |
| Identifiers.CacheKeyOfColon | src/gallica_mcp/client.py:215 | the key of `ark:name` is as long as the identifier: nothing is removed and the colon stays |
| Identifiers.CacheKeyFollowsSpelling | src/gallica_mcp/client.py:215-221 | `ark:name` and `ark:/name` normalize alike but get different cache keys |
| Identifiers.TexteBrutUrls | src/gallica_mcp/client.py:439-445 | exactly two distinct URLs, the `.texteBrut` form first, then the `/texteBrut` form |
| Identifiers.TexteBrutUrlsOfArk | src/gallica_mcp/client.py:441 | for an `ark:/` identifier with no trailing slash, the base is the site URL, `/` and the identifier |
| TextDownload.FirstAnswerIsFirst | src/gallica_mcp/client.py:421-429 | the body returned is that of the first URL answering 200 with non-blank text |
| TextDownload.AllErrors | src/gallica_mcp/client.py:421-431 | one error entry per URL |
| TextDownload.FirstAnswerFails | src/gallica_mcp/client.py:421-437 | the attempt fails exactly when no URL answers, and then has one error entry per URL, in order |
| TextDownload.Requested | src/gallica_mcp/client.py:421-429 | there are never more requests than URLs |
| TextDownload.TryUrls | src/gallica_mcp/client.py:418-431 | the fall-back loop computes `FirstAnswer` and requests exactly `Requested` |
| TextDownload.RetrieveTexteBrut | src/gallica_mcp/client.py:416-437 | `_retrieve_texte_brut` gives the first answer among the two URLs, or the `Unable to download texteBrut` message listing every error |
| TextDownload.DownloadMiss | src/gallica_mcp/client.py:221-226 | on a miss the texteBrut URLs of the normalized identifier are tried; on success the text `_html_to_plain_text` makes of the page, with its passes in the client's order, is stored under the file name; on failure nothing is stored |
| TextDownload.DownloadHitIsFree | src/gallica_mcp/client.py:217-219 | a file already present is returned with no request and no change |
| TextDownload.DownloadSuccessNamesFile | src/gallica_mcp/client.py:217-226 | a successful download returns the identifier's file name, and that file is then in the cache |
| TextDownload.DownloadKeepsFiles | src/gallica_mcp/client.py:217-226 | a download never changes or removes a file already in the cache |
| TextDownload.RepeatDownloadFetchesNothing | src/gallica_mcp/client.py:217-219 | after a successful download, the same download requests nothing and changes nothing, whatever the server now does |
| TextDownload.StoredTextIsPlain | src/gallica_mcp/client.py:223-225 | a stored text has no CR, tab, VT or FF, no double space, no space next to a newline and no whitespace at either end |
| TextDownload.FetchInto | src/gallica_mcp/client.py:217-225 | the cache test, retrieval, conversion by `_html_to_plain_text` in the client's pass order, and store compute `DownloadInto` |
| TextDownload.TextCache.constructor | src/gallica_mcp/client.py:42-43 | the cache starts with the directory's files and no requests |
| TextDownload.TextCache.DownloadText | src/gallica_mcp/client.py:206-226 | `download_text` returns, stores and requests what `DownloadStep` says, the stored text being `_html_to_plain_text`'s in the client's pass order, appending its requests to the log |
| RequestPacing.ClampInterval | src/gallica_mcp/client.py:47 | the interval is the one given, or 0 when that is negative |
| RequestPacing.SleepsIffTooSoon | src/gallica_mcp/client.py:394-402 | a call sleeps exactly when pacing is on and the previous request is less than one interval ago, and never for a negative time |
| RequestPacing.SlotSpacing | src/gallica_mcp/client.py:392-404 | with pacing off the slot is unchanged; with it on the new slot is at least one interval after the old one |
| RequestPacing.SlotIsLatestReading | src/gallica_mcp/client.py:399-404 | the slot recorded is the later clock reading of the call |
| RequestPacing.Slots | src/gallica_mcp/client.py:404 | one recorded slot per call of a run |
| RequestPacing.RunIsSpaced | src/gallica_mcp/client.py:392-404 | across a run of paced calls, consecutive request slots are at least one interval apart |
| RequestPacing.RequestPacer.constructor | src/gallica_mcp/client.py:47-48 | the clamped interval and a last request time of 0 |
| RequestPacing.RequestPacer.WaitForRequestSlot | src/gallica_mcp/client.py:392-404 | sleeps for what remains of the interval and records the new slot; pacing off leaves the slot untouched; otherwise the slot advances by at least the interval |
| ContentSearch.TagLength | src/gallica_mcp/client.py:288 | a tag is `<`, one or more characters other than `>`, then `>` |
| ContentSearch.StripTags | src/gallica_mcp/client.py:288 | tag removal never lengthens the text |
| ContentSearch.StripTagsKeepsText | src/gallica_mcp/client.py:288 | text with no `<` passes through tag removal unchanged |
| ContentSearch.StripTagsDropsTag | src/gallica_mcp/client.py:288 | a whole tag is dropped, and what follows is stripped in turn |
| ContentSearch.WordLength | src/gallica_mcp/client.py:290 | the leading run of non-whitespace characters |
| ContentSearch.Words | src/gallica_mcp/client.py:290 | `split()` gives non-empty words with no whitespace |
| ContentSearch.JoinCollapsed | src/gallica_mcp/client.py:290 | words joined by single spaces have no leading, trailing or repeated whitespace |
| ContentSearch.WordsOfJoin | src/gallica_mcp/client.py:290 | splitting words joined by single spaces gives the words back |
| ContentSearch.CollapseIdempotent | src/gallica_mcp/client.py:290 | collapsing whitespace twice is collapsing it once |
| ContentSearch.JoinEmpty | src/gallica_mcp/client.py:290-295 | the joined text is empty exactly when there are no words |
| ContentSearch.PageOf | src/gallica_mcp/client.py:293 | the page is `None` exactly when `p_id` or its text is missing or empty, else that text |
| ContentSearch.SnippetOfKeeps | src/gallica_mcp/client.py:283-299 | an item gives a snippet exactly when its content has a word outside its tags; the snippet's text is the collapsed, tag-free content |
| ContentSearch.SnippetList | src/gallica_mcp/client.py:295-299 | an item gives at most one snippet |
| ContentSearch.Snippets | src/gallica_mcp/client.py:282-299 | never more snippets than items |
| ContentSearch.SnippetsConcat | src/gallica_mcp/client.py:282-299 | snippets are kept in item order: those of two runs of items are concatenated |
| ContentSearch.SnippetsAreClean | src/gallica_mcp/client.py:282-299 | every snippet's text is non-empty with no leading, trailing or repeated whitespace, and its page is `None` or non-empty |
| ContentSearch.ParseContentSearch | src/gallica_mcp/client.py:276-304 | a response that does not parse gives no snippets |
| ContentSearch.ParseContentSearchResponse | src/gallica_mcp/client.py:276-304 | the item loop computes `ParseContentSearch` |
| PlainText.TabsToSpaces | src/gallica_mcp/client.py:466 | the first character is kept, or becomes a space when it is a tab, VT or FF |
| PlainText.CollapseNewlines | src/gallica_mcp/client.py:467 | the first character is kept |
| PlainText.DropSpacesBeforeNewline | src/gallica_mcp/client.py:468 | the first character is kept unless it is a space |
| PlainText.DropSpacesAfterNewline | src/gallica_mcp/client.py:469 | the first character is kept |
| PlainText.SqueezeSpaces | src/gallica_mcp/client.py:470 | the first character is kept |
| PlainText.CarriageReturnsRemoved | src/gallica_mcp/client.py:463 | no carriage return is left |
| PlainText.TabsToSpacesCleans | src/gallica_mcp/client.py:466 | after the tab pass no CR, tab, VT or FF is left |
| PlainText.CollapseNewlinesKeepsClean | src/gallica_mcp/client.py:467 | the newline pass brings back no CR, tab, VT or FF |
| PlainText.DropSpacesBeforeNewlineKeepsClean | src/gallica_mcp/client.py:468 | the same for ` +\n` |
| PlainText.DropSpacesAfterNewlineKeepsClean | src/gallica_mcp/client.py:469 | the same for `\n +` |
| PlainText.SqueezeSpacesKeepsClean | src/gallica_mcp/client.py:470 | the same for ` {2,}` |
| PlainText.DropSpacesBeforeNewlineSeparates | src/gallica_mcp/client.py:468 | no space is left directly before a newline |
| PlainText.DropSpacesAfterNewlineSeparates | src/gallica_mcp/client.py:469 | no space is left directly after a newline |
| PlainText.DropSpacesAfterNewlineKeeps | src/gallica_mcp/client.py:469 | no space is put back before a newline |
| PlainText.SqueezeSpacesSeparates | src/gallica_mcp/client.py:470 | no two spaces are adjacent |
| PlainText.SqueezeSpacesKeeps | src/gallica_mcp/client.py:470 | a pair of adjacent characters other than two spaces that was absent stays absent |
| PlainText.CollapseNewlinesLimits | src/gallica_mcp/client.py:467 | no three newlines are adjacent |
| PlainText.CollapseNewlinesKeeps | src/gallica_mcp/client.py:467 | a pair of adjacent characters other than two newlines that was absent stays absent |
| PlainText.StripKeeps | src/gallica_mcp/client.py:472 | stripping keeps text clean, keeps every absent pair absent and brings back no three newlines |
| PlainText.NormalizeAsWrittenPlain | src/gallica_mcp/client.py:463-472 | in the client's order: no CR, tab, VT or FF, no double space, no space next to a newline, stripped at both ends |
| PlainText.NormalizePlain | src/gallica_mcp/client.py:463-472 | with the newline collapse last: the same, and never two blank lines in a row |
| PlainText.HtmlToPlainTextIsPlain | src/gallica_mcp/client.py:447-472 | whatever the markup steps give, the converted text has no CR, tab, VT or FF, no double space, no space next to a newline and no whitespace at either end |
| PlainText.HtmlToPlainTextCorrectedIsPlain | src/gallica_mcp/client.py:463-472 | with the blank-line collapse after the space passes, the conversion keeps all of that and never leaves two blank lines in a row |
| PlainText.HtmlToPlainTextCorrectedSettles | src/gallica_mcp/client.py:463-472 | with the blank-line collapse after the space passes, normalizing the converted text again changes nothing |
| PlainText.TabsToSpacesFixes | src/gallica_mcp/client.py:466 | the tab pass leaves clean text alone |
| PlainText.DropSpacesBeforeNewlineFixes | src/gallica_mcp/client.py:468 | ` +\n` leaves alone text with no space before a newline |
| PlainText.DropSpacesAfterNewlineFixes | src/gallica_mcp/client.py:469 | `\n +` leaves alone text with no space after a newline |
| PlainText.SqueezeSpacesFixes | src/gallica_mcp/client.py:470 | ` {2,}` leaves alone text with no double space |
| PlainText.CollapseNewlinesFixes | src/gallica_mcp/client.py:467 | `\n{3,}` leaves alone text with no three newlines in a row |
| PlainText.NormalizeFixes | src/gallica_mcp/client.py:463-472 | plain text with at most one blank line at a time passes through every pass unchanged |
| PlainText.NormalizeIdempotent | src/gallica_mcp/client.py:463-472 | with the newline collapse last, normalizing twice is normalizing once |
| PlainText.SpaceOnlyLinesSurvive | src/gallica_mcp/client.py:467-469 | in the client's order, `x\n \n \ny` comes out as `x\n\n\ny`, two blank lines |
| PlainText.SpaceOnlyLinesCollapse | src/gallica_mcp/client.py:463-472 | with the newline collapse last, the same text keeps one blank line |
| PlainText.NormalizeAsWrittenNotIdempotent | src/gallica_mcp/client.py:463-472 | in the client's order, normalizing that output again changes it |
| PlainText.HtmlToPlainTextKeepsTwoBlankLines | src/gallica_mcp/client.py:465-470 | with markup steps that change nothing, `_html_to_plain_text` turns `x\n \n \ny` into `x\n\n\ny`, where the corrected order gives `x\n\ny` |

## Left out

- Network I/O (`httpx`, `raise_for_status`, response decoding): the server is the function `server`.
- The `asyncio` semaphore and lock: their only point is concurrency. Pacing is modelled as one call at a time, with the clock readings as parameters.
- XML parsing (`ET.fromstring`, `findall`), `search`'s result parsing and `_parse_record`: a ContentSearch document is given already parsed, as its items' optional texts, or `None` when it does not parse.
- `get_snippets`' extraction of the document id (lines 244-245): it is not modelled.
- The markup steps of `_html_to_plain_text` (lines 451-462): the `<br>`/`<hr>`/block-tag substitutions, generic tag removal, the `<hr>` placeholder and `html.unescape` form the parameter `markup`.
- Unicode: `str.isspace` and `str.upper` are ASCII-only. Whitespace is the ASCII characters Python's `isspace` accepts: space, `\t`, `\n`, VT, FF, `\r` and the separators `\x1c` to `\x1f`.
- `min_request_interval` and clock readings are reals, not floats.
- Timer accuracy: the spacing of request slots proved for `RequestPacing.RequestPacer.WaitForRequestSlot` rests on an assumption about the event loop, `SleptEnough`, required of the caller: a sleep wakes no earlier than it asked to. An event loop whose timers may fire up to its clock resolution early can break it.
- The filesystem: `mkdir`, `exists`, `write_text` and `resolve()` are a map from file name to text. `download_text` returns the file name, not its resolved absolute path.
- `server.py` and `install.py`: host plumbing, with no logic of the core.
- `creators` and `doc_types` of `None`: they are modelled as empty lists, which the code treats alike.
- The parser's constructor takes the tokens. Tokenizing them first is done by `CqlEmitter.BuildTextQueryClause`, as `_BooleanQueryParser.__init__` does.
- Python's recursion limit: `_parse_or`, `_parse_and`, `_parse_not`, `_parse_primary` and `_emit_cql` (query_parser.py:131-180, 219-247) recurse once per nesting level, so about a thousand `!` or a few hundred nested brackets raise `RecursionError` rather than `QueryParseError`. The model parses and emits any depth.

## Findings

| source | as written | input that shows it | evidently intended | confidence | as-written member | corrected member |
|---|---|---|---|---|---|---|
| src/gallica_mcp/client.py:465-470 | the `\n{3,}` collapse runs before the passes that remove spaces next to newlines, so lines holding only spaces are not yet empty when blank lines are capped | `"x\n \n \ny"` gives `"x\n\n\ny"`: two blank lines survive, and normalizing again changes the text | blank lines capped at one ("keeping intentional blank lines"), with the newline collapse after the space passes | medium, not executed | PlainText.HtmlToPlainTextKeepsTwoBlankLines | PlainText.HtmlToPlainTextCorrectedIsPlain |
| src/gallica_mcp/client.py:101-105 | `startRecord` is computed from `records_per_page` before it is capped at 50 | page 2 with 100 records a page: page 1 sends records 1-50, page 2 starts at 101, so records 51-100 are never returned | `startRecord` computed from the page size actually sent | medium, not executed | GallicaQuery.PagesSkipRecords | GallicaQuery.PagesTile |
