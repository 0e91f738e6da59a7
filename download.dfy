/**
  Downloading a document's OCR text (`_retrieve_texte_brut` and `download_text` in
  client.py). The network is a function `server` from a URL to what requesting it gives.
 */
module TextDownload {
  import opened Wrappers
  import opened Strings
  import opened Identifiers
  import opened PlainText

  /** What one GET gives: an `httpx.HTTPError` with its text, or a response with a status and a body. */
  datatype FetchOutcome = TransportError(message: string) | Response(status: int, body: string)

  /** The response the client accepts: status 200 and a body that is not blank. */
  predicate Answers(o: FetchOutcome) {
    o.Response? && o.status == 200 && Strip(o.body) != []
  }

  /** The error entry recorded for a URL that did not answer. */
  function AttemptError(url: string, o: FetchOutcome): string {
    match o
    case TransportError(message) => url + " -> " + message
    case Response(status, _) => url + " -> HTTP " + IntToDecimal(status)
  }

  /** The errors of the URLs before `r`'s outcome, put in front of its own. */
  function After(errors: seq<string>, r: Result<string, seq<string>>): Result<string, seq<string>> {
    match r
    case Success(text) => Success(text)
    case Failure(rest) => Failure(errors + rest)
  }

  /** Trying `urls` in order: the body of the first that answers, or one error entry per URL, in order. */
  function FirstAnswer(urls: seq<string>, server: string -> FetchOutcome): Result<string, seq<string>>
    decreases |urls|
  {
    if urls == [] then Failure([])
    else if Answers(server(urls[0])) then Success(server(urls[0]).body)
    else After([AttemptError(urls[0], server(urls[0]))], FirstAnswer(urls[1..], server))
  }

  /** The body returned is that of the first URL that answers. */
  lemma {:induction false} FirstAnswerIsFirst(urls: seq<string>, server: string -> FetchOutcome, i: nat)
    requires i < |urls| && Answers(server(urls[i]))
    requires forall j :: 0 <= j < i ==> !Answers(server(urls[j]))
    ensures FirstAnswer(urls, server) == Success(server(urls[i]).body)
    decreases i
  {
    if i > 0 {
      assert urls[1..][i - 1] == urls[i];
      FirstAnswerIsFirst(urls[1..], server, i - 1);
    }
  }

  /** One error entry per URL, in order: what a failed attempt reports. */
  function AllErrors(urls: seq<string>, server: string -> FetchOutcome): (errors: seq<string>)
    ensures |errors| == |urls|
  {
    seq(|urls|, i requires 0 <= i < |urls| => AttemptError(urls[i], server(urls[i])))
  }

  /** Peeling off the first URL's entry. */
  lemma AllErrorsCons(urls: seq<string>, server: string -> FetchOutcome)
    requires urls != []
    ensures AllErrors(urls, server) == [AttemptError(urls[0], server(urls[0]))] + AllErrors(urls[1..], server)
  {
    var e := [AttemptError(urls[0], server(urls[0]))] + AllErrors(urls[1..], server);
    forall i | 0 <= i < |urls|
      ensures AllErrors(urls, server)[i] == e[i]
    {
      if i > 0 {
        assert urls[1..][i - 1] == urls[i];
      }
    }
  }

  /** The attempt fails exactly when no URL answers, and then holds one error entry per URL, in order. */
  lemma {:induction false} FirstAnswerFails(urls: seq<string>, server: string -> FetchOutcome)
    ensures FirstAnswer(urls, server).Failure? <==> forall i :: 0 <= i < |urls| ==> !Answers(server(urls[i]))
    ensures FirstAnswer(urls, server).Failure? ==> FirstAnswer(urls, server).error == AllErrors(urls, server)
    decreases |urls|
  {
    if urls != [] {
      FirstAnswerFails(urls[1..], server);
      if !Answers(server(urls[0])) {
        assert forall i :: 1 <= i < |urls| ==> urls[1..][i - 1] == urls[i];
        if FirstAnswer(urls[1..], server).Failure? {
          AllErrorsCons(urls, server);
        }
      }
    }
  }

  /** The URLs requested: all of them up to and including the first that answers. */
  function Requested(urls: seq<string>, server: string -> FetchOutcome): (requested: seq<string>)
    ensures |requested| <= |urls|
    decreases |urls|
  {
    if urls == [] then []
    else if Answers(server(urls[0])) then [urls[0]]
    else [urls[0]] + Requested(urls[1..], server)
  }

  /** The `RuntimeError` text when no URL answered. */
  function UnableMessage(ark: string, errors: seq<string>): string {
    "Unable to download texteBrut for " + ark + " (tried: " + Join("; ", errors) + ")"
  }

  /** `_retrieve_texte_brut` as a function of the identifier and the server. */
  function Retrieval(ark: string, server: string -> FetchOutcome): Result<string, string> {
    match FirstAnswer(TexteBrutUrls(ark), server)
    case Success(text) => Success(text)
    case Failure(errors) => Failure(UnableMessage(ark, errors))
  }

  lemma AfterAfter(errors: seq<string>, e: string, r: Result<string, seq<string>>)
    ensures After(errors, After([e], r)) == After(errors + [e], r)
  {
    if r.Failure? {
      assert errors + ([e] + r.error) == errors + [e] + r.error;
    }
  }

  /** Trying one more URL. */
  lemma FirstAnswerStep(urls: seq<string>, i: nat, server: string -> FetchOutcome)
    requires i < |urls|
    ensures FirstAnswer(urls[i..], server)
      == if Answers(server(urls[i])) then Success(server(urls[i]).body)
         else After([AttemptError(urls[i], server(urls[i]))], FirstAnswer(urls[i + 1..], server))
    ensures Requested(urls[i..], server)
      == if Answers(server(urls[i])) then [urls[i]] else [urls[i]] + Requested(urls[i + 1..], server)
  {
    assert urls[i..][0] == urls[i];
    assert urls[i..][1..] == urls[i + 1..];
  }

  /** The loop of `_retrieve_texte_brut`: the URLs in order, stopping at the first that answers. */
  method TryUrls(urls: seq<string>, server: string -> FetchOutcome) returns (r: Result<string, seq<string>>, requested: seq<string>)
    ensures r == FirstAnswer(urls, server)
    ensures requested == Requested(urls, server)
  {
    var errors: seq<string> := [];
    requested := [];
    var i := 0;
    assert urls[0..] == urls;
    AppendEmpty(Requested(urls, server));
    if FirstAnswer(urls, server).Failure? {
      AppendEmpty(FirstAnswer(urls, server).error);
    }
    while i < |urls|
      invariant 0 <= i <= |urls|
      invariant FirstAnswer(urls, server) == After(errors, FirstAnswer(urls[i..], server))
      invariant Requested(urls, server) == requested + Requested(urls[i..], server)
    {
      FirstAnswerStep(urls, i, server);
      var url := urls[i];
      var outcome := server(url);
      AfterAfter(errors, AttemptError(url, outcome), FirstAnswer(urls[i + 1..], server));
      AppendAssoc(requested, [url], Requested(urls[i + 1..], server));
      requested := requested + [url];
      i := i + 1;
      match outcome
      case TransportError(message) =>
        errors := errors + [url + " -> " + message];
      case Response(status, body) =>
        if status == 200 && Strip(body) != [] {
          assert Requested(urls[i - 1..], server) == [url];
          return Success(body), requested;
        }
        errors := errors + [url + " -> HTTP " + IntToDecimal(status)];
    }
    assert urls[i..] == [];
    AppendEmpty(errors);
    AppendEmpty(requested);
    r := Failure(errors);
  }

  /** `_retrieve_texte_brut`: the two texteBrut URLs of `ark`, tried in order. */
  method RetrieveTexteBrut(ark: string, server: string -> FetchOutcome) returns (r: Result<string, string>, requested: seq<string>)
    ensures r == Retrieval(ark, server)
    ensures requested == Requested(TexteBrutUrls(ark), server)
  {
    var urls := TexteBrutUrls(ark);
    var outcome;
    outcome, requested := TryUrls(urls, server);
    if outcome.Failure? {
      return Failure(UnableMessage(ark, outcome.error)), requested;
    }
    return Success(outcome.value), requested;
  }

  /** What one `download_text` call gives and leaves behind. */
  datatype Download = Download(result: Result<string, string>, files: map<string, string>, requested: seq<string>)

  /** `download_text` over the cache directory's files: a present file is returned without any request; otherwise the text is fetched, converted and stored. */
  function DownloadStep(files: map<string, string>, identifier: string, server: string -> FetchOutcome, markup: string -> string): Download {
    DownloadInto(files, CacheFileName(identifier), NormalizeIdentifier(identifier), server, markup)
  }

  /** The same step once the file name and the ARK are derived from the identifier. */
  function DownloadInto(files: map<string, string>, name: string, ark: string, server: string -> FetchOutcome, markup: string -> string): Download {
    if name in files then Download(Success(name), files, [])
    else
      var requested := Requested(TexteBrutUrls(ark), server);
      match Retrieval(ark, server)
      case Success(html) => Download(Success(name), files[name := HtmlToPlainText(html, markup)], requested)
      case Failure(message) => Download(Failure(message), files, requested)
  }

  /** The text stored for `identifier` when its file is missing and `Retrieval` gives `html`. */
  lemma DownloadMiss(files: map<string, string>, identifier: string, server: string -> FetchOutcome, markup: string -> string)
    requires CacheFileName(identifier) !in files
    ensures var d := DownloadStep(files, identifier, server, markup);
      var fetched := Retrieval(NormalizeIdentifier(identifier), server);
      && d.requested == Requested(TexteBrutUrls(NormalizeIdentifier(identifier)), server)
      && (fetched.Failure? ==> d == Download(Failure(fetched.error), files, d.requested))
      && (fetched.Success? ==>
            d == Download(Success(CacheFileName(identifier)), files[CacheFileName(identifier) := HtmlToPlainText(fetched.value, markup)], d.requested))
  {
  }

  /** A file already in the cache is returned as it is, with no request and no change. */
  lemma DownloadHitIsFree(files: map<string, string>, identifier: string, server: string -> FetchOutcome, markup: string -> string)
    requires CacheFileName(identifier) in files
    ensures DownloadStep(files, identifier, server, markup) == Download(Success(CacheFileName(identifier)), files, [])
  {
  }

  /** A successful download names the identifier's file, and that file is then in the cache. */
  lemma DownloadSuccessNamesFile(files: map<string, string>, identifier: string, server: string -> FetchOutcome, markup: string -> string)
    ensures var d := DownloadStep(files, identifier, server, markup);
      d.result.Success? ==> d.result.value == CacheFileName(identifier) && CacheFileName(identifier) in d.files
  {
    if CacheFileName(identifier) !in files {
      DownloadMiss(files, identifier, server, markup);
    }
  }

  /** A download never changes or removes a file that is already in the cache. */
  lemma DownloadKeepsFiles(files: map<string, string>, identifier: string, server: string -> FetchOutcome, markup: string -> string)
    ensures var d := DownloadStep(files, identifier, server, markup);
      forall name :: name in files ==> name in d.files && d.files[name] == files[name]
  {
    var d := DownloadStep(files, identifier, server, markup);
    if CacheFileName(identifier) !in files {
      DownloadMiss(files, identifier, server, markup);
      var fetched := Retrieval(NormalizeIdentifier(identifier), server);
      if fetched.Success? {
        var stored := HtmlToPlainText(fetched.value, markup);
        assert d.files == files[CacheFileName(identifier) := stored];
        StoreKeeps(files, CacheFileName(identifier), stored);
      }
    }
  }

  /** Storing a new file leaves every other file as it was. */
  lemma StoreKeeps(files: map<string, string>, name: string, text: string)
    requires name !in files
    ensures forall n :: n in files ==> n in files[name := text] && files[name := text][n] == files[n]
  {
  }

  /** A second download of the same identifier requests nothing, changes nothing and returns the same file, whatever the server now does. */
  lemma RepeatDownloadFetchesNothing(files: map<string, string>, identifier: string, server: string -> FetchOutcome, later: string -> FetchOutcome, markup: string -> string)
    requires DownloadStep(files, identifier, server, markup).result.Success?
    ensures var first := DownloadStep(files, identifier, server, markup);
      DownloadStep(first.files, identifier, later, markup) == Download(first.result, first.files, [])
  {
    var first := DownloadStep(files, identifier, server, markup);
    DownloadSuccessNamesFile(files, identifier, server, markup);
    DownloadHitIsFree(first.files, identifier, later, markup);
  }

  /** A stored text is plain text: no CR, tab, VT or FF, no double space, no space next to a newline, no whitespace at either end. */
  lemma StoredTextIsPlain(files: map<string, string>, identifier: string, server: string -> FetchOutcome, markup: string -> string)
    requires CacheFileName(identifier) !in files
    requires DownloadStep(files, identifier, server, markup).result.Success?
    ensures var stored := DownloadStep(files, identifier, server, markup).files[CacheFileName(identifier)];
      IsPlainText(stored)
  {
    var html := Retrieval(NormalizeIdentifier(identifier), server).value;
    HtmlToPlainTextIsPlain(html, markup);
  }

  /** What `FetchInto` computes for the identifier's file name and ARK is its `DownloadStep`; `before` is the request log it extends. */
  lemma FetchedIsStep(files: map<string, string>, identifier: string, server: string -> FetchOutcome, markup: string -> string,
                      r: Result<string, string>, newFiles: map<string, string>, requested: seq<string>, before: seq<string>)
    requires Download(r, newFiles, requested) == DownloadInto(files, CacheFileName(identifier), NormalizeIdentifier(identifier), server, markup)
    ensures var d := DownloadStep(files, identifier, server, markup);
      r == d.result && newFiles == d.files && before + requested == before + d.requested
  {
  }

  /** The cache directory of a client and the requests it has made. */
  class TextCache {
    /** The cache directory's text files, by name. */
    var files: map<string, string>
    /** Every URL requested so far, in order. */
    var requests: seq<string>

    constructor(existing: map<string, string>)
      ensures files == existing && requests == []
    {
      files := existing;
      requests := [];
    }

    /** `download_text`: the name of the identifier's file in the cache directory, downloading the text only when the file is missing. */
    method DownloadText(identifier: string, server: string -> FetchOutcome, markup: string -> string) returns (r: Result<string, string>)
      modifies this
      ensures var d := DownloadStep(old(files), identifier, server, markup);
        r == d.result && files == d.files && requests == old(requests) + d.requested
    {
      var before, log := files, requests;
      var newFiles, requested;
      r, newFiles, requested := FetchInto(before, CacheFileName(identifier), NormalizeIdentifier(identifier), server, markup);
      FetchedIsStep(before, identifier, server, markup, r, newFiles, requested, log);
      files, requests := newFiles, log + requested;
    }
  }

  /** The body of `download_text` once the file name and the ARK are known: the cache test, the retrieval and the conversion. */
  method FetchInto(files: map<string, string>, name: string, ark: string, server: string -> FetchOutcome, markup: string -> string)
    returns (r: Result<string, string>, newFiles: map<string, string>, requested: seq<string>)
    ensures Download(r, newFiles, requested) == DownloadInto(files, name, ark, server, markup)
  {
    if name in files {
      return Success(name), files, [];
    }
    var html;
    html, requested := RetrieveTexteBrut(ark, server);
    if html.Failure? {
      return Failure(html.error), files, requested;
    }
    var plainText := HtmlToPlainText(html.value, markup);
    return Success(name), files[name := plainText], requested;
  }
}
