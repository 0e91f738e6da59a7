/**
  Gallica document identifiers (ARKs) in client.py: `_normalize_identifier`, the cache file
  name `download_text` derives from an identifier, and `_build_texte_brut_urls`.
 */
module Identifiers {
  import opened Strings

  const ArkPrefix := "ark:/"
  const TextBaseUrl := "https://gallica.bnf.fr"

  /** `_normalize_identifier`: an `ark:/…` string, whatever spelling of the identifier is given. */
  function NormalizeIdentifier(identifier: string): (ark: string)
    ensures StartsWith(ark, ArkPrefix)
  {
    ArkOf(Strip(identifier))
  }

  /** The body of `_normalize_identifier` once the identifier is stripped. */
  function ArkOf(ident: string): (ark: string)
    ensures StartsWith(ark, ArkPrefix)
  {
    if StartsWith(ident, ArkPrefix) then ident
    else
      var rest := if StartsWith(ident, "ark:") then ident[4..] else ident;
      ArkPrefix + TrimStartChar(rest, '/')
  }

  /** The stripped identifier comes back as it is exactly when it already starts with `ark:/`. */
  lemma NormalizeKeepsArk(identifier: string)
    ensures NormalizeIdentifier(identifier) == Strip(identifier) <==> StartsWith(Strip(identifier), ArkPrefix)
  {
  }

  /** The prefix followed by a suffix of text that does not end in whitespace has no surrounding whitespace. */
  lemma PrefixedIsStripped(ident: string, tail: string)
    requires ident == [] || !IsSpace(ident[|ident| - 1])
    requires |tail| <= |ident| && tail == ident[|ident| - |tail|..]
    ensures Strip(ArkPrefix + tail) == ArkPrefix + tail
  {
    var ark := ArkPrefix + tail;
    if tail != [] {
      assert tail[|tail| - 1] == ident[|ident| - 1];
      assert ark[|ark| - 1] == tail[|tail| - 1];
    }
    StripUnchanged(ark);
  }

  /** Normalizing text with no whitespace at either end leaves none. */
  lemma ArkOfStripped(ident: string)
    requires ident == [] || (!IsSpace(ident[0]) && !IsSpace(ident[|ident| - 1]))
    ensures Strip(ArkOf(ident)) == ArkOf(ident)
  {
    if StartsWith(ident, ArkPrefix) {
      StripUnchanged(ident);
    } else {
      var rest := if StartsWith(ident, "ark:") then ident[4..] else ident;
      var tail := TrimStartChar(rest, '/');
      SuffixOfSuffix(ident, rest, tail);
      PrefixedIsStripped(ident, tail);
    }
  }

  /** A normalized identifier has no whitespace at either end. */
  lemma NormalizedIsStripped(identifier: string)
    ensures Strip(NormalizeIdentifier(identifier)) == NormalizeIdentifier(identifier)
  {
    StripEnds(identifier);
    ArkOfStripped(Strip(identifier));
  }

  /** `_normalize_identifier` is idempotent. */
  lemma NormalizeIdempotent(identifier: string)
    ensures NormalizeIdentifier(NormalizeIdentifier(identifier)) == NormalizeIdentifier(identifier)
  {
    NormalizedIsStripped(identifier);
  }

  lemma ArkPrefixFacts(name: string)
    requires name == [] || name[0] != '/'
    ensures StartsWith(ArkPrefix + name, ArkPrefix) && (ArkPrefix + name)[0] == 'a'
    ensures StartsWith("ark:" + name, "ark:") && !StartsWith("ark:" + name, ArkPrefix)
    ensures ("ark:" + name)[4..] == name && ("ark:" + name)[0] == 'a'
  {
    assert (ArkPrefix + name)[..5] == ArkPrefix;
    assert ("ark:" + name)[..4] == "ark:";
    if |"ark:" + name| >= 5 {
      assert ("ark:" + name)[..5][4] == name[0];
    }
  }

  /** A name that is neither `/`-led nor `ark:`-led, and has no surrounding whitespace. */
  predicate BareName(name: string) {
    (name == [] || (!IsSpace(name[0]) && !IsSpace(name[|name| - 1]) && name[0] != '/'))
    && !StartsWith(name, "ark:")
  }

  lemma NotArkLed(name: string)
    requires !StartsWith(name, "ark:")
    ensures !StartsWith(name, ArkPrefix)
  {
    if |name| >= 5 {
      assert name[..5][..4] == name[..4];
    }
  }

  /** The bare spelling gets the prefix. */
  lemma BareSpelling(name: string)
    requires BareName(name)
    ensures NormalizeIdentifier(name) == ArkPrefix + name
  {
    StripUnchanged(name);
    NotArkLed(name);
    assert TrimStartChar(name, '/') == name;
  }

  /** A stripped identifier that does not start with `ark:` gets the prefix in place of its leading slashes. */
  lemma NormalizeUnprefixed(ident: string)
    requires Strip(ident) == ident && !StartsWith(ident, "ark:")
    ensures NormalizeIdentifier(ident) == ArkPrefix + TrimStartChar(ident, '/')
  {
    NotArkLed(ident);
  }

  /** A leading slash is dropped. */
  lemma SlashSpelling(name: string)
    requires BareName(name)
    ensures NormalizeIdentifier("/" + name) == ArkPrefix + name
  {
    var s := "/" + name;
    assert s[0] == '/' && s[1..] == name;
    assert name != [] ==> s[|s| - 1] == name[|name| - 1];
    StripUnchanged(s);
    assert !StartsWith(s, "ark:") by {
      assert |s| >= 4 ==> s[..4][0] == '/';
    }
    NormalizeUnprefixed(s);
    assert TrimStartChar(name, '/') == name;
  }

  /** `ark:` without its slash gets the slash. */
  lemma ColonSpelling(name: string)
    requires BareName(name)
    ensures NormalizeIdentifier("ark:" + name) == ArkPrefix + name
  {
    ArkPrefixFacts(name);
    StripUnchanged("ark:" + name);
  }

  /** `ark:/` already normalized. */
  lemma ArkSpelling(name: string)
    requires BareName(name)
    ensures NormalizeIdentifier(ArkPrefix + name) == ArkPrefix + name
  {
    ArkPrefixFacts(name);
    StripUnchanged(ArkPrefix + name);
  }

  /** The cache file stem: `identifier.replace('ark:/', '').replace('/', '_')`. */
  function CacheKey(identifier: string): (key: string)
    ensures Lacks(key, '/')
  {
    ReplaceCharRemoves(ReplaceAll(identifier, ArkPrefix, ""), '/', "_");
    ReplaceAll(ReplaceAll(identifier, ArkPrefix, ""), "/", "_")
  }

  /** `{clean_id}.txt`: since the key has no slash, the file lies directly in the cache directory. */
  function CacheFileName(identifier: string): (name: string)
    ensures Lacks(name, '/')
  {
    CacheKey(identifier) + ".txt"
  }

  /** Text without `c` is left alone by a pattern that contains `c`. */
  lemma {:induction false} ReplaceAbsent(s: string, pattern: string, replacement: string, c: char)
    requires pattern != [] && c in pattern && Lacks(s, c)
    ensures ReplaceAll(s, pattern, replacement) == s
    decreases |s|
  {
    if |s| >= |pattern| {
      assert s[..|pattern|] != pattern by {
        var j :| 0 <= j < |pattern| && pattern[j] == c;
        assert s[..|pattern|][j] == s[j];
      }
      ReplaceAbsent(s[1..], pattern, replacement, c);
      assert s == [s[0]] + s[1..];
    }
  }

  /** The first replacement removes a leading `ark:/` from a path that has no colon. */
  lemma DropArkPrefix(path: string)
    requires Lacks(path, ':')
    ensures ReplaceAll(ArkPrefix + path, ArkPrefix, "") == path
  {
    assert (ArkPrefix + path)[..5] == ArkPrefix;
    assert (ArkPrefix + path)[5..] == path;
    ReplaceAbsent(path, ArkPrefix, "", ':');
    assert ReplaceAll(ArkPrefix + path, ArkPrefix, "") == "" + path;
    assert "" + path == path;
  }

  /** The second replacement turns the one slash of `<naan>/<name>` into an underscore. */
  lemma SlashToUnderscore(naan: string, name: string)
    requires Lacks(naan, '/') && Lacks(name, '/')
    ensures ReplaceAll(naan + "/" + name, "/", "_") == naan + "_" + name
  {
    assert naan + "/" + name == naan + ("/" + name);
    ReplaceCharConcat(naan, "/" + name, '/', "_");
    ReplaceCharCons('/', name, '/', "_");
    ReplaceAbsent(naan, "/", "_", '/');
    ReplaceAbsent(name, "/", "_", '/');
    assert naan + "_" + name == naan + ("_" + name);
  }

  /** The key of `ark:/<naan>/<name>` is `<naan>_<name>` when neither part holds a colon or a slash. */
  lemma CacheKeyOfArk(naan: string, name: string)
    requires Lacks(naan, ':') && Lacks(naan, '/') && Lacks(name, ':') && Lacks(name, '/')
    ensures CacheKey(ArkPrefix + naan + "/" + name) == naan + "_" + name
  {
    var path := naan + "/" + name;
    assert ArkPrefix + naan + "/" + name == ArkPrefix + path;
    assert Lacks(path, ':');
    DropArkPrefix(path);
    SlashToUnderscore(naan, name);
  }

  /** Two spellings that normalize alike can still be cached under different names, so the same text may be fetched twice. */
  lemma CacheKeyFollowsSpelling(name: string)
    requires name != [] && !IsSpace(name[0]) && !IsSpace(name[|name| - 1])
    requires Lacks(name, ':') && Lacks(name, '/')
    ensures NormalizeIdentifier("ark:" + name) == NormalizeIdentifier(ArkPrefix + name)
    ensures CacheKey("ark:" + name) != CacheKey(ArkPrefix + name)
  {
    assert !StartsWith(name, "ark:") by {
      if |name| >= 4 {
        assert name[..4][3] == name[3];
      }
    }
    ColonSpelling(name);
    ArkSpelling(name);
    CacheKeyOfBare(name);
    CacheKeyOfColon(name);
  }

  lemma CacheKeyOfBare(name: string)
    requires Lacks(name, ':') && Lacks(name, '/')
    ensures CacheKey(ArkPrefix + name) == name
  {
    DropArkPrefix(name);
    ReplaceAbsent(name, "/", "_", '/');
  }

  lemma CacheKeyOfColon(name: string)
    requires Lacks(name, ':') && Lacks(name, '/')
    ensures |CacheKey("ark:" + name)| == |name| + 4
  {
    assert Lacks("ark:" + name, '/');
    ReplaceAbsent("ark:" + name, ArkPrefix, "", '/');
    ReplaceAbsent("ark:" + name, "/", "_", '/');
  }

  /** `TEXT_BASE_URL/<ark without surrounding slashes>` */
  function TexteBrutBase(ark: string): string {
    TextBaseUrl + "/" + StripChar(ark, '/')
  }

  /** `_build_texte_brut_urls`: exactly two URLs, the `.texteBrut` form first, then the `/texteBrut` form. */
  function TexteBrutUrls(ark: string): (urls: seq<string>)
    ensures |urls| == 2 && urls[0] != urls[1]
    ensures urls[0] == TexteBrutBase(ark) + ".texteBrut"
    ensures urls[1] == TexteBrutBase(ark) + "/texteBrut"
  {
    var base := TexteBrutBase(ark);
    assert (base + ".texteBrut")[|base|] == '.';
    assert (base + "/texteBrut")[|base|] == '/';
    [base + ".texteBrut", base + "/texteBrut"]
  }

  /** For an `ark:/…` identifier with no trailing slash, the URLs append to the identifier as it is. */
  lemma TexteBrutUrlsOfArk(ark: string)
    requires StartsWith(ark, ArkPrefix) && ark[|ark| - 1] != '/'
    ensures TexteBrutBase(ark) == TextBaseUrl + "/" + ark
  {
    assert ark[0] == ark[..5][0];
    assert TrimStartChar(ark, '/') == ark;
    assert TrimEndChar(ark, '/') == ark;
  }
}
