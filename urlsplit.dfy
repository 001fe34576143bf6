/** The network-location (authority) part of a URL, as Python's
    `urllib.parse.urlsplit` (and so `urlparse`) extracts it. */
module UrlSplit {
  import opened Results
  import opened Text

  /** `urlsplit` raises `ValueError("Invalid IPv6 URL")` when the network
      location has one square bracket without the other. */
  datatype UrlError = InvalidIPv6Url

  /** The C0 control characters and space, stripped from the front. */
  predicate IsC0ControlOrSpace(c: char) { c <= ' ' }

  /** Tab, carriage return and line feed, removed everywhere. */
  predicate IsUnsafe(c: char) { c == '\t' || c == '\r' || c == '\n' }

  predicate IsAsciiAlpha(c: char) { 'a' <= c <= 'z' || 'A' <= c <= 'Z' }

  /** Letters, digits, `+`, `-` and `.`: the characters of a scheme. */
  predicate IsSchemeChar(c: char) { IsAsciiAlpha(c) || IsDigit(c) || c == '+' || c == '-' || c == '.' }

  /** Characters that end the network location. */
  predicate IsNetlocDelimiter(c: char) { c == '/' || c == '?' || c == '#' }

  function LStripC0(s: string): (r: string)
    ensures |r| <= |s| && r == s[|s| - |r|..]
    ensures r == [] || !IsC0ControlOrSpace(r[0])
    decreases |s|
  {
    if s != [] && IsC0ControlOrSpace(s[0]) then LStripC0(s[1..]) else s
  }

  function RemoveUnsafe(s: string): (r: string)
    ensures forall j :: 0 <= j < |r| ==> !IsUnsafe(r[j])
    decreases |s|
  {
    if s == [] then []
    else (if IsUnsafe(s[0]) then [] else [s[0]]) + RemoveUnsafe(s[1..])
  }

  lemma {:induction false} RemoveUnsafeKeepsSafe(s: string)
    requires forall j :: 0 <= j < |s| ==> !IsUnsafe(s[j])
    ensures RemoveUnsafe(s) == s
    decreases |s|
  {
    if s != [] {
      RemoveUnsafeKeepsSafe(s[1..]);
    }
  }

  /** Index of the first character of `s` satisfying the delimiter test,
      or `|s|` when there is none. */
  function FirstDelimiter(s: string): (i: nat)
    ensures i <= |s|
    ensures forall j :: 0 <= j < i ==> !IsNetlocDelimiter(s[j])
    ensures i < |s| ==> IsNetlocDelimiter(s[i])
    decreases |s|
  {
    if s == [] || IsNetlocDelimiter(s[0]) then 0 else 1 + FirstDelimiter(s[1..])
  }

  /** A prefix `url[..i]` ending just before the first colon is a scheme
      when it is non-empty, starts with an ASCII letter and holds only
      scheme characters. */
  predicate HasScheme(url: string, i: int)
  {
    0 < i < |url| && IsAsciiAlpha(url[0]) &&
    forall j :: 0 <= j < i ==> IsSchemeChar(url[j])
  }

  /** The URL after its scheme and colon, or all of it when it has none. */
  function AfterScheme(url: string): (rest: string)
    ensures |rest| <= |url|
  {
    var i := Find(url, ':');
    if HasScheme(url, i) then url[i + 1..] else url
  }

  /** The URL as `urlsplit` sees it after cleaning: leading control
      characters and spaces stripped, tabs and line breaks removed. */
  function Cleaned(url: string): string
  {
    RemoveUnsafe(LStripC0(url))
  }

  /** The text after a leading `//` up to the first `/`, `?` or `#`. */
  function NetlocAfterSlashes(rest: string): (netloc: string)
    requires |rest| >= 2
    ensures forall j :: 0 <= j < |netloc| ==> !IsNetlocDelimiter(netloc[j])
  {
    var tail := rest[2..];
    tail[..FirstDelimiter(tail)]
  }

  /** The network location: the text after `//` up to the first `/`, `?`
      or `#`; empty when the URL (after its scheme) does not start with
      `//`. */
  function Netloc(url: string): (r: Result<string, UrlError>)
    ensures r.Ok? ==> ('[' in r.value) == (']' in r.value)
    ensures r.Ok? ==> forall j :: 0 <= j < |r.value| ==> !IsNetlocDelimiter(r.value[j])
  {
    var rest := AfterScheme(Cleaned(url));
    if |rest| >= 2 && rest[..2] == "//" then
      var netloc := NetlocAfterSlashes(rest);
      if ('[' in netloc) != (']' in netloc) then Err(InvalidIPv6Url) else Ok(netloc)
    else Ok("")
  }

  predicate IsSafe(s: string) { forall j :: 0 <= j < |s| ==> !IsUnsafe(s[j]) }

  predicate IsScheme(s: string)
  {
    |s| > 0 && IsAsciiAlpha(s[0]) && forall j :: 0 <= j < |s| ==> IsSchemeChar(s[j])
  }

  lemma SafeConcat(a: string, b: string)
    requires IsSafe(a) && IsSafe(b)
    ensures IsSafe(a + b)
  {
    forall j | 0 <= j < |a + b| ensures !IsUnsafe((a + b)[j]) {
      if j >= |a| {
        assert (a + b)[j] == b[j - |a|];
      }
    }
  }

  lemma AfterSchemeOf(scheme: string, rest: string)
    requires IsScheme(scheme)
    ensures AfterScheme(scheme + [':'] + rest) == rest
  {
    var url := scheme + [':'] + rest;
    assert ':' !in scheme by {
      forall j | 0 <= j < |scheme| ensures scheme[j] != ':' {
        assert IsSchemeChar(scheme[j]);
      }
    }
    FindAfterFree(scheme, ':', rest);
    assert url[..|scheme|] == scheme;
    assert url[|scheme| + 1..] == rest;
  }

  lemma FirstDelimiterAfter(authority: string, tail: string)
    requires forall j :: 0 <= j < |authority| ==> !IsNetlocDelimiter(authority[j])
    requires tail == [] || IsNetlocDelimiter(tail[0])
    ensures FirstDelimiter(authority + tail) == |authority|
  {
    var t := authority + tail;
    assert forall j :: 0 <= j < |authority| ==> t[j] == authority[j];
    assert tail != [] ==> t[|authority|] == tail[0];
  }

  /** The slice of `urlsplit` after cleaning: the network location
      `authority` is what `Netloc` returns, or rejects when its brackets
      do not pair up. */
  lemma NetlocOfCleanUrl(url: string, authority: string, tail: string)
    requires Cleaned(url) == url
    requires AfterScheme(url) == "//" + authority + tail
    requires FirstDelimiter(authority + tail) == |authority|
    ensures ('[' in authority) == (']' in authority) ==> Netloc(url) == Ok(authority)
    ensures ('[' in authority) != (']' in authority) ==> Netloc(url) == Err(InvalidIPv6Url)
  {
    var rest := "//" + authority + tail;
    assert AfterScheme(Cleaned(url)) == rest;
    SlashesNetloc(authority, tail);
  }

  lemma SlashesNetloc(authority: string, tail: string)
    requires FirstDelimiter(authority + tail) == |authority|
    ensures |"//" + authority + tail| >= 2 && ("//" + authority + tail)[..2] == "//"
    ensures NetlocAfterSlashes("//" + authority + tail) == authority
  {
    var rest := "//" + authority + tail;
    assert rest[2..] == authority + tail;
    assert (authority + tail)[..|authority|] == authority;
  }

  /** The cleaning and scheme facts about `scheme://authority` followed by
      a path, query or fragment. */
  lemma SimpleUrlFacts(scheme: string, authority: string, tail: string)
    requires IsScheme(scheme)
    requires forall j :: 0 <= j < |authority| ==> !IsNetlocDelimiter(authority[j])
    requires tail == [] || IsNetlocDelimiter(tail[0])
    requires IsSafe(authority) && IsSafe(tail)
    ensures Cleaned(scheme + "://" + authority + tail) == scheme + "://" + authority + tail
    ensures AfterScheme(scheme + "://" + authority + tail) == "//" + authority + tail
    ensures FirstDelimiter(authority + tail) == |authority|
  {
    CleanSimpleUrl(scheme, authority, tail);
    SchemeColonRest(scheme, authority, tail);
    AfterSchemeOf(scheme, "//" + authority + tail);
    FirstDelimiterAfter(authority, tail);
  }

  lemma SchemeColonRest(scheme: string, authority: string, tail: string)
    ensures scheme + "://" + authority + tail == scheme + [':'] + ("//" + authority + tail)
  {
  }

  lemma CleanSimpleUrl(scheme: string, authority: string, tail: string)
    requires IsScheme(scheme)
    requires IsSafe(authority) && IsSafe(tail)
    ensures Cleaned(scheme + "://" + authority + tail) == scheme + "://" + authority + tail
  {
    var rest := "//" + authority + tail;
    var url := scheme + [':'] + rest;
    assert url == scheme + "://" + authority + tail;
    assert IsSafe(scheme) by {
      forall j | 0 <= j < |scheme| ensures !IsUnsafe(scheme[j]) {
        assert IsSchemeChar(scheme[j]);
      }
    }
    SafeConcat(authority, tail);
    SafeConcat("//", authority + tail);
    assert rest == "//" + (authority + tail);
    SafeConcat(scheme, [':']);
    SafeConcat(scheme + [':'], rest);
    assert LStripC0(url) == url;
    RemoveUnsafeKeepsSafe(url);
  }

  /** A URL of the plain form `scheme://authority` followed by a path,
      query or fragment has exactly `authority` as its network location. */
  lemma NetlocOfSimpleUrl(scheme: string, authority: string, tail: string)
    requires IsScheme(scheme)
    requires forall j :: 0 <= j < |authority| ==> !IsNetlocDelimiter(authority[j])
    requires ('[' in authority) == (']' in authority)
    requires tail == [] || IsNetlocDelimiter(tail[0])
    requires IsSafe(authority) && IsSafe(tail)
    ensures Netloc(scheme + "://" + authority + tail) == Ok(authority)
  {
    SimpleUrlFacts(scheme, authority, tail);
    NetlocOfCleanUrl(scheme + "://" + authority + tail, authority, tail);
  }

  /** The same URL with one square bracket but not the other is rejected
      as an invalid IPv6 URL. */
  lemma NetlocUnpairedBrackets(scheme: string, authority: string, tail: string)
    requires IsScheme(scheme)
    requires forall j :: 0 <= j < |authority| ==> !IsNetlocDelimiter(authority[j])
    requires ('[' in authority) != (']' in authority)
    requires tail == [] || IsNetlocDelimiter(tail[0])
    requires IsSafe(authority) && IsSafe(tail)
    ensures Netloc(scheme + "://" + authority + tail) == Err(InvalidIPv6Url)
  {
    SimpleUrlFacts(scheme, authority, tail);
    NetlocOfCleanUrl(scheme + "://" + authority + tail, authority, tail);
  }
}
