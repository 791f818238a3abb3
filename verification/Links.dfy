/** URLs in message text (app/src/lib/links.ts): where one ends, which host it names, and the segments shown. */
module Links {
  import opened Common
  import opened Strings
  import opened Decimal
  import opened Rfc822
  import opened Segments

  // --------------------------------------------------------- finding one --

  /** Not white space, nor a character prose wraps a URL in. */
  predicate InUrl(c: char) {
    !IsJsSpace(c) && c !in "<>\"'`\\"
  }

  /** Length of `http://` or `https://` in front of `s`, in any case. */
  function SchemeAt(s: string): (n: nat)
    ensures n in {0, 7, 8} && n <= |s|
    ensures n > 0 ==> s[n - 1] == '/'
  {
    if StartsWithI(s, "http://") then
      assert Lower(s[..7])[6] == '/';
      7
    else if StartsWithI(s, "https://") then
      assert Lower(s[..8])[7] == '/';
      8
    else 0
  }

  /** How many characters of `s` a URL's rest takes. */
  function UrlRun(s: string): (n: nat)
    ensures n <= |s|
  {
    if s == "" || !InUrl(s[0]) then 0 else 1 + UrlRun(s[1..])
  }

  /** Length of the match of the URL pattern in front of `s`, or 0. */
  function MatchAt(s: string): (n: nat)
    ensures n <= |s| && (n > 0 ==> n > SchemeAt(s) > 0)
  {
    var scheme := SchemeAt(s);
    if scheme == 0 || UrlRun(s[scheme..]) == 0 then 0 else scheme + UrlRun(s[scheme..])
  }

  // ------------------------------------------------------- where it ends --

  predicate IsPunctuation(c: char) {
    c in ".,;:!?'\""
  }

  function StripPunctuation(s: string): (r: string)
    ensures |r| <= |s|
  {
    if s != "" && IsPunctuation(s[|s| - 1]) then StripPunctuation(s[..|s| - 1]) else s
  }

  function CountOf(s: string, c: char): (n: nat) {
    if s == "" then 0 else CountOf(s[..|s| - 1], c) + if s[|s| - 1] == c then 1 else 0
  }

  /** Closing brackets at the end that the text did not open. */
  function StripClosing(s: string, open: char, close: char): (r: string)
    ensures |r| <= |s|
  {
    if s != "" && s[|s| - 1] == close && CountOf(s, close) > CountOf(s, open) then StripClosing(s[..|s| - 1], open, close) else s
  }

  function TrimOnce(s: string): (r: string)
    ensures |r| <= |s|
  {
    StripClosing(StripClosing(StripClosing(StripPunctuation(s), '(', ')'), '[', ']'), '{', '}')
  }

  function TrimTrailing(s: string): (r: string)
    ensures |r| <= |s|
    decreases |s|
  {
    var once := TrimOnce(s);
    if |once| == |s| then s else TrimTrailing(once)
  }

  method TrimUrl(url: string) returns (out: string)
    ensures out == TrimTrailing(url)
  {
    out := url;
    while true
      invariant TrimTrailing(out) == TrimTrailing(url)
      decreases |out|
    {
      var before := out;
      TrimOncePrefix(out);
      out := StripPunctuation(out);
      out := CloseBrackets(out, '(', ')');
      out := CloseBrackets(out, '[', ']');
      out := CloseBrackets(out, '{', '}');
      if |out| == |before| {
        return before;
      }
    }
  }

  method CloseBrackets(s: string, open: char, close: char) returns (out: string)
    ensures out == StripClosing(s, open, close)
  {
    out := s;
    while out != "" && out[|out| - 1] == close && CountOf(out, close) > CountOf(out, open)
      invariant StripClosing(out, open, close) == StripClosing(s, open, close)
    {
      out := out[..|out| - 1];
    }
  }

  predicate IsTrailing(c: char) {
    IsPunctuation(c) || c in ")]}"
  }

  /** `r` is `s` without trailing punctuation and brackets, and nothing else. */
  ghost predicate Shortened(s: string, r: string) {
    r <= s && forall c | c in s[|r|..] :: IsTrailing(c)
  }

  lemma CutMore(a: string, b: string, c: string)
    requires Shortened(a, b) && Shortened(b, c)
    ensures Shortened(a, c)
  {
    assert a[|c|..] == b[|c|..] + a[|b|..];
  }

  lemma CutOne(s: string)
    requires s != "" && IsTrailing(s[|s| - 1])
    ensures Shortened(s, s[..|s| - 1])
  {
    assert s[|s| - 1..] == [s[|s| - 1]];
  }

  lemma {:induction false} StripPunctuationCuts(s: string)
    ensures Shortened(s, StripPunctuation(s))
  {
    if s != "" && IsPunctuation(s[|s| - 1]) {
      StripPunctuationCuts(s[..|s| - 1]);
      CutOne(s);
      CutMore(s, s[..|s| - 1], StripPunctuation(s));
    }
  }

  lemma {:induction false} StripClosingCuts(s: string, open: char, close: char)
    requires close in ")]}"
    ensures Shortened(s, StripClosing(s, open, close))
  {
    if s != "" && s[|s| - 1] == close && CountOf(s, close) > CountOf(s, open) {
      StripClosingCuts(s[..|s| - 1], open, close);
      CutOne(s);
      CutMore(s, s[..|s| - 1], StripClosing(s, open, close));
    }
  }

  lemma TrimOncePrefix(s: string)
    ensures Shortened(s, TrimOnce(s)) && (|TrimOnce(s)| == |s| ==> TrimOnce(s) == s)
  {
    var a := StripPunctuation(s);
    var b := StripClosing(a, '(', ')');
    var c := StripClosing(b, '[', ']');
    var d := StripClosing(c, '{', '}');
    StripPunctuationCuts(s);
    StripClosingCuts(a, '(', ')');
    StripClosingCuts(b, '[', ']');
    StripClosingCuts(c, '{', '}');
    CutMore(s, a, b);
    CutMore(s, b, c);
    CutMore(s, c, d);
  }

  /** What trimming drops is sentence punctuation and closing brackets only, and trimming again drops nothing. */
  lemma {:induction false} TrimMeans(s: string)
    ensures Shortened(s, TrimTrailing(s)) && TrimTrailing(TrimTrailing(s)) == TrimTrailing(s)
    ensures TrimOnce(TrimTrailing(s)) == TrimTrailing(s)
    decreases |s|
  {
    TrimOncePrefix(s);
    var once := TrimOnce(s);
    if |once| < |s| {
      TrimMeans(once);
      CutMore(s, once, TrimTrailing(s));
    }
  }

  /** The last character goes: sentence punctuation, or a closing bracket there are more of than of its opener. */
  predicate Drops(s: string) {
    s != "" && var c := s[|s| - 1];
    || c in {'.', ',', ';', ':', '!', '?', '\'', '"'}
    || (c == ')' && CountOf(s, ')') > CountOf(s, '('))
    || (c == ']' && CountOf(s, ']') > CountOf(s, '['))
    || (c == '}' && CountOf(s, '}') > CountOf(s, '{'))
  }

  /** `r` is what is left of `s` once its last character was dropped as often as it may be. */
  ghost predicate DroppedTo(s: string, r: string) {
    r <= s && forall n | |r| < n <= |s| :: Drops(s[..n])
  }

  lemma DropMore(a: string, b: string, c: string)
    requires DroppedTo(a, b) && DroppedTo(b, c)
    ensures DroppedTo(a, c)
  {
    forall n | |c| < n <= |a| ensures Drops(a[..n]) {
      if n <= |b| { assert a[..n] == b[..n]; }
    }
  }

  lemma DropOne(s: string)
    requires Drops(s)
    ensures DroppedTo(s, s[..|s| - 1])
  {
    assert s[..|s|] == s;
  }

  lemma {:induction false} PunctuationDrops(s: string)
    ensures DroppedTo(s, StripPunctuation(s))
  {
    if s != "" && IsPunctuation(s[|s| - 1]) {
      PunctuationDrops(s[..|s| - 1]);
      DropOne(s);
      DropMore(s, s[..|s| - 1], StripPunctuation(s));
    }
  }

  lemma {:induction false} ClosingDrops(s: string, open: char, close: char)
    requires (open == '(' && close == ')') || (open == '[' && close == ']') || (open == '{' && close == '}')
    ensures DroppedTo(s, StripClosing(s, open, close))
  {
    if s != "" && s[|s| - 1] == close && CountOf(s, close) > CountOf(s, open) {
      ClosingDrops(s[..|s| - 1], open, close);
      DropOne(s);
      DropMore(s, s[..|s| - 1], StripClosing(s, open, close));
    }
  }

  lemma OnceDrops(s: string)
    ensures DroppedTo(s, TrimOnce(s))
    ensures Drops(s) ==> |TrimOnce(s)| < |s|
  {
    var a := StripPunctuation(s);
    var b := StripClosing(a, '(', ')');
    var c := StripClosing(b, '[', ']');
    PunctuationDrops(s);
    ClosingDrops(a, '(', ')');
    ClosingDrops(b, '[', ']');
    ClosingDrops(c, '{', '}');
    DropMore(s, a, b);
    DropMore(s, b, c);
    DropMore(s, c, TrimOnce(s));
  }

  /** Trimming drops the last character as long as it may go, and stops at the first that may not. */
  lemma {:induction false} TrimExactly(s: string)
    ensures DroppedTo(s, TrimTrailing(s)) && !Drops(TrimTrailing(s))
    decreases |s|
  {
    OnceDrops(s);
    var once := TrimOnce(s);
    if |once| < |s| {
      TrimExactly(once);
      DropMore(s, once, TrimTrailing(s));
    }
  }

  // ------------------------------------------------------------- its host --

  predicate EndsAuthority(c: char) {
    c == '/' || c == '?' || c == '#'
  }

  function AuthorityEnd(rest: string): (n: nat)
    ensures n <= |rest|
  {
    if rest == "" || EndsAuthority(rest[0]) then 0 else 1 + AuthorityEnd(rest[1..])
  }

  /** What follows the last `@`. */
  function AfterAt(s: string): (r: string) {
    if s == "" then "" else if s[|s| - 1] == '@' then "" else AfterAt(s[..|s| - 1]) + [s[|s| - 1]]
  }

  /** `replace(/:\d+$/, '')`. */
  function WithoutPort(s: string): (r: string) {
    var n := DigitsEnd(s);
    if 0 < n < |s| && s[n - 1] == ':' then s[..n - 1] else s
  }

  /** Where the digits at the end begin. */
  function DigitsEnd(s: string): (n: nat)
    ensures n <= |s|
  {
    if s != "" && IsDigit(s[|s| - 1]) then DigitsEnd(s[..|s| - 1]) else |s|
  }

  function HostOf(url: string): (host: Option<string>) {
    var n := SchemeAt(url);
    if n == 0 then None
    else
      var rest := url[n..];
      var host := Lower(WithoutPort(AfterAt(rest[..AuthorityEnd(rest)])));
      if host == "" then None else Some(host)
  }

  lemma {:induction false} AuthorityIs(a: string, path: string)
    requires (forall c | c in a :: !EndsAuthority(c)) && (path == "" || EndsAuthority(path[0]))
    ensures AuthorityEnd(a + path) == |a|
  {
    if a == "" {
      assert a + path == path;
    } else {
      assert a[0] in a;
      AuthorityIs(a[1..], path);
      assert (a + path)[1..] == a[1..] + path;
    }
  }

  lemma {:induction false} AfterAtIs(user: string, host: string)
    requires '@' !in host
    ensures AfterAt(user + "@" + host) == host
  {
    var s := user + "@" + host;
    if host != "" {
      var n := |host| - 1;
      AfterAtIs(user, host[..n]);
      assert s[..|s| - 1] == user + "@" + host[..n];
      assert s[|s| - 1] == host[n] && host[n] in host;
    }
  }

  /** Whatever stands before an `@` is not the host, however much it looks like one. */
  lemma UserinfoIsNotTheHost(user: string, host: string, path: string)
    requires host != "" && '@' !in host && (forall c | c in user + "@" + host :: !EndsAuthority(c))
    requires path == "" || EndsAuthority(path[0])
    requires WithoutPort(host) == host
    ensures HostOf("https://" + (user + "@" + host + path)) == Some(Lower(host))
  {
    var rest := user + "@" + host + path;
    var url := "https://" + rest;
    SchemeIs(rest);
    assert url[8..] == rest;
    AuthorityIs(user + "@" + host, path);
    assert rest[..|user + "@" + host|] == user + "@" + host;
    AfterAtIs(user, host);
  }

  /** A port is not part of the host. */
  lemma PortIsNotTheHost(host: string, port: string, path: string)
    requires host != "" && port != "" && (forall c | c in port :: IsDigit(c)) && '@' !in host
    requires (forall c | c in host :: !EndsAuthority(c)) && (path == "" || EndsAuthority(path[0]))
    ensures HostOf("https://" + (host + ":" + port + path)) == Some(Lower(host))
  {
    var authority := host + ":" + port;
    var rest := authority + path;
    SchemeIs(rest);
    assert ("https://" + rest)[8..] == rest;
    forall c | c in authority ensures !EndsAuthority(c) && c != '@' {
      assert c in host || c == ':' || c in port;
    }
    AuthorityIs(authority, path);
    assert rest[..|authority|] == authority;
    NoAt(authority);
    PortDrops(host, port);
  }

  lemma {:induction false} NoAt(s: string)
    requires '@' !in s
    ensures AfterAt(s) == s
  {
    if s != "" {
      assert s[|s| - 1] in s;
      NoAt(s[..|s| - 1]);
    }
  }

  lemma {:induction false} DigitsAtEnd(s: string, digits: string)
    requires (forall c | c in digits :: IsDigit(c)) && (s == "" || !IsDigit(s[|s| - 1]))
    ensures DigitsEnd(s + digits) == |s|
  {
    if digits == "" {
      assert s + digits == s;
    } else {
      var n := |digits| - 1;
      assert digits[n] in digits;
      assert (s + digits)[..|s + digits| - 1] == s + digits[..n];
      DigitsAtEnd(s, digits[..n]);
    }
  }

  lemma PortDrops(host: string, port: string)
    requires host != "" && port != "" && (forall c | c in port :: IsDigit(c))
    ensures WithoutPort(host + ":" + port) == host
  {
    var s := host + ":";
    DigitsAtEnd(s, port);
    assert host + ":" + port == s + port;
    assert (s + port)[..|host|] == host;
  }

  lemma SchemeIs(rest: string)
    ensures SchemeAt("https://" + rest) == 8
  {
    var url := "https://" + rest;
    assert url[..8] == "https://";
    assert Lower("https://") == "https://";
    assert Lower(url[..7])[4] == 's';
  }

  // ------------------------------------------------------------ segments --

  /** A trimmed http(s) URL that names a host; nothing else is ever a link. */
  predicate IsGoodUrl(url: string) {
    SchemeAt(url) > 0 && HostOf(url).Some? && TrimTrailing(url) == url
  }

  /** How much of a match is a link: what trimming leaves of it, if that names a host. */
  function LinkLength(found: string): (n: nat) {
    if HostOf(TrimTrailing(found)).Some? then |TrimTrailing(found)| else 0
  }

  const URLS: Pattern := Pattern(MatchAt, LinkLength)

  lemma LinkIsGood(found: string)
    requires LinkLength(found) > 0
    ensures IsGoodUrl(found[..LinkLength(found)])
  {
    TrimMeans(found);
    assert TrimTrailing(found) == found[..|TrimTrailing(found)|];
  }

  lemma LinkIsInside(found: string)
    ensures LinkLength(found) <= |found|
  {
  }

  lemma UrlsAreSound()
    ensures Sound(URLS)
  {
    forall s: string ensures URLS.link(s) <= |s| {
      LinkIsInside(s);
    }
  }

  lemma UrlsAreGood()
    ensures ComesTo(URLS, IsGoodUrl)
  {
    forall s: string | 0 < URLS.link(s) <= |s| ensures IsGoodUrl(s[..URLS.link(s)]) {
      LinkIsGood(s);
    }
  }

  /** The segments, laid end to end, are the text; and every link among them is a good one. */
  method Linkify(text: string) returns (segments: seq<Segment>)
    ensures segments == From(URLS, text, 0, 0)
    ensures Concat(segments) == text
    ensures forall s | s in segments && s.Link? :: IsGoodUrl(s.url)
  {
    UrlsAreSound();
    UrlsAreGood();
    segments := CutText(URLS, IsGoodUrl, text);
  }

  // ------------------------------------------------ links in plain prose --

  /** A link as prose has it: a scheme, then URL characters, with a host, and nothing at its end to trim. */
  predicate Clean(url: string) {
    (IsUrl(url, "http://") || IsUrl(url, "https://")) && !Drops(url) && HostOf(url).Some?
  }

  /** The scheme, in any case, then no space and nothing prose wraps a URL in. */
  predicate IsUrl(url: string, scheme: string) {
    && |url| > |scheme| && Lower(url[..|scheme|]) == scheme
    && forall i | |scheme| <= i < |url| :: !IsJsSpace(url[i]) && url[i] !in {'<', '>', '"', '\'', '`', '\\'}
  }

  lemma {:induction false} AllRuns(s: string)
    requires forall i | 0 <= i < |s| :: !IsJsSpace(s[i]) && s[i] !in {'<', '>', '"', '\'', '`', '\\'}
    ensures UrlRun(s) == |s|
  {
    if s != "" {
      AllRuns(s[1..]);
    }
  }

  lemma UrlIsMatched(url: string)
    requires IsUrl(url, "http://") || IsUrl(url, "https://")
    ensures MatchAt(url) == |url| > 0
  {
    if IsUrl(url, "http://") {
      AllRuns(url[7..]);
    } else {
      assert Lower(url[..8])[4] == 's';
      assert Lower(url[..7])[4] == Lower(url[..8])[4];
      AllRuns(url[8..]);
    }
  }

  predicate HasAt(text: string, k: nat, c: char) {
    k < |text| && LowerChar(text[k]) == c
  }

  /** Where a scheme stands there are these letters. */
  lemma SchemeLetters(text: string, i: nat)
    requires i <= |text|
    ensures SchemeAt(text[i..]) > 0 ==> HasAt(text, i, 'h') && HasAt(text, i + 1, 't') && HasAt(text, i + 2, 't') && HasAt(text, i + 3, 'p')
    ensures SchemeAt(text[i..]) == 7 ==> HasAt(text, i + 4, ':')
    ensures SchemeAt(text[i..]) == 8 ==> HasAt(text, i + 4, 's') && HasAt(text, i + 5, ':')
  {
    var s := text[i..];
    if SchemeAt(s) == 7 {
      var l := Lower(s[..7]);
      assert l == "http://" && forall k | 0 <= k < 7 :: HasAt(text, i + k, l[k]);
    } else if SchemeAt(s) == 8 {
      var l := Lower(s[..8]);
      assert l == "https://" && forall k | 0 <= k < 8 :: HasAt(text, i + k, l[k]);
    }
  }

  /** No match begins in text without a colon, whether the text ends after it or a URL follows. */
  lemma NoneIn(text: string, i: nat, p: nat)
    requires i < p <= |text| && (forall k | i <= k < p :: text[k] != ':') && (p < |text| ==> SchemeAt(text[p..]) > 0)
    ensures MatchAt(text[i..]) == 0
  {
    SchemeLetters(text, i);
    SchemeLetters(text, p);
  }

  lemma {:induction false} RunIs(url: string, after: string, n: nat)
    requires n <= |url| && UrlRun(url[n..]) == |url| - n && (after != "" ==> !InUrl(after[0]))
    ensures UrlRun(url[n..] + after) == |url| - n
    decreases |url| - n
  {
    if n == |url| {
      assert url[n..] + after == after;
    } else {
      assert url[n..][1..] == url[n + 1..];
      RunIs(url, after, n + 1);
      assert (url[n..] + after)[1..] == url[n + 1..] + after;
    }
  }

  /** A clean URL is matched whole, with prose behind it. */
  lemma CleanMatches(url: string, after: string)
    requires Clean(url) && (after != "" ==> !InUrl(after[0]))
    ensures MatchAt(url + after) == |url| && LinkLength(url) == |url|
  {
    UrlIsMatched(url);
    MatchedWhole(url, after);
    TrimExactly(url);
    CleanStays(url);
  }

  lemma MatchedWhole(url: string, after: string)
    requires MatchAt(url) == |url| > 0 && (after != "" ==> !InUrl(after[0]))
    ensures MatchAt(url + after) == |url|
  {
    var n := SchemeAt(url);
    SameScheme(url, after);
    RunIs(url, after, n);
    assert (url + after)[n..] == url[n..] + after;
  }

  lemma SameScheme(url: string, after: string)
    requires SchemeAt(url) > 0
    ensures SchemeAt(url + after) == SchemeAt(url)
  {
    assert (url + after)[..7] == url[..7];
    if SchemeAt(url) == 8 {
      assert (url + after)[..8] == url[..8];
    }
  }

  lemma CleanStays(url: string)
    requires !Drops(url) && DroppedTo(url, TrimTrailing(url))
    ensures TrimTrailing(url) == url
  {
    assert url[..|url|] == url;
  }

  /** The pattern reads prose without colons as prose, and a clean link as one, whatever comes after it that is no part of a URL. */
  lemma UrlsAreRead()
    ensures ReadsAs(URLS, Clean, InUrl)
  {
    forall url: string, rest: string | Clean(url) && (rest != "" ==> !InUrl(rest[0]))
      ensures MatchesWhole(URLS, url, rest)
    {
      CleanMatches(url, rest);
    }
    forall text: string, i: nat, q: nat | i < q <= |text| && NoColon(text, i, q) ensures NoneBefore(URLS, text, i, q) {
      if q == |text| || MatchAt(text[q..]) > 0 {
        NoneIn(text, i, q);
      }
    }
  }

  /** Every clean link in plain prose is shown as one, whole, and the prose as prose: the text reads back as its pieces. */
  lemma PlainLinksAreShown(first: string, pieces: seq<Piece>)
    requires ':' !in first && (first != "" ==> !IsAlnum(first[|first| - 1])) && Readable(Clean, InUrl, pieces)
    ensures From(URLS, first + TextOf(pieces), 0, 0) == ProseOf(first) + ShownAs(pieces)
  {
    UrlsAreRead();
    PiecesAreShown(URLS, Clean, InUrl, first, pieces);
  }

  /** What looks like a link but goes on a word is no link. */
  lemma InAWordIsNoLink(word: string, url: string, after: string)
    requires word != "" && ':' !in word && IsAlnum(word[|word| - 1]) && Clean(url) && Plain(InUrl, after)
    ensures From(URLS, word + url + after, 0, 0) == [Prose(word + url + after)]
  {
    UrlsAreRead();
    InAWordIsProse(URLS, Clean, InUrl, word, url, after);
  }
}
