/** The link validator: the anchored regular expression
      ^(https?://)?[a-zA-Z0-9\-\.]+\.[a-zA-Z]{2,}(:[0-9]+)?(/.*)?$
    with RE2 semantics (`.` excludes newline, `$` only at the end of the text).
    `MatchesPattern` states the expression as an existential over split points;
    `CheckLink` is a deterministic recognizer, and `CheckLinkIsPattern` proves the two agree. */
module Validator {

  predicate IsLetter(c: char) { 'a' <= c <= 'z' || 'A' <= c <= 'Z' }

  predicate IsDigit(c: char) { '0' <= c <= '9' }

  /** The character class `[a-zA-Z0-9\-\.]`. */
  predicate IsHostChar(c: char) { IsLetter(c) || IsDigit(c) || c == '-' || c == '.' }

  predicate AllHost(s: string) { forall c :: c in s ==> IsHostChar(c) }

  predicate AllLetters(s: string) { forall c :: c in s ==> IsLetter(c) }

  predicate AllDigits(s: string) { forall c :: c in s ==> IsDigit(c) }

  // ---------------------------------------------------------------------------
  // The pattern, group by group

  /** `(https?://)?` */
  predicate SchemePart(p: string) { p == "" || p == "http://" || p == "https://" }

  /** `[a-zA-Z0-9\-\.]+` */
  predicate HostPart(h: string) { |h| >= 1 && AllHost(h) }

  /** `[a-zA-Z]{2,}` */
  predicate TldPart(t: string) { |t| >= 2 && AllLetters(t) }

  /** `(:[0-9]+)?` */
  predicate PortPart(p: string) { p == "" || (|p| >= 2 && p[0] == ':' && AllDigits(p[1..])) }

  /** `(/.*)?$`: without the `s` flag `.` matches anything but a newline. */
  predicate PathPart(q: string) { q == "" || (q[0] == '/' && '\n' !in q) }

  /** `r[..j]` is the host, `r[j]` the dot, `r[j + 1..k]` the label, `r[k..m]` the port
      and `r[m..]` the path. */
  predicate SplitAt(r: string, j: nat, k: nat, m: nat) {
    j < k <= m <= |r| &&
    HostPart(r[..j]) && r[j] == '.' && TldPart(r[j + 1..k]) && PortPart(r[k..m]) && PathPart(r[m..])
  }

  /** Everything after the scheme: host, `.`, top-level label, port, path. */
  ghost predicate RestMatches(r: string) {
    exists j: nat, k: nat, m: nat :: SplitAt(r, j, k, m)
  }

  /** `s[..i]` is the scheme and the rest matches. */
  ghost predicate SchemeAt(s: string, i: nat) {
    i <= |s| && SchemePart(s[..i]) && RestMatches(s[i..])
  }

  /** The whole text matches the anchored pattern. */
  ghost predicate MatchesPattern(s: string) {
    exists i: nat :: SchemeAt(s, i)
  }

  // ---------------------------------------------------------------------------
  // The recognizer

  /** Length of the longest prefix of host characters. */
  function HostSpan(r: string): (n: nat)
    ensures n <= |r| && AllHost(r[..n])
    ensures n < |r| ==> !IsHostChar(r[n])
  {
    if r == [] || !IsHostChar(r[0]) then 0
    else
      var m := HostSpan(r[1..]);
      assert r[..1 + m] == [r[0]] + r[1..][..m];
      1 + m
  }

  /** Length of the longest prefix of digits. */
  function DigitSpan(r: string): (n: nat)
    ensures n <= |r| && AllDigits(r[..n])
    ensures n < |r| ==> !IsDigit(r[n])
  {
    if r == [] || !IsDigit(r[0]) then 0
    else
      var m := DigitSpan(r[1..]);
      assert r[..1 + m] == [r[0]] + r[1..][..m];
      1 + m
  }

  /** Index of the last `.` in `h`, or -1 when there is none. */
  function LastDot(h: string): (j: int)
    ensures -1 <= j < |h|
    ensures j >= 0 ==> h[j] == '.'
    ensures j == -1 <==> '.' !in h
    ensures forall i :: j < i < |h| ==> h[i] != '.'
  {
    if h == [] then -1
    else if h[|h| - 1] == '.' then |h| - 1
    else
      var j := LastDot(h[..|h| - 1]);
      assert h == h[..|h| - 1] + [h[|h| - 1]];
      j
  }

  /** Length of the scheme prefix the pattern can consume: the longer one wins. */
  function SchemeLen(s: string): (n: nat)
    ensures n <= |s| && SchemePart(s[..n])
  {
    if |s| >= 8 && s[..8] == "https://" then 8
    else if |s| >= 7 && s[..7] == "http://" then 7
    else 0
  }

  /** Port and path after the host: `:` followed by the whole run of digits, then the path. */
  predicate TailOk(t: string) {
    if t != [] && t[0] == ':' then
      var d := DigitSpan(t[1..]);
      d >= 1 && PathPart(t[1 + d..])
    else
      PathPart(t)
  }

  /** The host and top-level label are the whole run of host characters, split at its last dot. */
  predicate RestOk(r: string) {
    var n := HostSpan(r);
    var j := LastDot(r[..n]);
    1 <= j && j + 3 <= n && AllLetters(r[j + 1..n]) && TailOk(r[n..])
  }

  /** `CheckLink`: the compiled expression is a constant, so the error branch of
      `regexp.MatchString` never returns and only the match decides. */
  predicate CheckLink(link: string) {
    RestOk(link[SchemeLen(link)..])
  }

  // ---------------------------------------------------------------------------
  // The recognizer decides exactly the pattern

  /** A run of host characters followed by a non-host character is the host span. */
  lemma HostSpanExact(r: string, k: nat)
    requires k <= |r| && AllHost(r[..k])
    requires k < |r| ==> !IsHostChar(r[k])
    ensures HostSpan(r) == k
  {
  }

  lemma DigitSpanExact(r: string, k: nat)
    requires k <= |r| && AllDigits(r[..k])
    requires k < |r| ==> !IsDigit(r[k])
    ensures DigitSpan(r) == k
  {
  }

  /** Every witness split of the pattern is the one the recognizer computes. */
  lemma RestOkComplete(r: string)
    requires RestMatches(r)
    ensures RestOk(r)
  {
    var j: nat, k: nat, m: nat :| SplitAt(r, j, k, m);
    HostSpanAt(r, j, k, m);
    LastDotAt(r, j, k);
    TailAt(r, k, m);
  }

  /** The host span of a split ends where its label ends. */
  lemma HostSpanAt(r: string, j: nat, k: nat, m: nat)
    requires SplitAt(r, j, k, m)
    ensures HostSpan(r) == k
  {
    assert r[..k] == r[..j] + [r[j]] + r[j + 1..k];
    assert AllHost(r[..k]);
    if k < |r| {
      if m > k {
        assert r[k..m][0] == r[k];
      } else {
        assert r[m..][0] == r[k];
      }
    }
    HostSpanExact(r, k);
  }

  /** The last dot before the label of a split is the split's dot. */
  lemma LastDotAt(r: string, j: nat, k: nat)
    requires j < k <= |r| && r[j] == '.' && AllLetters(r[j + 1..k])
    ensures LastDot(r[..k]) == j && r[..k][j + 1..] == r[j + 1..k]
  {
    var h := r[..k];
    forall i | j < i < |h| ensures h[i] != '.' {
      assert h[i] == r[j + 1..k][i - j - 1];
      assert h[i] in r[j + 1..k];
    }
    assert h[j + 1..] == r[j + 1..k];
  }

  /** Port and path of a split satisfy `TailOk`. */
  lemma TailAt(r: string, k: nat, m: nat)
    requires k <= m <= |r| && PortPart(r[k..m]) && PathPart(r[m..])
    ensures TailOk(r[k..])
  {
    var t := r[k..];
    if m > k {
      assert t[0] == r[k..m][0];
      assert t[1..][..m - k - 1] == r[k..m][1..];
      if m < |r| {
        assert t[1..][m - k - 1] == r[m..][0];
      }
      DigitSpanExact(t[1..], m - k - 1);
      assert t[1 + (m - k - 1)..] == r[m..];
    } else {
      assert t == r[m..];
    }
  }

  /** The split the recognizer computes is a witness of the pattern. */
  lemma RestOkSound(r: string)
    requires RestOk(r)
    ensures RestMatches(r)
  {
    var n := HostSpan(r);
    var h := r[..n];
    var j := LastDot(h);
    assert r[..j] == h[..j];
    assert forall c :: c in h[..j] ==> c in h;
    assert r[j] == h[j];
    var t := r[n..];
    var m: nat;
    if t != [] && t[0] == ':' {
      var d := DigitSpan(t[1..]);
      m := n + 1 + d;
      assert r[n..m] == t[..1 + d];
      assert r[n..m][1..] == t[1..][..d];
      assert r[m..] == t[1 + d..];
    } else {
      m := n;
      assert r[m..] == t;
    }
    assert SplitAt(r, j, n, m);
  }

  /** A text starting with a bare scheme word has no host before its `:`. */
  lemma NoRestAtScheme(s: string)
    requires |s| >= 7 && (s[..7] == "http://" || (|s| >= 8 && s[..8] == "https://"))
    ensures !RestOk(s)
  {
    var k := if s[..7] == "http://" then 4 else 5;
    assert s[k] == ':' by {
      if k == 4 { assert s[..7][4] == s[4]; } else { assert s[..8][5] == s[5]; }
    }
    assert s[..k] == if k == 4 then "http" else "https" by {
      if k == 4 { assert s[..k] == s[..7][..4]; } else { assert s[..k] == s[..8][..5]; }
    }
    HostSpanExact(s, k);
    assert '.' !in s[..k];
  }

  /** The scheme the recognizer strips is the only one a match can use. */
  lemma SchemeUnique(s: string, i: nat)
    requires i <= |s| && SchemePart(s[..i]) && RestOk(s[i..])
    ensures SchemeLen(s) == i
  {
    if i == 0 {
      assert s[0..] == s;
      if |s| >= 8 && s[..8] == "https://" {
        NoRestAtScheme(s);
      } else if |s| >= 7 && s[..7] == "http://" {
        NoRestAtScheme(s);
      }
    } else if i == 7 {
      assert s[..7] == "http://";
      if |s| >= 8 {
        assert s[..8][4] == s[..7][4];
      }
    }
  }

  /** `CheckLink(link)` holds exactly for the texts the anchored pattern matches. */
  lemma CheckLinkIsPattern(link: string)
    ensures CheckLink(link) <==> MatchesPattern(link)
  {
    if CheckLink(link) {
      RestOkSound(link[SchemeLen(link)..]);
      assert SchemeAt(link, SchemeLen(link));
    }
    if MatchesPattern(link) {
      var i: nat :| SchemeAt(link, i);
      RestOkComplete(link[i..]);
      SchemeUnique(link, i);
    }
  }

  // ---------------------------------------------------------------------------
  // Consequences and the examples the repository's tests name

  /** Assembling the pattern's groups yields a match. */
  lemma MatchFromParts(p: string, h: string, t: string, port: string, path: string)
    requires SchemePart(p) && HostPart(h) && TldPart(t) && PortPart(port) && PathPart(path)
    ensures MatchesPattern(p + (h + "." + t + port + path))
  {
    SplitOfParts(h, t, port, path);
    SchemeOfParts(p, h + "." + t + port + path);
  }

  lemma SchemeOfParts(p: string, r: string)
    requires SchemePart(p) && RestMatches(r)
    ensures MatchesPattern(p + r)
  {
    var s := p + r;
    assert s[..|p|] == p && s[|p|..] == r;
    assert SchemeAt(s, |p|);
  }

  lemma AcceptedByPattern(link: string)
    requires MatchesPattern(link)
    ensures CheckLink(link)
  {
    CheckLinkIsPattern(link);
  }

  lemma SplitOfParts(h: string, t: string, port: string, path: string)
    requires HostPart(h) && TldPart(t) && PortPart(port) && PathPart(path)
    ensures RestMatches(h + "." + t + port + path)
  {
    var r := h + "." + t + port + path;
    var j := |h|;
    var k := j + 1 + |t|;
    var m := k + |port|;
    assert r[..j] == h;
    assert r[j] == '.';
    assert r[j + 1..k] == t;
    assert r[k..m] == port;
    assert r[m..] == path;
    assert SplitAt(r, j, k, m);
  }

  /** An accepted link contains a dot: the one before the top-level label. */
  lemma AcceptedHasDot(link: string)
    requires CheckLink(link)
    ensures '.' in link
  {
    var n := SchemeLen(link);
    var r := link[n..];
    var h := r[..HostSpan(r)];
    var j := LastDot(h);
    assert h[j] == link[n + j];
  }

  /** An accepted link has no newline: the host, label and port classes exclude it,
      and so does the path's `.`. */
  lemma AcceptedHasNoNewline(link: string)
    requires CheckLink(link)
    ensures '\n' !in link
  {
    var n := SchemeLen(link);
    RestNoNewline(link[n..]);
    assert link == link[..n] + link[n..];
  }

  /** The part after the scheme has no newline either. */
  lemma RestNoNewline(r: string)
    requires RestOk(r)
    ensures '\n' !in r
  {
    RestOkSound(r);
    var j: nat, k: nat, m: nat :| SplitAt(r, j, k, m);
    forall x | 0 <= x < |r| ensures r[x] != '\n' {
      NoNewlineInSplit(r, j, k, m, x);
    }
  }

  lemma NoNewlineInSplit(r: string, j: nat, k: nat, m: nat, x: nat)
    requires SplitAt(r, j, k, m) && x < |r|
    ensures r[x] != '\n'
  {
    if x < j {
      assert r[x] == r[..j][x] && r[..j][x] in r[..j];
    } else if j < x < k {
      assert r[x] == r[j + 1..k][x - j - 1] && r[j + 1..k][x - j - 1] in r[j + 1..k];
    } else if k < x < m {
      assert r[x] == r[k..m][1..][x - k - 1] && r[k..m][1..][x - k - 1] in r[k..m][1..];
    } else if x >= m {
      assert r[x] == r[m..][x - m] && r[m..][x - m] in r[m..];
    } else if x == k {
      assert r[x] == r[k..m][0];
    }
  }

  lemma AcceptsBareHost()
    ensures CheckLink("example.com")
  {
    AcceptsBareHostSplit();
    MatchFromParts("", "example", "com", "", "");
    AcceptedByPattern("example.com");
  }

  lemma AcceptsBareHostSplit()
    ensures "" + ("example" + "." + "com" + "" + "") == "example.com"
  {
  }

  lemma AcceptsHttpScheme()
    ensures CheckLink("http://example.com")
  {
    AcceptsHttpSchemeSplit();
    MatchFromParts("http://", "example", "com", "", "");
    AcceptedByPattern("http://example.com");
  }

  lemma AcceptsHttpSchemeSplit()
    ensures "http://" + ("example" + "." + "com" + "" + "") == "http://example.com"
  {
  }

  lemma AcceptsPath()
    ensures CheckLink("http://example.com/123123/c/123")
  {
    AcceptsPathSplit();
    MatchFromParts("http://", "example", "com", "", "/123123/c/123");
    AcceptedByPattern("http://example.com/123123/c/123");
  }

  lemma AcceptsPathSplit()
    ensures "http://" + ("example" + "." + "com" + "" + "/123123/c/123") == "http://example.com/123123/c/123"
  {
  }

  lemma AcceptsQueryInPath()
    ensures CheckLink("https://www.youtube.com" + "/watch?v=dQw4w9WgXcQ")
  {
    AcceptsYoutubePath("/watch?v=dQw4w9WgXcQ");
  }

  /** `https://www.youtube.com/results?search_query=super+sonic`. */
  lemma AcceptsPlusInQuery()
    ensures CheckLink("https://www.youtube.com" + "/results?search_query=super+sonic")
  {
    AcceptsYoutubePath("/results?search_query=super+sonic");
  }

  /** Any path after `https://www.youtube.com` is accepted. */
  lemma AcceptsYoutubePath(path: string)
    requires PathPart(path)
    ensures CheckLink("https://www.youtube.com" + path)
  {
    YoutubeSplit(path);
    MatchFromParts("https://", "www.youtube", "com", "", path);
    AcceptedByPattern("https://www.youtube.com" + path);
  }

  lemma YoutubeSplit(path: string)
    ensures "https://" + ("www.youtube" + "." + "com" + "" + path) == "https://www.youtube.com" + path
  {
    assert "https://" + ("www.youtube" + "." + "com" + "") == "https://www.youtube.com";
  }

  /** A scheme, a host, a dot and a label, then a character that is neither a host
      character, `:` nor `/`: the host run ends there, and neither a port nor a path
      may begin with it. */
  lemma RejectsAfterLabel(p: string, h: string, t: string, tail: string)
    requires SchemePart(p) && HostPart(h) && TldPart(t)
    requires tail != [] && tail[0] != ':' && tail[0] != '/' && !IsHostChar(tail[0])
    ensures !CheckLink(p + (h + "." + t + tail))
  {
    var r := h + "." + t + tail;
    var n := |h| + 1 + |t|;
    assert r[..n] == h + "." + t;
    forall c | c in r[..n] ensures IsHostChar(c) {
      assert c in h || c == '.' || c in t;
    }
    assert r[n..] == tail;
    HostSpanExact(r, n);
    assert r[|h| + 1..n] == t;
    LastDotAt(r, |h|, n);
    SchemeLenBeforeHost(p, r, n);
    assert (p + r)[|p|..] == r;
  }

  /** A run of at least four host characters followed by neither a host character nor `:` cannot be read as a scheme,
      so the scheme the recognizer strips is exactly the one written before it. */
  lemma SchemeLenBeforeHost(p: string, r: string, n: nat)
    requires SchemePart(p) && 4 <= n < |r| && AllHost(r[..n]) && !IsHostChar(r[n]) && r[n] != ':'
    ensures SchemeLen(p + r) == |p|
  {
    var s := p + r;
    if p == "" {
      assert s == r;
      assert r[4] != ':' by {
        if n > 4 { assert r[..n][4] in r[..n]; }
      }
      if n > 4 {
        assert r[5] != ':' by {
          if n > 5 { assert r[..n][5] in r[..n]; }
        }
      }
      assert |r| >= 8 ==> r[..8][4] == r[4] && r[..8][5] == r[5];
      assert |r| >= 7 ==> r[..7][4] == r[4];
    } else if p == "http://" {
      assert s[..7] == "http://";
      assert s[..8][4] == ':';
    } else {
      assert s[..8] == "https://";
    }
  }

  /** The case of `RejectsAfterLabel` the tests use: `http://example.com` then such a tail. */
  lemma RejectsAfterExample(s: string, tail: string)
    requires s == "http://" + "example.com" + tail
    requires tail != [] && tail[0] != ':' && tail[0] != '/' && !IsHostChar(tail[0])
    ensures !CheckLink(s)
  {
    assert "example.com" == "example" + "." + "com";
    RejectsAfterLabel("http://", "example", "com", tail);
    assert s == "http://" + ("example" + "." + "com" + tail);
  }

  lemma RejectsEmpty()
    ensures !CheckLink("")
  {
  }

  /** `http://` alone: nothing follows the scheme. */
  lemma RejectsMissingHost()
    ensures !CheckLink("http://")
  {
    var s := "http://";
    assert s[..7] == "http://";
    assert s[7..] == "";
  }

  /** `ftp://example.com`: the host run before `:` is `ftp`, which has no dot. */
  lemma RejectsUnsupportedScheme()
    ensures !CheckLink("ftp://example.com")
  {
    var s := "ftp://example.com";
    assert s == "ftp" + "://example.com";
    assert s[..8][0] == 'f' && s[..7][0] == 'f';
    assert s[..3] == "ftp";
    HostSpanExact(s, 3);
  }

  /** `?` may only appear inside the `/...` suffix. */
  lemma RejectsQueryWithoutPath()
    ensures !CheckLink("http://example.com?param=")
  {
    RejectsAfterExample("http://example.com?param=", "?param=");
  }

  lemma RejectsWhitespace()
    ensures !CheckLink("http://example.com /page")
  {
    RejectsAfterExample("http://example.com /page", " /page");
  }

  lemma RejectsNewlineInPath()
    ensures !CheckLink("http://example.com/\npage")
  {
    var s := "http://example.com/\npage";
    assert s[19] == '\n';
    if CheckLink(s) {
      AcceptedHasNoNewline(s);
    }
  }

  /** `httpgooglecom` has no dot, which every accepted link has. */
  lemma RejectsNoDot()
    ensures !CheckLink("httpgooglecom")
  {
    var s := "httpgooglecom";
    assert '.' !in s;
    if CheckLink(s) {
      AcceptedHasDot(s);
    }
  }
}
