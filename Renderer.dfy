/** The renderer's smaller pieces of logic around the attribution engine: which
    navigations are worth logging, which surface a webview is, when the editor's text
    closes a paragraph, and the bounded buffer of recently saved log entries. */
module Renderer {
  import opened Common
  import Attribution

  // ---------------------------------------------------------------- substrings

  /** `sub` occurs in `s` at some position. */
  ghost predicate IsSubstring(sub: string, s: string)
  {
    exists i :: OccursAt(sub, s, i)
  }

  /** `sub` occurs in `s` starting at index `i`. */
  predicate OccursAt(sub: string, s: string, i: int)
  {
    0 <= i <= |s| - |sub| && s[i..i + |sub|] == sub
  }

  /** A string that holds a character `s` lacks never occurs in `s`. */
  lemma AbsentCharNoSubstring(sub: string, s: string, c: char)
    requires c in sub && c !in s
    ensures !IsSubstring(sub, s)
  {
  }

  /** When `sub` does not start `s`, it occurs in `s` exactly when it occurs in `s[1..]`. */
  lemma SubstringShift(sub: string, s: string)
    requires |sub| <= |s| && s[..|sub|] != sub
    ensures IsSubstring(sub, s) <==> IsSubstring(sub, s[1..])
  {
    if IsSubstring(sub, s) {
      var i :| OccursAt(sub, s, i);
      assert i != 0;
      assert s[1..][i - 1..i - 1 + |sub|] == s[i..i + |sub|];
      assert OccursAt(sub, s[1..], i - 1);
    }
    if IsSubstring(sub, s[1..]) {
      var i :| OccursAt(sub, s[1..], i);
      assert s[i + 1..i + 1 + |sub|] == s[1..][i..i + |sub|];
      assert OccursAt(sub, s, i + 1);
    }
  }

  /** `s.includes(sub)`, searching from the left: true exactly when `sub` occurs in `s`. */
  function Includes(s: string, sub: string): (r: bool)
    ensures r <==> IsSubstring(sub, s)
    decreases |s|
  {
    if |sub| > |s| then false
    else if s[..|sub|] == sub then
      assert OccursAt(sub, s, 0);
      true
    else
      SubstringShift(sub, s);
      Includes(s[1..], sub)
  }

  /** Some element of `needles` is included in `s` (the early-return `for` loops). */
  function IncludesAny(s: string, needles: seq<string>): (r: bool)
    ensures r <==> exists n :: n in needles && IsSubstring(n, s)
  {
    if needles == [] then false
    else
      assert forall n :: n in needles <==> n == needles[0] || n in needles[1..];
      Includes(s, needles[0]) || IncludesAny(s, needles[1..])
  }

  // ---------------------------------------------------------------- navigation filter

  /** Ad, analytics and social hosts whose navigations are not logged. */
  const FilteredDomains: seq<string> := [
    "doubleclick.net", "googleadservices.com", "googlesyndication.com", "google-analytics.com",
    "googletagmanager.com", "facebook.com", "facebook.net", "fbcdn.net", "twitter.com", "t.co",
    "linkedin.com", "adnxs.com", "adsrvr.org", "rubiconproject.com", "amazon-adsystem.com",
    "criteo.com", "outbrain.com", "taboola.com", "about:blank", "about:srcdoc"]

  /** Tracking-endpoint fragments; each pattern `/\/pixel\?/` matches its literal text. */
  const FilteredPatterns: seq<string> := [
    "/pixel?", "/track?", "/analytics?", "/ads?", "/ad?", "/beacon?", "/collect?", "/log?",
    "/stats?", "/metrics?"]

  /** `shouldLogNavigation(url)`; `hostname` is `new URL(url).hostname`, or `None` when
      the URL constructor throws. A navigation is logged exactly when its URL parses, no
      filtered domain occurs anywhere in its host name, and no tracking fragment occurs
      anywhere in the URL. */
  function ShouldLogNavigation(url: string, hostname: Option<string>): (r: bool)
    ensures r <==> hostname.Some?
                   && (forall d :: d in FilteredDomains ==> !IsSubstring(d, hostname.value))
                   && (forall p :: p in FilteredPatterns ==> !IsSubstring(p, url))
  {
    match hostname
    case None => false
    case Some(host) => !IncludesAny(host, FilteredDomains) && !IncludesAny(url, FilteredPatterns)
  }

  /** Because the domain test is a substring test, the entry `t.co` also matches every
      host that merely contains those four characters, so plain page loads on
      `www.reddit.com` or `www.microsoft.com` are never logged. */
  lemma SubstringDomainFiltersUnrelatedHosts()
    ensures !ShouldLogNavigation("https://www.reddit.com/", Some("www.reddit.com"))
    ensures !ShouldLogNavigation("https://www.microsoft.com/", Some("www.microsoft.com"))
  {
    var tco := FilteredDomains[9];
    assert tco == "t.co" && tco in FilteredDomains;
    assert OccursAt(tco, "www.reddit.com", 9) && IsSubstring(tco, "www.reddit.com");
    assert OccursAt(tco, "www.microsoft.com", 12) && IsSubstring(tco, "www.microsoft.com");
  }

  /** `host` is `domain` or one of its subdomains. */
  predicate InDomain(host: string, domain: string)
  {
    host == domain || (|host| > |domain| && host[|host| - |domain| - 1..] == "." + domain)
  }

  /** `host` lies inside one of `domains`. */
  predicate InAnyDomain(host: string, domains: seq<string>)
    decreases |domains|
  {
    domains != [] && (InDomain(host, domains[0]) || InAnyDomain(host, domains[1..]))
  }

  lemma {:induction false} InAnyDomainSpec(host: string, domains: seq<string>)
    ensures InAnyDomain(host, domains) <==> exists d :: d in domains && InDomain(host, d)
    decreases |domains|
  {
    if domains != [] {
      InAnyDomainSpec(host, domains[1..]);
      forall d | d in domains[1..] ensures d in domains {
      }
      if InDomain(host, domains[0]) {
        assert domains[0] in domains;
      } else {
        forall d | d in domains && InDomain(host, d) ensures d in domains[1..] {
        }
      }
    }
  }

  /** The navigation filter with the domain test read as "this domain or a subdomain of
      it", which is what a list of domain names asks for. */
  function ShouldLogNavigationByDomain(url: string, hostname: Option<string>): (r: bool)
    ensures r <==> hostname.Some? && !InAnyDomain(hostname.value, FilteredDomains)
                   && forall p :: p in FilteredPatterns ==> !IsSubstring(p, url)
  {
    match hostname
    case None => false
    case Some(host) => !InAnyDomain(host, FilteredDomains) && !IncludesAny(url, FilteredPatterns)
  }

  lemma InDomainIsSubstring(host: string, domain: string)
    requires InDomain(host, domain)
    ensures IsSubstring(domain, host)
  {
    if host != domain {
      assert host[|host| - |domain|..] == ("." + domain)[1..];
      assert OccursAt(domain, host, |host| - |domain|);
    } else {
      assert OccursAt(domain, host, 0);
    }
  }

  /** The domain reading drops only false positives: every navigation the source logs is
      still logged, every host inside a listed domain is still filtered, and the two
      unrelated hosts above are logged again. */
  lemma ByDomainOnlyDropsFalsePositives(url: string, hostname: Option<string>)
    ensures ShouldLogNavigation(url, hostname) ==> ShouldLogNavigationByDomain(url, hostname)
    ensures hostname.Some? && InAnyDomain(hostname.value, FilteredDomains) ==> !ShouldLogNavigationByDomain(url, hostname)
    ensures ShouldLogNavigationByDomain("https://www.reddit.com/", Some("www.reddit.com"))
    ensures ShouldLogNavigationByDomain("https://www.microsoft.com/", Some("www.microsoft.com"))
  {
    if hostname.Some? && InAnyDomain(hostname.value, FilteredDomains) {
      InAnyDomainSpec(hostname.value, FilteredDomains);
      var d :| d in FilteredDomains && InDomain(hostname.value, d);
      InDomainIsSubstring(hostname.value, d);
    }
    NotInFilteredDomains("www.reddit.com");
    NotInFilteredDomains("www.microsoft.com");
    NoPatternIn("https://www.reddit.com/");
    NoPatternIn("https://www.microsoft.com/");
  }

  lemma NotInDomainByFirst(host: string, domain: string)
    requires domain != [] && host != domain
    requires |host| <= |domain| || host[|host| - |domain|] != domain[0]
    ensures !InDomain(host, domain)
  {
    if |host| > |domain| {
      assert host[|host| - |domain| - 1..][1] == host[|host| - |domain|];
      assert ("." + domain)[1] == domain[0];
    }
  }

  /** Neither unrelated host lies inside a listed domain: for each domain, the host's
      character where the domain would begin differs from the domain's first. */
  lemma NotInFilteredDomains(host: string)
    requires host == "www.reddit.com" || host == "www.microsoft.com"
    ensures !InAnyDomain(host, FilteredDomains)
  {
    if host == "www.reddit.com" {
      RedditNotInDomainsFrom1();
    } else {
      MicrosoftNotInDomainsFrom1();
    }
    NotInDomainsStep(host, FilteredDomains, 0);
    assert FilteredDomains[0..] == FilteredDomains;
  }

  /** One domain more: a host outside `ds[k + 1..]` and outside `ds[k]` is outside `ds[k..]`. */
  lemma NotInDomainsStep(host: string, ds: seq<string>, k: nat)
    requires k < |ds| && ds[k] != [] && host != ds[k]
    requires |host| <= |ds[k]| || host[|host| - |ds[k]|] != ds[k][0]
    requires !InAnyDomain(host, ds[k + 1..])
    ensures !InAnyDomain(host, ds[k..])
  {
    NotInDomainByFirst(host, ds[k]);
    assert ds[k..][1..] == ds[k + 1..];
  }

  // The host-by-host chain behind `NotInFilteredDomains`, a few domains per lemma so
  // that each proof stays small: each lemma extends the previous one to more of the list.

  lemma RedditNotInDomainsFrom16()
    ensures !InAnyDomain("www.reddit.com", FilteredDomains[16..])
  {
    var host := "www.reddit.com";
    assert FilteredDomains[20..] == [];
    NotInDomainsStep(host, FilteredDomains, 19);
    NotInDomainsStep(host, FilteredDomains, 18);
    NotInDomainsStep(host, FilteredDomains, 17);
    NotInDomainsStep(host, FilteredDomains, 16);
  }

  lemma RedditNotInDomainsFrom12()
    ensures !InAnyDomain("www.reddit.com", FilteredDomains[12..])
  {
    var host := "www.reddit.com";
    RedditNotInDomainsFrom16();
    NotInDomainsStep(host, FilteredDomains, 15);
    NotInDomainsStep(host, FilteredDomains, 14);
    NotInDomainsStep(host, FilteredDomains, 13);
    NotInDomainsStep(host, FilteredDomains, 12);
  }

  lemma RedditNotInDomainsFrom10()
    ensures !InAnyDomain("www.reddit.com", FilteredDomains[10..])
  {
    var host := "www.reddit.com";
    RedditNotInDomainsFrom12();
    NotInDomainsStep(host, FilteredDomains, 11);
    NotInDomainsStep(host, FilteredDomains, 10);
  }

  lemma RedditNotInDomainsFrom8()
    ensures !InAnyDomain("www.reddit.com", FilteredDomains[8..])
  {
    var host := "www.reddit.com";
    RedditNotInDomainsFrom10();
    NotInDomainsStep(host, FilteredDomains, 9);
    NotInDomainsStep(host, FilteredDomains, 8);
  }

  lemma RedditNotInDomainsFrom6()
    ensures !InAnyDomain("www.reddit.com", FilteredDomains[6..])
  {
    var host := "www.reddit.com";
    RedditNotInDomainsFrom8();
    NotInDomainsStep(host, FilteredDomains, 7);
    NotInDomainsStep(host, FilteredDomains, 6);
  }

  lemma RedditNotInDomainsFrom4()
    ensures !InAnyDomain("www.reddit.com", FilteredDomains[4..])
  {
    var host := "www.reddit.com";
    RedditNotInDomainsFrom6();
    NotInDomainsStep(host, FilteredDomains, 5);
    NotInDomainsStep(host, FilteredDomains, 4);
  }

  lemma RedditNotInDomainsFrom2()
    ensures !InAnyDomain("www.reddit.com", FilteredDomains[2..])
  {
    var host := "www.reddit.com";
    RedditNotInDomainsFrom4();
    NotInDomainsStep(host, FilteredDomains, 3);
    NotInDomainsStep(host, FilteredDomains, 2);
  }

  lemma RedditNotInDomainsFrom1()
    ensures !InAnyDomain("www.reddit.com", FilteredDomains[1..])
  {
    var host := "www.reddit.com";
    RedditNotInDomainsFrom2();
    NotInDomainsStep(host, FilteredDomains, 1);
  }

  lemma MicrosoftNotInDomainsFrom16()
    ensures !InAnyDomain("www.microsoft.com", FilteredDomains[16..])
  {
    var host := "www.microsoft.com";
    assert FilteredDomains[20..] == [];
    NotInDomainsStep(host, FilteredDomains, 19);
    NotInDomainsStep(host, FilteredDomains, 18);
    NotInDomainsStep(host, FilteredDomains, 17);
    NotInDomainsStep(host, FilteredDomains, 16);
  }

  lemma MicrosoftNotInDomainsFrom12()
    ensures !InAnyDomain("www.microsoft.com", FilteredDomains[12..])
  {
    var host := "www.microsoft.com";
    MicrosoftNotInDomainsFrom16();
    NotInDomainsStep(host, FilteredDomains, 15);
    NotInDomainsStep(host, FilteredDomains, 14);
    NotInDomainsStep(host, FilteredDomains, 13);
    NotInDomainsStep(host, FilteredDomains, 12);
  }

  lemma MicrosoftNotInDomainsFrom10()
    ensures !InAnyDomain("www.microsoft.com", FilteredDomains[10..])
  {
    var host := "www.microsoft.com";
    MicrosoftNotInDomainsFrom12();
    NotInDomainsStep(host, FilteredDomains, 11);
    NotInDomainsStep(host, FilteredDomains, 10);
  }

  lemma MicrosoftNotInDomainsFrom8()
    ensures !InAnyDomain("www.microsoft.com", FilteredDomains[8..])
  {
    var host := "www.microsoft.com";
    MicrosoftNotInDomainsFrom10();
    NotInDomainsStep(host, FilteredDomains, 9);
    NotInDomainsStep(host, FilteredDomains, 8);
  }

  lemma MicrosoftNotInDomainsFrom6()
    ensures !InAnyDomain("www.microsoft.com", FilteredDomains[6..])
  {
    var host := "www.microsoft.com";
    MicrosoftNotInDomainsFrom8();
    NotInDomainsStep(host, FilteredDomains, 7);
    NotInDomainsStep(host, FilteredDomains, 6);
  }

  lemma MicrosoftNotInDomainsFrom4()
    ensures !InAnyDomain("www.microsoft.com", FilteredDomains[4..])
  {
    var host := "www.microsoft.com";
    MicrosoftNotInDomainsFrom6();
    NotInDomainsStep(host, FilteredDomains, 5);
    NotInDomainsStep(host, FilteredDomains, 4);
  }

  lemma MicrosoftNotInDomainsFrom2()
    ensures !InAnyDomain("www.microsoft.com", FilteredDomains[2..])
  {
    var host := "www.microsoft.com";
    MicrosoftNotInDomainsFrom4();
    NotInDomainsStep(host, FilteredDomains, 3);
    NotInDomainsStep(host, FilteredDomains, 2);
  }

  lemma MicrosoftNotInDomainsFrom1()
    ensures !InAnyDomain("www.microsoft.com", FilteredDomains[1..])
  {
    var host := "www.microsoft.com";
    MicrosoftNotInDomainsFrom2();
    NotInDomainsStep(host, FilteredDomains, 1);
  }

  lemma NoPatternIn(url: string)
    requires url in {"https://www.reddit.com/", "https://www.microsoft.com/", "about:blank", "about:srcdoc"}
    ensures forall p :: p in FilteredPatterns ==> !IsSubstring(p, url)
  {
    assert '?' !in url;
    forall p | p in FilteredPatterns ensures !IsSubstring(p, url) {
      assert p[|p| - 1] == '?';
      AbsentCharNoSubstring(p, url, '?');
    }
  }

  /** `new URL("about:blank").hostname` is the empty string, so the host test of the
      entries `about:blank` and `about:srcdoc` never fires: those pages are logged. */
  lemma AboutPagesAreLogged()
    ensures ShouldLogNavigation("about:blank", Some(""))
    ensures ShouldLogNavigation("about:srcdoc", Some(""))
  {
    forall d | d in FilteredDomains ensures !IsSubstring(d, "") {
      assert |d| > 0;
    }
    NoPatternIn("about:blank");
    NoPatternIn("about:srcdoc");
  }

  /** `s` begins with `prefix`. */
  predicate StartsWith(s: string, prefix: string)
  {
    |prefix| <= |s| && s[..|prefix|] == prefix
  }

  /** `url` is one of the `about:` pages the list names, possibly with a fragment. */
  predicate IsAboutPage(url: string)
  {
    StartsWith(url, "about:blank") || StartsWith(url, "about:srcdoc")
  }

  /** The navigation filter as meant: the domain reading above, with the `about:` entries
      compared against the URL, where such a page shows up, instead of the host name. */
  function ShouldLogNavigationIntended(url: string, hostname: Option<string>): (r: bool)
    ensures r <==> hostname.Some? && !InAnyDomain(hostname.value, FilteredDomains)
                   && (forall p :: p in FilteredPatterns ==> !IsSubstring(p, url))
                   && !IsAboutPage(url)
  {
    ShouldLogNavigationByDomain(url, hostname) && !IsAboutPage(url)
  }

  /** The intended filter drops both `about:` pages whatever their host name. */
  lemma IntendedDropsAboutPages(hostname: Option<string>)
    ensures !ShouldLogNavigationIntended("about:blank", hostname)
    ensures !ShouldLogNavigationIntended("about:srcdoc", hostname)
  {
    assert "about:blank"[..|"about:blank"|] == "about:blank";
    assert "about:srcdoc"[..|"about:srcdoc"|] == "about:srcdoc";
  }

  /** Every other URL the intended filter decides as the domain reading does, so it logs
      everything the source logs apart from the `about:` pages, and also the two hosts
      that the substring test loses. */
  lemma IntendedElsewhereByDomain(url: string, hostname: Option<string>)
    ensures !IsAboutPage(url) ==> ShouldLogNavigationIntended(url, hostname) == ShouldLogNavigationByDomain(url, hostname)
    ensures !IsAboutPage(url) && ShouldLogNavigation(url, hostname) ==> ShouldLogNavigationIntended(url, hostname)
    ensures ShouldLogNavigationIntended("https://www.reddit.com/", Some("www.reddit.com"))
    ensures ShouldLogNavigationIntended("https://www.microsoft.com/", Some("www.microsoft.com"))
  {
    ByDomainOnlyDropsFalsePositives(url, hostname);
    NotAboutPage("https://www.reddit.com/");
    NotAboutPage("https://www.microsoft.com/");
  }

  lemma NotAboutPage(url: string)
    requires |url| > 0 && url[0] == 'h'
    ensures !IsAboutPage(url)
  {
    if |url| >= |"about:blank"| {
      assert url[..|"about:blank"|][0] == 'h';
    }
    if |url| >= |"about:srcdoc"| {
      assert url[..|"about:srcdoc"|][0] == 'h';
    }
  }

  // ---------------------------------------------------------------- webview sources

  /** `getSourceFromWebview(webview)` on the webview's `id`. */
  function SourceFromWebview(webviewId: string): (source: string)
    ensures source in {"ChatGPT", "Google", "Custom", "Unknown"}
    ensures source != "Unknown" <==> webviewId in {"chatgpt-webview", "google-webview", "custom-webview"}
  {
    match webviewId
    case "chatgpt-webview" => "ChatGPT"
    case "google-webview" => "Google"
    case "custom-webview" => "Custom"
    case _ => "Unknown"
  }

  /** The webview each named source lives in. */
  function WebviewOfSource(source: string): Option<string>
  {
    match source
    case "ChatGPT" => Some("chatgpt-webview")
    case "Google" => Some("google-webview")
    case "Custom" => Some("custom-webview")
    case _ => None
  }

  /** A named source leads back to the webview it came from, and a webview's own name
      leads to its source. */
  lemma SourceFromWebviewInverse(webviewId: string)
    ensures SourceFromWebview(webviewId) != "Unknown" ==> WebviewOfSource(SourceFromWebview(webviewId)) == Some(webviewId)
  {
  }

  // ---------------------------------------------------------------- paragraph boundary

  /** `s.split('\n')`: the lines of `s`, an empty piece after every final newline. */
  function SplitLines(s: string): (lines: seq<string>)
    ensures |lines| >= 1
  {
    if s == [] then [""]
    else
      var rest := SplitLines(s[1..]);
      if s[0] == '\n' then [""] + rest else [[s[0]] + rest[0]] + rest[1..]
  }

  /** `lines.join('\n')`. */
  function JoinLines(lines: seq<string>): string
    requires |lines| >= 1
  {
    if |lines| == 1 then lines[0] else lines[0] + "\n" + JoinLines(lines[1..])
  }

  /** Splitting at newlines loses nothing: joining the lines again gives the text back,
      and no line holds a newline. */
  lemma {:induction false} SplitLinesRoundTrip(s: string)
    ensures JoinLines(SplitLines(s)) == s
    ensures forall i :: 0 <= i < |SplitLines(s)| ==> '\n' !in SplitLines(s)[i]
  {
    if s != [] {
      var rest := SplitLines(s[1..]);
      SplitLinesRoundTrip(s[1..]);
      assert s == [s[0]] + s[1..];
      if s[0] == '\n' {
        assert SplitLines(s)[1..] == rest;
      } else {
        var lines := SplitLines(s);
        assert lines[1..] == rest[1..];
        if |rest| > 1 {
          assert JoinLines(rest) == rest[0] + "\n" + JoinLines(rest[1..]);
        }
        forall i | 0 <= i < |lines| ensures '\n' !in lines[i] {
          if i > 0 {
            assert lines[i] == rest[i];
          }
        }
      }
    }
  }

  lemma {:induction false} SplitLinesAppendNewline(t: string)
    ensures SplitLines(t + "\n") == SplitLines(t) + [""]
  {
    if t == [] {
      assert t + "\n" == "\n";
      assert "\n"[1..] == [];
    } else {
      assert (t + "\n")[1..] == t[1..] + "\n";
      SplitLinesAppendNewline(t[1..]);
    }
  }

  lemma {:induction false} SplitLinesAppendChar(t: string, c: char)
    requires c != '\n'
    ensures var lines := SplitLines(t);
            SplitLines(t + [c]) == lines[..|lines| - 1] + [lines[|lines| - 1] + [c]]
  {
    if t == [] {
      assert t + [c] == [c] && [c][1..] == [];
      assert SplitLines([c]) == [[c] + ""] + [""][1..];
      assert [c] + "" == [c] && [""][1..] == [];
    } else {
      SplitLinesAppendChar(t[1..], c);
      SplitLinesConsAppendChar(t, c);
    }
  }

  /** The step of `SplitLinesAppendChar`: from the text without its first character to
      the whole text. */
  lemma SplitLinesConsAppendChar(t: string, c: char)
    requires t != [] && c != '\n'
    requires var lu := SplitLines(t[1..]);
             SplitLines(t[1..] + [c]) == lu[..|lu| - 1] + [lu[|lu| - 1] + [c]]
    ensures var lines := SplitLines(t);
            SplitLines(t + [c]) == lines[..|lines| - 1] + [lines[|lines| - 1] + [c]]
  {
    var u := t[1..];
    assert (t + [c])[0] == t[0] && (t + [c])[1..] == u + [c];
    var lu := SplitLines(u);
    if t[0] == '\n' {
      assert SplitLines(t) == [""] + lu;
      assert SplitLines(t + [c]) == [""] + SplitLines(u + [c]);
      SnocLast([""], lu, [c]);
    } else {
      assert SplitLines(t) == [[t[0]] + lu[0]] + lu[1..];
      assert SplitLines(t + [c]) == [[t[0]] + SplitLines(u + [c])[0]] + SplitLines(u + [c])[1..];
      ConsFirstSnocLast(t[0], lu, c);
    }
  }

  /** Extending the last line of `lu` commutes with putting lines in front of it. */
  lemma SnocLast(pre: seq<string>, lu: seq<string>, ext: string)
    requires lu != []
    ensures var lines := pre + lu;
            pre + (lu[..|lu| - 1] + [lu[|lu| - 1] + ext])
            == lines[..|lines| - 1] + [lines[|lines| - 1] + ext]
  {
    var lines := pre + lu;
    assert lines[..|lines| - 1] == pre + lu[..|lu| - 1];
  }

  /** Extending the last line of `lu` commutes with putting a character in front of its
      first line. */
  lemma ConsFirstSnocLast(a: char, lu: seq<string>, c: char)
    requires lu != []
    ensures var ru := lu[..|lu| - 1] + [lu[|lu| - 1] + [c]];
            var lines := [[a] + lu[0]] + lu[1..];
            [[a] + ru[0]] + ru[1..] == lines[..|lines| - 1] + [lines[|lines| - 1] + [c]]
  {
    var n := |lu|;
    var ru := lu[..n - 1] + [lu[n - 1] + [c]];
    var lines := [[a] + lu[0]] + lu[1..];
    if n == 1 {
      assert ru == [lu[0] + [c]];
      assert [a] + (lu[0] + [c]) == ([a] + lu[0]) + [c];
    } else {
      assert ru[0] == lu[0] && ru[1..] == lu[1..n - 1] + [lu[n - 1] + [c]];
      assert lines[..|lines| - 1] == [[a] + lu[0]] + lu[1..n - 1];
    }
  }

  /** The last line is empty exactly when the text is empty or ends in a newline. */
  lemma LastLineEmpty(t: string)
    ensures var lines := SplitLines(t);
            lines[|lines| - 1] == "" <==> t == "" || t[|t| - 1] == '\n'
  {
    if t != [] {
      var u := t[..|t| - 1];
      assert t == u + [t[|t| - 1]];
      if t[|t| - 1] == '\n' {
        SplitLinesAppendNewline(u);
      } else {
        SplitLinesAppendChar(u, t[|t| - 1]);
      }
    }
  }

  /** The editor's boundary test: the split has more than one line and the last two are
      empty. That is, the text ends in a blank line: it finishes with two newlines, or it
      is a single newline. */
  predicate EndsParagraph(content: string)
    ensures EndsParagraph(content) <==>
              (|content| >= 2 && content[|content| - 2..] == "\n\n") || content == "\n"
  {
    TwoEmptyLastLines(content);
    var lines := SplitLines(content);
    |lines| > 1 && lines[|lines| - 1] == "" && lines[|lines| - 2] == ""
  }

  /** The last two lines are empty exactly when the text ends in a blank line. */
  lemma TwoEmptyLastLines(content: string)
    ensures var lines := SplitLines(content);
            |lines| > 1 && lines[|lines| - 1] == "" && lines[|lines| - 2] == "" <==>
              (|content| >= 2 && content[|content| - 2..] == "\n\n") || content == "\n"
  {
    if content != [] {
      var u := content[..|content| - 1];
      var c := content[|content| - 1];
      assert content == u + [c];
      if c == '\n' {
        SplitLinesAppendNewline(u);
        LastLineEmpty(u);
        assert SplitLines(content)[|SplitLines(content)| - 2] == SplitLines(u)[|SplitLines(u)| - 1];
        if |content| >= 2 {
          assert content[|content| - 2..] == [u[|u| - 1], c];
        }
      } else {
        SplitLinesAppendChar(u, c);
      }
    }
  }

  /** The editor's input handler, attribution part: the open paragraph takes the
      editor's whole text, and when that text ends in a blank line the paragraph is
      finished. */
  method OnEditorInput(tracker: Attribution.AttributionTracker, content: string, id: string, now: int)
    requires tracker.Valid()
    modifies tracker
    ensures tracker.Valid()
    ensures tracker.activities == old(tracker.activities) && tracker.isTracking == old(tracker.isTracking)
    ensures tracker.lastActivityTime == old(tracker.lastActivityTime)
    ensures var p := Attribution.UpdatedParagraph(old(tracker.currentParagraph), content, id, now);
            if EndsParagraph(content) then
              tracker.currentParagraph == None
              && tracker.paragraphs == old(tracker.paragraphs) + [Attribution.Finished(p, tracker.activities, now)]
            else
              tracker.currentParagraph == Some(p) && tracker.paragraphs == old(tracker.paragraphs)
  {
    tracker.UpdateParagraph(content, id, now);
    if EndsParagraph(content) {
      var _ := tracker.EndParagraph(now);
    }
  }

  // ---------------------------------------------------------------- recent log buffer

  /** `window.recentLogs` keeps at most this many entries. */
  const RecentLogsCapacity := 20

  /** The fields of a saved log entry the model keeps. */
  datatype LogEntry = LogEntry(source: string, action: string, content: string)

  class RecentLogs {
    var entries: seq<LogEntry>
    /** Every entry ever saved successfully, oldest first. */
    ghost var saved: seq<LogEntry>

    ghost predicate Valid()
      reads this
    {
      entries == LastN(saved, RecentLogsCapacity)
    }

    constructor ()
      ensures Valid() && entries == [] && saved == []
    {
      entries := [];
      saved := [];
    }

    /** What `logAction` does with `entry` once `saveLog` has answered: a successful save
        appends it, dropping the oldest past twenty; a failure or error changes nothing. */
    method OnSaveResult(success: bool, entry: LogEntry)
      requires Valid()
      modifies this
      ensures Valid() && |entries| <= RecentLogsCapacity
      ensures success ==> entries == PushBounded(old(entries), entry, RecentLogsCapacity)
                          && saved == old(saved) + [entry]
      ensures !success ==> entries == old(entries) && saved == old(saved)
    {
      if success {
        PushBoundedKeepsWindow(saved, entry, RecentLogsCapacity);
        entries := entries + [entry];
        if |entries| > RecentLogsCapacity {
          entries := entries[1..];
        }
        saved := saved + [entry];
      }
    }
  }
}
