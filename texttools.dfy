/**
 * URL helpers (app/utils/texttools.py): the callback-URL check, which is a
 * case-insensitive regular expression followed by a scheme/netloc check on
 * the parsed URL, and the rewriting of a URL's query parameters.
 */
module TextTools {
  import opened Wrappers
  import opened PyDict

  // ---------------------------------------------------------------------------
  // Characters and small string helpers

  predicate IsAsciiLetter(c: char) { 'a' <= c <= 'z' || 'A' <= c <= 'Z' }
  predicate IsDigit(c: char) { '0' <= c <= '9' }
  predicate IsAlnum(c: char) { IsAsciiLetter(c) || IsDigit(c) }

  function Lower(c: char): char {
    if 'A' <= c <= 'Z' then (c as int + 32) as char else c
  }

  function LowerStr(s: string): (r: string)
    ensures |r| == |s| && forall i :: 0 <= i < |s| ==> r[i] == Lower(s[i])
  {
    seq(|s|, i requires 0 <= i < |s| => Lower(s[i]))
  }

  /** The index of the first occurrence of c in s. */
  function IndexOf(s: string, c: char): (r: Option<nat>)
    ensures r.Some? ==> r.value < |s| && s[r.value] == c && forall j :: 0 <= j < r.value ==> s[j] != c
    ensures r.None? ==> forall j :: 0 <= j < |s| ==> s[j] != c
  {
    if s == [] then None
    else if s[0] == c then Some(0)
    else match IndexOf(s[1..], c)
      case None => None
      case Some(i) => Some(i + 1)
  }

  /** The index of the first character of s in cs, or |s| when there is none. */
  function FirstOf(s: string, cs: set<char>): (r: nat)
    ensures r <= |s| && (r < |s| ==> s[r] in cs)
    ensures forall j :: 0 <= j < r ==> s[j] !in cs
  {
    if s == [] then 0
    else if s[0] in cs then 0
    else 1 + FirstOf(s[1..], cs)
  }

  /** The length of the run of digits at the start of s. */
  function DigitRun(s: string): (r: nat)
    ensures r <= |s| && (r < |s| ==> !IsDigit(s[r]))
    ensures forall j :: 0 <= j < r ==> IsDigit(s[j])
  {
    if s == [] || !IsDigit(s[0]) then 0 else 1 + DigitRun(s[1..])
  }

  // ---------------------------------------------------------------------------
  // The URL regular expression, with IGNORECASE

  /** `[A-Z0-9](?:[A-Z0-9-]{0,61}[A-Z0-9])?`: one to 63 characters, alphanumeric at both ends. */
  predicate Label(l: string) {
    && 1 <= |l| <= 63
    && IsAlnum(l[0]) && IsAlnum(l[|l| - 1])
    && forall i :: 0 <= i < |l| ==> IsAlnum(l[i]) || l[i] == '-'
  }

  /** `[A-Z]{2,6}` */
  predicate Tld(t: string) {
    2 <= |t| <= 6 && forall i :: 0 <= i < |t| ==> IsAsciiLetter(t[i])
  }

  /** `[A-Z]{2,6}\.?` */
  predicate TldEnd(t: string) {
    Tld(t) || (|t| > 0 && t[|t| - 1] == '.' && Tld(t[..|t| - 1]))
  }

  /**
   * `(?:label\.)+[A-Z]{2,6}\.?`.  Labels hold no dot, so the first label is
   * everything before the first dot.
   */
  predicate Domain(h: string)
    decreases |h|
  {
    match IndexOf(h, '.')
    case None => false
    case Some(i) => Label(h[..i]) && (TldEnd(h[i + 1..]) || Domain(h[i + 1..]))
  }

  /**
   * The host alternatives `(?:domain|localhost|)`: a domain name, `localhost`
   * or nothing at all, since the last alternative is empty; the IP
   * alternatives are commented out.  A host holds only alphanumerics, '-' and
   * '.', and a non-empty one starts with an alphanumeric.
   */
  function Host(h: string): (r: bool)
    ensures r && h != [] ==> IsAlnum(h[0])
    ensures r ==> forall i :: 0 <= i < |h| ==> IsAlnum(h[i]) || h[i] == '-' || h[i] == '.'
  {
    if h == [] then true
    else if LowerStr(h) == "localhost" then LocalhostChars(h); true
    else if Domain(h) then DomainChars(h); DomainStartsAlnum(h); true
    else false
  }

  /** `[-A-Z0-9+&@#\/%=~_|$]` */
  predicate PathChar(c: char) {
    || IsAlnum(c)
    || c == '-' || c == '+' || c == '&' || c == '@' || c == '#' || c == '/'
    || c == '%' || c == '=' || c == '~' || c == '_' || c == '|' || c == '$'
  }

  /**
   * `(?:\/[...]*)*$`: an optional path, then the end of the string or a
   * single final newline, which `$` also accepts.
   */
  predicate PathToEnd(t: string) {
    var body := WithoutFinalNewline(t);
    body == [] || (body[0] == '/' && forall i :: 0 <= i < |body| ==> PathChar(body[i]))
  }

  function WithoutFinalNewline(t: string): string {
    if |t| > 0 && t[|t| - 1] == '\n' then t[..|t| - 1] else t
  }

  /** `(?::\d+)?` followed by the path and the end. */
  predicate PortAndPath(t: string) {
    if |t| > 0 && t[0] == ':' then
      var m := DigitRun(t[1..]);
      m >= 1 && PathToEnd(t[1 + m..])
    else PathToEnd(t)
  }

  /** `^(https?|ftp):\/\/`, case-insensitively: the length of that prefix. */
  function SchemeLength(s: string): (r: Option<nat>)
    ensures r.Some? ==> 6 <= r.value <= |s| && s[r.value - 3..r.value] == "://"
    ensures r.Some? ==> forall i :: 0 <= i < r.value - 3 ==> IsAsciiLetter(s[i])
    ensures r.Some? ==> LowerStr(s[..r.value - 3]) in {"http", "https", "ftp"}
  {
    if |s| >= 7 && LowerStr(s[..4]) == "http" && s[4..7] == "://" then Some(7)
    else if |s| >= 8 && LowerStr(s[..5]) == "https" && s[5..8] == "://" then Some(8)
    else if |s| >= 6 && LowerStr(s[..3]) == "ftp" && s[3..6] == "://" then Some(6)
    else None
  }

  /**
   * `re.match(url_regex, url) is not None`.  The host cannot contain ':', '/'
   * or a newline and what follows it must start with one of them or end the
   * string, so the host is everything up to the first of them.  No string
   * the expression accepts contains '?', so a URL with a query is refused.
   */
  function UrlRegexMatch(s: string): (r: bool)
    ensures r ==> forall i :: 0 <= i < |s| ==> s[i] != '?'
  {
    match SchemeLength(s)
    case None => false
    case Some(k) =>
      var rest := s[k..];
      var j := FirstOf(rest, {':', '/', '\n'});
      if Host(rest[..j]) && PortAndPath(rest[j..]) then PartsHaveNoQuery(s, k, j); true
      else false
  }

  // ---------------------------------------------------------------------------
  // urlparse, as far as scheme and netloc

  /** Leading C0 control characters and spaces are stripped. */
  function LStrip(s: string): (r: string)
    ensures |r| <= |s|
    ensures |s| > 0 && s[0] > ' ' ==> r == s
  {
    if s != [] && s[0] <= ' ' then LStrip(s[1..]) else s
  }

  predicate Unsafe(c: char) { c == '\t' || c == '\r' || c == '\n' }

  /** Tabs, carriage returns and newlines are removed everywhere. */
  function Clean(s: string): string {
    if s == [] then []
    else (if Unsafe(s[0]) then [] else [s[0]]) + Clean(s[1..])
  }

  predicate SchemeChar(c: char) {
    IsAlnum(c) || c == '+' || c == '-' || c == '.'
  }

  /**
   * Where `urlparse` ends the scheme: at the first ':' when the text before
   * it is non-empty, starts with a letter and holds only scheme characters.
   */
  function SchemeEnd(u: string): (r: Option<nat>)
    ensures r.Some? ==> 0 < r.value < |u|
  {
    match IndexOf(u, ':')
    case None => None
    case Some(i) =>
      if i > 0 && IsAsciiLetter(u[0]) && forall j :: 0 <= j < i ==> SchemeChar(u[j]) then Some(i) else None
  }

  /** The netloc of what follows the scheme: after "//", up to the first '/', '?' or '#'. */
  function NetlocOf(rest: string): string {
    if |rest| >= 2 && rest[..2] == "//" then rest[2..][..FirstOf(rest[2..], {'/', '?', '#'})] else ""
  }

  /** `urlparse(url).scheme` (lower-cased) and `.netloc`. */
  function SchemeAndNetloc(url: string): (string, string) {
    var u := Clean(LStrip(url));
    match SchemeEnd(u)
    case Some(i) => (LowerStr(u[..i]), NetlocOf(u[i + 1..]))
    case None => ("", NetlocOf(u))
  }

  /** After the matched scheme prefix comes something other than '/' or a newline: a host or a port. */
  predicate AuthorityFollows(s: string) {
    match SchemeLength(s)
    case None => false
    case Some(k) => k < |s| && s[k] != '/' && s[k] != '\n'
  }

  /**
   * `is_valid_url`: the regular expression, then a non-empty scheme and
   * netloc.  The second check refuses exactly the matches whose host is
   * empty and has no port after it.
   */
  function IsValidUrl(s: string): (r: bool)
    ensures r <==> UrlRegexMatch(s) && AuthorityFollows(s)
  {
    if UrlRegexMatch(s) then
      MatchedSchemeAndNetloc(s);
      SchemeAndNetloc(s).0 != "" && SchemeAndNetloc(s).1 != ""
    else false
  }

  // ---------------------------------------------------------------------------
  // Properties of is_valid_url

  /** A valid URL starts with http://, https:// or ftp://, in any letter case. */
  lemma ValidUrlScheme(s: string)
    requires IsValidUrl(s)
    ensures || (|s| >= 7 && LowerStr(s[..4]) == "http" && s[4..7] == "://")
            || (|s| >= 8 && LowerStr(s[..5]) == "https" && s[5..8] == "://")
            || (|s| >= 6 && LowerStr(s[..3]) == "ftp" && s[3..6] == "://")
  {
  }

  lemma DomainStartsAlnum(h: string)
    requires Domain(h)
    ensures |h| > 0 && IsAlnum(h[0])
  {
    var i := IndexOf(h, '.').value;
    assert h[..i][0] == h[0];
  }

  lemma LocalhostChars(h: string)
    requires LowerStr(h) == "localhost"
    ensures forall i :: 0 <= i < |h| ==> IsAsciiLetter(h[i])
  {
    forall i | 0 <= i < |h| ensures IsAsciiLetter(h[i]) {
      assert Lower(h[i]) == "localhost"[i];
    }
  }

  lemma {:induction false} CleanAppend(p: string, q: string)
    requires forall i :: 0 <= i < |p| ==> !Unsafe(p[i])
    ensures Clean(p + q) == p + Clean(q)
  {
    if p != [] {
      assert (p + q)[1..] == p[1..] + q;
      CleanAppend(p[1..], q);
    } else {
      assert p + q == q;
    }
  }

  lemma {:induction false} IndexOfAppend(p: string, q: string, c: char)
    requires IndexOf(p, c).Some?
    ensures IndexOf(p + q, c) == IndexOf(p, c)
  {
    if p[0] != c {
      assert (p + q)[1..] == p[1..] + q;
      IndexOfAppend(p[1..], q, c);
    }
  }

  /**
   * A string the regular expression accepts parses with a non-empty scheme;
   * its netloc is empty exactly when "://" is followed by '/', a final
   * newline or nothing, which the empty host alternative lets through.
   */
  lemma MatchedSchemeAndNetloc(s: string)
    requires UrlRegexMatch(s)
    ensures SchemeAndNetloc(s).0 != ""
    ensures SchemeAndNetloc(s).1 != "" <==> AuthorityFollows(s)
  {
    var k := SchemeLength(s).value;
    var w, rest := s[..k - 3], s[k..];
    var j := FirstOf(rest, {':', '/', '\n'});
    assert s == w + "://" + rest;
    ParsedAfterScheme(w, rest);
    var y := Clean(rest);
    if rest == [] {
      assert y == [];
    } else if j > 0 {
      assert rest[..j][0] == rest[0] == s[k];
      assert y[0] == rest[0];
    } else if rest[0] != '\n' {
      assert y[0] == rest[0] == s[k];
    } else {
      assert rest[j..] == rest;
      NewlineOnlyAtEnd(rest);
      assert y == [];
    }
    NetlocOfSlashes(y);
  }

  /** A port and path starting with a newline is that final newline alone. */
  lemma NewlineOnlyAtEnd(t: string)
    requires PortAndPath(t) && t != [] && t[0] == '\n'
    ensures t == ['\n']
  {
  }

  /** A letters-only scheme and "://": the scheme is read back and the netloc starts after "//". */
  lemma ParsedAfterScheme(w: string, z: string)
    requires |w| > 0 && forall i :: 0 <= i < |w| ==> IsAsciiLetter(w[i])
    ensures SchemeAndNetloc(w + "://" + z) == (LowerStr(w), NetlocOf("//" + Clean(z)))
  {
    CleanedPrefix(w, z);
    SchemeEndPrefix(w, Clean(z));
    var u := w + "://" + Clean(z);
    assert u[..|w|] == w;
    assert u[|w| + 1..] == "//" + Clean(z);
  }

  /** Stripping and cleaning leave the scheme and "://" alone. */
  lemma CleanedPrefix(w: string, z: string)
    requires |w| > 0 && forall i :: 0 <= i < |w| ==> IsAsciiLetter(w[i])
    ensures Clean(LStrip(w + "://" + z)) == w + "://" + Clean(z)
  {
    var p := w + "://";
    assert forall i :: 0 <= i < |p| ==> !Unsafe(p[i]) by {
      forall i | 0 <= i < |p| ensures !Unsafe(p[i]) {
        if i < |w| { assert p[i] == w[i]; }
      }
    }
    assert (p + z)[0] == w[0];
    CleanAppend(p, z);
  }

  /** The scheme ends at the ':' of "://". */
  lemma SchemeEndPrefix(w: string, z: string)
    requires |w| > 0 && forall i :: 0 <= i < |w| ==> IsAsciiLetter(w[i])
    ensures SchemeEnd(w + "://" + z) == Some(|w|)
  {
    var p := w + "://";
    assert p[|w|] == ':';
    assert forall i :: 0 <= i < |w| ==> p[i] == w[i];
    assert IndexOf(p, ':') == Some(|w|);
    IndexOfAppend(p, z, ':');
    assert forall i :: 0 <= i < |w| ==> (p + z)[i] == w[i];
  }

  /** The netloc after "//" is empty exactly when '/', '?', '#' or nothing comes next. */
  lemma NetlocOfSlashes(y: string)
    ensures NetlocOf("//" + y) != "" <==> y != [] && y[0] != '/' && y[0] != '?' && y[0] != '#'
  {
    var r := "//" + y;
    assert r[..2] == "//";
    assert r[2..] == y;
  }

  /** A non-empty host made of digits and dots only, such as an IPv4 address, is not a host. */
  lemma {:induction false} NumericHostRejected(h: string)
    requires forall i :: 0 <= i < |h| ==> IsDigit(h[i]) || h[i] == '.'
    ensures !Domain(h) && (h != [] ==> !Host(h))
    decreases |h|
  {
    if |h| > 0 {
      assert Lower(h[0]) != 'l';
      assert LowerStr(h) != "localhost" by {
        if |LowerStr(h)| == 9 { assert LowerStr(h)[0] != 'l'; }
      }
    }
    match IndexOf(h, '.')
    case None =>
    case Some(i) =>
      var t := h[i + 1..];
      assert !TldEnd(t) by {
        if |t| > 0 { assert !IsAsciiLetter(t[0]); }
      }
      NumericHostRejected(t);
  }

  /** The first separator of h + t is at |h| when h holds none and t starts with one. */
  lemma {:induction false} FirstOfAppend(h: string, t: string, cs: set<char>)
    requires forall i :: 0 <= i < |h| ==> h[i] !in cs
    requires t == [] || t[0] in cs
    ensures FirstOf(h + t, cs) == |h|
  {
    if h != [] {
      assert (h + t)[1..] == h[1..] + t;
      FirstOfAppend(h[1..], t, cs);
    } else {
      assert h + t == t;
    }
  }

  /**
   * Once the scheme prefix is matched, the regular expression splits what
   * follows into the host, up to the first ':', '/' or newline, and the rest.
   */
  lemma MatchOfParts(s: string, k: nat, h: string, t: string)
    requires SchemeLength(s) == Some(k) && s[k..] == h + t
    requires forall i :: 0 <= i < |h| ==> h[i] != ':' && h[i] != '/' && h[i] != '\n'
    requires t == [] || t[0] == ':' || t[0] == '/' || t[0] == '\n'
    ensures UrlRegexMatch(s) <==> Host(h) && PortAndPath(t)
  {
    FirstOfAppend(h, t, {':', '/', '\n'});
    assert (h + t)[..|h|] == h && (h + t)[|h|..] == t;
  }

  lemma HttpScheme(x: string)
    ensures SchemeLength("http://" + x) == Some(7)
  {
    var s := "http://" + x;
    assert s[..4] == "http" && s[4..7] == "://";
  }

  /** IP-literal callback URLs are refused. */
  lemma IpUrlRejected(path: string)
    ensures !IsValidUrl("http://127.0.0.1/" + path)
  {
    var h, t := "127.0.0.1", "/" + path;
    var s := "http://" + (h + t);
    assert s == "http://127.0.0.1/" + path;
    HttpScheme(h + t);
    assert s[7..] == h + t;
    MatchOfParts(s, 7, h, t);
    NumericHostRejected(h);
  }

  /** Every character of a domain name is alphanumeric, '-' or '.'. */
  lemma {:induction false} DomainChars(h: string)
    requires Domain(h)
    ensures forall i :: 0 <= i < |h| ==> IsAlnum(h[i]) || h[i] == '-' || h[i] == '.'
    decreases |h|
  {
    var j := IndexOf(h, '.').value;
    var t := h[j + 1..];
    if !TldEnd(t) {
      DomainChars(t);
    }
    forall i | 0 <= i < |h| ensures IsAlnum(h[i]) || h[i] == '-' || h[i] == '.' {
      if i < j {
        assert h[..j][i] == h[i];
      } else if i > j {
        assert t[i - j - 1] == h[i];
        if TldEnd(t) && i - j - 1 < |t| - 1 {
          assert t[..|t| - 1][i - j - 1] == h[i];
        }
      }
    }
  }

  /** A port and path the expression accepts have no '?'. */
  lemma PortAndPathHasNoQuery(t: string)
    requires PortAndPath(t)
    ensures forall i :: 0 <= i < |t| ==> t[i] != '?'
  {
    var p := if |t| > 0 && t[0] == ':' then 1 + DigitRun(t[1..]) else 0;
    var path := t[p..];
    assert PathToEnd(path);
    var body := WithoutFinalNewline(path);
    assert forall i :: 0 <= i < |body| ==> PathChar(body[i]);
    forall i | 0 <= i < |t| ensures t[i] != '?' {
      if i == 0 && p > 0 {
        assert t[i] == ':';
      } else if 0 < i < p {
        assert t[1..][i - 1] == t[i];
        assert IsDigit(t[i]);
      } else if i - p < |body| {
        assert path[i - p] == t[i];
        assert body[i - p] == path[i - p];
        assert PathChar(t[i]);
      } else {
        assert i - p == |path| - 1 && path[|path| - 1] == '\n';
        assert path[i - p] == t[i];
      }
    }
  }

  /** No character of x is '?'. */
  ghost predicate NoQuery(x: string) {
    forall i :: 0 <= i < |x| ==> x[i] != '?'
  }

  lemma NoQueryAppend(p: string, h: string, t: string)
    requires NoQuery(p) && NoQuery(h) && NoQuery(t)
    ensures NoQuery(p + h + t)
  {
    forall i | 0 <= i < |p + h + t| ensures (p + h + t)[i] != '?' {
      if i >= |p| + |h| {
        assert (p + h + t)[i] == t[i - |p| - |h|];
      } else if i >= |p| {
        assert (p + h + t)[i] == h[i - |p|];
      }
    }
  }

  /** A scheme prefix, letters and "://", holds no '?'. */
  lemma SchemePrefixHasNoQuery(s: string, k: nat)
    requires 3 <= k <= |s| && s[k - 3..k] == "://" && forall i :: 0 <= i < k - 3 ==> IsAsciiLetter(s[i])
    ensures NoQuery(s[..k])
  {
    forall i | 0 <= i < k ensures s[..k][i] != '?' {
      if i < k - 3 {
        assert IsAsciiLetter(s[i]);
      } else {
        assert s[k - 3..k][i - (k - 3)] == s[i];
      }
    }
  }

  /**
   * A scheme prefix followed by a host without '?' and a port and path that
   * the expression accepts holds no '?'.
   */
  lemma PartsHaveNoQuery(s: string, k: nat, j: nat)
    requires 3 <= k <= |s| && s[k - 3..k] == "://" && forall i :: 0 <= i < k - 3 ==> IsAsciiLetter(s[i])
    requires j <= |s| - k && NoQuery(s[k..][..j]) && PortAndPath(s[k..][j..])
    ensures NoQuery(s)
  {
    var p, h, t := s[..k], s[k..][..j], s[k..][j..];
    assert NoQuery(t) by { PortAndPathHasNoQuery(t); }
    assert NoQuery(p) by { SchemePrefixHasNoQuery(s, k); }
    assert s == p + h + t;
    NoQueryAppend(p, h, t);
  }

  /** The empty host alternative: a port alone after "://" makes a valid URL. */
  lemma EmptyHostWithPortAccepted(port: string, path: string)
    requires |port| > 0 && forall i :: 0 <= i < |port| ==> IsDigit(port[i])
    requires forall i :: 0 <= i < |path| ==> PathChar(path[i])
    ensures IsValidUrl("http://" + (":" + port + "/" + path))
  {
    var t := ":" + port + "/" + path;
    var s := "http://" + t;
    HttpScheme(t);
    assert s[7..] == [] + t;
    PortThenPath(port, path);
    MatchOfParts(s, 7, [], t);
    assert s[7] == ':';
  }

  /**
   * A path right after "://", as in "http:///x", matches the expression
   * through the empty host and is refused only because its netloc is empty.
   */
  lemma EmptyNetlocRefused(path: string)
    requires forall i :: 0 <= i < |path| ==> PathChar(path[i])
    ensures UrlRegexMatch("http://" + ("/" + path))
    ensures !IsValidUrl("http://" + ("/" + path))
  {
    var t := "/" + path;
    var s := "http://" + t;
    HttpScheme(t);
    assert s[7..] == [] + t;
    SlashPath(path);
    MatchOfParts(s, 7, [], t);
    assert s[7] == '/';
  }

  // ---------------------------------------------------------------------------
  // add_query_params

  /**
   * A parsed URL (`urlparse`): the query is kept as its decoded list of
   * name/value pairs.
   */
  datatype Url = Url(scheme: string, netloc: string, path: string, params: string,
                     query: seq<(string, string)>, fragment: string)

  /** Pair i of q is the first non-blank pair with name k. */
  ghost predicate FirstNonBlank(q: seq<(string, string)>, k: string, i: int) {
    && 0 <= i < |q| && q[i].0 == k && q[i].1 != ""
    && forall j :: 0 <= j < i ==> !(q[j].0 == k && q[j].1 != "")
  }

  /**
   * `{k: v[0] for k, v in parse_qs(query).items()}`: pairs with a blank value
   * are dropped, and every remaining name keeps its first value, in order of
   * first appearance.
   */
  function FirstValues(q: seq<(string, string)>): (d: Dict<string>)
    ensures d.Valid()
  {
    if q == [] then Empty()
    else
      var n := |q| - 1;
      var d := FirstValues(q[..n]);
      if q[n].1 != "" && q[n].0 !in d.entries then Put(d, q[n].0, q[n].1) else d
  }

  /** Every name `FirstValues` keeps holds the value of its first non-blank pair. */
  lemma {:induction false} FirstValuesSemantics(q: seq<(string, string)>)
    ensures forall k :: k in FirstValues(q).entries ==>
      exists i :: FirstNonBlank(q, k, i) && FirstValues(q).entries[k] == q[i].1
  {
    if q != [] {
      var n := |q| - 1;
      var d := FirstValues(q[..n]);
      var r := FirstValues(q);
      FirstValuesSemantics(q[..n]);
      forall k | k in r.entries ensures exists i :: FirstNonBlank(q, k, i) && r.entries[k] == q[i].1 {
        if k in d.entries {
          var i :| FirstNonBlank(q[..n], k, i) && d.entries[k] == q[..n][i].1;
          FirstNonBlankPrefix(q, n, k, i);
        } else {
          FirstNonBlankLast(q, k);
        }
      }
    }
  }

  /** The first non-blank pair of a prefix is the first non-blank pair of the whole. */
  lemma FirstNonBlankPrefix(q: seq<(string, string)>, n: nat, k: string, i: int)
    requires n <= |q| && FirstNonBlank(q[..n], k, i)
    ensures FirstNonBlank(q, k, i) && q[..n][i] == q[i]
  {
    assert forall j :: 0 <= j <= i ==> q[..n][j] == q[j];
  }

  /** A name that first appears non-blank in the last pair has it as its first non-blank pair. */
  lemma FirstNonBlankLast(q: seq<(string, string)>, k: string)
    requires q != [] && q[|q| - 1].0 == k && q[|q| - 1].1 != ""
    requires k !in FirstValues(q[..|q| - 1]).entries
    ensures FirstNonBlank(q, k, |q| - 1)
  {
    var n := |q| - 1;
    FirstValuesKeepsNonBlank(q[..n]);
    forall j | 0 <= j < n ensures !(q[j].0 == k && q[j].1 != "") {
      assert q[..n][j] == q[j];
    }
  }

  /** Every name with a non-blank pair is kept. */
  lemma {:induction false} FirstValuesKeepsNonBlank(q: seq<(string, string)>)
    ensures forall i :: 0 <= i < |q| && q[i].1 != "" ==> q[i].0 in FirstValues(q).entries
  {
    if q != [] {
      var n := |q| - 1;
      FirstValuesKeepsNonBlank(q[..n]);
      forall i | 0 <= i < n && q[i].1 != "" ensures q[i].0 in FirstValues(q).entries {
        assert q[..n][i] == q[i];
      }
    }
  }

  /** The names of the non-blank pairs of q, each at its first non-blank occurrence, in order. */
  ghost function FirstNames(q: seq<(string, string)>): seq<string> {
    if q == [] then []
    else
      var n := |q| - 1;
      FirstNames(q[..n]) + (if FirstNonBlank(q, q[n].0, n) then [q[n].0] else [])
  }

  /**
   * The keys `FirstValues` keeps come in the order of their first non-blank
   * occurrence in the query.
   */
  lemma {:induction false} FirstValuesKeyOrder(q: seq<(string, string)>)
    ensures FirstValues(q).keys == FirstNames(q)
  {
    if q != [] {
      var n := |q| - 1;
      var k := q[n].0;
      var d := FirstValues(q[..n]);
      FirstValuesKeyOrder(q[..n]);
      if q[n].1 != "" && k !in d.entries {
        FirstNonBlankLast(q, k);
      } else if k in d.entries {
        FirstValuesSemantics(q[..n]);
        var i :| FirstNonBlank(q[..n], k, i) && d.entries[k] == q[..n][i].1;
        FirstNonBlankPrefix(q, n, k, i);
        assert !FirstNonBlank(q, k, n);
      }
    }
  }

  /** The name/value pairs of d in key order (the argument `urlencode` receives). */
  function Items(d: Dict<string>): (ps: seq<(string, string)>)
    requires d.Valid()
    ensures |ps| == |d.keys|
    ensures forall i :: 0 <= i < |ps| ==> ps[i] == (d.keys[i], d.entries[d.keys[i]])
  {
    seq(|d.keys|, i requires 0 <= i < |d.keys| => (d.keys[i], d.entries[d.keys[i]]))
  }

  /** The names of the pairs ps. */
  function Names(ps: seq<(string, string)>): (ks: seq<string>)
    ensures |ks| == |ps| && forall i :: 0 <= i < |ps| ==> ks[i] == ps[i].0
  {
    seq(|ps|, i requires 0 <= i < |ps| => ps[i].0)
  }

  /** `d.update(pairs)`: every pair in turn assigns its value to its name. */
  function PutAll(d: Dict<string>, ps: seq<(string, string)>): (r: Dict<string>)
    requires d.Valid()
    ensures r.Valid()
    ensures forall k :: k in r.entries <==> k in d.entries || k in Names(ps)
  {
    if ps == [] then d
    else
      var n := |ps| - 1;
      assert Names(ps) == Names(ps[..n]) + [ps[n].0];
      Put(PutAll(d, ps[..n]), ps[n].0, ps[n].1)
  }

  /** The elements of ks that are not keys of d, in order. */
  function Fresh(ks: seq<string>, d: Dict<string>): seq<string> {
    if ks == [] then []
    else Fresh(ks[..|ks| - 1], d) + (if ks[|ks| - 1] in d.entries then [] else [ks[|ks| - 1]])
  }

  /** The query parameters `add_query_params` encodes. */
  function MergedParams(u: Url, newParams: Dict<string>): (d: Dict<string>)
    requires newParams.Valid()
    ensures d.Valid()
  {
    PutAll(FirstValues(u.query), Items(newParams))
  }

  /**
   * `add_query_params`: the query becomes the existing parameters, first
   * values only, updated with the new ones; every other component is kept.
   */
  function AddQueryParams(u: Url, newParams: Dict<string>): (r: Url)
    requires newParams.Valid()
    ensures r.scheme == u.scheme && r.netloc == u.netloc && r.path == u.path
    ensures r.params == u.params && r.fragment == u.fragment
    ensures r.query == Items(MergedParams(u, newParams))
  {
    u.(query := Items(MergedParams(u, newParams)))
  }

  /** With names that do not repeat, `PutAll` ends with each pair's value and keeps the rest. */
  lemma PutAllValues(d: Dict<string>, ps: seq<(string, string)>)
    requires d.Valid() && Distinct(Names(ps))
    ensures forall i :: 0 <= i < |ps| ==> PutAll(d, ps).entries[ps[i].0] == ps[i].1
    ensures forall k :: k in d.entries && k !in Names(ps) ==> PutAll(d, ps).entries[k] == d.entries[k]
    ensures PutAll(d, ps).keys == d.keys + Fresh(Names(ps), d)
  {
    PutAllAssigns(d, ps);
    PutAllKeeps(d, ps);
    PutAllKeys(d, ps);
  }

  lemma {:induction false} PutAllAssigns(d: Dict<string>, ps: seq<(string, string)>)
    requires d.Valid() && Distinct(Names(ps))
    ensures forall i :: 0 <= i < |ps| ==> PutAll(d, ps).entries[ps[i].0] == ps[i].1
  {
    if ps != [] {
      var n := |ps| - 1;
      var front := ps[..n];
      NamesPrefix(ps, n);
      DistinctPrefix(Names(ps), n);
      PutAllAssigns(d, front);
      PutAllLast(d, ps);
      forall i | 0 <= i < n ensures PutAll(d, ps).entries[ps[i].0] == ps[i].1 {
        assert Names(ps)[i] != Names(ps)[n];
        assert front[i] == ps[i];
      }
    }
  }

  lemma {:induction false} PutAllKeeps(d: Dict<string>, ps: seq<(string, string)>)
    requires d.Valid()
    ensures forall k :: k in d.entries && k !in Names(ps) ==> PutAll(d, ps).entries[k] == d.entries[k]
  {
    if ps != [] {
      var n := |ps| - 1;
      NamesPrefix(ps, n);
      PutAllKeeps(d, ps[..n]);
      assert Names(ps) == Names(ps[..n]) + [ps[n].0];
    }
  }

  lemma {:induction false} PutAllKeys(d: Dict<string>, ps: seq<(string, string)>)
    requires d.Valid() && Distinct(Names(ps))
    ensures PutAll(d, ps).keys == d.keys + Fresh(Names(ps), d)
  {
    if ps != [] {
      var n := |ps| - 1;
      NamesPrefix(ps, n);
      DistinctPrefix(Names(ps), n);
      PutAllKeys(d, ps[..n]);
      PutAllLast(d, ps);
    }
  }

  /** One step of `PutAll`: the last pair is put into the result of the others. */
  lemma PutAllLast(d: Dict<string>, ps: seq<(string, string)>)
    requires d.Valid() && ps != []
    requires ps[|ps| - 1].0 !in Names(ps[..|ps| - 1])
    ensures PutAll(d, ps) == Put(PutAll(d, ps[..|ps| - 1]), ps[|ps| - 1].0, ps[|ps| - 1].1)
    ensures ps[|ps| - 1].0 in PutAll(d, ps[..|ps| - 1]).entries <==> ps[|ps| - 1].0 in d.entries
    ensures Fresh(Names(ps), d) == Fresh(Names(ps[..|ps| - 1]), d) +
      (if ps[|ps| - 1].0 in d.entries then [] else [ps[|ps| - 1].0])
  {
    NamesPrefix(ps, |ps| - 1);
  }

  /** Re-assigning pairs a dict already holds changes nothing. */
  lemma {:induction false} PutAllPresent(d: Dict<string>, ps: seq<(string, string)>)
    requires d.Valid()
    requires forall i :: 0 <= i < |ps| ==> ps[i].0 in d.entries && d.entries[ps[i].0] == ps[i].1
    ensures PutAll(d, ps) == d
  {
    if ps != [] {
      PutAllPresent(d, ps[..|ps| - 1]);
      assert d.entries[ps[|ps| - 1].0 := ps[|ps| - 1].1] == d.entries;
    }
  }

  /**
   * New parameters override existing ones of the same name, other existing
   * names keep their first value, nothing else appears, and the existing
   * names keep their order with the new names appended in their own order.
   */
  lemma AddQueryParamsSemantics(u: Url, newParams: Dict<string>)
    requires newParams.Valid()
    ensures forall k :: k in newParams.entries ==> MergedParams(u, newParams).entries[k] == newParams.entries[k]
    ensures forall k :: k in FirstValues(u.query).entries && k !in newParams.entries ==>
      MergedParams(u, newParams).entries[k] == FirstValues(u.query).entries[k]
    ensures forall k :: k in MergedParams(u, newParams).entries <==>
      k in FirstValues(u.query).entries || k in newParams.entries
    ensures MergedParams(u, newParams).keys ==
      FirstValues(u.query).keys + Fresh(newParams.keys, FirstValues(u.query))
  {
    var ps := Items(newParams);
    assert Names(ps) == newParams.keys;
    PutAllValues(FirstValues(u.query), ps);
    forall k | k in newParams.entries
      ensures MergedParams(u, newParams).entries[k] == newParams.entries[k]
    {
      var i :| 0 <= i < |newParams.keys| && newParams.keys[i] == k;
      assert ps[i].0 == k;
    }
  }

  /** With distinct names and no blank value, every pair is kept, in order. */
  lemma {:induction false} FirstValuesDistinct(q: seq<(string, string)>)
    requires Distinct(Names(q))
    requires forall i :: 0 <= i < |q| ==> q[i].1 != ""
    ensures FirstValues(q).keys == Names(q)
    ensures forall i :: 0 <= i < |q| ==> FirstValues(q).entries[q[i].0] == q[i].1
  {
    if q != [] {
      var n := |q| - 1;
      var front, k, v := q[..n], q[n].0, q[n].1;
      NamesPrefix(q, n);
      DistinctPrefix(Names(q), n);
      FirstValuesDistinct(front);
      assert q == front + [(k, v)];
      FirstValuesSnoc(front, k, v);
      assert Names(q) == Names(front) + [k];
      forall i | 0 <= i < |q| ensures FirstValues(q).entries[q[i].0] == q[i].1 {
        if i < n {
          assert Names(q)[i] != Names(q)[n];
          assert front[i] == q[i];
        }
      }
    }
  }

  lemma NamesPrefix(ps: seq<(string, string)>, n: nat)
    requires n <= |ps|
    ensures Names(ps[..n]) == Names(ps)[..n]
  {
  }

  /** A non-blank pair with a new name appends that name. */
  lemma FirstValuesSnoc(q: seq<(string, string)>, k: string, v: string)
    requires v != "" && k !in FirstValues(q).entries
    ensures FirstValues(q + [(k, v)]).keys == FirstValues(q).keys + [k]
    ensures FirstValues(q + [(k, v)]).entries == FirstValues(q).entries[k := v]
  {
    assert (q + [(k, v)])[..|q|] == q;
  }

  /**
   * Encoding a dict's items and reading back the first values gives the
   * dict again, provided no value is blank (blank values are dropped).
   */
  lemma FirstValuesOfItems(d: Dict<string>)
    requires d.Valid()
    requires forall k :: k in d.entries ==> d.entries[k] != ""
    ensures FirstValues(Items(d)) == d
  {
    var ps := Items(d);
    assert Names(ps) == d.keys;
    FirstValuesDistinct(ps);
    var r := FirstValues(ps);
    forall k | k in d.entries ensures k in r.entries && r.entries[k] == d.entries[k] {
      var i :| 0 <= i < |d.keys| && d.keys[i] == k;
      assert ps[i].0 == k;
    }
    assert r.entries == d.entries;
  }

  /**
   * Adding the same non-blank parameters twice is the same as adding them
   * once, when the existing query has no blank values either.
   */
  lemma AddQueryParamsIdempotent(u: Url, newParams: Dict<string>)
    requires newParams.Valid()
    requires forall k :: k in newParams.entries ==> newParams.entries[k] != ""
    ensures AddQueryParams(AddQueryParams(u, newParams), newParams) == AddQueryParams(u, newParams)
  {
    var m := MergedParams(u, newParams);
    AddQueryParamsSemantics(u, newParams);
    assert forall k :: k in m.entries ==> m.entries[k] != "" by {
      forall k | k in m.entries ensures m.entries[k] != "" {
        if k !in newParams.entries {
          FirstValuesSemantics(u.query);
          var i :| FirstNonBlank(u.query, k, i) && FirstValues(u.query).entries[k] == u.query[i].1;
        }
      }
    }
    var u1 := AddQueryParams(u, newParams);
    FirstValuesOfItems(m);
    assert FirstValues(u1.query) == m;
    var ps := Items(newParams);
    forall i | 0 <= i < |ps| ensures ps[i].0 in m.entries && m.entries[ps[i].0] == ps[i].1 {
      assert ps[i].0 in newParams.entries;
    }
    PutAllPresent(m, ps);
  }

  /** A localhost callback URL with a port and a plain path is accepted. */
  lemma LocalhostUrlAccepted(port: string, path: string)
    requires |port| > 0 && forall i :: 0 <= i < |port| ==> IsDigit(port[i])
    requires forall i :: 0 <= i < |path| ==> PathChar(path[i])
    ensures IsValidUrl("http://" + ("localhost" + (":" + port + "/" + path)))
  {
    var t := ":" + port + "/" + path;
    var s := "http://" + ("localhost" + t);
    LocalhostMatch(t);
    PortThenPath(port, path);
    assert UrlRegexMatch(s);
    HttpScheme("localhost" + t);
    assert s[7] == 'l';
    assert AuthorityFollows(s);
  }

  lemma LocalhostMatch(t: string)
    requires t == [] || t[0] == ':' || t[0] == '/' || t[0] == '\n'
    ensures UrlRegexMatch("http://" + ("localhost" + t)) <==> PortAndPath(t)
  {
    var h := "localhost";
    var s := "http://" + (h + t);
    HttpScheme(h + t);
    assert s[7..] == h + t;
    MatchOfParts(s, 7, h, t);
    assert LowerStr(h) == h;
  }

  lemma PortThenPath(port: string, path: string)
    requires |port| > 0 && forall i :: 0 <= i < |port| ==> IsDigit(port[i])
    requires forall i :: 0 <= i < |path| ==> PathChar(path[i])
    ensures PortAndPath(":" + port + "/" + path)
  {
    var t := ":" + port + "/" + path;
    assert t[1..] == port + ("/" + path);
    DigitRunAppend(port, "/" + path);
    assert t[1 + |port|..] == "/" + path;
    SlashPath(path);
  }

  /** The digit run stops where the digits do. */
  lemma {:induction false} DigitRunAppend(ds: string, x: string)
    requires forall i :: 0 <= i < |ds| ==> IsDigit(ds[i])
    requires x == [] || !IsDigit(x[0])
    ensures DigitRun(ds + x) == |ds|
  {
    if ds != [] {
      assert (ds + x)[1..] == ds[1..] + x;
      DigitRunAppend(ds[1..], x);
    } else {
      assert ds + x == x;
    }
  }

  lemma SlashPath(path: string)
    requires forall i :: 0 <= i < |path| ==> PathChar(path[i])
    ensures PathToEnd("/" + path)
  {
    var p := "/" + path;
    assert p[|p| - 1] != '\n' by {
      if |path| > 0 { assert p[|p| - 1] == path[|path| - 1]; }
    }
    assert WithoutFinalNewline(p) == p;
    forall i | 0 <= i < |p| ensures PathChar(p[i]) {
      if i > 0 { assert p[i] == path[i - 1]; }
    }
  }
}
