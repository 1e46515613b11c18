/** `bin/util/proxy.js`: turning a proxy setting such as
    `user:secret@proxy.local:3128` into the options of an HTTPS proxy agent.
    URL parsing (`url.parse` with lodash `toInteger` on the port) is a
    foreign library here: it enters as the function `parse`. */
module Proxy {
  import opened Wrappers

  /** The `{ username, password }` object of `parseAuth`. */
  datatype Credentials = Credentials(username: string, password: Option<string>)

  /** The parts of `url.parse(proxyString)` that are read, with the port
      already converted by `toInteger`. */
  datatype ParsedUrl = ParsedUrl(
    hostname: Option<string>,
    port: int,
    auth: Option<string>,
    protocol: Option<string>)

  /** The object `proxyStringToObject` returns; `auth` is absent when there is
      no user name. */
  datatype ProxyObject = ProxyObject(
    host: Option<string>,
    port: int,
    auth: Option<Credentials>,
    isHttps: bool)

  /** The `{ host, port }` options given to `new HttpsProxyAgent`. */
  datatype Agent = Agent(host: Option<string>, port: int)

  /** JavaScript's `s.split(sep)` for a one-character separator: the pieces
      between separators, never an empty list. */
  function Split(s: string, sep: char): (parts: seq<string>)
    ensures |parts| >= 1
    ensures forall i :: 0 <= i < |parts| ==> sep !in parts[i]
  {
    if s == [] then [""]
    else
      var rest := Split(s[1..], sep);
      if s[0] == sep then [""] + rest
      else [[s[0]] + rest[0]] + rest[1..]
  }

  /** `parts.join(sep)`. */
  function Join(parts: seq<string>, sep: char): string
    requires |parts| >= 1
  {
    if |parts| == 1 then parts[0] else parts[0] + [sep] + Join(parts[1..], sep)
  }

  /** Joining the pieces of a split gives back the string. */
  lemma {:induction false} JoinSplit(s: string, sep: char)
    ensures Join(Split(s, sep), sep) == s
  {
    if s != [] {
      var rest := Split(s[1..], sep);
      JoinSplit(s[1..], sep);
      if s[0] != sep {
        var parts := Split(s, sep);
        assert parts[1..] == rest[1..];
        if |rest| > 1 {
          assert Join(rest, sep) == rest[0] + [sep] + Join(rest[1..], sep);
          assert Join(parts, sep) == [s[0]] + rest[0] + [sep] + Join(rest[1..], sep);
        }
        assert s == [s[0]] + s[1..];
      }
    }
  }

  /** Splitting a prefix free of separators in front of `t` extends the first
      piece of `t`. */
  lemma {:induction false} SplitPrefixFree(p: string, t: string, sep: char)
    requires sep !in p
    ensures Split(p + t, sep) == [p + Split(t, sep)[0]] + Split(t, sep)[1..]
  {
    if p != [] {
      var r := Split(t, sep);
      assert (p + t)[1..] == p[1..] + t;
      SplitPrefixFree(p[1..], t, sep);
      var rest := Split(p[1..] + t, sep);
      assert (p + t)[0] == p[0] && p[0] != sep;
      assert Split(p + t, sep) == [[p[0]] + rest[0]] + rest[1..];
      assert rest[0] == p[1..] + r[0] && rest[1..] == r[1..];
      assert [p[0]] + (p[1..] + r[0]) == p + r[0];
    } else {
      var r := Split(t, sep);
      assert p + t == t;
      assert r == [r[0]] + r[1..];
      assert p + r[0] == r[0];
    }
  }

  /** Splitting the join of separator-free pieces gives back the pieces. */
  lemma {:induction false} SplitJoin(parts: seq<string>, sep: char)
    requires |parts| >= 1
    requires forall i :: 0 <= i < |parts| ==> sep !in parts[i]
    ensures Split(Join(parts, sep), sep) == parts
  {
    if |parts| == 1 {
      SplitPrefixFree(parts[0], [], sep);
      assert Split([], sep) == [""];
      assert parts[0] + [] == parts[0];
      assert parts[0] + "" == parts[0];
    } else {
      var tail := Join(parts[1..], sep);
      SplitJoin(parts[1..], sep);
      assert parts[0] + [sep] + tail == parts[0] + ([sep] + tail);
      SplitPrefixFree(parts[0], [sep] + tail, sep);
      assert ([sep] + tail)[1..] == tail;
      assert Split([sep] + tail, sep) == [""] + parts[1..];
      assert parts[0] + "" == parts[0];
      assert parts == [parts[0]] + parts[1..];
    }
  }

  /** The first piece of a split runs up to the first separator (or the end),
      and the other pieces are the split of what follows that separator. */
  lemma {:induction false} SplitHead(s: string, sep: char)
    ensures Split(s, sep)[0] <= s
    ensures |Split(s, sep)[0]| == |s| || s[|Split(s, sep)[0]|] == sep
    ensures |Split(s, sep)| == 1 <==> sep !in s
    ensures |Split(s, sep)| > 1 ==> Split(s[|Split(s, sep)[0]| + 1..], sep) == Split(s, sep)[1..]
  {
    if s != [] {
      SplitHead(s[1..], sep);
      if s[0] != sep {
        var rest := Split(s[1..], sep);
        var k := |rest[0]|;
        if |rest| > 1 {
          assert s[k + 1 + 1..] == s[1..][k + 1..];
        }
        assert sep !in s <==> sep !in s[1..] by {
          assert s == [s[0]] + s[1..];
        }
      } else {
        assert s[1..] == s[0 + 1..];
      }
    }
  }

  /** `authString || ''`. */
  function AuthText(authString: Option<string>): string {
    if authString.Some? then authString.value else ""
  }

  /** `parseAuth(authString)`: the user name is the text before the first
      `:`, the password the text between the first and the second `:`;
      anything after a second `:` is dropped. */
  function ParseAuth(authString: Option<string>): (r: Credentials)
    ensures var s := AuthText(authString);
      && ':' !in r.username && r.username <= s
      && (|r.username| == |s| || s[|r.username|] == ':')
      && (r.password.None? <==> ':' !in s)
    ensures var s := AuthText(authString);
      r.password.Some? ==>
        var p := r.password.value;
        && ':' !in p && r.username + [':'] + p <= s
        && (|r.username| + 1 + |p| == |s| || s[|r.username| + 1 + |p|] == ':')
  {
    var s := AuthText(authString);
    var parts := Split(s, ':');
    SplitHead(s, ':');
    if |parts| > 1 then
      var rest := s[|parts[0]| + 1..];
      SplitHead(rest, ':');
      assert s == parts[0] + [':'] + rest;
      Credentials(parts[0], Some(parts[1]))
    else
      Credentials(parts[0], None)
  }

  /** A falsy auth string has an empty user name and no password. */
  lemma ParseAuthFalsy(authString: Option<string>)
    requires authString.None? || authString.value == ""
    ensures ParseAuth(authString) == Credentials("", None)
  {
  }

  /** `user:password` parses back into its two parts. */
  lemma ParseAuthRoundTrip(user: string, password: string)
    requires ':' !in user && ':' !in password
    ensures ParseAuth(Some(user + [':'] + password)) == Credentials(user, Some(password))
  {
    SplitJoin([user, password], ':');
    assert Join([user, password], ':') == user + [':'] + password;
  }

  /** `proxyString.startsWith('http')`. */
  predicate HasHttpPrefix(s: string) {
    |s| >= 4 && s[..4] == "http"
  }

  /** The string that is finally parsed: the input itself when it starts
      with `http`, otherwise the input behind `http://`. */
  function WithScheme(proxyString: string): (r: string)
    ensures HasHttpPrefix(r)
    ensures HasHttpPrefix(proxyString) ==> r == proxyString
    ensures !HasHttpPrefix(proxyString) ==> r == "http://" + proxyString
  {
    if HasHttpPrefix(proxyString) then proxyString
    else
      assert ("http://" + proxyString)[..4] == "http";
      "http://" + proxyString
  }

  /** `proxyStringToObject(proxyString)`. */
  function ProxyStringToObject(proxyString: string, parse: string -> ParsedUrl): (r: ProxyObject)
    ensures var u := parse(WithScheme(proxyString));
      && r.host == u.hostname && r.port == u.port
      && (r.isHttps <==> u.protocol == Some("https:"))
      && (r.auth.None? <==> ParseAuth(u.auth).username == "")
      && (r.auth.Some? ==> r.auth.value == ParseAuth(u.auth))
    decreases if HasHttpPrefix(proxyString) then 0 else 1
  {
    if !HasHttpPrefix(proxyString) then
      assert HasHttpPrefix("http://" + proxyString) by {
        assert ("http://" + proxyString)[..4] == "http";
      }
      ProxyStringToObject("http://" + proxyString, parse)
    else
      var u := parse(proxyString);
      var auth := ParseAuth(u.auth);
      var isHttps := u.protocol == Some("https:");
      if auth.username == "" then ProxyObject(u.hostname, u.port, None, isHttps)
      else ProxyObject(u.hostname, u.port, Some(auth), isHttps)
  }

  /** The `http://` retry happens at most once: the retried string already
      has the prefix, so retrying it again changes nothing. */
  lemma ProxyRetriedOnce(proxyString: string, parse: string -> ParsedUrl)
    ensures WithScheme(WithScheme(proxyString)) == WithScheme(proxyString)
    ensures ProxyStringToObject(WithScheme(proxyString), parse) == ProxyStringToObject(proxyString, parse)
  {
  }

  /** `proxyToHttpsAgent(proxy)`: no agent for an unset or empty setting,
      otherwise an agent for the parsed host and port. */
  function ProxyToHttpsAgent(proxy: Option<string>, parse: string -> ParsedUrl): (r: Option<Agent>)
    ensures r.None? <==> proxy.None? || proxy.value == ""
    ensures r.Some? ==> r.value.host == parse(WithScheme(proxy.value)).hostname
    ensures r.Some? ==> r.value.port == parse(WithScheme(proxy.value)).port
  {
    if proxy.None? || proxy.value == "" then None
    else
      var p := ProxyStringToObject(proxy.value, parse);
      Some(Agent(p.host, p.port))
  }
}
