/** The proxy URL form `proxyURL/proxy/URL`: `setup.go` wraps original URLs this way, and
    `handleProxyRequest` takes a wrapped URL apart again when the request arrives. */
module ProxyCodec {
  import opened Common

  function TrimPrefix(s: string, p: string): string {
    if HasPrefix(s, p) then s[|p|..] else s
  }

  /** Index of the first occurrence, or the length. */
  function IndexOf(s: string, c: char): (i: nat)
    ensures i <= |s| && forall k :: 0 <= k < i ==> s[k] != c
    ensures i < |s| ==> s[i] == c
  {
    if s == "" || s[0] == c then 0 else 1 + IndexOf(s[1..], c)
  }

  function Wrap(proxyUrl: string, url: string): string {
    proxyUrl + "/proxy/" + url
  }

  // ---------- the receiving side ----------

  /** The target for a request path: the text behind the route, with the second slash of the scheme
      put back if it got lost on the way. `None` is the answer 400. */
  function TargetOf(path: string): Option<string> {
    var t := TrimPrefix(path, "/proxy/");
    if t == "" then None
    else if HasPrefix(t, "http://") || HasPrefix(t, "https://") then Some(t)
    else if HasPrefix(t, "http:/") then Some("http://" + t[6..])
    else if HasPrefix(t, "https:/") then Some("https://" + t[7..])
    else Some(t)
  }

  /** Nothing is rejected but the empty text, and what does not start like an http URL is taken as it is. */
  lemma {:induction false} TargetMeans(rest: string)
    ensures TargetOf("/proxy/" + rest).None? <==> rest == ""
    ensures rest != "" && !HasPrefix(rest, "http:/") && !HasPrefix(rest, "https:/") ==> TargetOf("/proxy/" + rest) == Some(rest)
  {
    Routed(rest);
    assert HasPrefix(rest, "http://") ==> rest[..6] == "http:/" by {
      assert HasPrefix(rest, "http://") ==> rest[..7][..6] == rest[..6];
    }
    assert HasPrefix(rest, "https://") ==> rest[..7] == "https:/" by {
      assert HasPrefix(rest, "https://") ==> rest[..8][..7] == rest[..7];
    }
  }

  /** A scheme with one slash gets its second one back. */
  lemma {:induction false} SchemeRestored(scheme: string, rest: string)
    requires (scheme == "http:" || scheme == "https:") && !HasPrefix(rest, "/")
    ensures TargetOf("/proxy/" + (scheme + "/" + rest)) == Some(scheme + "//" + rest)
  {
    CollapsedTarget(scheme, rest);
  }

  /** One with two is kept. */
  lemma {:induction false} SchemeKept(scheme: string, rest: string)
    requires scheme == "http:" || scheme == "https:"
    ensures TargetOf("/proxy/" + (scheme + "//" + rest)) == Some(scheme + "//" + rest)
  {
    Routed(scheme + "//" + rest);
    assert (scheme + "//" + rest)[..|scheme| + 2] == scheme + "//";
  }

  lemma Routed(rest: string)
    ensures TrimPrefix("/proxy/" + rest, "/proxy/") == rest
  {
    assert ("/proxy/" + rest)[..7] == "/proxy/" && ("/proxy/" + rest)[7..] == rest;
  }

  /** The rewriting in `handleProxyRequest`, branch by branch. */
  method RewriteTarget(path: string) returns (target: Option<string>)
    ensures target == TargetOf(path)
  {
    var targetUrl := TrimPrefix(path, "/proxy/");
    if targetUrl == "" {
      return None;
    }
    if !HasPrefix(targetUrl, "http://") && !HasPrefix(targetUrl, "https://") {
      if HasPrefix(targetUrl, "http:/") {
        targetUrl := "http://" + TrimPrefix(targetUrl, "http:/");
      } else if HasPrefix(targetUrl, "https:/") {
        targetUrl := "https://" + TrimPrefix(targetUrl, "https:/");
      }
    }
    target := Some(targetUrl);
  }

  /** Path and query of a request for a URL without fragment or percent escapes. */
  function PathOf(pathAndQuery: string): string {
    pathAndQuery[..IndexOf(pathAndQuery, '?')]
  }

  /** The question mark and what follows it, or nothing. */
  function QueryOf(pathAndQuery: string): string {
    pathAndQuery[IndexOf(pathAndQuery, '?')..]
  }

  /** The URL the proxy requests for an incoming path and query: the target's path replaces the
      incoming one, and the incoming query, even an empty one, is passed on. */
  function Forwarded(pathAndQuery: string): Option<string> {
    var t := TargetOf(PathOf(pathAndQuery));
    if t.None? then None else Some(t.value + QueryOf(pathAndQuery))
  }

  function SchemeOf(url: string): string {
    if HasPrefix(url, "https://") then "https:" else "http:"
  }

  predicate IsHttpUrl(url: string) {
    HasPrefix(url, "http://") || HasPrefix(url, "https://")
  }

  /** The text behind scheme and slashes. */
  function AfterScheme(url: string): string
    requires IsHttpUrl(url)
  {
    url[|SchemeOf(url)| + 2..]
  }

  /** One hop: a client requests the URL from the host it names, and that host forwards it. */
  function Hop(url: string): Option<string> {
    if !IsHttpUrl(url) then None
    else Forwarded(AfterScheme(url)[IndexOf(AfterScheme(url), '/')..])
  }

  // ---------- the sending side ----------

  /** A proxy base URL: http or https, a host, no path and no query. */
  predicate IsProxyBase(p: string) {
    IsHttpUrl(p) && AfterScheme(p) != "" && '/' !in AfterScheme(p) && '?' !in AfterScheme(p)
  }

  /** The double slash behind the scheme collapsed to one, as path cleaning does. */
  function Collapsed(url: string, collapse: bool): string
    requires IsHttpUrl(url)
  {
    if collapse then SchemeOf(url) + "/" + AfterScheme(url) else url
  }

  /** A URL survives the trip unless its slash was collapsed and its host part starts with a slash. */
  predicate SurvivesHop(url: string, collapse: bool)
    requires IsHttpUrl(url)
  {
    !(collapse && HasPrefix(AfterScheme(url), "/"))
  }

  lemma IndexOfIs(s: string, c: char, i: nat)
    requires i <= |s| && forall k :: 0 <= k < i ==> s[k] != c
    requires i < |s| ==> s[i] == c
    ensures IndexOf(s, c) == i
  {
  }

  predicate IsScheme(s: string) {
    s == "http:" || s == "https:"
  }

  lemma Parts(url: string)
    requires IsHttpUrl(url)
    ensures IsScheme(SchemeOf(url)) && url == SchemeOf(url) + "//" + AfterScheme(url)
  {
    assert url[..|SchemeOf(url)| + 2] == SchemeOf(url) + "//";
  }

  lemma PrefixAt(s: string, p: string, k: nat)
    requires k < |p| && (k >= |s| || s[k] != p[k])
    ensures !HasPrefix(s, p)
  {
    assert |p| <= |s| ==> s[..|p|][k] == s[k];
  }

  lemma OfParts(scheme: string, r: string)
    requires IsScheme(scheme)
    ensures var url := scheme + "//" + r;
      IsHttpUrl(url) && SchemeOf(url) == scheme && AfterScheme(url) == r
  {
    var url := scheme + "//" + r;
    assert HasPrefix(url, scheme + "//");
    if scheme == "http:" {
      assert url[4] == scheme[4];
      PrefixAt(url, "https://", 4);
    }
  }

  /** A request for the URL arrives with this path and query. */
  predicate ArrivesAs(url: string, pathAndQuery: string) {
    Hop(url) == Forwarded(pathAndQuery)
  }

  lemma HopOfParts(scheme: string, host: string, tail: string)
    requires IsScheme(scheme) && '/' !in host && tail != "" && tail[0] == '/'
    ensures ArrivesAs(scheme + "//" + (host + tail), tail)
  {
    OfParts(scheme, host + tail);
    IndexOfIs(host + tail, '/', |host|);
    assert (host + tail)[|host|..] == tail;
  }

  /** The path of a wrapped URL starts behind the proxy's host. */
  lemma HopForwards(p: string, tail: string)
    requires IsProxyBase(p) && tail != "" && tail[0] == '/'
    ensures ArrivesAs(p + tail, tail)
  {
    Parts(p);
    assert p + tail == SchemeOf(p) + "//" + (AfterScheme(p) + tail);
    HopOfParts(SchemeOf(p), AfterScheme(p), tail);
  }

  /** A collapsed URL gets its slash back; one that has two slashes left is taken as it is. */
  lemma CollapsedTarget(s: string, r: string)
    requires IsScheme(s)
    ensures TargetOf("/proxy/" + (s + "/" + r)) == Some(if HasPrefix(r, "/") then s + "/" + r else s + "//" + r)
  {
    var t := s + "/" + r;
    assert ("/proxy/" + t)[..7] == "/proxy/" && ("/proxy/" + t)[7..] == t;
    assert t[..|s| + 1] == s + "/" && t[|s| + 1..] == r && t[4] == s[4];
    if HasPrefix(r, "/") {
      assert t[..|s| + 2] == s + "/" + r[..1] == s + "//";
    } else {
      assert r == "" || r[0] != '/' by {
        assert r != "" ==> r[..1] == [r[0]];
      }
      PrefixAt(t, s + "//", |s| + 1);
      if s == "https:" {
        assert s + "//" == "https://" && s + "/" == "https:/";
        PrefixAt(t, "http://", 4);
        PrefixAt(t, "http:/", 4);
      } else {
        assert s + "//" == "http://" && s + "/" == "http:/";
        PrefixAt(t, "https://", 4);
      }
    }
  }

  /** The scheme is restored, unless the collapse cannot be told from a URL with its slashes intact. */
  lemma TargetRestored(url: string, collapse: bool)
    requires IsHttpUrl(url)
    ensures var t := TargetOf("/proxy/" + Collapsed(url, collapse));
      && t.Some? && |t.value| <= |url|
      && if collapse && HasPrefix(AfterScheme(url), "/") then |t.value| < |url| else t.value == url
  {
    Parts(url);
    if collapse {
      CollapsedTarget(SchemeOf(url), AfterScheme(url));
    } else {
      assert ("/proxy/" + url)[..7] == "/proxy/" && ("/proxy/" + url)[7..] == url;
    }
  }

  lemma SplitAtQuery(before: string, url: string)
    requires '?' !in before
    ensures PathOf(before + url) == before + PathOf(url) && QueryOf(before + url) == QueryOf(url)
  {
    IndexOfIs(before + url, '?', |before| + IndexOf(url, '?'));
  }

  lemma CollapsedSplit(url: string, collapse: bool)
    requires IsHttpUrl(url)
    ensures PathOf(Collapsed(url, collapse)) == Collapsed(PathOf(url), collapse)
    ensures QueryOf(Collapsed(url, collapse)) == QueryOf(url)
    ensures IsHttpUrl(PathOf(url)) && AfterScheme(PathOf(url)) == PathOf(AfterScheme(url))
  {
    Parts(url);
    var s, r := SchemeOf(url), AfterScheme(url);
    SplitAtQuery(s + "//", r);
    OfParts(s, PathOf(r));
    SplitAtQuery(s + "/", r);
  }

  /** One wrapped URL, unwrapped by the host it is sent to, is the URL again exactly when it survives:
      always while the slashes are intact, and after a collapse unless its host part starts with one. */
  lemma {:induction false} HopUnwrapsIff(p: string, url: string, collapse: bool)
    requires IsProxyBase(p) && IsHttpUrl(url)
    ensures Hop(p + "/proxy/" + Collapsed(url, collapse)) == Some(url) <==> SurvivesHop(url, collapse)
    ensures !collapse ==> Collapsed(url, collapse) == url && p + "/proxy/" + url == Wrap(p, url)
  {
    var u := Collapsed(url, collapse);
    HopForwards(p, "/proxy/" + u);
    assert p + ("/proxy/" + u) == p + "/proxy/" + u;
    ForwardedIff(url, collapse);
  }

  lemma ForwardedIff(url: string, collapse: bool)
    requires IsHttpUrl(url)
    ensures Forwarded("/proxy/" + Collapsed(url, collapse)) == Some(url) <==> SurvivesHop(url, collapse)
  {
    ForwardedSplit(url, collapse);
    TargetRestored(PathOf(url), collapse);
    SameStart(url);
    RejoinIff(url, TargetOf("/proxy/" + Collapsed(PathOf(url), collapse)).value);
  }

  lemma ForwardedSplit(url: string, collapse: bool)
    requires IsHttpUrl(url)
    ensures IsHttpUrl(PathOf(url))
    ensures var t := TargetOf("/proxy/" + Collapsed(PathOf(url), collapse));
      Forwarded("/proxy/" + Collapsed(url, collapse))
      == if t.None? then None else Some(t.value + QueryOf(url))
  {
    SplitAtQuery("/proxy/", Collapsed(url, collapse));
    CollapsedSplit(url, collapse);
  }

  lemma SameStart(url: string)
    requires IsHttpUrl(url)
    ensures IsHttpUrl(PathOf(url))
    ensures HasPrefix(AfterScheme(PathOf(url)), "/") <==> HasPrefix(AfterScheme(url), "/")
  {
    CollapsedSplit(url, false);
    var r := AfterScheme(url);
    assert forall x: string :: HasPrefix(x, "/") <==> x != "" && x[0] == '/' by {
      forall x: string | x != "" ensures HasPrefix(x, "/") <==> x[0] == '/' {
        assert x[..1] == [x[0]];
      }
    }
    assert r != "" && r[0] == '/' ==> IndexOf(r, '?') > 0;
  }

  lemma RejoinIff(url: string, t: string)
    requires t == PathOf(url) || |t| < |PathOf(url)|
    ensures t + QueryOf(url) == url <==> t == PathOf(url)
  {
    assert PathOf(url) + QueryOf(url) == url;
    assert |t + QueryOf(url)| == |t| + |QueryOf(url)|;
  }

  // ---------- chains of proxies ----------

  /** A URL wrapped once for each proxy of the list, outermost first; `collapse` says at which levels
      the scheme's double slash has been collapsed in the text handed to the proxy. */
  function Chain(proxies: seq<string>, collapse: seq<bool>, url: string): (w: string)
    requires |proxies| == |collapse| && IsHttpUrl(url)
    requires forall i :: 0 <= i < |proxies| ==> IsProxyBase(proxies[i])
    ensures IsHttpUrl(w)
  {
    if proxies == [] then url
    else
      var inner := Collapsed(Chain(proxies[1..], collapse[1..], url), collapse[0]);
      WrappedIsUrl(proxies[0], inner);
      proxies[0] + "/proxy/" + inner
  }

  lemma WrappedIsUrl(p: string, u: string)
    requires IsProxyBase(p)
    ensures IsHttpUrl(p + "/proxy/" + u) && AfterScheme(p + "/proxy/" + u) == AfterScheme(p) + "/proxy/" + u
    ensures !HasPrefix(AfterScheme(p + "/proxy/" + u), "/")
  {
    Parts(p);
    var r := AfterScheme(p) + "/proxy/" + u;
    OfParts(SchemeOf(p), r);
    assert p + "/proxy/" + u == SchemeOf(p) + "//" + r;
    PrefixAt(r, "/", 0);
  }

  /** Following a URL through a number of hops. */
  function Follow(url: string, hops: nat): Option<string>
    decreases hops
  {
    if hops == 0 then Some(url)
    else if Hop(url).None? then None
    else Follow(Hop(url).value, hops - 1)
  }

  /** Following the URL through the hops gives the original one. */
  predicate LeadsBack(url: string, hops: nat, original: string) {
    Follow(url, hops) == Some(original)
  }

  /** Any http URL wrapped by any number of proxies comes back when it is followed through them, whatever
      levels lost a slash: exactly when the innermost level did not lose one that the URL's own host
      part makes ambiguous. */
  lemma {:induction false} ChainUnwraps(proxies: seq<string>, collapse: seq<bool>, url: string)
    requires |proxies| == |collapse| && IsHttpUrl(url) && proxies != []
    requires forall i :: 0 <= i < |proxies| ==> IsProxyBase(proxies[i])
    ensures LeadsBack(Chain(proxies, collapse, url), |proxies|, url) <==> SurvivesHop(url, collapse[|collapse| - 1])
  {
    if |proxies| > 1 {
      OuterHop(proxies, collapse, url);
      ChainUnwraps(proxies[1..], collapse[1..], url);
      FollowOn(Chain(proxies, collapse, url), Chain(proxies[1..], collapse[1..], url), |proxies|);
    } else {
      HopUnwrapsIff(proxies[0], url, collapse[0]);
      FollowOnce(Chain(proxies, collapse, url));
    }
  }

  lemma FollowOn(w: string, next: string, hops: nat)
    requires Hop(w) == Some(next) && hops > 0
    ensures Follow(w, hops) == Follow(next, hops - 1)
  {
  }

  lemma FollowOnce(w: string)
    ensures Follow(w, 1) == Hop(w)
  {
    assert Hop(w).Some? ==> Follow(Hop(w).value, 0) == Hop(w);
  }

  /** Outer levels always unwrap: the URL inside them starts with a proxy's host. */
  lemma OuterHop(proxies: seq<string>, collapse: seq<bool>, url: string)
    requires |proxies| == |collapse| > 1 && IsHttpUrl(url)
    requires forall i :: 0 <= i < |proxies| ==> IsProxyBase(proxies[i])
    ensures Hop(Chain(proxies, collapse, url)) == Some(Chain(proxies[1..], collapse[1..], url))
  {
    WrappedIsUrl(proxies[1], Collapsed(Chain(proxies[1..][1..], collapse[1..][1..], url), collapse[1]));
    HopUnwrapsIff(proxies[0], Chain(proxies[1..], collapse[1..], url), collapse[0]);
  }
}
