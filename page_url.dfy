/**
  The page-URL builder: rewrites one query parameter of the current request
  to a page number and renders the result as a relative or absolute URL.
*/
module PageUrl {
  import opened Wrappers
  import opened Text
  import opened Decimal
  import opened Query

  /** The parts of an incoming HTTP request that the builder reads. */
  datatype Request = Request(
    path: string,                     // the request URL's path
    query: map<string, seq<string>>,  // the parsed query: every key with its values in order
    xForwardedProto: string,          // the X-Forwarded-Proto header, "" when absent
    xForwardedHost: string,           // the X-Forwarded-Host header, "" when absent
    tls: bool,                        // whether the connection is encrypted
    host: string)                     // the Host the request names

  /** A parsed query never holds a key without a value. */
  predicate WellFormed(r: Request)
  {
    forall k :: k in r.query ==> |r.query[k]| > 0
  }

  datatype UrlMode = Relative | Absolute

  datatype BuildOptions = BuildOptions(
    mode: UrlMode,
    path: string,
    pageParam: string,
    scheme: string,
    host: string,
    keepExistingQuery: bool)

  /** The options every field of which is at its zero value; a missing options argument means these. */
  const ZeroOptions := BuildOptions(Relative, "", "", "", "", false)

  const DefaultPageParam := "page"

  /** The first non-empty string, or "" when every one is empty. */
  function FirstNonEmpty(s: seq<string>): (r: string)
    ensures r == "" <==> forall i :: 0 <= i < |s| ==> s[i] == ""
    ensures r != "" ==> exists i :: 0 <= i < |s| && s[i] == r && forall j :: 0 <= j < i ==> s[j] == ""
  {
    if s == [] then ""
    else if s[0] != "" then s[0]
    else
      var r := FirstNonEmpty(s[1..]);
      assert r != "" ==> exists i :: 1 <= i < |s| && s[i] == r && forall j :: 0 <= j < i ==> s[j] == "" by {
        if r != "" {
          var i :| 0 <= i < |s[1..]| && s[1..][i] == r && forall j :: 0 <= j < i ==> s[1..][j] == "";
          assert s[i + 1] == r;
          assert forall j :: 0 <= j < i + 1 ==> s[j] == "" by {
            forall j | 0 <= j < i + 1 ensures s[j] == "" {
              if j > 0 { assert s[j] == s[1..][j - 1]; }
            }
          }
        }
      }
      r
  }

  /** With two candidates: the first unless it is empty. */
  lemma FirstNonEmptyOfTwo(a: string, b: string)
    ensures FirstNonEmpty([a, b]) == if a != "" then a else b
  {
    var s := [a, b];
    var r := FirstNonEmpty(s);
    if r != "" {
      var i :| 0 <= i < |s| && s[i] == r && forall j :: 0 <= j < i ==> s[j] == "";
      assert i == 0 || s[0] == "";
    }
  }

  /**
    The X-Forwarded-Proto header with its ASCII letters lower-cased: as long
    as the header, without upper-case letters, and every character either
    kept or an upper-case letter replaced by its lower-case form.
  */
  function ForwardedProto(r: Request): (proto: string)
    ensures |proto| == |r.xForwardedProto|
    ensures forall i :: 0 <= i < |proto| ==> !IsUpper(proto[i])
    ensures forall i :: 0 <= i < |proto| ==>
      proto[i] == r.xForwardedProto[i] || (IsUpper(r.xForwardedProto[i]) && proto[i] as int == r.xForwardedProto[i] as int + 32)
  {
    AsciiLower(r.xForwardedProto)
  }

  /** The forwarded protocol is "https" exactly when the header spells https in any mix of letter cases. */
  lemma ForwardedProtoIsHttps(r: Request)
    ensures ForwardedProto(r) == "https" <==>
      |r.xForwardedProto| == 5 &&
      forall i :: 0 <= i < 5 ==> r.xForwardedProto[i] == "https"[i] || r.xForwardedProto[i] == "HTTPS"[i]
  {
    var h, p := r.xForwardedProto, ForwardedProto(r);
    if |h| == 5 && forall i :: 0 <= i < 5 ==> h[i] == "https"[i] || h[i] == "HTTPS"[i] {
      forall i | 0 <= i < 5 ensures p[i] == "https"[i] {
        if h[i] == "https"[i] {
          assert !IsUpper(h[i]);
        }
      }
      assert p == "https";
    }
  }

  /** The X-Forwarded-Host header as it is, "" when absent. */
  function ForwardedHost(r: Request): (host: string)
    ensures host == r.xForwardedHost
  {
    r.xForwardedHost
  }

  /**
    The options after defaulting: page parameter "page", the request's path,
    existing query always kept; in absolute mode the scheme from TLS or the
    forwarded protocol and the host from the forwarded host or the request.
  */
  function Normalized(o: BuildOptions, r: Request): (n: BuildOptions)
    ensures n.mode == o.mode
    ensures n.pageParam == if o.pageParam == "" then DefaultPageParam else o.pageParam
    ensures n.path == if o.path == "" then r.path else o.path
    ensures n.keepExistingQuery
    ensures o.mode == Relative ==> n.scheme == o.scheme && n.host == o.host
    ensures o.mode == Absolute && o.scheme != "" ==> n.scheme == o.scheme
    ensures o.mode == Absolute && o.scheme == "" ==>
      (n.scheme == "https" || n.scheme == "http") &&
      (n.scheme == "https" <==> r.tls || ForwardedProto(r) == "https")
    ensures o.mode == Absolute && o.host != "" ==> n.host == o.host
    ensures o.mode == Absolute && o.host == "" ==>
      n.host == if r.xForwardedHost != "" then r.xForwardedHost else r.host
  {
    FirstNonEmptyOfTwo(ForwardedHost(r), r.host);
    var absolute := o.mode == Absolute;
    BuildOptions(
      o.mode,
      if o.path == "" then r.path else o.path,
      if o.pageParam == "" then DefaultPageParam else o.pageParam,
      if absolute && o.scheme == "" then (if r.tls || ForwardedProto(r) == "https" then "https" else "http") else o.scheme,
      if absolute && o.host == "" then FirstNonEmpty([ForwardedHost(r), r.host]) else o.host,
      true)
  }

  /** `normalize`: fills in the defaults one field after another. */
  method Normalize(o: BuildOptions, r: Request) returns (n: BuildOptions)
    ensures n == Normalized(o, r)
  {
    n := o;
    if n.pageParam == "" {
      n := n.(pageParam := DefaultPageParam);
    }
    if n.path == "" {
      n := n.(path := r.path);
    }
    if !n.keepExistingQuery {
      n := n.(keepExistingQuery := true);
    }
    if n.mode != Absolute {
      return;
    }
    if n.scheme == "" {
      var scheme := "http";
      if r.tls || ForwardedProto(r) == "https" {
        scheme := "https";
      }
      n := n.(scheme := scheme);
    }
    if n.host == "" {
      n := n.(host := FirstNonEmpty([ForwardedHost(r), r.host]));
    }
  }

  /**
    The query values of the page URL: the first value of every other
    existing key when existing keys are kept, and the page parameter set to
    the page number.
  */
  function PageQuery(r: Request, o: BuildOptions, page: int): (q: map<string, string>)
    requires WellFormed(r)
    ensures o.pageParam in q && q[o.pageParam] == Itoa(page)
    ensures forall k :: k in q && k != o.pageParam ==> o.keepExistingQuery && k in r.query && q[k] == r.query[k][0]
    ensures o.keepExistingQuery ==> forall k :: k in r.query ==> k in q
  {
    var kept := if o.keepExistingQuery then map k | k in r.query && k != o.pageParam :: r.query[k][0] else map[];
    kept[o.pageParam := Itoa(page)]
  }

  /** The options a call uses: the caller's, or the zero options, normalised. */
  function EffectiveOptions(r: Request, opts: Option<BuildOptions>): BuildOptions
  {
    Normalized(opts.GetOr(ZeroOptions), r)
  }

  /** The URL `BuildPageURL` returns. */
  ghost function PageURL(r: Request, page: int, opts: Option<BuildOptions>): (url: string)
    requires WellFormed(r)
    ensures |url| > 0
  {
    var o := EffectiveOptions(r, opts);
    var query := Encode(PageQuery(r, o, page));
    if o.mode == Absolute then o.scheme + "://" + o.host + o.path + "?" + query
    else o.path + "?" + query
  }

  /** The loop of `BuildPageURL` that copies the first value of every existing key but `pageParam`. */
  method FirstValuesExcept(r: Request, pageParam: string) returns (q: map<string, string>)
    requires WellFormed(r)
    ensures q == map k | k in r.query && k != pageParam :: r.query[k][0]
  {
    q := map[];
    var pending := r.query.Keys;
    while pending != {}
      invariant pending <= r.query.Keys
      invariant forall k :: k in q <==> k in r.query && k !in pending && k != pageParam
      invariant forall k :: k in q ==> q[k] == r.query[k][0]
      decreases pending
    {
      var k :| k in pending;
      pending := pending - {k};
      if k != pageParam {
        q := q[k := r.query[k][0]];
      }
    }
  }

  /** `BuildPageURL`: the URL of page `page`, keeping the request's other query parameters. */
  method BuildPageURL(r: Request, page: int, opts: Option<BuildOptions>) returns (url: string)
    requires WellFormed(r)
    ensures url == PageURL(r, page, opts)
  {
    var o := ZeroOptions;
    if opts.Some? {
      o := opts.value;
    }
    o := Normalize(o, r);
    var q: map<string, string> := map[];
    if o.keepExistingQuery {
      q := FirstValuesExcept(r, o.pageParam);
    }
    q := q[o.pageParam := Itoa(page)];
    var encoded := EncodeValues(q);
    if o.mode == Absolute {
      url := o.scheme + "://" + o.host + o.path + "?" + encoded;
    } else {
      url := o.path + "?" + encoded;
    }
  }

  /**
    The page parameter is among the sorted keys exactly once, and its field
    carries the decimal page number, whatever value the request had for it.
  */
  lemma PageParamAppearsOnce(r: Request, page: int, opts: Option<BuildOptions>)
    requires WellFormed(r)
    ensures var o := EffectiveOptions(r, opts);
      var q := PageQuery(r, o, page);
      var keys := SortedKeys(q.Keys);
      exists i :: 0 <= i < |keys| && keys[i] == o.pageParam
        && Fields(q)[i] == QueryEscape(o.pageParam) + "=" + Itoa(page)
        && forall j :: 0 <= j < |keys| && j != i ==> keys[j] != o.pageParam
  {
    var o := EffectiveOptions(r, opts);
    var q := PageQuery(r, o, page);
    var keys := SortedKeys(q.Keys);
    assert o.pageParam in keys;
    var i :| 0 <= i < |keys| && keys[i] == o.pageParam;
    EscapeDecimal(page);
    assert Fields(q)[i] == Field(q, o.pageParam);
    forall j | 0 <= j < |keys| && j != i ensures keys[j] != o.pageParam {
      StrictlySortedDistinct(keys, i, j);
    }
  }

  /**
    The query of a page URL holds every key of the request and the page
    parameter, in ascending order, each once; every key other than the page
    parameter carries its first value; the fields are joined by `&`.
  */
  lemma PageQueryFields(r: Request, page: int, opts: Option<BuildOptions>)
    requires WellFormed(r)
    ensures var o := EffectiveOptions(r, opts);
      var q := PageQuery(r, o, page);
      var keys := SortedKeys(q.Keys);
      && StrictlySorted(keys)
      && (forall k :: k in keys <==> k in r.query || k == o.pageParam)
      && Split(Encode(q), '&') == Fields(q)
      && forall i :: 0 <= i < |keys| && keys[i] != o.pageParam ==>
           Fields(q)[i] == QueryEscape(keys[i]) + "=" + QueryEscape(r.query[keys[i]][0])
  {
    var o := EffectiveOptions(r, opts);
    var q := PageQuery(r, o, page);
    EncodeSplits(q);
  }

  /**
    In absolute mode without explicit scheme and host, the URL starts with
    "https" when the connection is encrypted or the forwarded protocol is
    https in any letter case, "http" otherwise, then the forwarded host or
    else the request's host.
  */
  lemma AbsoluteUrlResolution(r: Request, page: int, o: BuildOptions)
    requires WellFormed(r)
    requires o.mode == Absolute && o.scheme == "" && o.host == ""
    ensures var n := EffectiveOptions(r, Some(o));
      PageURL(r, page, Some(o)) ==
        (if r.tls || ForwardedProto(r) == "https" then "https" else "http") + "://"
        + (if r.xForwardedHost != "" then r.xForwardedHost else r.host)
        + (if o.path == "" then r.path else o.path)
        + "?" + Encode(PageQuery(r, n, page))
  {
  }

  /** A relative URL is the path, `?` and the encoded query. */
  lemma RelativeUrl(r: Request, page: int, opts: Option<BuildOptions>)
    requires WellFormed(r)
    requires opts.GetOr(ZeroOptions).mode == Relative
    ensures var o := EffectiveOptions(r, opts);
      PageURL(r, page, opts) == o.path + "?" + Encode(PageQuery(r, o, page))
  {
  }
}
