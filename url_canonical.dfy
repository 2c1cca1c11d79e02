/** `canonicalizeUrl`: trim, default the scheme, parse, then rewrite the parsed
    URL field by field into one canonical form. URL parsing itself is a foreign
    collaborator, so the model works over the record a parser yields. */
module UrlCanonical {
  import opened Wrappers
  import opened Text
  import opened QueryParams

  /** What a WHATWG URL parser yields for an http(s) URL: the scheme with its
      colon (`https:`), the host, the port text (empty when absent), the path,
      the query pairs and the fragment. */
  datatype ParsedUrl = ParsedUrl(
    scheme: string,
    host: string,
    port: string,
    path: string,
    query: seq<QueryPair>,
    fragment: Option<string>)

  /** `new URL(text)`: None stands for the parser throwing. */
  type UrlParser = string -> Option<ParsedUrl>

  const InvalidUrlMessage := "Invalid URL"

  // ---------------------------------------------------------------------
  // Serialisation

  function PortText(port: string): string {
    if port == "" then "" else ":" + port
  }

  function FragmentText(fragment: Option<string>): string {
    match fragment
    case None => ""
    case Some(f) => "#" + f
  }

  /** The href of a URL assembled from its parts, the query already in its `?…` text form. */
  function Href(scheme: string, host: string, port: string, path: string, search: string, fragment: Option<string>): string {
    scheme + "//" + host + PortText(port) + path + search + FragmentText(fragment)
  }

  /** `url.toString()` for a record whose query is held as pairs. */
  function Serialize(u: ParsedUrl): string {
    Href(u.scheme, u.host, u.port, u.path, QueryString(u.query), u.fragment)
  }

  // ---------------------------------------------------------------------
  // The URL object the canonicaliser rewrites

  /** The parsed URL object, whose setters `canonicalizeUrl` assigns one after
      another. `searchParams` is the live view of `search`: setting `search`
      re-reads the pairs from the new text. */
  class Url {
    var protocol: string
    var hostname: string
    var port: string
    var pathname: string
    var search: string
    var searchParams: seq<QueryPair>
    var hash: Option<string>

    constructor (u: ParsedUrl)
      ensures protocol == u.scheme && hostname == u.host && port == u.port && pathname == u.path
      ensures search == QueryString(u.query) && searchParams == u.query && hash == u.fragment
    {
      protocol := u.scheme;
      hostname := u.host;
      port := u.port;
      pathname := u.path;
      search := QueryString(u.query);
      searchParams := u.query;
      hash := u.fragment;
    }

    /** Steps 1 to 6 of `canonicalizeUrl`, each a setter call on the URL object. */
    method RewriteCanonical()
      modifies this
      ensures protocol == "https:" && hostname == ToLower(old(hostname)) && port == EffectivePort(old(port))
      ensures pathname == NormalizePath(old(pathname)) && search == QueryString(KeptParams(old(searchParams)))
      ensures searchParams == KeptParams(old(searchParams)) && search == QueryString(searchParams) && hash == None
    {
      // 1. protocol
      protocol := "https:";
      // 2. host name
      hostname := ToLower(hostname);
      // 3. default ports
      if (protocol == "https:" && port == "443") || (protocol == "http:" && port == "80") {
        port := "";
      }
      // 4. path
      pathname := NormalizePath(pathname);
      // 5. query
      search := NormalizeQueryParams(searchParams);
      searchParams := KeptParams(searchParams);
      // 6. fragment
      hash := None;
    }

    /** `url.toString()` */
    function ToString(): string
      reads this
    {
      Href(protocol, hostname, port, pathname, search, hash)
    }
  }

  // ---------------------------------------------------------------------
  // Path normalisation

  /** `normalizePath`: `/` for an empty or root path, otherwise the path
      without one trailing slash if it has one. */
  function NormalizePath(path: string): (r: string)
    ensures r != ""
    ensures path == "" || path == "/" ==> r == "/"
    ensures path != "" && path != "/" && path[|path| - 1] != '/' ==> r == path
    ensures path != "" && path != "/" && path[|path| - 1] == '/' ==> r + "/" == path
  {
    if path == "" || path == "/" then "/"
    else if path[|path| - 1] == '/' then path[..|path| - 1]
    else path
  }

  predicate EndsWithDoubleSlash(path: string) {
    |path| >= 3 && path[|path| - 1] == '/' && path[|path| - 2] == '/'
  }

  /** Normalising twice gives the same path exactly when the path does not end in `//`. */
  lemma NormalizePathIdempotent(path: string)
    ensures NormalizePath(NormalizePath(path)) == NormalizePath(path) <==> !EndsWithDoubleSlash(path)
  {
    if EndsWithDoubleSlash(path) {
      var once := path[..|path| - 1];
      assert NormalizePath(path) == once;
      assert once[|once| - 1] == '/' && once != "/";
      assert |NormalizePath(once)| == |once| - 1;
    }
  }

  // ---------------------------------------------------------------------
  // Scheme defaulting

  /** The trimmed input, with `https://` put in front unless it already starts
      with `http://` or `https://` in any letter case. */
  function WithProtocol(input: string): (r: string)
    ensures HasHttpScheme(r)
    ensures HasHttpScheme(Trim(input)) ==> r == Trim(input)
    ensures r == Trim(input) || r == "https://" + Trim(input)
  {
    var t := Trim(input);
    if HasHttpScheme(t) then t
    else
      assert ("https://" + t)[..|"https://"|] == "https://";
      "https://" + t
  }

  // ---------------------------------------------------------------------
  // The canonical form

  /** A port the canonicaliser treats as absent: none, or https's default 443. */
  function EffectivePort(port: string): string {
    if port == "443" then "" else port
  }

  /** What steps 1 to 6 of `canonicalizeUrl` leave of a parsed URL. */
  function CanonicalForm(u: ParsedUrl): (c: ParsedUrl)
    ensures c.scheme == "https:"
    ensures forall i :: 0 <= i < |c.host| ==> !IsAsciiUpper(c.host[i])
    ensures c.port != "443"
    ensures c.port == "" <==> u.port == "" || u.port == "443"
    ensures c.path != ""
    ensures c.fragment == None
    ensures SortedByKey(c.query)
    ensures forall p :: p in c.query ==> p in u.query && !IsTrackingParam(p.key)
  {
    KeptParamsSpec(u.query);
    ParsedUrl("https:", ToLower(u.host), EffectivePort(u.port), NormalizePath(u.path), KeptParams(u.query), None)
  }

  /** `new URL(withProtocol)` applied to the scheme-defaulted input. */
  function ParseInput(input: string, parse: UrlParser): Option<ParsedUrl> {
    parse(WithProtocol(input))
  }

  /** `canonicalizeUrl`, as a value: the canonical text, or BadRequest('Invalid URL')
      when the parser rejects the scheme-defaulted input. */
  function Canonicalize(input: string, parse: UrlParser): (r: Result<string, HttpException>)
    ensures r.Failure? <==> parse(WithProtocol(input)).None?
    ensures r.Failure? ==> r.error == BadRequest(InvalidUrlMessage)
  {
    match ParseInput(input, parse)
    case None => Failure(BadRequest(InvalidUrlMessage))
    case Some(u) => Success(Serialize(CanonicalForm(u)))
  }

  /** For a parsed input, the canonical text is the href of the canonical parts. */
  lemma CanonicalizeParsed(input: string, parse: UrlParser, u: ParsedUrl)
    requires ParseInput(input, parse) == Some(u)
    ensures Canonicalize(input, parse)
         == Success(Href("https:", ToLower(u.host), EffectivePort(u.port), NormalizePath(u.path), QueryString(KeptParams(u.query)), None))
  {
  }

  /** `canonicalizeUrl`, as the source runs it: the URL object's fields are reassigned in turn. */
  method CanonicalizeUrl(input: string, parse: UrlParser) returns (r: Result<string, HttpException>)
    ensures r == Canonicalize(input, parse)
  {
    var parsed := ParseInput(input, parse);
    if parsed.None? {
      return Failure(BadRequest(InvalidUrlMessage));
    }
    var url := new Url(parsed.value);
    url.RewriteCanonical();
    CanonicalizeParsed(input, parse, parsed.value);
    r := Success(url.ToString());
  }

  // ---------------------------------------------------------------------
  // Properties of the canonical form

  /** Canonicalising a canonical form again changes nothing, except for a
      path ending in `//`, which loses one more slash each time. */
  lemma CanonicalFormIdempotent(u: ParsedUrl)
    ensures CanonicalForm(CanonicalForm(u)) == CanonicalForm(u) <==> !EndsWithDoubleSlash(u.path)
  {
    ToLowerIdempotent(u.host);
    NormalizePathIdempotent(u.path);
    KeptParamsIdempotent(u.query);
  }

  /** Two parsed URLs have the same canonical form exactly when they agree on
      the host up to letter case, on the port once 443 counts as absent, on the
      normalised path and, for every non-tracking key, on that key's values in
      order; scheme, fragment, tracking pairs and the order of different keys
      do not matter. */
  lemma CanonicalFormEquivalence(u: ParsedUrl, v: ParsedUrl)
    ensures CanonicalForm(u) == CanonicalForm(v) <==>
      && ToLower(u.host) == ToLower(v.host)
      && EffectivePort(u.port) == EffectivePort(v.port)
      && NormalizePath(u.path) == NormalizePath(v.path)
      && forall k :: !IsTrackingParam(k) ==> WithKey(u.query, k) == WithKey(v.query, k)
  {
    KeptParamsSpec(u.query);
    KeptParamsSpec(v.query);
    if forall k :: !IsTrackingParam(k) ==> WithKey(u.query, k) == WithKey(v.query, k) {
      SortedUnique(KeptParams(u.query), KeptParams(v.query));
    }
  }
}
