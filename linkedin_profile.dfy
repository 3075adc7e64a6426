/**
 * `normalizeLinkedInUrl` of the LinkedIn profile actor: parse the profile URL, rewrite a
 * country host such as `de.linkedin.com` to `www.linkedin.com`, drop the query and the
 * fragment, and remove every trailing `/` from the path.
 *
 * The URL is the WHATWG URL record, and each step is one of its setters, applied in the
 * order the actor applies them. Parsing is a parameter of the model; serialisation is not
 * modelled, so the result is the normalised record.
 */
module LinkedInProfile {
  import opened Wrappers
  import opened Text

  /**
   * A parsed URL. `host` is `None` for a URL without an authority; `pathname` is the path
   * as the `pathname` getter shows it, and for a URL with an opaque path (`mailto:x`) it is
   * that opaque path; `query` and `fragment` are `None` when the URL has no `?` / `#`.
   */
  datatype Url = Url(
    scheme: string,
    username: string,
    password: string,
    host: Option<string>,
    port: Option<nat>,
    pathname: string,
    hasOpaquePath: bool,
    query: Option<string>,
    fragment: Option<string>)

  /** The message of the `TypeError` the `URL` constructor throws on unparseable input. */
  const InvalidUrl: string := "Invalid URL"

  const WwwLinkedInHost: string := "www.linkedin.com"
  const LinkedInSuffix: string := ".linkedin.com"

  predicate IsSpecialScheme(scheme: string)
  {
    scheme in {"ftp", "file", "http", "https", "ws", "wss"}
  }

  /** The `hostname` getter. */
  function Hostname(u: Url): string
  {
    match u.host
    case None => ""
    case Some(h) => h
  }

  /** `^[a-z]{2,3}\.linkedin\.com$`, case-sensitive. */
  predicate IsCountrySubdomainHost(h: string)
  {
    && (|h| == |LinkedInSuffix| + 2 || |h| == |LinkedInSuffix| + 3)
    && h[|h| - |LinkedInSuffix|..] == LinkedInSuffix
    && forall i | 0 <= i < |h| - |LinkedInSuffix| :: IsLowerAsciiLetter(h[i])
  }

  /** The hostname after the actor's `replace`: a country host becomes `www.linkedin.com`. */
  function CanonicalHost(h: string): (r: string)
    ensures IsCountrySubdomainHost(h) ==> r == WwwLinkedInHost
    ensures !IsCountrySubdomainHost(h) ==> r == h
    ensures IsCountrySubdomainHost(r) ==> r == WwwLinkedInHost
  {
    if IsCountrySubdomainHost(h) then WwwLinkedInHost else h
  }

  /**
   * `s.replace(/c+$/, '')` for a single character `c`: the longest prefix of `s` that does
   * not end in `c`, everything removed being `c`.
   */
  function StripTrailing(s: string, c: char): (r: string)
    ensures |r| <= |s| && r == s[..|r|]
    ensures forall i | |r| <= i < |s| :: s[i] == c
    ensures r == [] || r[|r| - 1] != c
  {
    if s != [] && s[|s| - 1] == c then StripTrailing(s[..|s| - 1], c) else s
  }

  /** Stripping twice strips nothing more. */
  lemma StripTrailingIdempotent(s: string, c: char)
    ensures StripTrailing(StripTrailing(s, c), c) == StripTrailing(s, c)
  {
  }

  // ----- The setters of the URL standard, for the values the actor passes -----

  /**
   * The `hostname` setter. It does nothing on a URL with an opaque path. Setting the empty
   * string fails (and changes nothing) on a special URL other than `file:`, and on a URL with
   * credentials or a port; otherwise it makes the host empty. A non-empty value here is a
   * valid host name (the old one, or `www.linkedin.com`), which is stored as given.
   */
  function SetHostname(u: Url, value: string): (r: Url)
    ensures r.scheme == u.scheme && r.username == u.username && r.password == u.password
    ensures r.port == u.port && r.pathname == u.pathname && r.hasOpaquePath == u.hasOpaquePath
    ensures r.query == u.query && r.fragment == u.fragment
    ensures !u.hasOpaquePath && value != "" ==> r.host == Some(value)
    ensures u.hasOpaquePath ==> r == u
  {
    if u.hasOpaquePath then u
    else if value != "" then u.(host := Some(value))
    else if u.scheme == "file" then u.(host := Some(""))
    else if IsSpecialScheme(u.scheme) then u
    else if u.username != "" || u.password != "" || u.port.Some? then u
    else u.(host := Some(""))
  }

  /**
   * Once the query and the fragment are both gone, trailing spaces are removed from an
   * opaque path ("potentially strip trailing spaces from an opaque path").
   */
  function StripOpaquePathSpaces(u: Url): (r: Url)
    ensures r == u.(pathname := r.pathname)
    ensures u.hasOpaquePath && u.query.None? && u.fragment.None? ==> r.pathname == StripTrailing(u.pathname, ' ')
    ensures !(u.hasOpaquePath && u.query.None? && u.fragment.None?) ==> r == u
  {
    if u.hasOpaquePath && u.query.None? && u.fragment.None? then u.(pathname := StripTrailing(u.pathname, ' '))
    else u
  }

  /** `search = ''`: the query becomes absent. */
  function ClearSearch(u: Url): (r: Url)
    ensures r.query.None? && r.fragment == u.fragment && r.host == u.host
    ensures r == u.(query := None, pathname := r.pathname)
    ensures !u.hasOpaquePath || u.fragment.Some? ==> r.pathname == u.pathname
    ensures u.hasOpaquePath && u.fragment.None? ==> r.pathname == StripTrailing(u.pathname, ' ')
  {
    StripOpaquePathSpaces(u.(query := None))
  }

  /** `hash = ''`: the fragment becomes absent. */
  function ClearHash(u: Url): (r: Url)
    ensures r.fragment.None? && r.query == u.query && r.host == u.host
    ensures r == u.(fragment := None, pathname := r.pathname)
    ensures !u.hasOpaquePath || u.query.Some? ==> r.pathname == u.pathname
    ensures u.hasOpaquePath && u.query.None? ==> r.pathname == StripTrailing(u.pathname, ' ')
  {
    StripOpaquePathSpaces(u.(fragment := None))
  }

  /**
   * The `pathname` setter. It does nothing on a URL with an opaque path. Otherwise the value
   * is parsed as a path: the empty string becomes the single empty segment, shown as `/`,
   * on a special URL or a URL without a host, and no segment at all elsewhere. The values
   * the actor passes are an existing pathname with slashes removed from its end, which
   * parse back to themselves.
   */
  function SetPathname(u: Url, value: string): (r: Url)
    ensures r == u.(pathname := r.pathname)
    ensures u.hasOpaquePath ==> r == u
    ensures !u.hasOpaquePath && value != "" ==> r.pathname == value
  {
    if u.hasOpaquePath then u
    else if value == "" && (IsSpecialScheme(u.scheme) || u.host.None?) then u.(pathname := "/")
    else u.(pathname := value)
  }

  // ----- The normaliser -----

  /** The four assignments of `normalizeLinkedInUrl`, in order, on the parsed URL. */
  function Normalize(u: Url): (r: Url)
    // Scheme, credentials and port are never touched, nor is the kind of path.
    ensures r.scheme == u.scheme && r.username == u.username && r.password == u.password
    ensures r.port == u.port && r.hasOpaquePath == u.hasOpaquePath
    // No query and no fragment are left.
    ensures r.query.None? && r.fragment.None?
    // A country host becomes `www.linkedin.com`; every other host name stays.
    ensures !u.hasOpaquePath && Hostname(u) != "" ==> r.host == Some(CanonicalHost(Hostname(u)))
    ensures u.hasOpaquePath ==> r.host == u.host
    // The host name is always the canonical form of the old one, so an empty one stays empty;
    // where the `hostname` setter may store an empty host, an absent host becomes that.
    ensures !u.hasOpaquePath ==> Hostname(r) == CanonicalHost(Hostname(u))
    ensures !u.hasOpaquePath && u.host.None?
        && (u.scheme == "file" || (!IsSpecialScheme(u.scheme) && u.username == "" && u.password == "" && u.port.None?))
      ==> r.host == Some("")
    // All trailing slashes go, and nothing else of the path, unless that leaves the path
    // empty where the URL standard does not allow it.
    ensures !u.hasOpaquePath ==>
      || r.pathname == StripTrailing(u.pathname, '/')
      || (r.pathname == "/" && StripTrailing(u.pathname, '/') == "")
    ensures !u.hasOpaquePath && (IsSpecialScheme(u.scheme) || r.host.None?) && StripTrailing(u.pathname, '/') == "" ==>
      r.pathname == "/"
    ensures !u.hasOpaquePath && !IsSpecialScheme(u.scheme) && r.host.Some? && StripTrailing(u.pathname, '/') == "" ==>
      r.pathname == ""
    ensures !u.hasOpaquePath && r.pathname != "/" ==> r.pathname == [] || r.pathname[|r.pathname| - 1] != '/'
    ensures u.hasOpaquePath ==> r.pathname == StripTrailing(u.pathname, ' ')
  {
    var withHost := SetHostname(u, CanonicalHost(Hostname(u)));
    var withoutSearch := ClearSearch(withHost);
    var withoutHash := ClearHash(withoutSearch);
    SetPathname(withoutHash, StripTrailing(withoutHash.pathname, '/'))
  }

  /**
   * `normalizeLinkedInUrl`: an input the `URL` constructor rejects is an error; any other is
   * parsed and normalised.
   */
  function NormalizeLinkedInUrl(rawUrl: string, parse: string -> Option<Url>): (r: Result<Url, string>)
    ensures r.Err? <==> parse(rawUrl).None?
    ensures r.Err? ==> r.error == InvalidUrl
    ensures r.Ok? ==> r.value == Normalize(parse(rawUrl).value)
  {
    match parse(rawUrl)
    case None => Err(InvalidUrl)
    case Some(u) => Ok(Normalize(u))
  }

  /** Normalising a normalised URL changes nothing. */
  lemma NormalizeIdempotent(u: Url)
    ensures Normalize(Normalize(u)) == Normalize(u)
  {
    var r := Normalize(u);
    StripTrailingIdempotent(u.pathname, '/');
    StripTrailingIdempotent(u.pathname, ' ');
    if !u.hasOpaquePath {
      // The host of `r` is either the canonical form of a non-empty host name, which is its
      // own canonical form, or a host the setter left alone or emptied.
      var h := CanonicalHost(Hostname(r));
      assert h == Hostname(r);
    }
  }

  /** A country profile URL loses its subdomain, query, fragment and trailing slashes. */
  lemma CountryProfileExample()
    ensures
      var u := Url("https", "", "", Some("de.linkedin.com"), None, "/in/jane-doe//", false, Some("trk=abc"), Some("top"));
      Normalize(u) == Url("https", "", "", Some("www.linkedin.com"), None, "/in/jane-doe", false, None, None)
  {
    var u := Url("https", "", "", Some("de.linkedin.com"), None, "/in/jane-doe//", false, Some("trk=abc"), Some("top"));
    assert IsCountrySubdomainHost("de.linkedin.com");
    assert StripTrailing("/in/jane-doe//", '/') == "/in/jane-doe" by {
      assert StripTrailing("/in/jane-doe/", '/') == StripTrailing("/in/jane-doe", '/');
    }
  }

  /** Hosts that only look like country hosts keep their name. */
  lemma NonCountryHostsKept()
    ensures CanonicalHost("linkedin.com") == "linkedin.com"
    ensures CanonicalHost("m.linkedin.com") == "m.linkedin.com"
    ensures CanonicalHost("abcd.linkedin.com") == "abcd.linkedin.com"
    ensures CanonicalHost("DE.linkedin.com") == "DE.linkedin.com"
  {
    assert !IsLowerAsciiLetter("DE.linkedin.com"[0]);
  }
}
