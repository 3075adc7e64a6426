/**
 * The URL canonicalisation of the LinkedIn company actor, as a function from the raw input
 * to the canonical URL or the actor's error: trim, rewrite a country subdomain to `www`,
 * cut at the first `?`, then keep `http(s)://[www.]linkedin.com/company/<slug>`.
 *
 * Each regular expression is restated as a string predicate; the one that accepts the URL is
 * given both as the left-to-right decision the engine makes and as the set of strings it
 * matches, and the two are proved to agree.
 */
module LinkedInCompany {
  import opened Wrappers
  import opened Text

  const InvalidCompanyUrl: string :=
    "Invalid LinkedIn company URL. Expected format: https://www.linkedin.com/company/company-slug"

  const LinkedIn: string := "linkedin.com"
  const LinkedInDomain: string := ".linkedin.com"
  const Www: string := "www."
  const WwwLinkedIn: string := Www + LinkedIn
  const CompanySegment: string := "/company/"
  const CompanyPath: string := LinkedIn + CompanySegment

  // ----- Pieces of the two regular expressions -----

  /** `^https?:\/\/`, ignoring case: the length of the match, or 0 when there is none. */
  function SchemeLength(s: string): (n: nat)
    ensures n == 0 || n == 7 || n == 8
    ensures n == 8 <==> StartsWithIgnoreCase(s, "https://")
    ensures n == 7 <==> StartsWithIgnoreCase(s, "http://")
    ensures n <= |s|
  {
    SchemesExclusive(s);
    if StartsWithIgnoreCase(s, "https://") then 8
    else if StartsWithIgnoreCase(s, "http://") then 7
    else 0
  }

  /** `https://` and `http://` differ in their fifth character. */
  lemma SchemesExclusive(s: string)
    ensures !(StartsWithIgnoreCase(s, "https://") && StartsWithIgnoreCase(s, "http://"))
  {
    if StartsWithIgnoreCase(s, "https://") {
      assert s[..8][4] == s[4];
      assert LowerAscii(s[4]) == 's';
      assert s[..7][4] == s[4];
    }
  }

  /** The scheme test only looks at the first eight characters. */
  lemma SchemeLengthOfPrefix(s: string, p: string)
    requires 8 <= |p| <= |s| && p == s[..|p|]
    ensures SchemeLength(p) == SchemeLength(s)
  {
    assert p[..8] == s[..8];
    assert p[..7] == s[..7];
  }

  /** `k` ASCII letters (`[a-z]` under the `i` flag) from index `i`. */
  predicate LettersAt(s: string, i: nat, k: nat)
  {
    i + k <= |s| && forall t | i <= t < i + k :: IsAsciiLetter(s[t])
  }

  /**
   * `[a-z]{2,3}\.linkedin\.com` at index `i`, ignoring case: the number of subdomain letters,
   * or 0 when there is no match. The greedy quantifier tries three letters before two.
   */
  function SubdomainLength(s: string, i: nat): (k: nat)
    ensures k == 0 || k == 2 || k == 3
    ensures k != 0 ==> LettersAt(s, i, k) && IgnoreCaseAt(s, i + k, LinkedInDomain)
    ensures k != 3 ==> !(LettersAt(s, i, 3) && IgnoreCaseAt(s, i + 3, LinkedInDomain))
    ensures k == 0 ==> !(LettersAt(s, i, 2) && IgnoreCaseAt(s, i + 2, LinkedInDomain))
  {
    if LettersAt(s, i, 3) && IgnoreCaseAt(s, i + 3, LinkedInDomain) then 3
    else if LettersAt(s, i, 2) && IgnoreCaseAt(s, i + 2, LinkedInDomain) then 2
    else 0
  }

  /**
   * `s.replace(/^(https?:\/\/)[a-z]{2,3}\.linkedin\.com/i, '$1www.linkedin.com')`: the scheme
   * is kept as written and the subdomain with the domain becomes `www.linkedin.com`.
   */
  function ReplaceCountrySubdomain(s: string): (r: string)
    ensures SchemeLength(s) == 0 || SubdomainLength(s, SchemeLength(s)) == 0 ==> r == s
    ensures
      var n := SchemeLength(s);
      n != 0 && SubdomainLength(s, n) != 0 ==>
        r == s[..n] + WwwLinkedIn + s[n + SubdomainLength(s, n) + |LinkedInDomain|..]
  {
    var n := SchemeLength(s);
    if n == 0 then s
    else
      var k := SubdomainLength(s, n);
      if k == 0 then s else s[..n] + WwwLinkedIn + s[n + k + |LinkedInDomain|..]
  }

  /** `s.split('?')[0]`: everything before the first `?`. */
  function BeforeFirstQuestionMark(s: string): (r: string)
    ensures |r| <= |s| && r == s[..|r|]
    ensures '?' !in r
    ensures |r| < |s| ==> s[|r|] == '?'
  {
    if s == [] || s[0] == '?' then []
    else
      var rest := BeforeFirstQuestionMark(s[1..]);
      assert s[..|rest| + 1] == [s[0]] + rest;
      [s[0]] + rest
  }

  /** `[a-zA-Z0-9._-]` (the same set under the `i` flag). */
  predicate IsSlugChar(c: char)
  {
    IsAsciiLetter(c) || IsDigit(c) || c == '.' || c == '_' || c == '-'
  }

  /** The end of the run of slug characters that starts at `i` (the greedy `+`). */
  function SlugEnd(s: string, i: nat): (e: nat)
    requires i <= |s|
    ensures i <= e <= |s|
    ensures forall t | i <= t < e :: IsSlugChar(s[t])
    ensures e == |s| || !IsSlugChar(s[e])
    decreases |s| - i
  {
    if i < |s| && IsSlugChar(s[i]) then SlugEnd(s, i + 1) else i
  }

  predicate HasLineTerminator(s: string)
  {
    exists t | 0 <= t < |s| :: IsLineTerminator(s[t])
  }

  /**
   * Where the slug starts under `^https?:\/\/(?:www\.)?linkedin\.com\/company\/`, ignoring
   * case, if the prefix matches. `www.` is taken when the rest then matches; otherwise the
   * engine backtracks to the empty alternative.
   */
  function SlugStart(v: string): (start: Option<nat>)
    ensures start.Some? ==> start.value <= |v|
  {
    var n := SchemeLength(v);
    if n == 0 then None
    else
      var w := if IgnoreCaseAt(v, n, Www) && IgnoreCaseAt(v, n + |Www|, CompanyPath) then n + |Www| else n;
      if IgnoreCaseAt(v, w, CompanyPath) then Some(w + |CompanyPath|) else None
  }

  /**
   * `v.match(/^(https?:\/\/(?:www\.)?linkedin\.com\/company\/[a-zA-Z0-9._-]+)\/?.*$/i)` and its
   * first group. Because `.` does not match a line terminator and `$` (without the `m` flag)
   * only matches at the end, a line terminator anywhere makes the match fail.
   */
  function MatchCompanyUrl(v: string): (r: Option<string>)
    // The group is a prefix of `v` that runs past the `/company/` part ...
    ensures r.Some? ==> SlugStart(v).Some? && SlugStart(v).value < |r.value| <= |v| && r.value == v[..|r.value|]
    // ... ends where the slug run ends, and is only found in a single-line string.
    ensures r.Some? ==> (|r.value| == |v| || !IsSlugChar(v[|r.value|])) && !HasLineTerminator(v)
    ensures SlugStart(v).None? ==> r.None?
  {
    match SlugStart(v)
    case None => None
    case Some(start) =>
      var e := SlugEnd(v, start);
      if e == start || HasLineTerminator(v) then None else Some(v[..e])
  }

  /** What the actor feeds the final match: trimmed, country subdomain rewritten, cut at `?`. */
  function Truncate(raw: string): (r: string)
    ensures '?' !in r
    ensures |r| <= |ReplaceCountrySubdomain(Trim(raw))| && r == ReplaceCountrySubdomain(Trim(raw))[..|r|]
  {
    BeforeFirstQuestionMark(ReplaceCountrySubdomain(Trim(raw)))
  }

  // ----- What the final regular expression matches, stated directly -----

  /**
   * The final pattern matches `v` with a scheme of length `n`, the slug starting at `start`
   * and the group ending at `e`. The group's characters are all ASCII, so asking for no line
   * terminator in the whole of `v` is the same as asking it of the `.*` part.
   */
  ghost predicate CompanyMatch(v: string, n: nat, start: nat, e: nat)
  {
    && ((n == 8 && StartsWithIgnoreCase(v, "https://")) || (n == 7 && StartsWithIgnoreCase(v, "http://")))
    && (start == n + |CompanyPath| || (start == n + |Www| + |CompanyPath| && IgnoreCaseAt(v, n, Www)))
    && IgnoreCaseAt(v, start - |CompanyPath|, CompanyPath)
    && start < e <= |v|
    && (forall t | start <= t < e :: IsSlugChar(v[t]))
    && !HasLineTerminator(v)
  }

  ghost predicate IsCompanyUrl(v: string)
  {
    exists n: nat, start: nat, e: nat :: CompanyMatch(v, n, start, e)
  }

  /** `linkedin.com/...` cannot also be read as `www.linkedin.com/...` at the same place. */
  lemma CompanyPathIsNotWww(v: string, i: nat)
    ensures !(IgnoreCaseAt(v, i, Www) && IgnoreCaseAt(v, i, CompanyPath))
  {
    if IgnoreCaseAt(v, i, Www) {
      IgnoreCaseAtChar(v, i, Www, 0);
      assert LowerAscii(v[i]) == 'w';
      if IgnoreCaseAt(v, i, CompanyPath) {
        IgnoreCaseAtChar(v, i, CompanyPath, 0);
      }
    }
  }

  /**
   * The decision procedure is the regular expression: it fails exactly when no match exists,
   * and on success returns the prefix of `v` up to the end of the longest slug.
   */
  lemma MatchCompanyUrlCorrect(v: string)
    ensures MatchCompanyUrl(v).None? <==> !IsCompanyUrl(v)
    ensures MatchCompanyUrl(v).Some? ==>
      exists n: nat, start: nat, e: nat ::
        && CompanyMatch(v, n, start, e)
        && MatchCompanyUrl(v).value == v[..e]
        && (e == |v| || !IsSlugChar(v[e]))
  {
    var n := SchemeLength(v);
    if MatchCompanyUrl(v).Some? {
      var start := SlugStart(v).value;
      var e := SlugEnd(v, start);
      assert CompanyMatch(v, n, start, e);
    }
    if IsCompanyUrl(v) {
      var n': nat, start: nat, e: nat :| CompanyMatch(v, n', start, e);
      assert n' == n;
      CompanyPathIsNotWww(v, n);
      assert SlugStart(v) == Some(start);
      assert start < SlugEnd(v, start);
    }
  }

  // ----- The canonicaliser -----

  /**
   * Lines 86-96 of the company actor: the canonical company URL, or the actor's error when
   * the truncated input is not a company URL. A success is a prefix of the truncated input;
   * `CanonicalCompanyUrlCorrect` says which one.
   */
  function CanonicalCompanyUrl(raw: string): (r: Result<string, string>)
    ensures r.Err? ==> r.error == InvalidCompanyUrl
    ensures r.Ok? ==> |r.value| <= |Truncate(raw)| && r.value == Truncate(raw)[..|r.value|]
  {
    match MatchCompanyUrl(Truncate(raw))
    case None => Err(InvalidCompanyUrl)
    case Some(url) => Ok(url)
  }

  /**
   * The actor rejects its input exactly when the truncated input is not a company URL, and
   * otherwise keeps the truncated input up to the end of the longest slug, so any trailing
   * slash, later path segment or fragment is gone.
   */
  lemma CanonicalCompanyUrlCorrect(raw: string)
    ensures CanonicalCompanyUrl(raw).Err? <==> !IsCompanyUrl(Truncate(raw))
    ensures CanonicalCompanyUrl(raw).Ok? ==>
      var v := Truncate(raw);
      exists n: nat, start: nat, e: nat ::
        && CompanyMatch(v, n, start, e)
        && CanonicalCompanyUrl(raw).value == v[..e]
        && (e == |v| || !IsSlugChar(v[e]))
  {
    MatchCompanyUrlCorrect(Truncate(raw));
  }

  /** `www.linkedin.com/company/` starts with a three-letter subdomain of `linkedin.com`. */
  lemma WwwIsSubdomain(s: string, n: nat)
    requires IgnoreCaseAt(s, n, Www) && IgnoreCaseAt(s, n + |Www|, CompanyPath)
    ensures SubdomainLength(s, n) == 3
  {
    forall k | n <= k < n + 3
      ensures IsAsciiLetter(s[k])
    {
      IgnoreCaseAtChar(s, n, Www, k - n);
    }
    IgnoreCaseAtChar(s, n, Www, 3);
    assert IgnoreCaseAt(s, n + 3, ".") by {
      assert s[n + 3..n + 4][0] == s[n + 3];
    }
    assert CompanyPath == "linkedin.com" + "/company/";
    IgnoreCaseAtConcat(s, n + |Www|, "linkedin.com", "/company/");
    assert LinkedInDomain == "." + "linkedin.com";
    IgnoreCaseAtConcat(s, n + 3, ".", "linkedin.com");
  }

  /** `linkedin.com/company/` has no subdomain: neither its third nor fourth character is a dot. */
  lemma CompanyPathHasNoSubdomain(s: string, n: nat)
    requires IgnoreCaseAt(s, n, CompanyPath)
    ensures SubdomainLength(s, n) == 0
  {
    IgnoreCaseAtChar(s, n, CompanyPath, 2);
    IgnoreCaseAtChar(s, n, CompanyPath, 3);
    DomainStartsWithDot(s, n + 2);
    DomainStartsWithDot(s, n + 3);
  }

  /** `.linkedin.com` starts with a dot, which no case folding produces from anything else. */
  lemma DomainStartsWithDot(s: string, i: nat)
    ensures IgnoreCaseAt(s, i, LinkedInDomain) ==> LowerAscii(s[i]) == '.'
  {
    if IgnoreCaseAt(s, i, LinkedInDomain) {
      IgnoreCaseAtChar(s, i, LinkedInDomain, 0);
    }
  }

  /** The rewrite keeps the scheme, so the scheme test sees the same scheme afterwards. */
  lemma ReplaceKeepsScheme(t: string)
    ensures SchemeLength(ReplaceCountrySubdomain(t)) == SchemeLength(t)
  {
    var n := SchemeLength(t);
    var r := ReplaceCountrySubdomain(t);
    if n != 0 && SubdomainLength(t, n) != 0 {
      assert r[..n] == t[..n];
      SchemesExclusive(r);
      SchemesExclusive(t);
      if n == 8 {
        assert r[..8] == t[..8];
      } else {
        assert r[..7] == t[..7];
      }
    }
  }

  /**
   * When `www.` precedes `linkedin.com/company/` after the rewrite, it is the lower-case
   * `www.linkedin.com` the rewrite itself wrote: a `www.` the input spelt any other way is a
   * three-letter subdomain that the rewrite replaces.
   */
  lemma WwwIsRewritten(t: string)
    requires
      var v := BeforeFirstQuestionMark(ReplaceCountrySubdomain(t));
      var n := SchemeLength(v);
      n != 0 && IgnoreCaseAt(v, n, Www) && IgnoreCaseAt(v, n + |Www|, CompanyPath)
    ensures
      var v := BeforeFirstQuestionMark(ReplaceCountrySubdomain(t));
      var n := SchemeLength(v);
      v[n..n + |WwwLinkedIn|] == WwwLinkedIn
  {
    var replaced := ReplaceCountrySubdomain(t);
    var v := BeforeFirstQuestionMark(replaced);
    var n := SchemeLength(v);
    SchemeLengthOfPrefix(replaced, v);
    ReplaceKeepsScheme(t);
    IgnoreCaseAtPrefix(replaced, v, n, Www);
    IgnoreCaseAtPrefix(replaced, v, n + |Www|, CompanyPath);
    if SubdomainLength(t, n) == 0 {
      // Then nothing was rewritten, yet the text has a three-letter subdomain.
      WwwIsSubdomain(t, n);
      assert false;
    }
    assert replaced[n..n + |WwwLinkedIn|] == WwwLinkedIn;
    assert v[n..n + |WwwLinkedIn|] == replaced[n..n + |WwwLinkedIn|];
  }

  /** The rewrite replaces an exactly spelt `www.linkedin.com` by itself. */
  lemma RewriteKeepsWww(r: string, n: nat)
    requires n != 0 && SchemeLength(r) == n
    requires IgnoreCaseAt(r, n, Www) && IgnoreCaseAt(r, n + |Www|, CompanyPath)
    requires r[n..n + |WwwLinkedIn|] == WwwLinkedIn
    ensures ReplaceCountrySubdomain(r) == r
  {
    WwwIsSubdomain(r, n);
    assert r == r[..n] + WwwLinkedIn + r[n + 3 + |LinkedInDomain|..];
  }

  /** The rewrite leaves `linkedin.com/company/` without a subdomain alone. */
  lemma RewriteKeepsBareDomain(r: string, n: nat)
    requires SchemeLength(r) == n && IgnoreCaseAt(r, n, CompanyPath)
    ensures ReplaceCountrySubdomain(r) == r
  {
    CompanyPathHasNoSubdomain(r, n);
  }

  /** The pieces of a successful match: scheme length, where `linkedin.com` starts, where the slug ends. */
  lemma MatchShape(v: string) returns (n: nat, w: nat, e: nat)
    requires MatchCompanyUrl(v).Some?
    ensures n == SchemeLength(v) && n != 0
    ensures w == n || (w == n + |Www| && IgnoreCaseAt(v, n, Www))
    ensures IgnoreCaseAt(v, w, CompanyPath)
    ensures w + |CompanyPath| < e <= |v|
    ensures SlugStart(v) == Some(w + |CompanyPath|) && SlugEnd(v, w + |CompanyPath|) == e
    ensures MatchCompanyUrl(v).value == v[..e]
    ensures !HasLineTerminator(v)
  {
    n := SchemeLength(v);
    var start := SlugStart(v).value;
    w := start - |CompanyPath|;
    e := SlugEnd(v, start);
  }

  /** The result of a successful match starts with the scheme and ends with a slug character. */
  lemma MatchIsTrimmed(v: string)
    requires MatchCompanyUrl(v).Some?
    ensures Trim(MatchCompanyUrl(v).value) == MatchCompanyUrl(v).value
  {
    var n, w, e := MatchShape(v);
    var r := v[..e];
    if n == 8 {
      assert v[..8][0] == v[0];
    } else {
      assert v[..7][0] == v[0];
    }
    assert LowerAscii(v[0]) == 'h';
    assert r[0] == v[0];
    assert r[|r| - 1] == v[e - 1];
    TrimUnchanged(r);
  }

  /**
   * The result of a successful match has no subdomain, or has `www.linkedin.com` where `v`
   * spells it exactly; either way the rewrite leaves it as it is.
   */
  lemma MatchSurvivesRewrite(v: string)
    requires MatchCompanyUrl(v).Some?
    requires
      var n := SchemeLength(v);
      IgnoreCaseAt(v, n, Www) && IgnoreCaseAt(v, n + |Www|, CompanyPath) ==> v[n..n + |WwwLinkedIn|] == WwwLinkedIn
    ensures ReplaceCountrySubdomain(MatchCompanyUrl(v).value) == MatchCompanyUrl(v).value
  {
    var n, w, e := MatchShape(v);
    var r := v[..e];
    SchemeLengthOfPrefix(v, r);
    IgnoreCaseAtPrefix(v, r, w, CompanyPath);
    if w == n + |Www| {
      IgnoreCaseAtPrefix(v, r, n, Www);
      assert n + |WwwLinkedIn| <= e;
      assert r[n..n + |WwwLinkedIn|] == v[n..n + |WwwLinkedIn|];
      RewriteKeepsWww(r, n);
    } else {
      RewriteKeepsBareDomain(r, n);
    }
  }

  /** What the actor's rewrite produced, once matched, goes through the rewrite unchanged. */
  lemma MatchIsRewritten(t: string)
    requires MatchCompanyUrl(BeforeFirstQuestionMark(ReplaceCountrySubdomain(t))).Some?
    ensures
      var r := MatchCompanyUrl(BeforeFirstQuestionMark(ReplaceCountrySubdomain(t))).value;
      ReplaceCountrySubdomain(r) == r
  {
    var v := BeforeFirstQuestionMark(ReplaceCountrySubdomain(t));
    var n := SchemeLength(v);
    if IgnoreCaseAt(v, n, Www) && IgnoreCaseAt(v, n + |Www|, CompanyPath) {
      WwwIsRewritten(t);
    }
    MatchSurvivesRewrite(v);
  }

  /** Matching the result of a successful match gives that result again. */
  lemma MatchIsStable(v: string)
    requires MatchCompanyUrl(v).Some?
    ensures MatchCompanyUrl(MatchCompanyUrl(v).value) == MatchCompanyUrl(v)
  {
    var n, w, e := MatchShape(v);
    var r := v[..e];
    var start := w + |CompanyPath|;
    SchemeLengthOfPrefix(v, r);
    IgnoreCaseAtPrefix(v, r, w, CompanyPath);
    if w == n + |Www| {
      IgnoreCaseAtPrefix(v, r, n, Www);
    } else {
      CompanyPathIsNotWww(r, n);
    }
    assert SlugStart(r) == Some(start);
    assert forall t | start <= t < |r| :: r[t] == v[t];
    assert SlugEnd(r, start) == e;
    assert forall t | 0 <= t < |r| :: !IsLineTerminator(r[t]) by {
      assert forall t | 0 <= t < |r| :: r[t] == v[t];
    }
    assert !HasLineTerminator(r);
    assert r[..e] == r;
  }

  /** A canonical company URL is its own canonical form. */
  lemma CanonicalCompanyUrlIdempotent(raw: string)
    requires CanonicalCompanyUrl(raw).Ok?
    ensures CanonicalCompanyUrl(CanonicalCompanyUrl(raw).value) == CanonicalCompanyUrl(raw)
  {
    var v := Truncate(raw);
    var r := MatchCompanyUrl(v).value;
    MatchIsTruncated(raw);
    MatchIsStable(v);
    assert MatchCompanyUrl(Truncate(r)) == Some(r);
  }

  /** The canonical URL goes through the actor's trimming, rewrite and cut unchanged. */
  lemma MatchIsTruncated(raw: string)
    requires MatchCompanyUrl(Truncate(raw)).Some?
    ensures Truncate(MatchCompanyUrl(Truncate(raw)).value) == MatchCompanyUrl(Truncate(raw)).value
  {
    var v := Truncate(raw);
    MatchIsTrimmed(v);
    MatchIsRewritten(Trim(raw));
    MatchHasNoQuestionMark(ReplaceCountrySubdomain(Trim(raw)));
    TruncateFixed(MatchCompanyUrl(v).value);
  }

  /** A string that trimming and the rewrite leave alone, and without `?`, is its own truncation. */
  lemma TruncateFixed(r: string)
    requires Trim(r) == r && ReplaceCountrySubdomain(r) == r && '?' !in r
    ensures Truncate(r) == r
  {
    NoQuestionMarkUncut(r);
  }

  /** The match is a prefix of text cut before its first `?`, so it holds no `?`. */
  lemma MatchHasNoQuestionMark(t: string)
    requires MatchCompanyUrl(BeforeFirstQuestionMark(t)).Some?
    ensures '?' !in MatchCompanyUrl(BeforeFirstQuestionMark(t)).value
  {
    var v := BeforeFirstQuestionMark(t);
    var n, w, e := MatchShape(v);
    var r := v[..e];
    assert forall i | 0 <= i < |r| :: r[i] == v[i];
  }

  /** Cutting at the first `?` leaves a string without `?` alone. */
  lemma {:induction false} NoQuestionMarkUncut(s: string)
    requires '?' !in s
    ensures BeforeFirstQuestionMark(s) == s
  {
    if s != [] {
      assert s[0] in s;
      assert s == [s[0]] + s[1..];
      assert '?' !in s[1..] by {
        assert forall i | 0 <= i < |s[1..]| :: s[1..][i] == s[i + 1];
      }
      NoQuestionMarkUncut(s[1..]);
    }
  }

  /** Surrounding whitespace makes no difference: it is trimmed before anything else. */
  lemma SurroundingWhitespaceIgnored(raw: string)
    ensures CanonicalCompanyUrl(Trim(raw)) == CanonicalCompanyUrl(raw)
  {
    TrimIdempotent(raw);
  }

  /** Cutting at the first `?` passes over a part without `?`. */
  lemma {:induction false} BeforeFirstQuestionMarkAppend(a: string, b: string)
    requires '?' !in a
    ensures BeforeFirstQuestionMark(a + b) == a + BeforeFirstQuestionMark(b)
  {
    if a != [] {
      assert a[0] in a;
      assert (a + b)[0] == a[0] && (a + b)[1..] == a[1..] + b;
      assert BeforeFirstQuestionMark(a + b) == [a[0]] + BeforeFirstQuestionMark(a[1..] + b);
      BeforeFirstQuestionMarkAppend(a[1..], b);
      assert a == [a[0]] + a[1..];
    } else {
      assert a + b == b;
    }
  }

  /** Text made of slug characters, `:` and `/`: no `?`, no line terminator. */
  predicate IsUrlText(s: string)
  {
    forall i | 0 <= i < |s| :: IsSlugChar(s[i]) || s[i] == ':' || s[i] == '/'
  }

  lemma UrlTextAppend(a: string, b: string)
    requires IsUrlText(a) && IsUrlText(b)
    ensures IsUrlText(a + b)
  {
    assert forall i | |a| <= i < |a + b| :: (a + b)[i] == b[i - |a|];
  }

  lemma UrlTextIsPlain(s: string)
    requires IsUrlText(s)
    ensures '?' !in s && !HasLineTerminator(s)
  {
    forall i | 0 <= i < |s|
      ensures s[i] != '?' && !IsLineTerminator(s[i])
    {
    }
  }

  lemma NoLineTerminatorAppend(a: string, b: string)
    requires !HasLineTerminator(a) && !HasLineTerminator(b)
    ensures !HasLineTerminator(a + b)
  {
    forall i | 0 <= i < |a + b|
      ensures !IsLineTerminator((a + b)[i])
    {
      if i >= |a| {
        assert (a + b)[i] == b[i - |a|];
      }
    }
  }

  /** The scheme test on a string that starts with a literal scheme. */
  lemma SchemeLengthOf(scheme: string, rest: string)
    requires scheme == "https://" || scheme == "http://"
    ensures SchemeLength(scheme + rest) == |scheme|
  {
    var s := scheme + rest;
    assert s[..|scheme|] == scheme;
    SchemesExclusive(s);
  }

  /**
   * What the examples need of a scheme the pattern accepts: it is recognised in front of
   * anything, and it is plain URL text starting with a non-blank.
   */
  ghost predicate IsSchemeText(scheme: string)
  {
    && 0 < |scheme|
    && IsUrlText(scheme)
    && !IsJsWhitespace(scheme[0])
    && forall rest: string {:trigger SchemeLength(scheme + rest)} :: SchemeLength(scheme + rest) == |scheme|
  }

  lemma LiteralSchemes(scheme: string)
    requires scheme == "https://" || scheme == "http://"
    ensures IsSchemeText(scheme)
  {
    forall rest: string
      ensures SchemeLength(scheme + rest) == |scheme|
    {
      SchemeLengthOf(scheme, rest);
    }
    assert IsUrlText(scheme);
  }

  /** The prefix the actor writes: scheme, `www.` and `linkedin.com/company/`. */
  lemma WwwCompanyPrefixIsUrlText(scheme: string)
    requires IsUrlText(scheme)
    ensures IsUrlText(scheme + Www + CompanyPath)
  {
    assert IsUrlText(Www);
    assert IsUrlText(CompanyPath);
    UrlTextAppend(scheme, Www);
    UrlTextAppend(scheme + Www, CompanyPath);
  }

  /** Two or three letters followed by `.linkedin.com` are a country subdomain. */
  lemma CountrySubdomainAt(s: string, n: nat, sub: string)
    requires (|sub| == 2 || |sub| == 3) && forall i | 0 <= i < |sub| :: IsAsciiLetter(sub[i])
    requires n + |sub| + |LinkedInDomain| <= |s|
    requires s[n..n + |sub|] == sub && s[n + |sub|..n + |sub| + |LinkedInDomain|] == LinkedInDomain
    ensures SubdomainLength(s, n) == |sub|
  {
    var d := n + |sub|;
    IgnoreCaseAtExact(s, d, LinkedInDomain);
    assert forall t | n <= t < d :: s[t] == s[n..d][t - n];
    if |sub| == 2 {
      assert s[n + 2] == s[d..d + |LinkedInDomain|][0];
    }
  }

  /** Where the pieces of `<scheme><xx>.linkedin.com<rest>` lie, as the rewrite reads them. */
  lemma CountryUrlPieces(scheme: string, sub: string, rest: string)
    requires IsSchemeText(scheme)
    requires (|sub| == 2 || |sub| == 3) && forall i | 0 <= i < |sub| :: IsAsciiLetter(sub[i])
    ensures var s := scheme + sub + (LinkedInDomain + rest);
      && SchemeLength(s) == |scheme|
      && SubdomainLength(s, |scheme|) == |sub|
      && s[..|scheme|] == scheme
      && s[|scheme| + |sub| + |LinkedInDomain|..] == rest
  {
    var s := scheme + sub + (LinkedInDomain + rest);
    var n := |scheme|;
    var d := n + |sub|;
    assert SchemeLength(s) == n by {
      assert s == scheme + (sub + (LinkedInDomain + rest));
    }
    assert s[..n] == scheme && s[n..d] == sub && s[d..d + |LinkedInDomain|] == LinkedInDomain
        && s[d + |LinkedInDomain|..] == rest by {
      ConcatSlices(scheme, sub, LinkedInDomain + rest);
      ConcatSlices(scheme + sub, LinkedInDomain, rest);
      assert s == scheme + sub + LinkedInDomain + rest;
    }
    CountrySubdomainAt(s, n, sub);
  }

  /** The rewrite of a country subdomain right after the scheme. */
  lemma RewriteCountrySubdomain(scheme: string, sub: string, rest: string)
    requires IsSchemeText(scheme)
    requires (|sub| == 2 || |sub| == 3) && forall i | 0 <= i < |sub| :: IsAsciiLetter(sub[i])
    ensures ReplaceCountrySubdomain(scheme + sub + (LinkedInDomain + rest)) == scheme + (WwwLinkedIn + rest)
  {
    CountryUrlPieces(scheme, sub, rest);
    assert ReplaceCountrySubdomain(scheme + sub + (LinkedInDomain + rest)) == scheme + WwwLinkedIn + rest;
  }

  /** Scheme, `www.` and `linkedin.com/company/`: the slug starts after them. */
  lemma WwwCompanySlugStart(v: string, n: nat)
    requires 0 < n && SchemeLength(v) == n
    requires n + |Www| + |CompanyPath| <= |v|
    requires v[n..n + |Www|] == Www && v[n + |Www|..n + |Www| + |CompanyPath|] == CompanyPath
    ensures SlugStart(v) == Some(n + |Www| + |CompanyPath|)
  {
    IgnoreCaseAtExact(v, n, Www);
    IgnoreCaseAtExact(v, n + |Www|, CompanyPath);
  }

  /** A run of slug characters ends where a non-slug character or the end comes. */
  lemma SlugRunEnds(v: string, start: nat, slug: string)
    requires start + |slug| <= |v| && v[start..start + |slug|] == slug
    requires forall i | 0 <= i < |slug| :: IsSlugChar(slug[i])
    requires start + |slug| == |v| || !IsSlugChar(v[start + |slug|])
    ensures SlugEnd(v, start) == start + |slug|
    decreases |slug|
  {
    if slug != [] {
      assert v[start] == slug[0];
      assert v[start + 1..start + |slug|] == slug[1..];
      SlugRunEnds(v, start + 1, slug[1..]);
    }
  }

  /** Where the slug starts in a `www` company URL. */
  lemma WwwCompanyUrlSlugStart(scheme: string, rest: string)
    requires IsSchemeText(scheme)
    ensures SlugStart(scheme + Www + CompanyPath + rest) == Some(|scheme + Www + CompanyPath|)
  {
    var v := scheme + Www + CompanyPath + rest;
    var n := |scheme|;
    assert SchemeLength(scheme + (Www + CompanyPath + rest)) == n;
    assert v == scheme + (Www + CompanyPath + rest);
    ConcatSlices(scheme, Www, CompanyPath + rest);
    ConcatSlices(scheme + Www, CompanyPath, rest);
    assert v == scheme + Www + (CompanyPath + rest);
    WwwCompanySlugStart(v, n);
  }

  /** A `www` company URL with a plain slug has no line terminator up to the slug's end. */
  lemma WwwCompanyUrlIsPlain(scheme: string, slug: string)
    requires IsSchemeText(scheme) && IsUrlText(slug)
    ensures IsUrlText(scheme + Www + CompanyPath + slug)
  {
    WwwCompanyPrefixIsUrlText(scheme);
    UrlTextAppend(scheme + Www + CompanyPath, slug);
  }

  /** The final match on a `www` company URL keeps it up to the end of the slug. */
  lemma MatchWwwCompanyUrl(scheme: string, slug: string, cut: string)
    requires IsSchemeText(scheme)
    requires |slug| >= 1 && IsUrlText(slug) && forall i | 0 <= i < |slug| :: IsSlugChar(slug[i])
    requires cut == [] || !IsSlugChar(cut[0])
    requires !HasLineTerminator(cut)
    ensures MatchCompanyUrl(scheme + Www + CompanyPath + slug + cut) == Some(scheme + Www + CompanyPath + slug)
  {
    var prefix := scheme + Www + CompanyPath;
    var head := prefix + slug;
    var v := head + cut;
    WwwCompanyUrlSlugStart(scheme, slug + cut);
    assert v == prefix + (slug + cut);
    ConcatSlices(prefix, slug, cut);
    assert |head| < |v| ==> v[|head|] == cut[0];
    SlugRunEnds(v, |prefix|, slug);
    WwwCompanyUrlIsPlain(scheme, slug);
    UrlTextIsPlain(head);
    NoLineTerminatorAppend(head, cut);
    assert v[..|head|] == head;
  }

  /** The cut at the first `?` leaves the `www` prefix and the slug alone. */
  lemma CutCompanyUrl(scheme: string, slug: string, tail: string)
    requires IsSchemeText(scheme)
    requires IsUrlText(slug)
    ensures BeforeFirstQuestionMark(scheme + Www + CompanyPath + slug + tail)
         == scheme + Www + CompanyPath + slug + BeforeFirstQuestionMark(tail)
  {
    var head := scheme + Www + CompanyPath + slug;
    WwwCompanyPrefixIsUrlText(scheme);
    UrlTextAppend(scheme + Www + CompanyPath, slug);
    UrlTextIsPlain(head);
    BeforeFirstQuestionMarkAppend(head, tail);
  }

  /** The slug of `j.p.morgan` keeps its dots; the path after the slug goes. */
  lemma DottedSlugExample()
    ensures MatchCompanyUrl("https://" + Www + CompanyPath + "j.p.morgan" + "/about")
         == Some("https://" + Www + CompanyPath + "j.p.morgan")
  {
    LiteralSchemes("https://");
    assert IsUrlText("j.p.morgan");
    assert !HasLineTerminator("/about");
    MatchWwwCompanyUrl("https://", "j.p.morgan", "/about");
  }
}
