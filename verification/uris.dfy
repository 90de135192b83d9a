/**
 * The URI layer in front of the handler: the part of `java.net.URI` parsing
 * that decides the scheme and the raw scheme-specific part, and the peeling of
 * a `jar:` URL into a nested-jar path in `Handler.openConnection`.
 */
module Uris {
  import opened Common
  import opened Address

  /** A parsed URI, reduced to what the handler reads from it. */
  datatype Uri = Uri(scheme: Option<string>, rawSsp: string)

  /** The characters that end a scheme name: ":" and the first "/", "?" or "#". */
  const Delimiters: string := ":/?#"

  /** The first index at or after `k` whose character is among `chars`, or `|s|`. */
  function FirstIndexIn(s: string, chars: string, k: nat): (e: nat)
    requires k <= |s|
    ensures k <= e <= |s|
    ensures e < |s| ==> s[e] in chars
    ensures forall m :: k <= m < e ==> s[m] !in chars
    decreases |s| - k
  {
    if k == |s| || s[k] in chars then k else FirstIndexIn(s, chars, k + 1)
  }

  predicate IsAlpha(c: char)
  {
    'a' <= c <= 'z' || 'A' <= c <= 'Z'
  }

  predicate IsDigit(c: char)
  {
    '0' <= c <= '9'
  }

  /** A scheme name: a letter followed by letters, digits, "+", "-" or ".". */
  predicate ValidScheme(s: string)
  {
    && |s| > 0
    && IsAlpha(s[0])
    && forall k :: 1 <= k < |s| ==> IsAlpha(s[k]) || IsDigit(s[k]) || s[k] in "+-."
  }

  /**
   * `new URI(s)`, as far as scheme and raw scheme-specific part go. A ":"
   * before any "/", "?" or "#" ends the scheme, which must then be non-empty
   * and well formed; an absolute URI needs a non-empty scheme-specific part;
   * the fragment after "#" is not part of it.
   */
  function ParseUri(s: string): (r: Result<Uri>)
    ensures r.Ok? ==> '#' !in r.value.rawSsp
    ensures r.Ok? && r.value.scheme.Some? ==>
      && ValidScheme(r.value.scheme.value)
      && r.value.rawSsp != ""
      && r.value.scheme.value + ":" + r.value.rawSsp <= s
    ensures r.Ok? && r.value.scheme.None? ==> r.value.rawSsp <= s
    // the raw part runs to the end of the input or to its first "#"
    ensures r.Ok? && r.value.scheme.Some? ==>
      var n := |r.value.scheme.value| + 1 + |r.value.rawSsp|;
      n == |s| || s[n] == '#'
    ensures r.Ok? && r.value.scheme.None? ==>
      |r.value.rawSsp| == |s| || s[|r.value.rawSsp|] == '#'
    ensures r.Err? ==> r.error.UriSyntax? && r.error.input == s
  {
    var p := FirstIndexIn(s, Delimiters, 0);
    if p < |s| && s[p] == ':' then
      var scheme := s[..p];
      var rest := s[p + 1..];
      var q := FirstIndexIn(rest, "#", 0);
      if p == 0 then Err(UriSyntax(s, "Expected scheme name"))
      else if !ValidScheme(scheme) then Err(UriSyntax(s, "Illegal character in scheme name"))
      else if q == 0 then Err(UriSyntax(s, "Expected scheme-specific part"))
      else
        assert s == scheme + ":" + rest;
        Ok(Uri(Some(scheme), rest[..q]))
    else
      Ok(Uri(None, s[..FirstIndexIn(s, "#", 0)]))
  }

  /** A URI has no scheme exactly when no ":" comes before its first "/", "?" or "#". */
  lemma NoSchemeIff(s: string)
    ensures (ParseUri(s).Ok? && ParseUri(s).value.scheme.None?) <==> ':' !in s[..FirstIndexIn(s, "/?#", 0)]
  {
    var p := FirstIndexIn(s, Delimiters, 0);
    var e := FirstIndexIn(s, "/?#", 0);
    if p < |s| && s[p] == ':' {
      assert s[..e][p] == ':';
    } else {
      assert forall k :: 0 <= k < e ==> s[k] != ':';
    }
  }

  /** An absolute URI with a well-formed scheme and no fragment parses to its two halves. */
  lemma ParseAbsolute(scheme: string, rest: string)
    requires ValidScheme(scheme) && rest != "" && '#' !in rest
    ensures ParseUri(scheme + ":" + rest) == Ok(Uri(Some(scheme), rest))
  {
    var s := scheme + ":" + rest;
    forall m | 0 <= m < |scheme|
      ensures s[m] !in Delimiters
    {
      assert s[m] == scheme[m];
    }
    assert s[|scheme|] == ':';
    assert FirstIndexIn(s, Delimiters, 0) == |scheme|;
    assert s[..|scheme|] == scheme;
    assert s[|scheme| + 1..] == rest;
    var q := FirstIndexIn(rest, "#", 0);
    assert forall k :: 0 <= k < |rest| ==> rest[k] != '#';
    assert rest[..q] == rest;
  }

  /** A fragment does not change what a URI parses to, though an error still reports the whole input. */
  lemma ParseIgnoresFragment(s: string, f: string)
    requires '#' !in s
    ensures ParseUri(s + "#" + f).Ok? <==> ParseUri(s).Ok?
    ensures ParseUri(s).Ok? ==> ParseUri(s + "#" + f) == ParseUri(s)
  {
    var t := s + "#" + f;
    assert t[..|s|] == s;
    assert t[|s|] == '#';
    var p := FirstIndexIn(s, Delimiters, 0);
    FirstIndexPrefix(s, t, Delimiters, 0);
    if p < |s| && s[p] == ':' {
      SchemeIgnoresFragment(s, t, p);
    } else {
      assert t[p] != ':';
      FirstIndexPrefix(s, t, "#", 0);
      assert FirstIndexIn(s, "#", 0) == |s|;
      assert s[..|s|] == t[..|s|];
    }
  }

  /** `ParseIgnoresFragment` when a scheme ends at `p`. */
  lemma SchemeIgnoresFragment(s: string, t: string, p: nat)
    requires |s| < |t| && t[..|s|] == s && t[|s|] == '#' && '#' !in s
    requires p < |s| && s[p] == ':'
    requires FirstIndexIn(s, Delimiters, 0) == p && FirstIndexIn(t, Delimiters, 0) == p
    ensures ParseUri(t).Ok? <==> ParseUri(s).Ok?
    ensures ParseUri(s).Ok? ==> ParseUri(t) == ParseUri(s)
  {
    var rest := s[p + 1..];
    var restT := t[p + 1..];
    assert restT[..|rest|] == rest;
    assert restT[|rest|] == '#';
    assert forall k :: 0 <= k < |rest| ==> rest[k] != '#';
    FirstIndexPrefix(rest, restT, "#", 0);
    assert FirstIndexIn(rest, "#", 0) == |rest|;
    assert t[..p] == s[..p];
    assert rest[..|rest|] == restT[..|rest|];
  }

  /**
   * Scanning a longer string finds the same index while it stays inside the
   * shorter one, and finds the first extra position when that holds one of
   * the characters.
   */
  lemma {:induction false} FirstIndexPrefix(s: string, t: string, chars: string, k: nat)
    requires k <= |s| <= |t| && s == t[..|s|]
    requires |s| < |t| && t[|s|] in chars
    ensures FirstIndexIn(t, chars, k) == FirstIndexIn(s, chars, k)
    decreases |s| - k
  {
    if k < |s| {
      assert t[k] == s[k];
      if s[k] !in chars {
        FirstIndexPrefix(s, t, chars, k + 1);
      }
    }
  }

  /** An absolute URI with a fragment parses to its scheme and the raw part before the "#". */
  lemma ParseAbsoluteFragment(scheme: string, rest: string, f: string)
    requires ValidScheme(scheme) && rest != "" && '#' !in rest
    ensures ParseUri(scheme + ":" + rest + "#" + f) == Ok(Uri(Some(scheme), rest))
  {
    ParseAbsolute(scheme, rest);
    assert '#' !in scheme + ":" + rest by {
      assert forall k :: 0 <= k < |scheme| ==> (scheme + ":" + rest)[k] == scheme[k];
      assert forall k :: 0 <= k < |rest| ==> (scheme + ":" + rest)[|scheme| + 1 + k] == rest[k];
    }
    ParseIgnoresFragment(scheme + ":" + rest, f);
  }

  /**
   * With a ":" before any "/", "?" or "#", parsing fails exactly when the
   * scheme is empty or malformed, or nothing but a fragment follows the ":".
   */
  lemma ParseFailsIff(scheme: string, tail: string)
    requires forall k :: 0 <= k < |scheme| ==> scheme[k] !in Delimiters
    ensures ParseUri(scheme + ":" + tail).Err? <==> !ValidScheme(scheme) || tail == "" || tail[0] == '#'
  {
    var s := scheme + ":" + tail;
    forall m | 0 <= m < |scheme|
      ensures s[m] !in Delimiters
    {
      assert s[m] == scheme[m];
    }
    assert s[|scheme|] == ':';
    assert FirstIndexIn(s, Delimiters, 0) == |scheme|;
    assert s[..|scheme|] == scheme;
    assert s[|scheme| + 1..] == tail;
  }

  /**
   * `Handler.openConnection`, up to the cache lookup: the outer scheme must be
   * "jar"; inside it either "jar:" wraps a "file:" URI, whose decoded
   * scheme-specific part is the path, or "file:" comes directly, and the
   * separator is appended. `decode` is the URI library's percent-decoding
   * (`getSchemeSpecificPart` versus `getRawSchemeSpecificPart`).
   */
  function Unwrap(url: string, decode: string -> string): (r: Result<string>)
  {
    match ParseUri(url)
    case Err(e) => Err(e)
    case Ok(nested) =>
      if nested.scheme != Some("jar") then Err(UnexpectedNestedScheme(nested.scheme))
      else UnwrapBundle(nested.rawSsp, decode)
  }

  /** The bundle URI inside "jar:": either "jar:" around a location, or "file:" directly. */
  function UnwrapBundle(ssp: string, decode: string -> string): (r: Result<string>)
  {
    match ParseUri(ssp)
    case Err(e) => Err(e)
    case Ok(bundle) =>
      if bundle.scheme == Some("jar") then UnwrapLocation(bundle.rawSsp, decode)
      else if bundle.scheme == Some("file") then Ok(decode(bundle.rawSsp) + Separator)
      else Err(UnexpectedBundleScheme(bundle.scheme))
  }

  /** The location URI inside "jar:jar:", which must be a "file:" URI. */
  function UnwrapLocation(ssp: string, decode: string -> string): (r: Result<string>)
  {
    match ParseUri(ssp)
    case Err(e) => Err(e)
    case Ok(file) =>
      if file.scheme != Some("file") then Err(UnexpectedLocationScheme(file.scheme))
      else Ok(decode(file.rawSsp))
  }

  /**
   * A fragment does not change the unwrapped path: two URLs that differ only
   * in their fragment share one key in the handler's `connections` cache.
   */
  lemma UnwrapIgnoresFragment(url: string, f: string, decode: string -> string)
    requires '#' !in url
    ensures ParseUri(url).Ok? ==> Unwrap(url + "#" + f, decode) == Unwrap(url, decode)
  {
    ParseIgnoresFragment(url, f);
  }

  /** Prefixes compose: `a + s <= url` and `b <= s` give `a + b <= url`. */
  lemma PrefixChain(a: string, b: string, url: string, s: string)
    requires a + s <= url && b <= s
    ensures a + b <= url
  {
    assert a + b == (a + s)[..|a + b|];
  }

  /** A URI that parses with scheme `scheme` starts with `scheme + ":"` and then its raw part. */
  lemma ParsedPrefix(s: string, scheme: string, prefix: string)
    requires ParseUri(s).Ok? && ParseUri(s).value.scheme == Some(scheme)
    requires prefix <= ParseUri(s).value.rawSsp
    ensures scheme + ":" + prefix <= s
  {
    var ssp := ParseUri(s).value.rawSsp;
    PrefixChain(scheme + ":", prefix, s, ssp);
  }

  /** How the URL prefixes the handler accepts are built from scheme names. */
  lemma SchemePrefixes()
    ensures "file:" == "file" + ":" && "file" + ":" + "" == "file:"
    ensures "jar:" == "jar" + ":"
    ensures "jar:file:" == "jar:" + "file:" && "jar" + ":" + "file:" == "jar:file:"
    ensures "jar:jar:file:" == "jar:" + "jar:file:" && "jar" + ":" + "jar:file:" == "jar:jar:file:"
    ensures "jar:jar:" == "jar:" + "jar:"
  {
  }

  /** Only `jar:file:` and `jar:jar:file:` URLs unwrap to a path. */
  lemma UnwrapAcceptsOnlyFileBundles(url: string, decode: string -> string)
    ensures Unwrap(url, decode).Ok? ==> "jar:file:" <= url || "jar:jar:file:" <= url
  {
    if Unwrap(url, decode).Ok? {
      SchemePrefixes();
      var ssp := ParseUri(url).value.rawSsp;
      assert UnwrapBundle(ssp, decode).Ok?;
      var bundle := ParseUri(ssp).value;
      if bundle.scheme == Some("jar") {
        assert UnwrapLocation(bundle.rawSsp, decode).Ok?;
        ParsedPrefix(bundle.rawSsp, "file", "");
        ParsedPrefix(ssp, "jar", "file:");
        ParsedPrefix(url, "jar", "jar:file:");
      } else {
        ParsedPrefix(ssp, "file", "");
        ParsedPrefix(url, "jar", "file:");
      }
    }
  }

  /** A URL of the form `jar:file:<p>` unwraps to the decoded `p` followed by the separator. */
  lemma UnwrapFileUrl(p: string, decode: string -> string)
    requires p != "" && '#' !in p
    ensures Unwrap("jar:file:" + p, decode) == Ok(decode(p) + Separator)
  {
    SchemePrefixes();
    var bundle := "file:" + p;
    ParseAbsolute("file", p);
    AppendAssociative("jar:", "file:", p);
    ParseAbsolute("jar", bundle);
  }

  /** A URL of the form `jar:jar:file:<p>` unwraps to the decoded `p` alone. */
  lemma UnwrapJarFileUrl(p: string, decode: string -> string)
    requires p != "" && '#' !in p
    ensures Unwrap("jar:jar:file:" + p, decode) == Ok(decode(p))
  {
    SchemePrefixes();
    var file := "file:" + p;
    ParseAbsolute("file", p);
    var bundle := "jar:file:" + p;
    AppendAssociative("jar:", "file:", p);
    ParseAbsolute("jar", file);
    assert UnwrapLocation(file, decode) == Ok(decode(p));
    assert UnwrapBundle(bundle, decode) == Ok(decode(p));
    AppendAssociative("jar:", "jar:file:", p);
    ParseAbsolute("jar", bundle);
  }

  /** An outer scheme other than "jar" is rejected, naming that scheme. */
  lemma UnwrapRejectsNestedScheme(scheme: string, rest: string, decode: string -> string)
    requires ValidScheme(scheme) && scheme != "jar" && rest != "" && '#' !in rest
    ensures Unwrap(scheme + ":" + rest, decode) == Err(UnexpectedNestedScheme(Some(scheme)))
  {
    ParseAbsolute(scheme, rest);
  }

  /** Inside "jar:", a scheme other than "jar" or "file" is rejected, naming that scheme. */
  lemma UnwrapRejectsBundleScheme(scheme: string, rest: string, decode: string -> string)
    requires ValidScheme(scheme) && scheme != "jar" && scheme != "file"
    requires rest != "" && '#' !in rest
    ensures Unwrap("jar:" + (scheme + ":" + rest), decode) == Err(UnexpectedBundleScheme(Some(scheme)))
  {
    SchemePrefixes();
    var bundle := scheme + ":" + rest;
    ParseAbsolute(scheme, rest);
    ParseAbsolute("jar", bundle);
  }

  /** Inside "jar:jar:", a scheme other than "file" is rejected, naming that scheme. */
  lemma UnwrapRejectsLocationScheme(scheme: string, rest: string, decode: string -> string)
    requires ValidScheme(scheme) && scheme != "file" && rest != "" && '#' !in rest
    ensures Unwrap("jar:jar:" + (scheme + ":" + rest), decode) == Err(UnexpectedLocationScheme(Some(scheme)))
  {
    SchemePrefixes();
    var location := scheme + ":" + rest;
    ParseAbsolute(scheme, rest);
    var bundle := "jar:" + location;
    ParseAbsolute("jar", location);
    assert UnwrapLocation(location, decode) == Err(UnexpectedLocationScheme(Some(scheme)));
    assert UnwrapBundle(bundle, decode) == Err(UnexpectedLocationScheme(Some(scheme)));
    AppendAssociative("jar:", "jar:", location);
    ParseAbsolute("jar", bundle);
  }
}
