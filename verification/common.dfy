/**
 * Shared vocabulary of the EmJar model: optional values, results that may
 * carry one of the errors `EmJarClassLoader` raises, and `String.endsWith`.
 */
module Common {

  datatype Option<+T> = None | Some(value: T)

  datatype Result<+T> = Ok(value: T) | Err(error: Error)

  /** The failures the resolution path can report to its caller. */
  datatype Error =
    | UriSyntax(input: string, reason: string)              // URISyntaxException, rethrown as IOException
    | UnexpectedNestedScheme(nestedScheme: Option<string>)  // outer scheme is not "jar"
    | UnexpectedLocationScheme(locationScheme: Option<string>) // "jar:jar:" not followed by "file:"
    | UnexpectedBundleScheme(bundleScheme: Option<string>)  // "jar:" followed by neither "jar:" nor "file:"
    | UnableToParse(path: string)                           // fewer than two "!/" separators
    | ScanFailed(root: string, message: string)             // the root archive's directory scan threw

  /** Java's `s.endsWith(suffix)`. */
  predicate EndsWith(s: string, suffix: string)
  {
    |suffix| <= |s| && s[|s| - |suffix|..] == suffix
  }

  const JarSuffix: string := ".jar"

  lemma AppendAssociative<T>(a: seq<T>, b: seq<T>, c: seq<T>)
    ensures (a + b) + c == a + (b + c)
  {
  }
}
