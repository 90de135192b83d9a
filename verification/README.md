# EmJar nested-jar resolution, modelled in Dafny

EmJar's `EmJarClassLoader` puts the jars embedded in a bundle jar on the class
path. It does this in two steps:

1. **Class path expansion.** `getClassPath` and `addClassPathUrls` list every
   element of `java.class.path` and then of `emjar.class.path`. Each element
   adds its own file URL. A readable `*.jar` file also adds one
   `jar:file:<jar>!/<entry>` URL per embedded `*.jar` entry, unless it is an
   agent jar (its manifest declares `Premain-Class`) read from
   `java.class.path`.
2. **URL handling.** The class loader's URL stream handler, `Handler`, serves
   the `jar` protocol (`HandlerFactory.createURLStreamHandler`). Its
   `openConnection`:
   - unwraps the URL into a path `<root>!/<nested>!/<entry>`;
   - cuts the path at its first two `!/` separators;
   - delegates a nested name that is not a `.jar` to the default handler;
   - otherwise builds an on-demand connection when the scan of the root jar
     has descriptors for the nested jar, and a preloading connection when it
     does not.

   Two memo maps remember the work: `connections` maps a full path to its
   connection, and `rootJars` maps a root jar to the result of scanning its
   directory.

The model is laid out as follows:

- `common.dfy` (`Common`) holds optional values, results, the errors of the
  resolution path, and `String.endsWith`.
- `address.dfy` (`Address`) holds `indexOf("!/")`, the three-way split and
  its inverse.
- `uris.dfy` (`Uris`) holds the scheme and scheme-specific part of
  `java.net.URI`, and the peeling of `jar:jar:file:` and `jar:file:` URLs.
- `handler.dfy` (`JarHandler`) holds `openConnection` in two forms:
  - the pure transition `Open` on the two caches, which unwraps the URL and
    hands the path to `Resolve`; their properties are proved as lemmas;
  - the class `Handler`, which keeps the caches as `map` fields, updates them
    in place, and is proved to perform exactly `Open`. It also keeps a ghost
    log of the scans it made.

  The file also holds `HandlerFactory`.
- `classpath.dfy` (`ClassPath`) holds `addClassPathUrls` and `getClassPath`
  as loops that append to a URL list in place. They are proved against the
  specification functions `Expansion` and `Contribution`.

These parts of the program's environment are parameters of the model:

- The scan of a root jar's directory is a function `scan` from a root path to
  its nested jars' descriptors, or to an error. The handler holds it as a
  constant, because the archives are assumed not to change.
- The URI library's percent-decoding (`getSchemeSpecificPart` against
  `getRawSchemeSpecificPart`) is a function `decode`.
- The quoting done by the `URI` constructor is a function `quote`.
- Each class path element is given as data: its file URL (or that it cannot
  be formed), whether it is a file, its name and absolute path, and what
  `JarFile` reads from it (or that it cannot be read).

Two facts about the code shape the model:

- Connections are cached per full path, entry included: the lookup at
  `EmJarClassLoader.java` line 269 and the `put` at line 312 both use the
  whole unwrapped path as key. The URI's fragment is not part of that path,
  so a URL and the same URL with a fragment share one entry
  (`Uris.UnwrapIgnoresFragment`, `JarHandler.OpenIgnoresFragment`).
- The on-demand or preloaded choice, lines 301-311, depends only on whether
  the scan result has descriptors for the nested name. The class comment,
  lines 44-48, ties that choice to whether the nested jar is stored or
  compressed; that decision is made inside the scanner, which is not part of
  this model.

A URL in the direct `jar:file:` form gets a trailing `!/`, which makes its
entry empty only when the decoded path holds exactly one separator. A path
with two or more separators keeps a non-empty entry.
`Address.SplitAppendedSeparator` states this.

A class path jar whose absolute path itself holds `!/` is not resolved back
to that jar. For example, the jar `/tmp/foo!/bar.jar` with entry `lib/x.jar`
gives the path `/tmp/foo!/bar.jar!/lib/x.jar!/`. The cut at lines 274-281
makes that root `/tmp/foo`, nested jar `bar.jar` and entry `lib/x.jar!/`.
`ClassPath.NestedUrlMisresolves` states this in general, and
`ClassPath.NestedUrlResolves` states the round trip for jar paths and entry
names without a separator.

## Model

| member | source | states |
|---|---|---|
| Address.IndexOfSeparator | emjar/src/main/java/no/hassle/emjar/EmJarClassLoader.java:274-275 | `path.indexOf("!/", from)`: -1, or the first separator position at or after `from`, with a negative start counting as 0 |
| Address.Split | emjar/src/main/java/no/hassle/emjar/EmJarClassLoader.java:274-281 | on success `root + "!/" + nested + "!/" + entry` rebuilds the path, and neither root nor nested holds a separator; otherwise the error is "Unable to parse" with the path |
| Address.SplitFailsIff | emjar/src/main/java/no/hassle/emjar/EmJarClassLoader.java:274-278 | the split fails exactly when the path holds fewer than two separators |
| Address.SplitJoin | emjar/src/main/java/no/hassle/emjar/EmJarClassLoader.java:274-281 | splitting a joined path gives the parts back exactly when root and nested hold no separator |
| Address.SplitAppendedSeparator | emjar/src/main/java/no/hassle/emjar/EmJarClassLoader.java:274-281 | for the path `ssp + "!/"` built at line 248: it splits exactly when `ssp` holds a separator, and its entry is empty exactly when `ssp` holds only one |
| Address.AppendedEntry | emjar/src/main/java/no/hassle/emjar/EmJarClassLoader.java:279-281 | when `ssp + "!/"` splits, the entry is empty exactly when `ssp` holds fewer than two separators |
| Uris.ParseUri | emjar/src/main/java/no/hassle/emjar/EmJarClassLoader.java:230-238 | like `new URI(s)` for scheme and raw scheme-specific part: a scheme is well formed and followed by a non-empty raw part, `scheme:ssp` is a prefix of the input, and the raw part runs to the end of the input or to its first `#`, which it never contains; every failure is a URI syntax error on the input |
| Uris.NoSchemeIff | emjar/src/main/java/no/hassle/emjar/EmJarClassLoader.java:230-238 | a URI parses without a scheme exactly when no `:` comes before its first `/`, `?` or `#` |
| Uris.ParseFailsIff | emjar/src/main/java/no/hassle/emjar/EmJarClassLoader.java:230-238 | with a `:` before any `/`, `?` or `#`, parsing fails exactly when the scheme is empty or malformed or nothing but a fragment follows the `:` (so `jar:`, `:x` and `jar:#f` fail) |
| Uris.ParseIgnoresFragment | emjar/src/main/java/no/hassle/emjar/EmJarClassLoader.java:230-238 | appending `#<fragment>` to a URI without one changes neither whether it parses nor what it parses to |
| Uris.SchemeIgnoresFragment | emjar/src/main/java/no/hassle/emjar/EmJarClassLoader.java:230-238 | the same, for a URI with a scheme |
| Uris.ParseAbsoluteFragment | emjar/src/main/java/no/hassle/emjar/EmJarClassLoader.java:230-238 | `scheme:rest#f`, with a valid scheme and no `#` in `rest`, parses to that scheme and `rest` |
| Uris.ParseAbsolute | emjar/src/main/java/no/hassle/emjar/EmJarClassLoader.java:236-238 | `scheme:rest`, with a valid scheme and no fragment, parses to that scheme and `rest` |
| Uris.Unwrap | emjar/src/main/java/no/hassle/emjar/EmJarClassLoader.java:229-255 | no contract of its own: the outer scheme must be `jar`, and the rest goes to `UnwrapBundle`; the `Uris.Unwrap*` lemmas below state its behaviour |
| Uris.UnwrapBundle | emjar/src/main/java/no/hassle/emjar/EmJarClassLoader.java:236-254 | no contract of its own: inside `jar:`, a `jar:` URI goes to `UnwrapLocation` and a `file:` URI gives its decoded part followed by `!/`; `Uris.UnwrapFileUrl` and `Uris.UnwrapRejectsBundleScheme` state it |
| Uris.UnwrapLocation | emjar/src/main/java/no/hassle/emjar/EmJarClassLoader.java:237-245 | no contract of its own: inside `jar:jar:`, only a `file:` URI is accepted, and its decoded part is the path; `Uris.UnwrapJarFileUrl` and `Uris.UnwrapRejectsLocationScheme` state it |
| Uris.UnwrapIgnoresFragment | emjar/src/main/java/no/hassle/emjar/EmJarClassLoader.java:229-255 | a URL and the same URL with a fragment unwrap to the same path, so they share one key in `connections` (line 269) |
| Uris.UnwrapAcceptsOnlyFileBundles | emjar/src/main/java/no/hassle/emjar/EmJarClassLoader.java:231-255 | only URLs starting with `jar:file:` or `jar:jar:file:` unwrap to a path |
| Uris.UnwrapFileUrl | emjar/src/main/java/no/hassle/emjar/EmJarClassLoader.java:247-249 | `jar:file:<p>` unwraps to the decoded `p` followed by `!/` |
| Uris.UnwrapJarFileUrl | emjar/src/main/java/no/hassle/emjar/EmJarClassLoader.java:237-245 | `jar:jar:file:<p>` unwraps to the decoded `p` alone |
| Uris.UnwrapRejectsNestedScheme | emjar/src/main/java/no/hassle/emjar/EmJarClassLoader.java:231-235 | an outer scheme other than `jar` is an error naming that scheme |
| Uris.UnwrapRejectsBundleScheme | emjar/src/main/java/no/hassle/emjar/EmJarClassLoader.java:246-254 | inside `jar:`, a scheme other than `jar` or `file` is an error naming that scheme |
| Uris.UnwrapRejectsLocationScheme | emjar/src/main/java/no/hassle/emjar/EmJarClassLoader.java:237-243 | inside `jar:jar:`, a scheme other than `file` is an error naming that scheme |
| JarHandler.Open | emjar/src/main/java/no/hassle/emjar/EmJarClassLoader.java:224-316 | an error changes no cache; otherwise at most the unwrapped path is added to `connections`, with the returned connection, and at most the scanned root to `rootJars`, with its scan; only an uncached root is scanned; a returned jar connection is the one cached under the unwrapped path; a delegated request changes nothing and scans nothing |
| JarHandler.Resolve | emjar/src/main/java/no/hassle/emjar/EmJarClassLoader.java:269-316 | the same as `Open` for an already unwrapped path: a returned jar connection is cached under the path (line 312), and a delegated request (lines 282-286) changes nothing |
| JarHandler.ResolveReturnsCached | emjar/src/main/java/no/hassle/emjar/EmJarClassLoader.java:269-273 | a cached path returns its cached connection, and nothing changes or is scanned (lines 269-273 and 316) |
| JarHandler.ResolveUnparsable | emjar/src/main/java/no/hassle/emjar/EmJarClassLoader.java:274-278 | an uncached path with fewer than two separators fails with "Unable to parse", and neither cache changes |
| JarHandler.ResolveDelegatesNonJar | emjar/src/main/java/no/hassle/emjar/EmJarClassLoader.java:282-286 | a nested name that is not `.jar` goes to the default handler for the URL without its fragment; nothing is scanned or cached |
| JarHandler.ResolveScansOnlyNewRoots | emjar/src/main/java/no/hassle/emjar/EmJarClassLoader.java:288-300 | a cached root is not scanned again and `rootJars` stays; an uncached root is scanned once; success records exactly that root's scan; failure is returned and changes nothing |
| JarHandler.ConnectionFor | emjar/src/main/java/no/hassle/emjar/EmJarClassLoader.java:301-311 | the connection reads the nested jar in place, with the scan's descriptors for it, exactly when the scan has the nested name, and otherwise preloads it by name; both carry root URL `jar:file:<root>!/`, the root and the entry |
| JarHandler.ResolveChoosesStrategy | emjar/src/main/java/no/hassle/emjar/EmJarClassLoader.java:301-311 | from consistent caches, the connection is on-demand with the scan's descriptors exactly when the scan has the nested name, else preloaded, both with root URL `jar:file:<root>!/` and the parsed entry |
| JarHandler.OpenKeepsConsistent | emjar/src/main/java/no/hassle/emjar/EmJarClassLoader.java:288-312 | every call keeps each cached scan equal to the scanner's result, and each cached connection equal to the one built from its path |
| JarHandler.ResolveKeepsConsistent | emjar/src/main/java/no/hassle/emjar/EmJarClassLoader.java:288-312 | the same for an already unwrapped path |
| JarHandler.OpenCacheTransparent | emjar/src/main/java/no/hassle/emjar/EmJarClassLoader.java:269-316 | from consistent caches, the result is what empty caches would give: the caches only save work |
| JarHandler.ResolveReadsUrlWithoutFragment | emjar/src/main/java/no/hassle/emjar/EmJarClassLoader.java:282-286 | the URL given to `Resolve` matters only without its fragment, as rebuilt for the default handler at line 284 |
| JarHandler.OpenIgnoresFragment | emjar/src/main/java/no/hassle/emjar/EmJarClassLoader.java:224-316 | a URL and the same URL with a fragment give the same connection and the same caches |
| JarHandler.OpenIdempotent | emjar/src/main/java/no/hassle/emjar/EmJarClassLoader.java:269-312 | after a successful call, calling again with the same URL changes nothing and scans nothing: a jar connection comes back from `connections`, and a delegated request is delegated again, still uncached |
| JarHandler.ResolveIdempotent | emjar/src/main/java/no/hassle/emjar/EmJarClassLoader.java:269-312 | the same for an already unwrapped path |
| JarHandler.OpenExtendsScanLog | emjar/src/main/java/no/hassle/emjar/EmJarClassLoader.java:288-300 | one call logs at most one scan, of a root not yet cached, and keeps every successfully scanned root cached |
| JarHandler.ScanLogStep | emjar/src/main/java/no/hassle/emjar/EmJarClassLoader.java:290-297 | logging a scan of an uncached root keeps the log free of a second successful scan of any root |
| JarHandler.ReplayScansOnce | emjar/src/main/java/no/hassle/emjar/EmJarClassLoader.java:288-300 | over any sequence of calls, no root is scanned after a successful scan of it, successful scans stay cached, and the log only grows |
| JarHandler.Handler.constructor | emjar/src/main/java/no/hassle/emjar/EmJarClassLoader.java:218-221 | both caches start empty and consistent |
| JarHandler.Handler.OpenConnection | emjar/src/main/java/no/hassle/emjar/EmJarClassLoader.java:223-317 | the in-place update returns `Open`'s result, leaves exactly `Open`'s caches, logs its scan, and keeps the caches consistent and the log free of repeated successful scans |
| JarHandler.HandlerFactory.constructor | emjar/src/main/java/no/hassle/emjar/EmJarClassLoader.java:204-206 | the factory holds the given handler |
| JarHandler.HandlerFactory.CreateUrlStreamHandler | emjar/src/main/java/no/hassle/emjar/EmJarClassLoader.java:209-212 | a handler is returned exactly for the protocol `jar`, and it is the shared handler |
| ClassPath.UrlList.constructor | emjar/src/main/java/no/hassle/emjar/EmJarClassLoader.java:128 | the list starts empty |
| ClassPath.UrlList.Add | emjar/src/main/java/no/hassle/emjar/EmJarClassLoader.java:148 | `add` appends one URL at the end |
| ClassPath.GetClassPath | emjar/src/main/java/no/hassle/emjar/EmJarClassLoader.java:128-130 | the URLs of `java.class.path`, with agent jars skipped, followed by those of `emjar.class.path`, inspected whatever their manifest says |
| ClassPath.AddClassPathUrls | emjar/src/main/java/no/hassle/emjar/EmJarClassLoader.java:137-185 | appends, in place, exactly the expansion of every element in order; an unset class path appends nothing |
| ClassPath.AddElementUrls | emjar/src/main/java/no/hassle/emjar/EmJarClassLoader.java:146-183 | one element appends its file URL, then its nested URLs if it is an inspected jar; an element that fails keeps what it appended |
| ClassPath.AddNestedUrls | emjar/src/main/java/no/hassle/emjar/EmJarClassLoader.java:162-172 | appends, in place, the nested URLs of the jar's `.jar` entries in order, up to the first whose URL cannot be formed |
| ClassPath.ExpansionAppend | emjar/src/main/java/no/hassle/emjar/EmJarClassLoader.java:145 | expanding two lists of elements one after the other is expanding their concatenation |
| ClassPath.ExpansionSnoc | emjar/src/main/java/no/hassle/emjar/EmJarClassLoader.java:145 | one more element appends exactly that element's URLs |
| ClassPath.ExpansionInOrder | emjar/src/main/java/no/hassle/emjar/EmJarClassLoader.java:145-184 | element `k` contributes one contiguous block, after everything before it and before everything after it |
| ClassPath.FileUrlFirst | emjar/src/main/java/no/hassle/emjar/EmJarClassLoader.java:148 | an element's file URL comes before its nested URLs; an element whose file URL cannot be formed adds nothing |
| ClassPath.OnlyJarFilesExpand | emjar/src/main/java/no/hassle/emjar/EmJarClassLoader.java:149-152 | a directory, a file not named `*.jar`, or an unreadable jar adds its file URL alone |
| ClassPath.AgentJarSkipped | emjar/src/main/java/no/hassle/emjar/EmJarClassLoader.java:154-160 | without `force`, a jar whose manifest declares `Premain-Class` adds its file URL alone |
| ClassPath.ForceIgnoresManifest | emjar/src/main/java/no/hassle/emjar/EmJarClassLoader.java:155 | with `force`, a jar expands as if it had no manifest |
| ClassPath.NestedUrlsComplete | emjar/src/main/java/no/hassle/emjar/EmJarClassLoader.java:162-172 | when every `.jar` entry's URL can be formed, there is exactly one nested URL per `.jar` entry, in entry order |
| ClassPath.NestedUrlsStopAtFailure | emjar/src/main/java/no/hassle/emjar/EmJarClassLoader.java:162-183 | the first `.jar` entry whose URL cannot be formed ends the jar's nested URLs; what came before it stays |
| ClassPath.NestedUrl | emjar/src/main/java/no/hassle/emjar/EmJarClassLoader.java:166-169 | no contract of its own: `jar:file:` followed by the quoted `<jar path>!/<entry name>`; `ClassPath.NestedUrlResolves` and `ClassPath.NestedUrlMisresolves` state how the handler reads it back |
| ClassPath.NestedUrlResolves | emjar/src/main/java/no/hassle/emjar/EmJarClassLoader.java:166-170 | when decoding undoes quoting and neither the jar path nor the entry name holds `!/`, a nested URL unwraps to `<jar>!/<entry>!/` and splits into that jar, that entry and an empty entry, as in lines 247-249 and 274-281 |
| ClassPath.NestedUrlMisresolves | emjar/src/main/java/no/hassle/emjar/EmJarClassLoader.java:166-170 | when the jar path is `<outer>!/<inner>`, the nested URL unwraps to `<outer>!/<inner>!/<entry>!/`, which lines 274-281 split into root `<outer>`, nested `<inner>` and entry `<entry>!/`, not into that jar and entry |

## Left out

- `ZipScanner`, `OndemandEmbeddedJar` and `PreloadedEmbeddedJar` are not part of this model. The scan is the parameter `scan`, and a connection is the value `Ondemand` or `Preloaded` holding the arguments it is constructed with.
- Concurrency is not modelled: the `ConcurrentHashMap`s, the double-checked `synchronized` blocks and `registerAsParallelCapable`. The caches are sequential maps, and the at-most-once properties are stated per call and per sequence of calls.
- Uris.ParseUri: models only how `java.net.URI` finds the scheme, the raw scheme-specific part and the fragment. It does not reject illegal characters elsewhere in the URI, nor parse authorities, because the handler reads none of that. So it accepts some inputs that `new URI` rejects.
- Percent-decoding and the `URI` constructor's quoting are the parameters `decode` and `quote`. Their behaviour belongs to the Java library.
- JarHandler.Open: a delegated request is the value `Delegated(url)`. The default handler's `openConnection` and its I/O are not modelled. Each delegated call opens a new default connection, while the model returns equal `Delegated` values.
- JarHandler.Open: the `MalformedURLException` that building the root URL `jar:file:<root>!/` could raise is not modelled.
- Reading files and jars (`File`, `JarFile`, `Manifest`) is replaced by each element's data. This includes the jar left open when an entry fails.
- The split of a class path string on `File.pathSeparator` is not modelled; a class path is a sequence of elements.
- The conversion of a nested URI to a URL bound to the handler (`uriToUrl`) is not modelled; the model keeps the URI string.
- Class loader construction and registration with `URLClassLoader` are not modelled.
- Reading system properties, and the `DEBUG` and `QUIET` logging, are not modelled.
- The JUnit tests are not modelled. They read resource jars through the connection classes, which are not part of this model.
