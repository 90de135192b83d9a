/**
 * `EmJarClassLoader.Handler`: the URL stream handler that resolves a nested-jar
 * URL to a connection, with its two memo caches (full path to connection, and
 * root jar to the result of scanning its directory), and the factory that
 * hands it out for the "jar" protocol.
 *
 * `Open` is the handler's behaviour as a transition on the two caches; the
 * class `Handler` holds the caches as fields and updates them in place, and
 * its `OpenConnection` is proved to perform exactly that transition.
 */
module JarHandler {
  import opened Common
  import opened Address
  import opened Uris

  /**
   * What the root jar's directory scan records about one entry of a nested
   * jar, kept opaque: only its entry name is modelled.
   */
  datatype Descriptor = Descriptor(name: string)

  /** Entry name to descriptor, for one nested jar. */
  type Descriptors = map<string, Descriptor>

  /** Nested jar name to its descriptors: the result of scanning one root jar. */
  type RootJar = map<string, Descriptors>

  /** The root jar's directory scan, which may fail; it reads a file that is assumed not to change. */
  type Scanner = string -> Result<RootJar>

  /**
   * What `openConnection` returns: a connection that reads the nested jar in
   * place from the root jar's descriptors, one that extracts the nested jar
   * first, or the default "jar" handler's connection for the same URL.
   */
  datatype Connection =
    | Ondemand(rootUrl: string, root: string, descriptors: Descriptors, entry: string)
    | Preloaded(rootUrl: string, root: string, nested: string, entry: string)
    | Delegated(url: string)

  /** The URL of a root jar as the connections see it: `jar:file:<root>!/`. */
  function RootUrl(root: string): string
  {
    "jar:file:" + root + Separator
  }

  /** The URL without its "#" fragment, as rebuilt from protocol, host, port and file. */
  function WithoutFragment(url: string): string
  {
    url[..FirstIndexIn(url, "#", 0)]
  }

  /** The connection built for a nested jar once its root jar has been scanned. */
  function ConnectionFor(parts: Parts, rootJar: RootJar): (c: Connection)
    ensures !c.Delegated? && c.rootUrl == RootUrl(parts.root) && c.root == parts.root && c.entry == parts.entry
    ensures c.Ondemand? <==> parts.nested in rootJar
    ensures c.Ondemand? ==> c.descriptors == rootJar[parts.nested]
    ensures c.Preloaded? ==> c.nested == parts.nested
  {
    if parts.nested in rootJar then
      Ondemand(RootUrl(parts.root), parts.root, rootJar[parts.nested], parts.entry)
    else
      Preloaded(RootUrl(parts.root), parts.root, parts.nested, parts.entry)
  }

  /** The handler's two caches. */
  datatype Caches = Caches(connections: map<string, Connection>, rootJars: map<string, RootJar>)

  const Empty: Caches := Caches(map[], map[])

  /** A scan of a root jar, and whether it succeeded. */
  datatype ScanEvent = ScanEvent(root: string, succeeded: bool)

  /** One call of `openConnection`: its result, the caches after it, and the scan it made, if any. */
  datatype Step = Step(result: Result<Connection>, caches: Caches, scanned: Option<ScanEvent>)

  function Events(scanned: Option<ScanEvent>): seq<ScanEvent>
  {
    if scanned.Some? then [scanned.value] else []
  }

  /** The cached connection for `path` is the one `ConnectionFor` builds from the cached scan of its root. */
  ghost predicate CachedCorrectly(st: Caches, path: string)
    requires path in st.connections
  {
    && Split(path).Ok?
    && EndsWith(Split(path).value.nested, JarSuffix)
    && Split(path).value.root in st.rootJars
    && st.connections[path] == ConnectionFor(Split(path).value, st.rootJars[Split(path).value.root])
  }

  /** The invariant of the two caches: every entry is what a fresh computation would give. */
  ghost predicate Consistent(st: Caches, scan: Scanner)
  {
    && (forall root :: root in st.rootJars ==> scan(root) == Ok(st.rootJars[root]))
    && (forall path :: path in st.connections ==> CachedCorrectly(st, path))
  }

  /**
   * `Handler.openConnection` as a transition on the caches: the URL is
   * unwrapped to a nested-jar path, and the path is resolved.
   */
  function Open(st: Caches, scan: Scanner, decode: string -> string, url: string): (o: Step)
    ensures o.result.Err? ==> o.caches == st
    ensures o.caches.connections == st.connections
         || (&& Unwrap(url, decode).Ok?
             && Unwrap(url, decode).value !in st.connections
             && o.result.Ok?
             && o.caches.connections == st.connections[Unwrap(url, decode).value := o.result.value])
    ensures o.caches.rootJars == st.rootJars
         || (&& o.scanned.Some? && o.scanned.value.succeeded
             && scan(o.scanned.value.root).Ok?
             && o.caches.rootJars == st.rootJars[o.scanned.value.root := scan(o.scanned.value.root).value])
    ensures o.scanned.Some? ==>
      && o.scanned.value.root !in st.rootJars
      && o.scanned.value.succeeded == scan(o.scanned.value.root).Ok?
      && (o.scanned.value.succeeded ==> o.scanned.value.root in o.caches.rootJars)
    ensures o.result.Ok? && !o.result.value.Delegated? ==>
      && Unwrap(url, decode).Ok?
      && Unwrap(url, decode).value in o.caches.connections
      && o.caches.connections[Unwrap(url, decode).value] == o.result.value
    ensures o.result.Ok? && o.result.value.Delegated? ==> o.caches == st && o.scanned.None?
  {
    match Unwrap(url, decode)
    case Err(e) => Step(Err(e), st, None)
    case Ok(path) => Resolve(st, scan, url, path)
  }

  /**
   * The resolution of an unwrapped path through the caches. An error leaves
   * both caches as they were; otherwise at most `path` is added to
   * `connections`, and at most its root, scanned once and successfully, to
   * `rootJars`. A root already in `rootJars` is never scanned again.
   */
  function Resolve(st: Caches, scan: Scanner, url: string, path: string): (o: Step)
    ensures o.result.Err? ==> o.caches == st
    ensures o.caches.connections == st.connections
         || (path !in st.connections && o.result.Ok? && o.caches.connections == st.connections[path := o.result.value])
    ensures o.caches.rootJars == st.rootJars
         || (&& o.scanned.Some? && o.scanned.value.succeeded
             && scan(o.scanned.value.root).Ok?
             && o.caches.rootJars == st.rootJars[o.scanned.value.root := scan(o.scanned.value.root).value])
    ensures o.scanned.Some? ==>
      && o.scanned.value.root !in st.rootJars
      && o.scanned.value.succeeded == scan(o.scanned.value.root).Ok?
      && (o.scanned.value.succeeded ==> o.scanned.value.root in o.caches.rootJars)
    ensures o.result.Ok? && !o.result.value.Delegated? ==>
      path in o.caches.connections && o.caches.connections[path] == o.result.value
    ensures o.result.Ok? && o.result.value.Delegated? ==> o.caches == st && o.scanned.None?
  {
    if path in st.connections then Step(Ok(st.connections[path]), st, None)
    else
      match Split(path)
      case Err(e) => Step(Err(e), st, None)
      case Ok(parts) =>
        if !EndsWith(parts.nested, JarSuffix) then Step(Ok(Delegated(WithoutFragment(url))), st, None)
        else if parts.root in st.rootJars then
          Connect(st, path, parts, st.rootJars[parts.root], None)
        else
          match scan(parts.root)
          case Err(e) => Step(Err(e), st, Some(ScanEvent(parts.root, false)))
          case Ok(rootJar) =>
            Connect(Caches(st.connections, st.rootJars[parts.root := rootJar]), path, parts, rootJar,
                    Some(ScanEvent(parts.root, true)))
  }

  /** Build the connection for `path` and record it in `connections`. */
  function Connect(st: Caches, path: string, parts: Parts, rootJar: RootJar, scanned: Option<ScanEvent>): Step
  {
    var conn := ConnectionFor(parts, rootJar);
    Step(Ok(conn), Caches(st.connections[path := conn], st.rootJars), scanned)
  }

  /** `Resolve` reads the URL only as the default handler would see it, without its fragment. */
  lemma ResolveReadsUrlWithoutFragment(st: Caches, scan: Scanner, url: string, other: string, path: string)
    requires WithoutFragment(url) == WithoutFragment(other)
    ensures Resolve(st, scan, url, path) == Resolve(st, scan, other, path)
  {
  }

  /**
   * A URL and the same URL with a fragment open the same connection and
   * leave the same caches: the fragment is dropped before the cache lookup.
   */
  lemma OpenIgnoresFragment(st: Caches, scan: Scanner, decode: string -> string, url: string, f: string)
    requires '#' !in url
    ensures ParseUri(url).Ok? ==> Open(st, scan, decode, url + "#" + f) == Open(st, scan, decode, url)
  {
    var tagged := url + "#" + f;
    assert tagged[..|url|] == url && tagged[|url|] == '#';
    FirstIndexPrefix(url, tagged, "#", 0);
    assert FirstIndexIn(url, "#", 0) == |url|;
    assert WithoutFragment(tagged) == WithoutFragment(url);
    UnwrapIgnoresFragment(url, f, decode);
    if ParseUri(url).Ok? && Unwrap(url, decode).Ok? {
      ResolveReadsUrlWithoutFragment(st, scan, tagged, url, Unwrap(url, decode).value);
    }
  }

  /** A path already in `connections` gets that same connection back, and nothing changes. */
  lemma ResolveReturnsCached(st: Caches, scan: Scanner, url: string, path: string)
    requires path in st.connections
    ensures Resolve(st, scan, url, path) == Step(Ok(st.connections[path]), st, None)
  {
  }

  /** An uncached path with fewer than two separators fails with "Unable to parse", changing nothing. */
  lemma ResolveUnparsable(st: Caches, scan: Scanner, url: string, path: string)
    requires path !in st.connections
    requires !HasTwoSeparators(path)
    ensures Resolve(st, scan, url, path) == Step(Err(UnableToParse(path)), st, None)
  {
    SplitFailsIff(path);
  }

  /**
   * A nested name that is not a ".jar" goes to the default handler for the
   * same URL; neither cache is consulted beyond the lookup, and nothing is
   * scanned or cached.
   */
  lemma ResolveDelegatesNonJar(st: Caches, scan: Scanner, url: string, path: string)
    requires path !in st.connections
    requires Split(path).Ok? && !EndsWith(Split(path).value.nested, JarSuffix)
    ensures Resolve(st, scan, url, path) == Step(Ok(Delegated(WithoutFragment(url))), st, None)
  {
  }

  /**
   * For an uncached ".jar" path, the root is scanned exactly when it is not in
   * `rootJars`; a successful scan is recorded under that root and a failed one
   * changes nothing and is reported to the caller.
   */
  lemma ResolveScansOnlyNewRoots(st: Caches, scan: Scanner, url: string, path: string)
    requires path !in st.connections
    requires Split(path).Ok? && EndsWith(Split(path).value.nested, JarSuffix)
    ensures var root := Split(path).value.root;
            var o := Resolve(st, scan, url, path);
            && (root in st.rootJars ==> o.scanned == None && o.caches.rootJars == st.rootJars)
            && (root !in st.rootJars ==> o.scanned == Some(ScanEvent(root, scan(root).Ok?)))
            && (root !in st.rootJars && scan(root).Ok? ==> o.caches.rootJars == st.rootJars[root := scan(root).value])
            && (scan(root).Err? && root !in st.rootJars ==> o == Step(Err(scan(root).error), st, o.scanned))
  {
  }

  /**
   * From consistent caches, a jar connection is chosen by the scan of its root
   * alone: on-demand with that nested jar's descriptors exactly when the scan
   * found descriptors for it, preloaded otherwise, both for the root URL
   * `jar:file:<root>!/` and the parsed entry.
   */
  lemma ResolveChoosesStrategy(st: Caches, scan: Scanner, url: string, path: string)
    ensures var c := Resolve(st, scan, url, path).result;
            Consistent(st, scan) && c.Ok? && !c.value.Delegated? ==>
              && Split(path).Ok?
              && var p := Split(path).value;
                 && scan(p.root).Ok?
                 && (c.value.Ondemand? <==> p.nested in scan(p.root).value)
                 && (c.value.Ondemand? ==> c.value == Ondemand(RootUrl(p.root), p.root, scan(p.root).value[p.nested], p.entry))
                 && (c.value.Preloaded? ==> c.value == Preloaded(RootUrl(p.root), p.root, p.nested, p.entry))
  {
    if Consistent(st, scan) && path in st.connections {
      assert CachedCorrectly(st, path);
    }
  }

  /** Every call keeps the caches consistent with the scanner. */
  lemma OpenKeepsConsistent(st: Caches, scan: Scanner, decode: string -> string, url: string)
    requires Consistent(st, scan)
    ensures Consistent(Open(st, scan, decode, url).caches, scan)
  {
    var unwrapped := Unwrap(url, decode);
    if unwrapped.Ok? {
      ResolveKeepsConsistent(st, scan, url, unwrapped.value);
    }
  }

  lemma ResolveKeepsConsistent(st: Caches, scan: Scanner, url: string, path: string)
    requires Consistent(st, scan)
    ensures Consistent(Resolve(st, scan, url, path).caches, scan)
  {
    var n := Resolve(st, scan, url, path).caches;
    if n != st {
      forall p | p in n.connections
        ensures CachedCorrectly(n, p)
      {
        if p != path {
          assert CachedCorrectly(st, p);
        }
      }
    }
  }

  /**
   * Resolving through the caches gives what resolving with empty caches
   * would: the memo caches never change a result, only save work.
   */
  lemma OpenCacheTransparent(st: Caches, scan: Scanner, decode: string -> string, url: string)
    requires Consistent(st, scan)
    ensures Open(st, scan, decode, url).result == Open(Empty, scan, decode, url).result
  {
    if Unwrap(url, decode).Ok? {
      var path := Unwrap(url, decode).value;
      if path in st.connections {
        assert CachedCorrectly(st, path);
      }
    }
  }

  /**
   * After a successful call the same URL changes nothing and scans nothing:
   * a jar connection comes back from `connections`, and a delegated request
   * is delegated again without being cached.
   */
  lemma OpenIdempotent(st: Caches, scan: Scanner, decode: string -> string, url: string)
    ensures var o := Open(st, scan, decode, url);
            o.result.Ok? ==> Open(o.caches, scan, decode, url) == Step(o.result, o.caches, None)
  {
    var unwrapped := Unwrap(url, decode);
    if unwrapped.Ok? {
      ResolveIdempotent(st, scan, url, unwrapped.value);
    }
  }

  lemma ResolveIdempotent(st: Caches, scan: Scanner, url: string, path: string)
    ensures var o := Resolve(st, scan, url, path);
            o.result.Ok? ==> Resolve(o.caches, scan, url, path) == Step(o.result, o.caches, None)
  {
  }

  /** No root is scanned after a scan of it has succeeded, and every successful scan stays cached. */
  ghost predicate ScannedAtMostOnce(log: seq<ScanEvent>, rootJars: map<string, RootJar>)
  {
    && (forall i, j :: 0 <= i < j < |log| && log[i].succeeded ==> log[j].root != log[i].root)
    && (forall i :: 0 <= i < |log| && log[i].succeeded ==> log[i].root in rootJars)
  }

  /** One call keeps the scan log free of repeated successful scans, and only adds roots. */
  lemma OpenExtendsScanLog(st: Caches, scan: Scanner, decode: string -> string, url: string, log: seq<ScanEvent>)
    requires ScannedAtMostOnce(log, st.rootJars)
    ensures var o := Open(st, scan, decode, url);
            && ScannedAtMostOnce(log + Events(o.scanned), o.caches.rootJars)
            && st.rootJars.Keys <= o.caches.rootJars.Keys
  {
    var o := Open(st, scan, decode, url);
    ScanLogStep(log, st.rootJars, o.caches.rootJars, o.scanned);
  }

  /**
   * Appending a scan of a root that was not cached, to a log of the cached
   * roots, keeps the log free of repeated successful scans.
   */
  lemma ScanLogStep(log: seq<ScanEvent>, before: map<string, RootJar>, after: map<string, RootJar>,
                    scanned: Option<ScanEvent>)
    requires ScannedAtMostOnce(log, before)
    requires before.Keys <= after.Keys
    requires scanned.Some? ==> scanned.value.root !in before
    requires scanned.Some? && scanned.value.succeeded ==> scanned.value.root in after
    ensures ScannedAtMostOnce(log + Events(scanned), after)
  {
    var log' := log + Events(scanned);
    forall i | 0 <= i < |log'| && log'[i].succeeded
      ensures log'[i].root in after
    {
      if i < |log| {
        assert log'[i] == log[i];
      }
    }
    forall i, j | 0 <= i < j < |log'| && log'[i].succeeded
      ensures log'[j].root != log'[i].root
    {
      if j < |log| {
        assert log'[i] == log[i] && log'[j] == log[j];
      } else {
        assert log'[i] == log[i] && log'[j] == scanned.value;
        assert log[i].root in before;
      }
    }
  }

  /**
   * A sequence of calls, threading the caches and appending each scan made to
   * the log.
   */
  function Replay(st: Caches, scan: Scanner, decode: string -> string, log: seq<ScanEvent>, urls: seq<string>)
    : (Caches, seq<ScanEvent>)
    decreases |urls|
  {
    if urls == [] then (st, log)
    else
      var o := Open(st, scan, decode, urls[0]);
      Replay(o.caches, scan, decode, log + Events(o.scanned), urls[1..])
  }

  /**
   * Over any sequence of calls, a root is scanned successfully at most once,
   * what was scanned successfully stays cached, and the log only grows.
   */
  lemma {:induction false} ReplayScansOnce(st: Caches, scan: Scanner, decode: string -> string,
                                           log: seq<ScanEvent>, urls: seq<string>)
    requires ScannedAtMostOnce(log, st.rootJars)
    ensures var (fin, log') := Replay(st, scan, decode, log, urls);
            && ScannedAtMostOnce(log', fin.rootJars)
            && log <= log'
            && st.rootJars.Keys <= fin.rootJars.Keys
    decreases |urls|
  {
    if urls != [] {
      var o := Open(st, scan, decode, urls[0]);
      OpenExtendsScanLog(st, scan, decode, urls[0], log);
      ReplayScansOnce(o.caches, scan, decode, log + Events(o.scanned), urls[1..]);
    }
  }

  /** The URL stream handler for nested jars, holding the two caches. */
  class Handler {
    /** Full nested-jar path to its connection. */
    var connections: map<string, Connection>
    /** Root jar path to the result of scanning it. */
    var rootJars: map<string, RootJar>
    /** The directory scanner for root jars. */
    const scan: Scanner
    /** The URI library's percent-decoding of a scheme-specific part. */
    const decode: string -> string
    /** Every scan this handler has made, in order. */
    ghost var scans: seq<ScanEvent>

    ghost function State(): Caches
      reads this
    {
      Caches(connections, rootJars)
    }

    ghost predicate Valid()
      reads this
    {
      Consistent(State(), scan) && ScannedAtMostOnce(scans, rootJars)
    }

    constructor(scan: Scanner, decode: string -> string)
      ensures Valid()
      ensures connections == map[] && rootJars == map[] && scans == []
      ensures this.scan == scan && this.decode == decode
    {
      this.scan := scan;
      this.decode := decode;
      connections := map[];
      rootJars := map[];
      scans := [];
    }

    /**
     * `openConnection`: performs the `Open` transition in place, logging the
     * scan it made, and keeps the caches consistent.
     */
    method OpenConnection(url: string) returns (r: Result<Connection>)
      requires Valid()
      modifies this
      ensures Valid()
      ensures var o := Open(old(State()), scan, decode, url);
              && r == o.result
              && State() == o.caches
              && scans == old(scans) + Events(o.scanned)
    {
      ghost var st := State();
      ghost var o := Open(st, scan, decode, url);
      OpenKeepsConsistent(st, scan, decode, url);
      OpenExtendsScanLog(st, scan, decode, url, scans);
      var unwrapped := Unwrap(url, decode);
      if unwrapped.Err? {
        return Err(unwrapped.error);
      }
      var path := unwrapped.value;
      assert o == Resolve(st, scan, url, path);
      if path in connections {
        return Ok(connections[path]);
      }
      var split := Split(path);
      if split.Err? {
        return Err(split.error);
      }
      var parts := split.value;
      if !EndsWith(parts.nested, JarSuffix) {
        return Ok(Delegated(WithoutFragment(url)));
      }
      var rootJar: RootJar;
      if parts.root in rootJars {
        rootJar := rootJars[parts.root];
      } else {
        var scanned := scan(parts.root);
        if scanned.Err? {
          scans := scans + [ScanEvent(parts.root, false)];
          return Err(scanned.error);
        }
        rootJar := scanned.value;
        rootJars := rootJars[parts.root := rootJar];
        scans := scans + [ScanEvent(parts.root, true)];
      }
      var rootUrl := RootUrl(parts.root);
      var conn: Connection;
      if parts.nested in rootJar {
        conn := Ondemand(rootUrl, parts.root, rootJar[parts.nested], parts.entry);
      } else {
        conn := Preloaded(rootUrl, parts.root, parts.nested, parts.entry);
      }
      connections := connections[path := conn];
      r := Ok(conn);
    }
  }

  /** `HandlerFactory`: the handler serves the "jar" protocol and no other. */
  class HandlerFactory {
    const handler: Handler

    constructor(handler: Handler)
      ensures this.handler == handler
    {
      this.handler := handler;
    }

    function CreateUrlStreamHandler(protocol: string): (h: Handler?)
      ensures h != null <==> protocol == "jar"
      ensures h != null ==> h == handler
    {
      if protocol == "jar" then handler else null
    }
  }
}
