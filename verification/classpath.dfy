/**
 * `EmJarClassLoader.getClassPath` and `addClassPathUrls`: the class loader's
 * URL list is built from the class path elements in order, each contributing
 * its own file URL and then one nested-jar URL per ".jar" entry inside it.
 *
 * Each class path element is given as data: what `File` and `JarFile` would
 * report about it, including the points where reading it throws.
 */
module ClassPath {
  import opened Common
  import opened Address
  import opened Uris

  /** The main attributes of a jar manifest, reduced to whether `Premain-Class` is declared. */
  datatype Manifest = Manifest(premainClass: bool)

  /** An entry of a class path jar; `urlOk` is false when its nested-jar URL cannot be formed. */
  datatype JarEntry = JarEntry(name: string, urlOk: bool)

  /** A class path jar as `JarFile` reads it, or one that cannot be opened or whose manifest cannot be read. */
  datatype Archive = Unreadable | Archive(manifest: Option<Manifest>, entries: seq<JarEntry>)

  /**
   * One element of a class path: its file URL (`None` when it cannot be
   * formed), whether it is a plain file, its name, its absolute path, and its
   * contents when opened as a jar.
   */
  datatype Element = Element(fileUrl: Option<string>, isFile: bool, name: string, absolutePath: string, archive: Archive)

  /** The URL of an embedded jar: `jar:file:` and the quoted `<jar path>!/<entry name>`. */
  function NestedUrl(quote: string -> string, absolutePath: string, entryName: string): string
  {
    "jar:file:" + quote(absolutePath + Separator + entryName)
  }

  /**
   * The nested-jar URLs of a jar's entries, in entry order, for the entries
   * named "*.jar"; the first such entry whose URL cannot be formed ends the
   * list.
   */
  function NestedUrls(quote: string -> string, absolutePath: string, entries: seq<JarEntry>): seq<string>
  {
    if |entries| == 0 then []
    else if !EndsWith(entries[0].name, JarSuffix) then NestedUrls(quote, absolutePath, entries[1..])
    else if !entries[0].urlOk then []
    else [NestedUrl(quote, absolutePath, entries[0].name)] + NestedUrls(quote, absolutePath, entries[1..])
  }

  /** The element's own jar entries are looked at: a readable "*.jar" file that is not a skipped agent jar. */
  predicate Inspected(e: Element, force: bool)
  {
    && e.isFile
    && EndsWith(e.name, JarSuffix)
    && e.archive.Archive?
    && !(e.archive.manifest.Some? && e.archive.manifest.value.premainClass && !force)
  }

  /** What one class path element appends. */
  function ElementUrls(quote: string -> string, e: Element, force: bool): seq<string>
  {
    if e.fileUrl.None? then []
    else [e.fileUrl.value] + (if Inspected(e, force) then NestedUrls(quote, e.absolutePath, e.archive.entries) else [])
  }

  /** What a list of class path elements appends, element by element. */
  function Expansion(quote: string -> string, elements: seq<Element>, force: bool): seq<string>
  {
    if |elements| == 0 then []
    else ElementUrls(quote, elements[0], force) + Expansion(quote, elements[1..], force)
  }

  /** What one class path property appends; an unset property appends nothing. */
  function Contribution(quote: string -> string, classPath: Option<seq<Element>>, force: bool): seq<string>
  {
    if classPath.None? then [] else Expansion(quote, classPath.value, force)
  }

  /** The `ArrayList<URL>` the class path is collected into. */
  class UrlList {
    var items: seq<string>

    constructor()
      ensures items == []
    {
      items := [];
    }

    method Add(url: string)
      modifies this
      ensures items == old(items) + [url]
    {
      items := items + [url];
    }
  }

  /**
   * `addClassPathUrls`: appends, in place, the URLs of every element of the
   * class path. An element that fails part-way keeps what it appended and the
   * next element is still processed. `quote` is the URI constructor's quoting
   * of the scheme-specific part.
   */
  method AddClassPathUrls(classPath: Option<seq<Element>>, urls: UrlList, quote: string -> string, force: bool)
    modifies urls
    ensures urls.items == old(urls.items) + Contribution(quote, classPath, force)
  {
    if classPath.None? {
      return;
    }
    var elements := classPath.value;
    var k := 0;
    while k < |elements|
      invariant 0 <= k <= |elements|
      invariant urls.items == old(urls.items) + Expansion(quote, elements[..k], force)
    {
      ghost var done := Expansion(quote, elements[..k], force);
      ghost var here := ElementUrls(quote, elements[k], force);
      ExpansionSnoc(quote, elements, k, force);
      AddElementUrls(urls, quote, elements[k], force);
      AppendAssociative(old(urls.items), done, here);
      k := k + 1;
    }
    assert elements[..k] == elements;
  }

  /**
   * One pass of the loop of `addClassPathUrls`: the element's file URL, then,
   * for a readable "*.jar" file that is not a skipped agent jar, its nested
   * jar URLs. Each `continue` and each caught exception ends the pass.
   */
  method AddElementUrls(urls: UrlList, quote: string -> string, elem: Element, force: bool)
    modifies urls
    ensures urls.items == old(urls.items) + ElementUrls(quote, elem, force)
  {
    if elem.fileUrl.None? {
      return;
    }
    urls.Add(elem.fileUrl.value);
    if !elem.isFile || !EndsWith(elem.name, JarSuffix) {
      return;
    }
    if elem.archive.Unreadable? {
      return;
    }
    var manifest := elem.archive.manifest;
    if manifest.Some? && manifest.value.premainClass && !force {
      return;
    }
    AddNestedUrls(urls, quote, elem.absolutePath, elem.archive.entries);
  }

  /**
   * The loop of `addClassPathUrls` over one jar's entries: appends the
   * nested-jar URL of each ".jar" entry in order, and stops at the first one
   * whose URL cannot be formed.
   */
  method AddNestedUrls(urls: UrlList, quote: string -> string, absolutePath: string, entries: seq<JarEntry>)
    modifies urls
    ensures urls.items == old(urls.items) + NestedUrls(quote, absolutePath, entries)
  {
    var m := 0;
    while m < |entries|
      invariant 0 <= m <= |entries|
      invariant urls.items + NestedUrls(quote, absolutePath, entries[m..])
             == old(urls.items) + NestedUrls(quote, absolutePath, entries)
    {
      var entry := entries[m];
      assert entries[m..] == [entry] + entries[m + 1..];
      if EndsWith(entry.name, JarSuffix) {
        if !entry.urlOk {
          break;
        }
        urls.Add(NestedUrl(quote, absolutePath, entry.name));
      }
      m := m + 1;
    }
  }

  /**
   * `getClassPath`: the elements of `java.class.path`, whose agent jars are
   * skipped, come before those of `emjar.class.path`, which are inspected
   * whatever their manifest says.
   */
  method GetClassPath(javaClassPath: Option<seq<Element>>, emjarClassPath: Option<seq<Element>>, quote: string -> string)
    returns (urls: seq<string>)
    ensures urls == Contribution(quote, javaClassPath, false) + Contribution(quote, emjarClassPath, true)
  {
    var list := new UrlList();
    AddClassPathUrls(javaClassPath, list, quote, false);
    ghost var first := Contribution(quote, javaClassPath, false);
    assert [] + first == first;
    AddClassPathUrls(emjarClassPath, list, quote, true);
    urls := list.items;
  }

  /** Expanding one more element of a prefix appends that element's URLs. */
  lemma ExpansionSnoc(quote: string -> string, elements: seq<Element>, k: nat, force: bool)
    requires k < |elements|
    ensures Expansion(quote, elements[..k + 1], force)
         == Expansion(quote, elements[..k], force) + ElementUrls(quote, elements[k], force)
  {
    assert elements[..k + 1] == elements[..k] + [elements[k]];
    ExpansionAppend(quote, elements[..k], [elements[k]], force);
    assert [elements[k]][1..] == [];
  }

  /** One step of `Expansion` from position `k`. */
  lemma ExpansionStep(quote: string -> string, elements: seq<Element>, k: nat, force: bool)
    requires k < |elements|
    ensures Expansion(quote, elements[k..], force)
         == ElementUrls(quote, elements[k], force) + Expansion(quote, elements[k + 1..], force)
  {
    assert elements[k..][0] == elements[k] && elements[k..][1..] == elements[k + 1..];
  }

  /** Expanding two lists one after the other is expanding their concatenation. */
  lemma {:induction false} ExpansionAppend(quote: string -> string, a: seq<Element>, b: seq<Element>, force: bool)
    ensures Expansion(quote, a + b, force) == Expansion(quote, a, force) + Expansion(quote, b, force)
    decreases |a|
  {
    if a == [] {
      assert a + b == b;
    } else {
      assert (a + b)[0] == a[0];
      assert (a + b)[1..] == a[1..] + b;
      ExpansionAppend(quote, a[1..], b, force);
    }
  }

  /**
   * Elements are processed in order and each contributes one contiguous
   * block: what comes before it, then its own URLs, then what comes after.
   */
  lemma ExpansionInOrder(quote: string -> string, elements: seq<Element>, k: nat, force: bool)
    requires k < |elements|
    ensures Expansion(quote, elements, force)
         == Expansion(quote, elements[..k], force)
          + ElementUrls(quote, elements[k], force)
          + Expansion(quote, elements[k + 1..], force)
  {
    assert elements == elements[..k] + elements[k..];
    ExpansionAppend(quote, elements[..k], elements[k..], force);
    ExpansionStep(quote, elements, k, force);
    AppendAssociative(Expansion(quote, elements[..k], force), ElementUrls(quote, elements[k], force),
                      Expansion(quote, elements[k + 1..], force));
  }

  /**
   * An element's own file URL comes first, before any nested URL; an element
   * whose file URL cannot be formed contributes nothing.
   */
  lemma FileUrlFirst(quote: string -> string, e: Element, force: bool)
    ensures e.fileUrl.None? <==> ElementUrls(quote, e, force) == []
    ensures e.fileUrl.Some? ==> ElementUrls(quote, e, force)[0] == e.fileUrl.value
  {
  }

  /**
   * Only a readable "*.jar" file contributes nested URLs; a directory, a file
   * with another name or a jar that cannot be opened contributes its file URL
   * alone.
   */
  lemma OnlyJarFilesExpand(quote: string -> string, e: Element, force: bool)
    requires e.fileUrl.Some?
    requires !e.isFile || !EndsWith(e.name, JarSuffix) || e.archive.Unreadable?
    ensures ElementUrls(quote, e, force) == [e.fileUrl.value]
  {
  }

  /** On `java.class.path` a jar whose manifest declares `Premain-Class` contributes its file URL alone. */
  lemma AgentJarSkipped(quote: string -> string, e: Element)
    requires e.fileUrl.Some? && e.archive.Archive?
    requires e.archive.manifest == Some(Manifest(true))
    ensures ElementUrls(quote, e, false) == [e.fileUrl.value]
  {
  }

  /** `force` makes a `Premain-Class` declaration irrelevant: the jar expands as if it had no manifest. */
  lemma ForceIgnoresManifest(quote: string -> string, e: Element)
    requires e.archive.Archive?
    ensures ElementUrls(quote, e, true)
         == ElementUrls(quote, e.(archive := e.archive.(manifest := None)), false)
  {
  }

  /** The names of a jar's entries that end in ".jar", in entry order. */
  function JarEntryNames(entries: seq<JarEntry>): seq<string>
  {
    if |entries| == 0 then []
    else
      var head := if EndsWith(entries[0].name, JarSuffix) then [entries[0].name] else [];
      head + JarEntryNames(entries[1..])
  }

  /**
   * When every ".jar" entry's URL can be formed, a jar contributes exactly one
   * nested URL per ".jar" entry, in entry order.
   */
  lemma {:induction false} NestedUrlsComplete(quote: string -> string, absolutePath: string, entries: seq<JarEntry>)
    requires forall k :: 0 <= k < |entries| && EndsWith(entries[k].name, JarSuffix) ==> entries[k].urlOk
    ensures var names := JarEntryNames(entries);
            NestedUrls(quote, absolutePath, entries)
            == seq(|names|, i requires 0 <= i < |names| => NestedUrl(quote, absolutePath, names[i]))
    decreases |entries|
  {
    if entries != [] {
      var rest := entries[1..];
      NestedUrlsComplete(quote, absolutePath, rest);
      var names := JarEntryNames(entries);
      var tail := JarEntryNames(rest);
      var urls := NestedUrls(quote, absolutePath, entries);
      if EndsWith(entries[0].name, JarSuffix) {
        assert entries[0].urlOk;
        assert names == [entries[0].name] + tail;
        assert |urls| == |names|;
        forall i | 0 <= i < |names|
          ensures urls[i] == NestedUrl(quote, absolutePath, names[i])
        {
          if i > 0 {
            assert urls[i] == NestedUrls(quote, absolutePath, rest)[i - 1];
            assert names[i] == tail[i - 1];
          }
        }
      } else {
        assert names == tail;
      }
    }
  }

  /**
   * The first ".jar" entry whose URL cannot be formed stops the jar's
   * expansion: what came before it stays, nothing after it is added.
   */
  lemma {:induction false} NestedUrlsStopAtFailure(quote: string -> string, absolutePath: string, entries: seq<JarEntry>, k: nat)
    requires k < |entries| && EndsWith(entries[k].name, JarSuffix) && !entries[k].urlOk
    ensures NestedUrls(quote, absolutePath, entries) == NestedUrls(quote, absolutePath, entries[..k])
    decreases k
  {
    if k == 0 {
      assert entries[..k] == [];
    } else {
      assert entries[..k][1..] == entries[1..][..k - 1];
      NestedUrlsStopAtFailure(quote, absolutePath, entries[1..], k - 1);
    }
  }

  /**
   * A nested-jar URL put on the class path is resolved by the handler back
   * to its jar and entry: when the URI library's decoding undoes its quoting,
   * the URL unwraps to `<jar>!/<entry>!/` and splits into that jar as root,
   * that entry as nested jar, and an empty entry.
   */
  lemma NestedUrlResolves(quote: string -> string, decode: string -> string, absolutePath: string, entryName: string)
    requires decode(quote(absolutePath + Separator + entryName)) == absolutePath + Separator + entryName
    requires quote(absolutePath + Separator + entryName) != ""
    requires '#' !in quote(absolutePath + Separator + entryName)
    requires !HasSeparator(absolutePath) && !HasSeparator(entryName)
    ensures Unwrap(NestedUrl(quote, absolutePath, entryName), decode)
         == Ok(absolutePath + Separator + entryName + Separator)
    ensures Split(absolutePath + Separator + entryName + Separator) == Ok(Parts(absolutePath, entryName, ""))
  {
    UnwrapFileUrl(quote(absolutePath + Separator + entryName), decode);
    var parts := Parts(absolutePath, entryName, "");
    SplitJoin(parts);
    assert Join(parts) == absolutePath + Separator + entryName + Separator;
  }

  /**
   * A class path jar whose absolute path itself holds a separator is not
   * resolved back to that jar: the cut at the first two separators takes the
   * part before the jar path's separator as root, the rest of the jar path as
   * nested jar, and the entry name with the trailing separator as entry.
   */
  lemma NestedUrlMisresolves(quote: string -> string, decode: string -> string,
                             outer: string, inner: string, entryName: string)
    requires decode(quote(outer + Separator + inner + Separator + entryName))
          == outer + Separator + inner + Separator + entryName
    requires quote(outer + Separator + inner + Separator + entryName) != ""
    requires '#' !in quote(outer + Separator + inner + Separator + entryName)
    requires !HasSeparator(outer) && !HasSeparator(inner)
    ensures var absolutePath := outer + Separator + inner;
            && Unwrap(NestedUrl(quote, absolutePath, entryName), decode)
               == Ok(absolutePath + Separator + entryName + Separator)
            && Split(absolutePath + Separator + entryName + Separator)
               == Ok(Parts(outer, inner, entryName + Separator))
  {
    var absolutePath := outer + Separator + inner;
    assert absolutePath + Separator + entryName == outer + Separator + inner + Separator + entryName;
    UnwrapFileUrl(quote(absolutePath + Separator + entryName), decode);
    var parts := Parts(outer, inner, entryName + Separator);
    SplitJoin(parts);
    assert Join(parts) == absolutePath + Separator + entryName + Separator;
  }
}
