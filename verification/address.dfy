/**
 * The path of a nested-jar address, `<root>!/<nested>!/<entry>`, and how
 * `Handler.openConnection` cuts it at the first two separators.
 */
module Address {
  import opened Common

  /** `EmJarClassLoader.SEPARATOR`. */
  const Separator: string := "!/"

  /** The separator starts at index `k` of `s`. */
  predicate SeparatorAt(s: string, k: int)
  {
    0 <= k && k + 1 < |s| && s[k] == '!' && s[k + 1] == '/'
  }

  predicate HasSeparator(s: string)
  {
    exists k :: 0 <= k < |s| && SeparatorAt(s, k)
  }

  /** At least two separators occur in `s`. */
  predicate HasTwoSeparators(s: string)
  {
    exists i, j :: 0 <= i < j < |s| && SeparatorAt(s, i) && SeparatorAt(s, j)
  }

  /**
   * Java's `s.indexOf(SEPARATOR, from)`: the first occurrence at or after
   * `from` (a negative `from` counts as 0), or -1 when there is none.
   */
  function IndexOfSeparator(s: string, from: int): (k: int)
    ensures k == -1 || (0 <= k && from <= k && SeparatorAt(s, k))
    ensures forall m :: from <= m && SeparatorAt(s, m) ==> 0 <= k <= m
    decreases |s| - from
  {
    if from < 0 then IndexOfSeparator(s, 0)
    else if from + 1 >= |s| then -1
    else if SeparatorAt(s, from) then from
    else IndexOfSeparator(s, from + 1)
  }

  /** The three parts of a nested-jar path. */
  datatype Parts = Parts(root: string, nested: string, entry: string)

  function Join(p: Parts): string
  {
    p.root + Separator + p.nested + Separator + p.entry
  }

  /**
   * The cut at `path.indexOf(SEPARATOR)` and `path.indexOf(SEPARATOR, i + 1)`.
   * On success the parts rebuild the path and neither the root nor the nested
   * name holds a separator; the entry keeps any later ones.
   */
  function Split(path: string): (r: Result<Parts>)
    ensures r.Ok? ==> Join(r.value) == path
    ensures r.Ok? ==> !HasSeparator(r.value.root) && !HasSeparator(r.value.nested)
    ensures r.Err? ==> r.error == UnableToParse(path)
  {
    var i := IndexOfSeparator(path, 0);
    var j := IndexOfSeparator(path, i + 1);
    if i < 0 || j < 0 then Err(UnableToParse(path))
    else
      // path[i + 1] is '/', so no separator starts there and j >= i + 2
      assert j != i + 1;
      var p := Parts(path[..i], path[i + 2..j], path[j + 2..]);
      PartsRebuild(path, i, j);
      NoSeparatorBetween(path, 0, i);
      NoSeparatorBetween(path, i + 2, j);
      Ok(p)
  }

  lemma PartsRebuild(path: string, i: int, j: int)
    requires 0 <= i && i + 2 <= j && j + 2 <= |path|
    requires SeparatorAt(path, i) && SeparatorAt(path, j)
    ensures Join(Parts(path[..i], path[i + 2..j], path[j + 2..])) == path
  {
    assert path[i..i + 2] == Separator;
    assert path[j..j + 2] == Separator;
    calc {
      path;
      path[..i] + path[i..i + 2] + path[i + 2..j] + path[j..j + 2] + path[j + 2..];
    }
  }

  /** A slice that lies before the next separator of `path` holds none itself. */
  lemma NoSeparatorBetween(path: string, lo: int, hi: int)
    requires 0 <= lo <= hi <= |path|
    requires forall m :: lo <= m < hi && SeparatorAt(path, m) ==> false
    ensures !HasSeparator(path[lo..hi])
  {
    if HasSeparator(path[lo..hi]) {
      var k :| 0 <= k < hi - lo && SeparatorAt(path[lo..hi], k);
      assert SeparatorAt(path, lo + k);
    }
  }

  /** Splitting fails exactly when the path holds fewer than two separators. */
  lemma SplitFailsIff(path: string)
    ensures Split(path).Err? <==> !HasTwoSeparators(path)
  {
    if HasTwoSeparators(path) {
      var a, b :| 0 <= a < b < |path| && SeparatorAt(path, a) && SeparatorAt(path, b);
      var i := IndexOfSeparator(path, 0);
      assert 0 <= i <= a;
      var j := IndexOfSeparator(path, i + 1);
      assert 0 <= j <= b;
    }
    if Split(path).Ok? {
      var i := IndexOfSeparator(path, 0);
      var j := IndexOfSeparator(path, i + 1);
      assert i < j && SeparatorAt(path, i) && SeparatorAt(path, j);
    }
  }

  /** The first separator of `root + "!/" + rest` is the one after `root`. */
  lemma FirstSeparatorAfter(root: string, rest: string, from: int)
    requires !HasSeparator(root)
    requires from <= |root|
    ensures IndexOfSeparator(root + Separator + rest, from) == |root|
  {
    var s := root + Separator + rest;
    assert SeparatorAt(s, |root|);
    forall m | 0 <= m < |root|
      ensures !SeparatorAt(s, m)
    {
      if m + 1 < |root| {
        assert s[m] == root[m] && s[m + 1] == root[m + 1];
        assert !SeparatorAt(root, m);
      } else {
        assert s[m + 1] == '!';
      }
    }
  }

  /**
   * Joining and splitting are inverse exactly for parts whose root and nested
   * name hold no separator.
   */
  lemma SplitJoin(p: Parts)
    ensures Split(Join(p)) == Ok(p) <==> !HasSeparator(p.root) && !HasSeparator(p.nested)
  {
    if !HasSeparator(p.root) && !HasSeparator(p.nested) {
      var path := Join(p);
      var tail := p.nested + Separator + p.entry;
      assert path == p.root + Separator + tail;
      FirstSeparatorAfter(p.root, tail, 0);
      var i := |p.root|;
      var off := i + 2;
      FirstSeparatorAfter(p.nested, p.entry, 0);
      forall m | i + 1 <= m < off + |p.nested|
        ensures !SeparatorAt(path, m)
      {
        if m == i + 1 {
          assert path[m] == '/';
        } else {
          assert !SeparatorAt(tail, m - off);
          assert path[m] == tail[m - off] && path[m + 1] == tail[m + 1 - off];
        }
      }
      assert SeparatorAt(path, off + |p.nested|);
      var j := IndexOfSeparator(path, i + 1);
      assert j == off + |p.nested|;
      assert path[..i] == p.root;
      assert path[i + 2..j] == p.nested;
      var head := p.root + Separator + p.nested + Separator;
      assert path == head + p.entry && |head| == j + 2;
      assert path[j + 2..] == p.entry;
    }
  }

  /** The separators of `s + "!/"` are those of `s` and the appended one. */
  lemma AppendedSeparatorAt(s: string, k: int)
    ensures SeparatorAt(s + Separator, k) <==> SeparatorAt(s, k) || k == |s|
  {
    var t := s + Separator;
    if 0 <= k && k + 1 < |s| {
      assert t[k] == s[k] && t[k + 1] == s[k + 1];
    } else if k == |s| - 1 {
      assert t[k + 1] == '!';
    }
  }

  /**
   * A path given a trailing separator, as the direct "file:" form of a
   * nested-jar URL is: it splits exactly when the path holds a separator,
   * and its entry is empty exactly when the path holds only one.
   */
  lemma SplitAppendedSeparator(s: string)
    ensures Split(s + Separator).Ok? <==> HasSeparator(s)
    ensures Split(s + Separator).Ok? ==> (Split(s + Separator).value.entry == "" <==> !HasTwoSeparators(s))
  {
    var t := s + Separator;
    SplitFailsIff(t);
    AppendedSeparatorAt(s, |s|);
    if HasSeparator(s) {
      var a :| 0 <= a < |s| && SeparatorAt(s, a);
      AppendedSeparatorAt(s, a);
    }
    if HasTwoSeparators(t) {
      var a, b :| 0 <= a < b < |t| && SeparatorAt(t, a) && SeparatorAt(t, b);
      AppendedSeparatorAt(s, a);
    }
    if Split(t).Ok? {
      AppendedEntry(s);
    }
  }

  lemma AppendedEntry(s: string)
    requires Split(s + Separator).Ok?
    ensures Split(s + Separator).value.entry == "" <==> !HasTwoSeparators(s)
  {
    var t := s + Separator;
    var i := IndexOfSeparator(t, 0);
    var j := IndexOfSeparator(t, i + 1);
    AppendedSeparatorAt(s, |s|);
    AppendedSeparatorAt(s, i);
    AppendedSeparatorAt(s, j);
    assert i < j <= |s|;
    assert Split(t).value.entry == t[j + 2..];
    if HasTwoSeparators(s) {
      var a, b :| 0 <= a < b < |s| && SeparatorAt(s, a) && SeparatorAt(s, b);
      AppendedSeparatorAt(s, a);
      AppendedSeparatorAt(s, b);
      assert j <= b;
    }
  }
}
