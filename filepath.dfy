/**
 * The parts of Go's `path/filepath` the token store uses, for `/`-separated
 * paths: `Base` and the two-element `Join` that builds the default token
 * directory.
 */
module FilePath {

  const Separator: char := '/'

  /** `path` with every trailing separator removed. */
  function StripTrailingSeparators(path: string): (t: string)
    ensures |t| <= |path| && t == path[..|t|]
    ensures t == [] || t[|t| - 1] != Separator
    ensures forall i :: |t| <= i < |path| ==> path[i] == Separator
  {
    if path != [] && path[|path| - 1] == Separator then StripTrailingSeparators(path[..|path| - 1])
    else path
  }

  /** The text after the last separator of `path` (all of it when there is none). */
  function LastElement(path: string): (e: string)
    ensures |e| <= |path| && e == path[|path| - |e|..]
    ensures Separator !in e
    ensures |e| == |path| || path[|path| - |e| - 1] == Separator
  {
    if path == [] || path[|path| - 1] == Separator then []
    else
      var e := LastElement(path[..|path| - 1]) + [path[|path| - 1]];
      assert path[..|path| - 1][|path| - |e|..] + [path[|path| - 1]] == path[|path| - |e|..];
      e
  }

  /**
   * `filepath.Base`: the last element of `path` after trailing separators are
   * removed; "." for the empty path and "/" for a path made only of separators.
   */
  function Base(path: string): (b: string)
    ensures b != []
    ensures b == [Separator] || Separator !in b
  {
    if path == [] then "."
    else
      var e := LastElement(StripTrailingSeparators(path));
      if e == [] then [Separator] else e
  }

  /** A non-empty name without separators is its own base: dots and colons stay. */
  lemma BaseOfName(name: string)
    requires name != [] && Separator !in name
    ensures Base(name) == name
  {
    assert name[|name| - 1] in name;
    LastElementOfName(name);
  }

  lemma {:induction false} LastElementOfName(name: string)
    requires Separator !in name
    ensures LastElement(name) == name
  {
    if name != [] {
      var init, last := name[..|name| - 1], name[|name| - 1];
      assert last in name;
      assert Separator !in init;
      LastElementOfName(init);
      assert LastElement(name) == LastElement(init) + [last];
      assert init + [last] == name;
    }
  }

  /** The base of `dir/name` is `name`, whatever the directory part is. */
  lemma {:induction false} BaseOfJoined(dir: string, name: string)
    requires name != [] && Separator !in name
    ensures Base(dir + [Separator] + name) == name
    decreases |name|
  {
    var p := dir + [Separator] + name;
    assert p[|p| - 1] == name[|name| - 1];
    assert name[|name| - 1] in name;
    LastElementAfterSeparator(dir, name);
  }

  lemma {:induction false} LastElementAfterSeparator(dir: string, name: string)
    requires Separator !in name
    ensures LastElement(dir + [Separator] + name) == name
    decreases |name|
  {
    var p := dir + [Separator] + name;
    if name != [] {
      assert name[|name| - 1] in name;
      assert p[..|p| - 1] == dir + [Separator] + name[..|name| - 1];
      assert Separator !in name[..|name| - 1];
      LastElementAfterSeparator(dir, name[..|name| - 1]);
      assert LastElement(p) == LastElement(p[..|p| - 1]) + [p[|p| - 1]];
      assert name[..|name| - 1] + [name[|name| - 1]] == name;
    }
  }

  /** Base ignores trailing separators: `Base("a/b/") == Base("a/b")`. */
  lemma BaseIgnoresTrailingSeparator(path: string)
    requires path != []
    ensures Base(path + [Separator]) == Base(path)
  {
    var p := path + [Separator];
    assert p[..|p| - 1] == path;
    assert StripTrailingSeparators(p) == StripTrailingSeparators(path);
  }

  /** The empty path is the exception: a trailing `/` turns "." into "/". */
  lemma TrailingSeparatorOnEmpty()
    ensures Base("") == "." && Base([Separator]) == [Separator]
    ensures Base("" + [Separator]) != Base("")
  {
  }

  /** Taking the base twice changes nothing. */
  lemma BaseIdempotent(path: string)
    ensures Base(Base(path)) == Base(path)
  {
    var b := Base(path);
    if b != [Separator] && b != "." {
      BaseOfName(b);
    }
  }

  /**
   * `filepath.Join(dir, name)` for two elements: an empty `dir` is dropped.
   * Path cleaning (`..`, doubled separators) is not modelled.
   */
  function Join(dir: string, name: string): (p: string)
    requires name != []
    ensures p != [] && HasSuffixName(p, name)
  {
    if dir == [] then name else dir + [Separator] + name
  }

  predicate HasSuffixName(p: string, name: string) {
    |name| <= |p| && p[|p| - |name|..] == name
  }
}
