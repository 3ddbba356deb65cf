/** The Go standard-library string and path helpers the event listener relies
    on (strings.HasSuffix, strings.TrimSuffix, filepath.Ext, filepath.Base), as
    they behave on a Unix host, where '/' is the only separator and there is no
    volume name. */
module FilePath {

  const SEPARATOR: char := '/'

  /** strings.HasSuffix */
  predicate HasSuffix(s: string, suffix: string) {
    |suffix| <= |s| && s[|s| - |suffix|..] == suffix
  }

  /** strings.TrimSuffix: `s` without `suffix` when it ends with it, else `s`. */
  function TrimSuffix(s: string, suffix: string): (r: string)
    ensures HasSuffix(s, suffix) ==> r + suffix == s
    ensures !HasSuffix(s, suffix) ==> r == s
  {
    if HasSuffix(s, suffix) then s[..|s| - |suffix|] else s
  }

  /** A file-name extension as filepath.Ext can return it: a '.' followed by
      characters that are neither '.' nor a separator. */
  predicate IsExtension(ext: string) {
    |ext| > 0 && ext[0] == '.' &&
    forall i :: 0 < i < |ext| ==> ext[i] != '.' && ext[i] != SEPARATOR
  }

  /** filepath.Ext: the suffix of the last path element that begins at that
      element's last '.', or "" when the last element has no '.'. */
  function Ext(path: string): string
    decreases |path|
  {
    if path == [] || path[|path| - 1] == SEPARATOR then ""
    else if path[|path| - 1] == '.' then "."
    else
      var e := Ext(path[..|path| - 1]);
      if e == "" then "" else e + [path[|path| - 1]]
  }

  /** The characters of `path` after its last separator (all of it when it has
      none). */
  function LastElement(path: string): string
    decreases |path|
  {
    if path == [] || path[|path| - 1] == SEPARATOR then []
    else LastElement(path[..|path| - 1]) + [path[|path| - 1]]
  }

  /** `path` with every trailing separator removed. */
  function TrimTrailingSeparators(path: string): string
    decreases |path|
  {
    if path != [] && path[|path| - 1] == SEPARATOR then TrimTrailingSeparators(path[..|path| - 1])
    else path
  }

  /** filepath.Base: "." for the empty path, "/" for a path of separators only,
      otherwise the last element once trailing separators are dropped. */
  function Base(path: string): string {
    if path == "" then "."
    else
      var element := LastElement(TrimTrailingSeparators(path));
      if element == "" then [SEPARATOR] else element
  }

  /** What filepath.Ext returns is empty or an extension that ends the path. */
  lemma {:induction false} ExtShape(path: string)
    ensures Ext(path) == "" || (IsExtension(Ext(path)) && HasSuffix(path, Ext(path)))
    decreases |path|
  {
    if path != [] && path[|path| - 1] != SEPARATOR && path[|path| - 1] != '.' {
      var init := path[..|path| - 1];
      var e := Ext(init);
      ExtShape(init);
      if e != "" {
        assert path[|path| - |e| - 1..] == init[|init| - |e|..] + [path[|path| - 1]];
      }
    }
  }

  /** The last element ends the path, holds no separator, and is the whole path
      or is preceded by a separator. */
  lemma {:induction false} LastElementShape(path: string)
    ensures var e := LastElement(path);
      HasSuffix(path, e) && SEPARATOR !in e &&
      (|e| == |path| || path[|path| - |e| - 1] == SEPARATOR)
    decreases |path|
  {
    if path != [] && path[|path| - 1] != SEPARATOR {
      var init := path[..|path| - 1];
      var e := LastElement(init);
      LastElementShape(init);
      assert path[|path| - |e| - 1..] == init[|init| - |e|..] + [path[|path| - 1]];
    }
  }

  /** For a path not ending in a separator, filepath.Base is its last element. */
  lemma BaseIsLastElement(path: string)
    requires path != "" && path[|path| - 1] != SEPARATOR
    ensures Base(path) == LastElement(path)
  {
  }

  /** A path that ends with a separator-free suffix keeps it in its last element. */
  lemma LastElementKeepsSuffix(path: string, suffix: string)
    requires HasSuffix(path, suffix) && SEPARATOR !in suffix
    ensures HasSuffix(LastElement(path), suffix)
  {
    var e := LastElement(path);
    LastElementShape(path);
    assert path[|path| - |suffix|..] == e[|e| - |suffix|..];
  }

  /** A path without separators is its own last element. */
  lemma LastElementOfPlain(path: string)
    requires SEPARATOR !in path
    ensures LastElement(path) == path
  {
    LastElementShape(path);
  }

  /** A path split at the start of a separator-free last element that ends
      in `ext`: directory part, name, extension. */
  lemma SplitLastElement(path: string, element: string, ext: string)
    requires HasSuffix(path, element) && HasSuffix(element, ext) && SEPARATOR !in element
    requires |element| == |path| || path[|path| - |element| - 1] == SEPARATOR
    ensures var name := element[..|element| - |ext|];
      SEPARATOR !in name && |name| + |ext| <= |path| &&
      var dir := path[..|path| - |name| - |ext|];
      path == dir + name + ext && (dir == [] || dir[|dir| - 1] == SEPARATOR)
  {
    var name := element[..|element| - |ext|];
    assert element == name + ext;
    assert SEPARATOR !in name by {
      forall i | 0 <= i < |name| ensures name[i] != SEPARATOR {
        assert name[i] == element[i];
      }
    }
    var dir := path[..|path| - |element|];
    assert path == dir + element;
  }

  /** For a path ending in an extension, the last element without that
      extension holds no separator, and the path is a directory part (empty or
      ending in a separator) followed by it and the extension. */
  lemma TrimmedBaseShape(path: string, ext: string)
    requires IsExtension(ext) && HasSuffix(path, ext)
    ensures var name := TrimSuffix(Base(path), ext);
      SEPARATOR !in name && |name| + |ext| <= |path| &&
      var dir := path[..|path| - |name| - |ext|];
      path == dir + name + ext && (dir == [] || dir[|dir| - 1] == SEPARATOR)
  {
    assert path[|path| - 1] == ext[|ext| - 1] != SEPARATOR;
    BaseIsLastElement(path);
    LastElementShape(path);
    assert SEPARATOR !in ext;
    LastElementKeepsSuffix(path, ext);
    SplitLastElement(path, LastElement(path), ext);
  }

  /** filepath.Ext recognises an extension exactly when the path ends with it. */
  lemma {:induction false} ExtIsSuffix(path: string, ext: string)
    requires IsExtension(ext)
    ensures Ext(path) == ext <==> HasSuffix(path, ext)
  {
    if HasSuffix(path, ext) {
      ExtOfSuffixed(path, ext);
    } else {
      ExtShape(path);
    }
  }

  lemma {:induction false} ExtOfSuffixed(path: string, ext: string)
    requires IsExtension(ext) && HasSuffix(path, ext)
    ensures Ext(path) == ext
    decreases |ext|
  {
    var n := |path|;
    assert path[n - 1] == ext[|ext| - 1];
    if |ext| > 1 {
      var init, shorter := path[..n - 1], ext[..|ext| - 1];
      assert init[|init| - |shorter|..] == path[n - |ext|..n - 1];
      ExtOfSuffixed(init, shorter);
      assert ext == shorter + [path[n - 1]];
    }
  }
}
