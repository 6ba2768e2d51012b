/**
 * The two pieces of Go's path/filepath that decide which files are read and what an ABI
 * contract is called: Ext and Base, for '/' as the only separator.
 */
module FilePaths {

  /**
   * filepath.Ext: the suffix of `path` that starts at the last '.' of its final element,
   * or "" when that element has no '.'.
   */
  function Ext(path: string): (r: string)
    ensures |r| <= |path| && r == path[|path| - |r|..]
    ensures r != "" ==> r[0] == '.' && forall i :: 1 <= i < |r| ==> r[i] != '.' && r[i] != '/'
  {
    if path == [] || path[|path| - 1] == '/' then ""
    else if path[|path| - 1] == '.' then "."
    else
      var e := Ext(path[..|path| - 1]);
      if e == "" then "" else e + [path[|path| - 1]]
  }

  /** Ext is "" exactly when the final element of the path has no '.'. */
  lemma {:induction false} ExtEmpty(path: string)
    ensures Ext(path) == "" <==> '.' !in LastElement(path)
  {
    if path != [] && path[|path| - 1] != '/' {
      var init, c := path[..|path| - 1], path[|path| - 1];
      ExtEmpty(init);
      assert LastElement(path) == LastElement(init) + [c];
      if c == '.' {
        assert LastElement(path)[|LastElement(init)|] == '.';
      } else {
        assert '.' in LastElement(path) <==> '.' in LastElement(init);
      }
    }
  }

  /** `path` without its trailing '/' characters. */
  function TrimTrailingSlashes(path: string): (r: string)
    ensures |r| <= |path| && r == path[..|r|]
    ensures r == "" || r[|r| - 1] != '/'
  {
    if path != [] && path[|path| - 1] == '/' then TrimTrailingSlashes(path[..|path| - 1]) else path
  }

  /** The part of `path` after its last '/'. */
  function LastElement(path: string): (r: string)
    ensures |r| <= |path| && r == path[|path| - |r|..]
    ensures '/' !in r
    ensures |r| < |path| ==> path[|path| - |r| - 1] == '/'
  {
    if path == [] || path[|path| - 1] == '/' then ""
    else LastElement(path[..|path| - 1]) + [path[|path| - 1]]
  }

  /**
   * filepath.Base: the last element of `path` after trailing slashes are removed;
   * "." for the empty path and "/" for a path made of slashes only.
   */
  function Base(path: string): string
  {
    if path == "" then "."
    else
      var trimmed := TrimTrailingSlashes(path);
      if trimmed == "" then "/" else LastElement(trimmed)
  }

  /** The file name with its extension removed, as main.go names an ABI contract. */
  function Stem(path: string): string
  {
    var base := Base(path);
    base[..|base| - |Ext(base)|]
  }

  /** The stem followed by the extension is the whole base name. */
  lemma StemThenExt(path: string)
    ensures Stem(path) + Ext(Base(path)) == Base(path)
  {
    var base := Base(path);
    SplitBeforeSuffix(base, Ext(base));
  }

  lemma SplitBeforeSuffix(s: string, suffix: string)
    requires |suffix| <= |s| && suffix == s[|s| - |suffix|..]
    ensures s[..|s| - |suffix|] + suffix == s
  {
  }

  /** A suffix that starts with '.' and has no further '.' or '/' is the extension. */
  predicate IsExtension(e: string)
  {
    e != "" && e[0] == '.' && forall i :: 1 <= i < |e| ==> e[i] != '.' && e[i] != '/'
  }

  lemma {:induction false} ExtOfSuffix(path: string, e: string)
    requires IsExtension(e)
    ensures Ext(path + e) == e
  {
    if |e| > 1 {
      var last := e[|e| - 1];
      assert (path + e)[..|path + e| - 1] == path + e[..|e| - 1];
      ExtOfSuffix(path, e[..|e| - 1]);
      assert e[..|e| - 1] + [last] == e;
    }
  }

  lemma {:induction false} LastElementAfterSlash(dir: string, name: string)
    requires '/' !in name
    ensures LastElement(dir + "/" + name) == name
  {
    if name != [] {
      var last := name[|name| - 1];
      assert (dir + "/" + name)[..|dir + "/" + name| - 1] == dir + "/" + name[..|name| - 1];
      LastElementAfterSlash(dir, name[..|name| - 1]);
      assert name[..|name| - 1] + [last] == name;
    }
  }

  /** A file `dir/name.ext` is named `name`: its base name minus its extension. */
  lemma StemOfFile(dir: string, name: string, ext: string)
    requires '/' !in name && IsExtension(ext)
    ensures Stem(dir + "/" + name + ext) == name
  {
    var path := dir + "/" + name + ext;
    assert path == dir + "/" + (name + ext);
    LastElementAfterSlash(dir, name + ext);
    assert TrimTrailingSlashes(path) == path;
    ExtOfSuffix(name, ext);
  }

  lemma TokenStem()
    ensures Ext("data/Token.json") == ".json"
    ensures Stem("data/Token.json") == "Token"
  {
    assert IsExtension(".json");
    assert "data/Token.json" == "data/Token" + ".json";
    ExtOfSuffix("data/Token", ".json");
    assert "data/Token.json" == "data" + "/" + "Token" + ".json";
    StemOfFile("data", "Token", ".json");
  }
}
