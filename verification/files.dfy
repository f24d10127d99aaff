/**
 * The app's private storage as a map from absolute path to contents, and
 * the two `java.io.File` path operations the core uses: `File(dir, name)`
 * and `File(path).name`.
 */
module Files {
  type Bytes = seq<bv8>

  predicate NoSlash(s: string) {
    forall i :: 0 <= i < |s| ==> s[i] != '/'
  }

  /** `File` normalises away trailing separators before taking the name. */
  function StripTrailingSlashes(p: string): (r: string)
    ensures |r| <= |p| && r == p[..|r|]
    ensures r == [] || r[|r| - 1] != '/'
  {
    if p != [] && p[|p| - 1] == '/' then StripTrailingSlashes(p[..|p| - 1]) else p
  }

  /** The text after the last separator, or all of `p` when it has none. */
  function LastComponent(p: string): (r: string)
    ensures NoSlash(r)
  {
    if p == [] || p[|p| - 1] == '/' then []
    else LastComponent(p[..|p| - 1]) + [p[|p| - 1]]
  }

  /** `File(path).name`: the last component of the path, without separators. */
  function Basename(p: string): (r: string)
    ensures NoSlash(r)
  {
    LastComponent(StripTrailingSlashes(p))
  }

  /** `File(dir, name).absolutePath` for an absolute directory. */
  function Child(dir: string, name: string): string {
    dir + "/" + name
  }

  /** The name of a child is the name it was created with. */
  lemma {:induction false} BasenameOfChild(dir: string, name: string)
    requires name != [] && NoSlash(name)
    ensures Basename(Child(dir, name)) == name
  {
    var p := Child(dir, name);
    assert StripTrailingSlashes(p) == p;
    LastComponentAfterSlash(dir, name);
  }

  /** A name without separators is its own last component. */
  lemma {:induction false} LastComponentOfName(s: string)
    requires NoSlash(s)
    ensures LastComponent(s) == s
    decreases |s|
  {
    if s != [] {
      var init := s[..|s| - 1];
      assert NoSlash(init) by {
        forall i | 0 <= i < |init| ensures init[i] != '/' {
          assert init[i] == s[i];
        }
      }
      LastComponentOfName(init);
      assert init + [s[|s| - 1]] == s;
    }
  }

  lemma {:induction false} LastComponentAfterSlash(dir: string, name: string)
    requires NoSlash(name)
    ensures LastComponent(dir + "/" + name) == name
    decreases |name|
  {
    var p := dir + "/" + name;
    if name == [] {
      assert p[|p| - 1] == '/';
    } else {
      var init := name[..|name| - 1];
      assert p[..|p| - 1] == dir + "/" + init;
      LastComponentAfterSlash(dir, init);
      assert init + [name[|name| - 1]] == name;
    }
  }

  class FileSystem {
    var files: map<string, Bytes>

    constructor (initial: map<string, Bytes>)
      ensures files == initial
    {
      files := initial;
    }

    /** `File(path).exists()`. */
    function Exists(path: string): (b: bool)
      reads this
      ensures b <==> path in files
    {
      path in files
    }

    /** Writing a file: creates it, or replaces its contents. */
    method Write(path: string, bytes: Bytes)
      modifies this
      ensures files == old(files)[path := bytes]
    {
      files := files[path := bytes];
    }

    /** `File(path).delete()`. */
    method Delete(path: string)
      modifies this
      ensures files == old(files) - {path}
    {
      files := files - {path};
    }
  }
}
