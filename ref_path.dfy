/**
 * The reference name the operator records: `new File(path).getName()`
 * (Mapper.java lines 127-128). On a Unix file system java.io.File drops
 * trailing separators from the path, and getName is what follows the last
 * remaining separator.
 */
module RefPath {
  const Separator: char := '/'

  /** The path without its trailing separators. */
  function StripTrailingSeparators(path: string): (p: string)
    ensures |p| <= |path|
    ensures p == [] || p[|p| - 1] != Separator
  {
    if path == [] || path[|path| - 1] != Separator then path
    else StripTrailingSeparators(path[..|path| - 1])
  }

  /** The text after the last separator. */
  function LastComponent(p: string): (name: string)
    ensures Separator !in name && |name| <= |p|
  {
    if p == [] || p[|p| - 1] == Separator then []
    else LastComponent(p[..|p| - 1]) + [p[|p| - 1]]
  }

  /** The file's base name, as `File.getName` gives it. */
  function BaseName(path: string): (name: string)
    ensures Separator !in name
  {
    LastComponent(StripTrailingSeparators(path))
  }

  /** Stripping removes a run of separators from the end and nothing else. */
  lemma {:induction false} StripTrailingSeparatorsSpec(path: string)
    ensures var p := StripTrailingSeparators(path);
      && p == path[..|p|]
      && forall i :: |p| <= i < |path| ==> path[i] == Separator
    decreases |path|
  {
    if path != [] && path[|path| - 1] == Separator {
      StripTrailingSeparatorsSpec(path[..|path| - 1]);
    }
  }

  /**
   * The last component is a suffix with no separator that is either the whole
   * text or preceded by a separator, which makes it unique.
   */
  lemma {:induction false} LastComponentSpec(p: string)
    ensures var name := LastComponent(p);
      && name == p[|p| - |name|..]
      && (|name| < |p| ==> p[|p| - |name| - 1] == Separator)
    decreases |p|
  {
    if p != [] && p[|p| - 1] != Separator {
      var init := p[..|p| - 1];
      LastComponentSpec(init);
      var n := LastComponent(init);
      assert p[|p| - |n| - 1..] == init[|init| - |n|..] + [p[|p| - 1]];
    }
  }

  lemma {:induction false} LastComponentAfterSeparator(dir: string, name: string)
    requires Separator !in name
    ensures LastComponent(dir + [Separator] + name) == name
    decreases |name|
  {
    var p := dir + [Separator] + name;
    if name != [] {
      assert p[..|p| - 1] == dir + [Separator] + name[..|name| - 1];
      LastComponentAfterSeparator(dir, name[..|name| - 1]);
      assert name[..|name| - 1] + [name[|name| - 1]] == name;
    }
  }

  /**
   * The base name of a file in a directory is the file's own name, whether or
   * not the path ends in a separator.
   */
  lemma BaseNameOfChild(dir: string, name: string)
    requires name != [] && Separator !in name
    ensures BaseName(dir + [Separator] + name) == name
    ensures BaseName(dir + [Separator] + name + [Separator]) == name
  {
    var p := dir + [Separator] + name;
    LastComponentAfterSeparator(dir, name);
    assert StripTrailingSeparators(p) == p;
    assert (p + [Separator])[..|p|] == p;
  }

  lemma {:induction false} LastComponentPlain(name: string)
    requires Separator !in name
    ensures LastComponent(name) == name
    decreases |name|
  {
    if name != [] {
      LastComponentPlain(name[..|name| - 1]);
      assert name[..|name| - 1] + [name[|name| - 1]] == name;
    }
  }

  /** A path with no separator names a file in the working directory: its base name is itself. */
  lemma BaseNameOfPlainName(name: string)
    requires Separator !in name
    ensures BaseName(name) == name
  {
    LastComponentPlain(name);
  }
}
