/** The POSIX `os.path` functions the loader uses to derive a board name and
    a city from a file path. */
module Paths {
  import opened Text

  predicate AllSlashes(s: string) {
    forall i :: 0 <= i < |s| ==> s[i] == '/'
  }

  /** `s.rstrip('/')`. */
  function RStripSlashes(s: string): (r: string)
    ensures |r| <= |s| && r == s[..|r|]
    ensures r == [] || r[|r| - 1] != '/'
  {
    if s != [] && s[|s| - 1] == '/' then RStripSlashes(s[..|s| - 1]) else s
  }

  /** `os.path.basename(p)`: everything after the last '/'. */
  function Basename(p: string): (r: string)
    ensures '/' !in r
    ensures EndsWith(p, r)
    ensures |r| < |p| ==> p[|p| - |r| - 1] == '/'
  {
    p[RFind(p, '/') + 1..]
  }

  /** `os.path.dirname(p)`: everything up to the last '/', with the trailing
      slashes dropped unless that is all there is. */
  function Dirname(p: string): string {
    var head := p[..RFind(p, '/') + 1];
    if head != [] && !AllSlashes(head) then RStripSlashes(head) else head
  }

  /** `os.path.join(a, b)` for two components. */
  function Join(a: string, b: string): string {
    if StartsWith(b, "/") then b
    else if a == [] || EndsWith(a, "/") then a + b
    else a + "/" + b
  }

  /** `os.path.splitext(p)[0]`: `p` without its extension, where a leading
      run of dots in the last component does not start an extension. */
  function SplitExtRoot(p: string): string {
    var sep, dot := RFind(p, '/'), RFind(p, '.');
    if dot > sep && exists i :: sep + 1 <= i < dot && p[i] != '.' then p[..dot] else p
  }

  /** Joining a directory and a plain file name, then taking the path apart
      again, gives back both. */
  lemma JoinThenSplit(dir: string, name: string)
    requires dir != [] && dir[|dir| - 1] != '/'
    requires '/' !in name
    ensures Dirname(Join(dir, name)) == dir
    ensures Basename(Join(dir, name)) == name
  {
    var p := Join(dir, name);
    assert !StartsWith(name, "/");
    assert p == dir + "/" + name;
    RFindInContext(dir, "/", name, '/');
    assert RFind("/", '/') == 0;
    assert p[..|dir| + 1] == dir + "/";
    assert (dir + "/")[..|dir|] == dir;
    assert (dir + "/")[|dir| - 1] != '/';
    assert RStripSlashes(dir + "/") == RStripSlashes(dir) == dir;
  }

  /** A file name with an extension loses exactly that extension. */
  lemma SplitExtOfExtension(stem: string, ext: string)
    requires '/' !in stem && '/' !in ext && '.' !in ext
    requires exists i :: 0 <= i < |stem| && stem[i] != '.'
    ensures SplitExtRoot(stem + "." + ext) == stem
  {
    var p := stem + "." + ext;
    RFindInContext(stem, ".", ext, '.');
    assert RFind(".", '.') == 0;
    assert '/' !in p;
    var i :| 0 <= i < |stem| && stem[i] != '.';
    assert p[i] == stem[i];
    assert p[..|stem|] == stem;
  }

  /** Dropping the extension never empties a name: a dot that starts an
      extension has some other character before it. */
  lemma SplitExtRootNonEmpty(p: string)
    requires p != []
    ensures SplitExtRoot(p) != []
  {
  }

  /** A path that does not end in '/' has a non-empty last component. */
  lemma BasenameNonEmpty(p: string)
    requires p != [] && p[|p| - 1] != '/'
    ensures Basename(p) != []
  {
  }
}
