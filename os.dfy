/**
 * The parts of Python's `os` and `os.path` (POSIX flavour) that the
 * chunker and the file handler use: `basename`, `dirname`, `join`,
 * `splitext`, and a file system reduced to which paths exist and which of
 * them `os.remove` refuses to delete.
 */
module Os {
  import opened Results
  import opened Text

  /** `s.rfind(c)`: the last index holding `c`, or -1. */
  function LastIndexOf(s: string, c: char): (r: int)
    ensures -1 <= r < |s|
    ensures r >= 0 ==> s[r] == c
    ensures forall k :: r < k < |s| ==> s[k] != c
  {
    if s == [] then -1 else if s[|s| - 1] == c then |s| - 1 else LastIndexOf(s[..|s| - 1], c)
  }

  /** `os.path.basename(p)`: what follows the last slash. */
  function Basename(p: string): string {
    p[LastIndexOf(p, '/') + 1..]
  }

  predicate NoSlash(s: string) {
    forall k :: 0 <= k < |s| ==> s[k] != '/'
  }

  predicate AllSlashes(s: string) {
    forall k :: 0 <= k < |s| ==> s[k] == '/'
  }

  /** `s.rstrip("/")`. */
  function RStripSlashes(s: string): (r: string)
    ensures |r| <= |s| && r == s[..|r|]
    ensures r != [] ==> r[|r| - 1] != '/'
  {
    if s != [] && s[|s| - 1] == '/' then RStripSlashes(s[..|s| - 1]) else s
  }

  /**
   * `os.path.dirname(p)`: everything up to the last slash, with trailing
   * slashes dropped unless the head is made of slashes only.
   */
  function Dirname(p: string): string {
    var head := p[..LastIndexOf(p, '/') + 1];
    if head != [] && !AllSlashes(head) then RStripSlashes(head) else head
  }

  /** `os.path.join(a, b)`. */
  function JoinPath(a: string, b: string): string {
    if b != [] && b[0] == '/' then b
    else if a == [] || a[|a| - 1] == '/' then a + b
    else a + "/" + b
  }

  predicate AllDots(s: string) {
    forall k :: 0 <= k < |s| ==> s[k] == '.'
  }

  /**
   * `os.path.splitext(p)[1]`: from the last dot on, when that dot lies in
   * the last path component and is not part of the leading dots of it.
   */
  function Extension(p: string): string {
    var sepIndex := LastIndexOf(p, '/');
    var dotIndex := LastIndexOf(p, '.');
    if dotIndex > sepIndex && !AllDots(p[sepIndex + 1..dotIndex]) then p[dotIndex..] else ""
  }

  lemma BasenameNoSlash(p: string)
    ensures NoSlash(Basename(p))
    ensures p == p[..|p| - |Basename(p)|] + Basename(p)
  {
    var i := LastIndexOf(p, '/') + 1;
    var b := p[i..];
    assert b == Basename(p);
    assert |p| - |b| == i;
    assert p[..i] + p[i..] == p;
    forall k | 0 <= k < |b| ensures b[k] != '/' {
      assert b[k] == p[i + k];
    }
  }

  /** A name without a slash joined to any directory is the basename of the result. */
  lemma BasenameOfJoin(dir: string, name: string)
    requires name != [] && NoSlash(name)
    ensures Basename(JoinPath(dir, name)) == name
  {
    var p := JoinPath(dir, name);
    var j := |p| - |name|;
    if name[0] == '/' {
      assert false;
    } else if dir == [] || dir[|dir| - 1] == '/' {
      assert p == dir + name;
    } else {
      assert p == dir + "/" + name;
      assert p[j - 1] == '/';
    }
    assert p[j..] == name;
    var i := LastIndexOf(p, '/');
    assert i == j - 1;
  }

  /** An extension is empty or starts with its only dot, and holds no slash. */
  lemma ExtensionShape(p: string)
    ensures var e := Extension(p);
            e == [] || (e[0] == '.' && NoSlash(e) && forall k :: 0 < k < |e| ==> e[k] != '.')
  {
    var e := Extension(p);
    if e != [] {
      var d := LastIndexOf(p, '.');
      assert e == p[d..];
      forall k | 0 <= k < |e| ensures e[k] != '/' {
        assert e[k] == p[d + k];
      }
      forall k | 0 < k < |e| ensures e[k] != '.' {
        assert e[k] == p[d + k];
      }
    }
  }

  lemma NoSlashConcat(a: string, b: string)
    requires NoSlash(a) && NoSlash(b)
    ensures NoSlash(a + b)
  {
    forall k | 0 <= k < |a + b| ensures (a + b)[k] != '/' {
      if k >= |a| { assert (a + b)[k] == b[k - |a|]; }
    }
  }

  lemma DigitsNoSlash(s: string)
    requires AllDigits(s)
    ensures NoSlash(s)
  {
    forall k | 0 <= k < |s| ensures s[k] != '/' {
      assert IsDigit(s[k]);
    }
  }

  /** Which paths exist, and which of those `os.remove` fails on (permissions, a directory). */
  datatype FileSystem = FileSystem(files: set<string>, locked: set<string>)

  /** `os.remove(p)`. */
  function Remove(fs: FileSystem, p: string): (r: Result<FileSystem>)
    ensures r.Ok? <==> p in fs.files && p !in fs.locked
    ensures r.Ok? ==> r.value == fs.(files := fs.files - {p})
  {
    if p !in fs.files then Err("No such file or directory: " + p)
    else if p in fs.locked then Err("Operation not permitted: " + p)
    else Ok(fs.(files := fs.files - {p}))
  }
}
