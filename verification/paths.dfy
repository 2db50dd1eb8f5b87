/** Paths and file names, following the rules of Rust's `std::path` on Unix that the
    discovery code relies on: `Path::components`, `Path::file_name` and `Path::extension`. */
module Paths {
  import opened Wrappers

  /** A path as the list of its components. An absolute path starts with the
      root component `Root`, a relative one may start with `CurDir`, and every other
      component is a plain name. */
  type Path = seq<string>

  const Root: string := "/"

  /** The current-directory component a relative path keeps at its head. */
  const CurDir: string := "."

  predicate IsAbsolute(p: Path) {
    |p| > 0 && p[0] == Root
  }

  /** Index of the last '.' in `s`, or -1 when there is none. */
  function LastDot(s: string): (r: int)
    ensures -1 <= r < |s|
    ensures 0 <= r ==> s[r] == '.'
    ensures forall j :: r < j < |s| ==> s[j] != '.'
  {
    if |s| == 0 then -1
    else if s[|s| - 1] == '.' then |s| - 1
    else LastDot(s[..|s| - 1])
  }

  /** The extension of a single file name, as Rust's `Path::extension` computes it:
      the text after the last '.', except that a name without '.', a name whose only
      '.' leads it (".json", ".vscode") and the name ".." have none. */
  function NameExtension(name: string): Option<string> {
    if name == ".." then None
    else
      var i := LastDot(name);
      if i <= 0 then None else Some(name[i + 1..])
  }

  /** `name` has extension `ext` exactly when it is a non-empty stem, a '.', and `ext`
      with no further '.' in it; ".." is the one name of that shape without one. */
  lemma NameExtensionSplit(name: string, ext: string)
    ensures NameExtension(name) == Some(ext)
        <==> name != ".." && '.' !in ext &&
             exists i :: 0 < i < |name| && name[i] == '.' && name[i + 1..] == ext
  {
  }

  /** "<stem>.<ext>", with a non-empty stem and a non-empty, dot-free `ext`, has the
      extension `ext`. */
  lemma NameExtensionOf(stem: string, ext: string)
    requires |stem| > 0 && |ext| > 0 && '.' !in ext
    ensures NameExtension(stem + "." + ext) == Some(ext)
  {
    var name := stem + "." + ext;
    assert name[|stem|] == '.';
    assert forall j :: |stem| < j < |name| ==> name[j] == ext[j - |stem| - 1];
    var r := LastDot(name);
    assert r == |stem|;
    assert name[|stem| + 1..] == ext;
  }

  /** A name without '.' has no extension. */
  lemma NoDotNoExtension(name: string)
    requires '.' !in name
    ensures NameExtension(name) == None
  {
  }

  /** A hidden name with no further '.' has no extension. */
  lemma HiddenNoExtension(rest: string)
    requires '.' !in rest
    ensures NameExtension("." + rest) == None
  {
  }

  /** Hidden names and ".." have no extension, and neither has a name without '.'. */
  lemma NameExtensionExamples()
    ensures NameExtension(".json") == None
    ensures NameExtension(".vscode") == None
    ensures NameExtension("..") == None
    ensures NameExtension("Makefile") == None
  {
  }

  lemma TasksJsonExtension()
    ensures NameExtension("tasks.json") == Some("json")
  {
    NameExtensionOf("tasks", "json");
    assert "tasks" + "." + "json" == "tasks.json";
  }

  /** Rust's `Path::file_name`: the last component when it is a plain name. */
  function FileName(p: Path): Option<string> {
    if |p| == 0 then None
    else
      var last := p[|p| - 1];
      if last == Root || last == "." || last == ".." then None else Some(last)
  }

  /** Rust's `Path::extension`: the extension of the file name, if there is one. */
  function PathExtension(p: Path): Option<string> {
    match FileName(p)
    case None => None
    case Some(name) => NameExtension(name)
  }

  /** Length of the first '/'-free stretch of `s`. */
  function SegmentEnd(s: string): (k: nat)
    ensures k <= |s|
    ensures forall j :: 0 <= j < k ==> s[j] != '/'
    ensures k < |s| ==> s[k] == '/'
  {
    if |s| == 0 || s[0] == '/' then 0 else SegmentEnd(s[1..]) + 1
  }

  /** The first '/' of `s` is at `k` (or there is none and `k` is its length). */
  lemma SegmentEndAt(s: string, k: nat)
    requires k <= |s| && (k < |s| ==> s[k] == '/')
    requires forall j :: 0 <= j < k ==> s[j] != '/'
    ensures SegmentEnd(s) == k
  {
  }

  /** The plain names of a '/'-separated text: empty pieces (from repeated or
      trailing separators) and "." pieces are dropped, as `Path::components` does. */
  function Segments(s: string): Path
    decreases |s|
  {
    var k := SegmentEnd(s);
    var rest := if k < |s| then Segments(s[k + 1..]) else [];
    if s[..k] == "" || s[..k] == "." then rest else [s[..k]] + rest
  }

  /** The text of a relative path that starts with the current directory: "." alone
      or followed by a separator. */
  predicate StartsAtCurDir(s: string) {
    |s| > 0 && s[0] == '.' && (|s| == 1 || s[1] == '/')
  }

  /** Rust's `Path::components` on the text of a path: a leading '/' is the root, a
      leading "." that is a whole piece is the current directory, and the rest are
      the plain names. The empty text has no components. */
  function Components(s: string): (p: Path)
    ensures IsAbsolute(p) <==> |s| > 0 && s[0] == '/'
    ensures |p| > 0 && p[0] == CurDir <==> StartsAtCurDir(s)
  {
    if |s| > 0 && s[0] == '/' then SegmentsArePlain(s[1..]); [Root] + Segments(s[1..])
    else if StartsAtCurDir(s) then SegmentsArePlain(s[1..]); [CurDir] + Segments(s[1..])
    else SegmentsArePlain(s); Segments(s)
  }

  /** A plain name: what a path holds after its root. */
  predicate IsPlainName(n: string) {
    n != "" && n != "." && '/' !in n
  }

  /** Every piece of a '/'-separated text is a plain name. */
  lemma {:induction false} SegmentsArePlain(s: string)
    ensures forall i :: 0 <= i < |Segments(s)| ==> IsPlainName(Segments(s)[i])
    decreases |s|
  {
    var k := SegmentEnd(s);
    SegmentsUnfold(s);
    assert '/' !in s[..k];
    if k < |s| {
      SegmentsArePlain(s[k + 1..]);
    }
  }

  /** Every component after the first is a plain name, and so is the first unless
      it is the root or the current directory. */
  lemma ComponentsArePlain(s: string)
    ensures var p := Components(s);
            forall i :: (if IsAbsolute(p) || (|p| > 0 && p[0] == CurDir) then 1 else 0) <= i < |p| ==>
              IsPlainName(p[i])
  {
    SegmentsArePlain(s);
    if |s| > 0 {
      SegmentsArePlain(s[1..]);
    }
  }

  /** A file name "<stem>.json" with a non-empty stem has the extension "json". */
  lemma JsonFileName(stem: string)
    requires |stem| > 0
    ensures NameExtension(stem + ".json") == Some("json")
  {
    NameExtensionOf(stem, "json");
    assert stem + "." + "json" == stem + ".json";
  }

  /** A single plain name is a single component. */
  lemma SegmentsName(n: string)
    requires IsPlainName(n)
    ensures Segments(n) == [n]
  {
    assert n[..SegmentEnd(n)] == n;
  }

  /** Splitting at a separator commutes with joining: the components of
      "<a>/<b>" are those of `a` followed by those of `b`. */
  lemma {:induction false} SegmentsJoin(a: string, b: string)
    ensures Segments(a + "/" + b) == Segments(a) + Segments(b)
    decreases |a|
  {
    var k := SegmentEnd(a);
    if k < |a| {
      SegmentsJoin(a[k + 1..], b);
      SegmentsJoinStep(a, b, k);
    } else {
      SegmentsJoinLast(a, b);
    }
  }

  /** The first piece of "<a>/<b>" is the first piece of `a`. */
  lemma SegmentsJoinHead(a: string, b: string, k: nat)
    requires k == SegmentEnd(a)
    ensures var s := a + "/" + b;
            SegmentEnd(s) == k && s[..k] == a[..k] && k + 1 <= |s|
  {
    var s := a + "/" + b;
    SegmentEndAt(s, k);
    assert s[..k] == a[..k];
  }

  /** `a` without '/': its one piece comes before those of `b`. */
  lemma SegmentsJoinLast(a: string, b: string)
    requires SegmentEnd(a) == |a|
    ensures Segments(a + "/" + b) == Segments(a) + Segments(b)
  {
    var s := a + "/" + b;
    var k := |a|;
    SegmentsJoinHead(a, b, k);
    assert s[k + 1..] == b;
    assert a[..k] == a;
  }

  /** `a` with a '/' at `k`: the first piece, then the rest of `a` joined with `b`. */
  lemma SegmentsJoinStep(a: string, b: string, k: nat)
    requires k == SegmentEnd(a) && k < |a|
    requires Segments(a[k + 1..] + "/" + b) == Segments(a[k + 1..]) + Segments(b)
    ensures Segments(a + "/" + b) == Segments(a) + Segments(b)
  {
    SegmentsJoinFirst(a, b, k);
    SegmentsUnfoldAt(a, k);
    Regroup(Piece(a[..k]), Segments(a[k + 1..]), Segments(b), Segments(a + "/" + b), Segments(a));
  }

  /** The pieces of "<a>/<b>", when `a` has a '/' at `k`, are the first piece of `a`
      followed by those of the rest of the text. */
  lemma SegmentsJoinFirst(a: string, b: string, k: nat)
    requires k == SegmentEnd(a) && k < |a|
    ensures Segments(a + "/" + b) == Piece(a[..k]) + Segments(a[k + 1..] + "/" + b)
  {
    var s := a + "/" + b;
    SegmentsJoinHead(a, b, k);
    assert s[k + 1..] == a[k + 1..] + "/" + b;
    calc {
      Segments(s);
    == { SegmentsUnfoldAt(s, k); }
      Piece(s[..k]) + Segments(s[k + 1..]);
    ==
      Piece(a[..k]) + Segments(a[k + 1..] + "/" + b);
    }
  }

  /** A first part, then a middle and a last part, is the first two, then the last. */
  lemma Regroup(first: Path, middle: Path, last: Path, joined: Path, whole: Path)
    requires joined == first + (middle + last) && whole == first + middle
    ensures joined == whole + last
  {
  }

  /** The components a single piece of text contributes. */
  function Piece(t: string): Path {
    if t == "" || t == "." then [] else [t]
  }

  /** The same, for a text with a '/' at `k`. */
  lemma SegmentsUnfoldAt(s: string, k: nat)
    requires k == SegmentEnd(s) && k < |s|
    ensures Segments(s) == Piece(s[..k]) + Segments(s[k + 1..])
  {
    SegmentsUnfold(s);
  }

  lemma SegmentsUnfold(s: string)
    ensures var k := SegmentEnd(s);
            Segments(s) == Piece(s[..k]) + (if k < |s| then Segments(s[k + 1..]) else [])
  {
    var k := SegmentEnd(s);
    var rest := if k < |s| then Segments(s[k + 1..]) else [];
    assert Segments(s) == if s[..k] == "" || s[..k] == "." then rest else [s[..k]] + rest;
    if s[..k] == "" || s[..k] == "." {
      assert Piece(s[..k]) + rest == rest;
    }
  }

  /** Appending "/<b>" to a non-empty path text appends the components of `b`. */
  lemma ComponentsJoin(a: string, b: string)
    requires |a| > 0
    ensures Components(a + "/" + b) == Components(a) + Segments(b)
  {
    var s := a + "/" + b;
    assert s[0] == a[0];
    if a[0] == '/' {
      assert s[1..] == a[1..] + "/" + b;
      SegmentsJoin(a[1..], b);
    } else if StartsAtCurDir(a) {
      CurDirJoin(a, b);
    } else {
      assert !StartsAtCurDir(s) by {
        if |a| == 1 { assert a[0] != '.'; } else { assert s[1] == a[1]; }
      }
      SegmentsJoin(a, b);
    }
  }

  /** The current-directory case of `ComponentsJoin`. */
  lemma CurDirJoin(a: string, b: string)
    requires StartsAtCurDir(a)
    ensures Components(a + "/" + b) == Components(a) + Segments(b)
  {
    var s := a + "/" + b;
    assert StartsAtCurDir(s) && s[0] != '/' by {
      assert s[0] == '.';
      if |a| == 1 { assert s[1] == '/'; } else { assert s[1] == a[1]; }
    }
    assert s[1..] == a[1..] + "/" + b;
    SegmentsJoin(a[1..], b);
    assert Components(s) == [CurDir] + (Segments(a[1..]) + Segments(b));
    assert Components(a) == [CurDir] + Segments(a[1..]);
    Regroup([CurDir], Segments(a[1..]), Segments(b), Components(s), Components(a));
  }

  /** The file name of "<a>/<n>", for a plain name `n` other than "..", is `n`, and
      the path's extension is the name's: what a walked entry's path reports is
      decided by the entry's own name. */
  lemma FileNameOfJoin(a: string, n: string)
    requires |a| > 0 && IsPlainName(n) && n != ".."
    ensures FileName(Components(a + "/" + n)) == Some(n)
    ensures PathExtension(Components(a + "/" + n)) == NameExtension(n)
  {
    ComponentsJoin(a, n);
    SegmentsName(n);
  }

  /** "/<n>/<m>" for two plain names is the root followed by those two names. */
  lemma RootJoin2(n: string, m: string)
    requires IsPlainName(n) && IsPlainName(m)
    ensures Components("/" + (n + "/" + m)) == [Root, n, m]
  {
    var s := "/" + (n + "/" + m);
    assert s[1..] == n + "/" + m;
    SegmentsJoin(n, m);
    SegmentsName(n);
    SegmentsName(m);
  }

  /** Appending "/<n>/<m>" for two plain names appends those two components. */
  lemma ComponentsJoin2(a: string, n: string, m: string)
    requires |a| > 0
    requires IsPlainName(n) && IsPlainName(m)
    ensures Components(a + "/" + (n + "/" + m)) == Components(a) + [n, m]
  {
    ComponentsJoin(a, n + "/" + m);
    SegmentsJoin(n, m);
    SegmentsName(n);
    SegmentsName(m);
  }
}
