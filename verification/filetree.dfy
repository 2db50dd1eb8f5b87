/** The filesystem as the directory walker sees it: a finite tree whose directory
    listings are sequences in listing order. */
module FileTree {
  import opened Wrappers
  import opened Paths

  /** One item of a directory listing.
      File:       any entry that is not a directory (regular file, symlink, ...).
      Dir:        a directory and its listing, in the order the walker yields it; a
                  directory whose listing cannot be read holds just `Unreadable`.
      Unreadable: an item the walker reports as an error; every caller skips it. */
  datatype Entry =
    | File(name: string)
    | Dir(name: string, children: seq<Entry>)
    | Unreadable

  predicate Named(e: Entry, n: string) {
    !e.Unreadable? && e.name == n
  }

  /** The first readable entry of a listing with the given name. */
  function FindChild(entries: seq<Entry>, n: string): (r: Option<Entry>)
    ensures r.Some? <==> exists i :: 0 <= i < |entries| && Named(entries[i], n)
    ensures r.Some? ==> r.value in entries && Named(r.value, n)
  {
    if |entries| == 0 then None
    else if Named(entries[0], n) then Some(entries[0])
    else
      var r := FindChild(entries[1..], n);
      assert forall i :: 1 <= i < |entries| ==> entries[i] == entries[1..][i - 1];
      r
  }

  /** The entry reached from `e` by following the names of `rel`. */
  function Descend(e: Entry, rel: Path): Option<Entry>
    decreases |rel|
  {
    if |rel| == 0 then Some(e)
    else match e
      case Dir(_, ch) =>
        (match FindChild(ch, rel[0])
         case Some(c) => Descend(c, rel[1..])
         case None => None)
      case _ => None
  }

  /** The entry at an absolute path, `fs` being the root directory. A relative path
      names nothing here: `Resolve` opens it from the working directory. */
  function Lookup(fs: Entry, p: Path): Option<Entry> {
    if IsAbsolute(p) then Descend(fs, p[1..]) else None
  }

  /** The entry the operating system opens for the path `p` when the working
      directory is `cwd`: an absolute path is looked up from the root; a relative
      one from `cwd`, where a leading current-directory component names `cwd`
      itself. The empty path names nothing. */
  function Resolve(fs: Entry, cwd: Path, p: Path): Option<Entry> {
    if IsAbsolute(p) then Lookup(fs, p)
    else if |p| == 0 then None
    else if p[0] == CurDir then Lookup(fs, cwd + p[1..])
    else Lookup(fs, cwd + p)
  }

  /** A relative path without its current-directory component. */
  function Relative(p: Path): Path {
    if |p| > 0 && p[0] == CurDir then p[1..] else p
  }

  /** Descending along `a + b` is descending along `a`, then along `b`. */
  lemma {:induction false} DescendAppend(e: Entry, a: Path, b: Path)
    ensures Descend(e, a + b) ==
            (match Descend(e, a) case Some(x) => Descend(x, b) case None => None)
    decreases |a|
  {
    if |a| == 0 {
      assert a + b == b;
    } else {
      assert (a + b)[0] == a[0];
      assert (a + b)[1..] == a[1..] + b;
      if e.Dir? {
        var c := FindChild(e.children, a[0]);
        if c.Some? {
          DescendAppend(c.value, a[1..], b);
        }
      }
    }
  }

  /** A non-empty relative path opens the entry reached by descending from the
      working directory along its names; nothing when the working directory itself
      cannot be found. */
  lemma ResolveRelative(fs: Entry, cwd: Path, p: Path)
    requires IsAbsolute(cwd) && !IsAbsolute(p) && |p| > 0
    ensures Resolve(fs, cwd, p) ==
            (match Lookup(fs, cwd) case Some(at) => Descend(at, Relative(p)) case None => None)
  {
    var rel := Relative(p);
    assert (cwd + rel)[1..] == cwd[1..] + rel;
    DescendAppend(fs, cwd[1..], rel);
  }

  /** An absolute path opens the same entry whatever the working directory, and the
      empty path opens nothing. */
  lemma ResolveAbsoluteOrEmpty(fs: Entry, cwd: Path, p: Path)
    ensures IsAbsolute(p) ==> Resolve(fs, cwd, p) == Lookup(fs, p)
    ensures p == [] ==> Resolve(fs, cwd, p) == None
  {
  }

  /** The child named `n` of the entry `at`, when `at` is a directory. */
  function ChildOf(at: Option<Entry>, n: string): Option<Entry> {
    if at.Some? && at.value.Dir? then FindChild(at.value.children, n) else None
  }

  /** Looking up `rel` followed by one more name is looking that name up in the
      listing of the directory reached by `rel`. */
  lemma {:induction false} DescendSnoc(e: Entry, rel: Path, n: string)
    ensures Descend(e, rel + [n]) == ChildOf(Descend(e, rel), n)
    decreases |rel|
  {
    if |rel| == 0 {
      assert rel + [n] == [n];
    } else {
      assert (rel + [n])[0] == rel[0];
      assert (rel + [n])[1..] == rel[1..] + [n];
      if e.Dir? {
        var c := FindChild(e.children, rel[0]);
        if c.Some? {
          DescendSnoc(c.value, rel[1..], n);
        }
      }
    }
  }

  lemma LookupSnoc(fs: Entry, p: Path, n: string)
    requires IsAbsolute(p)
    ensures Lookup(fs, p + [n]) == ChildOf(Lookup(fs, p), n)
  {
    assert (p + [n])[1..] == p[1..] + [n];
    DescendSnoc(fs, p[1..], n);
  }

  /** The first entry with the name is the one found. */
  lemma {:induction false} FindChildFirst(entries: seq<Entry>, n: string, i: nat)
    requires i < |entries| && Named(entries[i], n)
    requires forall j :: 0 <= j < i ==> !Named(entries[j], n)
    ensures FindChild(entries, n) == Some(entries[i])
    decreases i
  {
    if i > 0 {
      FindChildFirst(entries[1..], n, i - 1);
    }
  }
}
