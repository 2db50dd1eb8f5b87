/** Task-file discovery (src/action/find.rs): the configuration directory chosen from
    three environment variables, the recursive walk that gathers every `*.json` below
    it, the search for the working directory's `tasks.json`, and their composition.
    The process environment, the working directory and the filesystem are inputs. */
module Find {
  import opened Wrappers
  import opened Paths
  import opened FileTree

  /** Why `std::env::var` gave no value: the variable is unset, or its value is not
      valid Unicode. */
  datatype VarError = NotPresent | NotUnicode(raw: seq<bv8>)

  /** The outcome of one `std::env::var` lookup. */
  type EnvVar = Result<string, VarError>

  /** The three variables `task_files` reads. */
  datatype Env = Env(runRsConfig: EnvVar, xdgConfigHome: EnvVar, home: EnvVar)

  /** The failures discovery reports (the text and source locations that decorate
      them are not modelled). */
  datatype FindError =
    | ConfigNotSet(vars: seq<string>)  // none of the configuration variables is set
    | CurrentDirUnavailable            // the working directory could not be obtained
    | VscodeNotDir(dir: Path)          // `dir` holds a `.vscode` that is not a directory
    | TasksNotFound(dir: Path)         // `dir` holds neither `tasks.json` nor `.vscode`

  const ConfigVars: seq<string> := ["RUN_RS_CONFIG", "XDG_CONFIG_HOME", "HOME"]
  const XdgSuffix: string := "/run_rs"
  const HomeSuffix: string := "/.config/run_rs"
  const TasksJson: string := "tasks.json"
  const VscodeDir: string := ".vscode"
  const JsonExtension: string := "json"

  // ---------------------------------------------------------------------------
  // Configuration directory
  // ---------------------------------------------------------------------------

  /** The configuration directory: `RUN_RS_CONFIG` verbatim, else
      `XDG_CONFIG_HOME` + "/run_rs", else `HOME` + "/.config/run_rs". A variable
      set to the empty string counts as set; any lookup error counts as unset. */
  function ConfigDir(runRsConfig: EnvVar, xdgConfigHome: EnvVar, home: EnvVar): (r: Result<string, FindError>)
    ensures r.Err? <==> runRsConfig.Err? && xdgConfigHome.Err? && home.Err?
    ensures r.Err? ==> r.error == ConfigNotSet(ConfigVars)
    ensures runRsConfig.Ok? ==> r == Ok(runRsConfig.value)
    ensures runRsConfig.Err? && xdgConfigHome.Ok? ==> r == Ok(xdgConfigHome.value + XdgSuffix)
    ensures runRsConfig.Err? && xdgConfigHome.Err? && home.Ok? ==> r == Ok(home.value + HomeSuffix)
  {
    if runRsConfig.Ok? then Ok(runRsConfig.value)
    else if xdgConfigHome.Ok? then Ok(xdgConfigHome.value + XdgSuffix)
    else if home.Ok? then Ok(home.value + HomeSuffix)
    else Err(ConfigNotSet(ConfigVars))
  }

  function Present(v: EnvVar): Option<string> {
    if v.Ok? then Some(v.value) else None
  }

  function Suffixed(o: Option<string>, suffix: string): Option<string> {
    if o.Some? then Some(o.value + suffix) else None
  }

  /** The directory each variable would give, highest priority first. */
  function ConfigCandidates(runRsConfig: EnvVar, xdgConfigHome: EnvVar, home: EnvVar): seq<Option<string>> {
    [Present(runRsConfig), Suffixed(Present(xdgConfigHome), XdgSuffix), Suffixed(Present(home), HomeSuffix)]
  }

  /** The first candidate that is present. */
  function FirstPresent(cs: seq<Option<string>>): (r: Option<string>)
    ensures r.Some? <==> exists i :: 0 <= i < |cs| && cs[i].Some?
    ensures r.Some? ==> r in cs
  {
    if |cs| == 0 then None
    else if cs[0].Some? then cs[0]
    else
      var r := FirstPresent(cs[1..]);
      assert forall i :: 1 <= i < |cs| ==> cs[i] == cs[1..][i - 1];
      r
  }

  /** Precedence as a list: the directory is the first candidate present, and there
      is an error exactly when no candidate is. */
  lemma ConfigDirIsFirstCandidate(runRsConfig: EnvVar, xdgConfigHome: EnvVar, home: EnvVar)
    ensures var first := FirstPresent(ConfigCandidates(runRsConfig, xdgConfigHome, home));
            ConfigDir(runRsConfig, xdgConfigHome, home)
              == if first.Some? then Ok(first.value) else Err(ConfigNotSet(ConfigVars))
  {
    var cs := ConfigCandidates(runRsConfig, xdgConfigHome, home);
    assert cs[1..][1..] == [cs[2]];
    assert cs[1..][1..][1..] == [];
  }

  /** Which error a lookup reported never matters, and a set variable hides the
      ones below it. */
  lemma ConfigDirOnlyPresenceMatters(a: EnvVar, b: EnvVar, c: EnvVar, a': EnvVar, b': EnvVar, c': EnvVar)
    requires a.Ok? <==> a'.Ok?
    requires a.Ok? ==> a == a'
    requires a.Err? && (b.Ok? || b'.Ok?) ==> b == b'
    requires a.Err? && b.Err? && (c.Ok? || c'.Ok?) ==> c == c'
    ensures ConfigDir(a, b, c) == ConfigDir(a', b', c')
  {
  }

  /** As a path, the XDG-derived directory is XDG_CONFIG_HOME's components followed
      by `run_rs`; an empty XDG_CONFIG_HOME gives the absolute path /run_rs. */
  lemma XdgConfigDirComponents(xdg: string)
    ensures |xdg| > 0 ==> Components(xdg + XdgSuffix) == Components(xdg) + ["run_rs"]
    ensures |xdg| == 0 ==> Components(xdg + XdgSuffix) == [Root, "run_rs"]
  {
    SegmentsName("run_rs");
    if |xdg| > 0 {
      assert xdg + XdgSuffix == xdg + "/" + "run_rs";
      ComponentsJoin(xdg, "run_rs");
    } else {
      assert (xdg + XdgSuffix)[1..] == "run_rs";
    }
  }

  /** As a path, the HOME-derived directory is HOME's components followed by
      `.config` and `run_rs`; an empty HOME gives the absolute path /.config/run_rs. */
  lemma HomeConfigDirComponents(home: string)
    ensures |home| > 0 ==> Components(home + HomeSuffix) == Components(home) + [".config", "run_rs"]
    ensures |home| == 0 ==> Components(home + HomeSuffix) == [Root, ".config", "run_rs"]
  {
    var tail := ".config" + "/" + "run_rs";
    assert HomeSuffix == "/" + tail;
    if |home| > 0 {
      assert home + HomeSuffix == home + "/" + tail;
      ComponentsJoin2(home, ".config", "run_rs");
    } else {
      assert home + HomeSuffix == "/" + tail;
      RootJoin2(".config", "run_rs");
    }
  }

  // ---------------------------------------------------------------------------
  // Gathering the configuration directory's task files
  // ---------------------------------------------------------------------------

  predicate IsJsonName(n: string) {
    NameExtension(n) == Some(JsonExtension)
  }

  /** `p` lies strictly below `dir`. */
  predicate Below(dir: Path, p: Path) {
    |p| > |dir| && p[..|dir|] == dir
  }

  /** The relative path `rel` leads, name by name, from the listing `entries` to an
      entry of the tree: its first name is that of a readable entry of the listing,
      and the rest leads on inside that entry, which must then be a directory. */
  ghost predicate Reaches(entries: seq<Entry>, rel: Path)
    decreases |rel|, 1
  {
    exists i :: 0 <= i < |entries| && ReachedVia(entries[i], rel)
  }

  /** `rel` leads to an entry of the tree through the entry `e`. */
  ghost predicate ReachedVia(e: Entry, rel: Path)
    decreases |rel|, 0
  {
    |rel| > 0 && Named(e, rel[0]) &&
    (|rel| == 1 || (e.Dir? && Reaches(e.children, rel[1..])))
  }

  /** The walk below `dir` whose listing is `entries`: depth first, each entry before
      its contents, listing order kept, unreadable items skipped; an entry is kept
      when its name has the extension "json", whatever its kind. */
  function Walk(dir: Path, entries: seq<Entry>): seq<Path>
    decreases entries
  {
    if |entries| == 0 then []
    else
      var e := entries[0];
      var rest := Walk(dir, entries[1..]);
      if e.Unreadable? then rest
      else
        var here := if IsJsonName(e.name) then [dir + [e.name]] else [];
        var inside := if e.Dir? then Walk(dir + [e.name], e.children) else [];
        here + inside + rest
  }

  lemma ReachesCons(entries: seq<Entry>, rel: Path)
    requires |entries| > 0
    ensures Reaches(entries, rel) <==> ReachedVia(entries[0], rel) || Reaches(entries[1..], rel)
  {
  }

  lemma BelowSnoc(dir: Path, n: string, p: Path)
    ensures Below(dir + [n], p) <==> Below(dir, p) && |p| > |dir| + 1 && p[|dir|] == n
    ensures Below(dir + [n], p) ==> p[|dir| + 1..] == p[|dir|..][1..]
  {
  }

  /** Membership in the walk of a listing whose first entry is readable: that entry
      itself, something inside it, or something from the rest of the listing. */
  lemma WalkUnfold(dir: Path, entries: seq<Entry>, p: Path)
    requires |entries| > 0 && !entries[0].Unreadable?
    ensures var n := entries[0].name;
            p in Walk(dir, entries) <==>
              (IsJsonName(n) && p == dir + [n]) ||
              (entries[0].Dir? && p in Walk(dir + [n], entries[0].children)) ||
              p in Walk(dir, entries[1..])
  {
  }

  lemma BelowOne(dir: Path, n: string, p: Path)
    requires Below(dir, p)
    ensures p == dir + [n] <==> |p| == |dir| + 1 && p[|dir|] == n
  {
  }

  /** Everything the walk yields lies strictly below where it starts and has a name
      with the extension "json". */
  lemma {:induction false} WalkBelow(dir: Path, entries: seq<Entry>, p: Path)
    requires p in Walk(dir, entries)
    ensures Below(dir, p) && IsJsonName(p[|p| - 1])
    decreases entries
  {
    var e := entries[0];
    if p in Walk(dir, entries[1..]) {
      WalkBelow(dir, entries[1..], p);
    } else if e.Dir? && p in Walk(dir + [e.name], e.children) {
      WalkBelow(dir + [e.name], e.children, p);
      BelowSnoc(dir, e.name, p);
    }
  }

  /** The walk yields exactly the paths below `dir` that lead to an entry of the
      tree and end in a name with the extension "json". */
  lemma {:induction false} WalkExact(dir: Path, entries: seq<Entry>, p: Path)
    ensures p in Walk(dir, entries)
        <==> Below(dir, p) && Reaches(entries, p[|dir|..]) && IsJsonName(p[|p| - 1])
    decreases entries
  {
    if p in Walk(dir, entries) {
      WalkBelow(dir, entries, p);
    }
    if |entries| > 0 && Below(dir, p) {
      var e := entries[0];
      WalkExact(dir, entries[1..], p);
      ReachesCons(entries, p[|dir|..]);
      if !e.Unreadable? {
        WalkUnfold(dir, entries, p);
        WalkHead(dir, e, p);
      }
    }
  }

  /** The part of the walk that one readable entry contributes: the entry itself
      and everything inside it. */
  lemma {:induction false} WalkHead(dir: Path, e: Entry, p: Path)
    requires !e.Unreadable? && Below(dir, p)
    ensures (IsJsonName(e.name) && p == dir + [e.name]) ||
            (e.Dir? && p in Walk(dir + [e.name], e.children))
        <==> ReachedVia(e, p[|dir|..]) && IsJsonName(p[|p| - 1])
    decreases e
  {
    var n := e.name;
    BelowOne(dir, n, p);
    BelowSnoc(dir, n, p);
    if e.Dir? {
      WalkExact(dir + [n], e.children, p);
    }
  }

  /** `gather_task_files`: the walk below the configuration directory `dir`, opened
      as the operating system resolves it from the working directory `cwd`. A
      missing or non-directory `dir`, and the empty path, yield nothing: the walk
      never fails. */
  function GatherTaskFiles(fs: Entry, cwd: Path, dir: Path): (r: seq<Path>)
    ensures forall p :: p in r ==> Below(dir, p) && IsJsonName(p[|p| - 1])
  {
    var at := Resolve(fs, cwd, dir);
    if at.Some? && at.value.Dir? then
      var r := Walk(dir, at.value.children);
      assert forall p :: p in r ==> Below(dir, p) && IsJsonName(p[|p| - 1]) by {
        forall p | p in r
          ensures Below(dir, p) && IsJsonName(p[|p| - 1])
        {
          WalkExact(dir, at.value.children, p);
        }
      }
      r
    else []
  }

  /** The gathered paths, taken as a set, are exactly the descendants of the
      configuration directory, at any depth and of any kind but not the directory
      itself, whose name has the case-sensitive extension "json". */
  lemma GatherTaskFilesExact(fs: Entry, cwd: Path, dir: Path, p: Path)
    ensures var at := Resolve(fs, cwd, dir);
            p in GatherTaskFiles(fs, cwd, dir) <==>
              at.Some? && at.value.Dir? && Below(dir, p) &&
              Reaches(at.value.children, p[|dir|..]) && IsJsonName(p[|p| - 1])
  {
    var at := Resolve(fs, cwd, dir);
    if at.Some? && at.value.Dir? {
      WalkExact(dir, at.value.children, p);
    }
  }

  /** The configuration text "." walks the working directory itself, and every
      gathered path keeps the leading current-directory component. */
  lemma GatherTaskFilesCurDir(fs: Entry, cwd: Path, p: Path)
    requires IsAbsolute(cwd)
    ensures Components(".") == [CurDir]
    ensures var at := Lookup(fs, cwd);
            p in GatherTaskFiles(fs, cwd, [CurDir]) <==>
              at.Some? && at.value.Dir? && |p| > 1 && p[0] == CurDir &&
              Reaches(at.value.children, p[1..]) && IsJsonName(p[|p| - 1])
  {
    assert StartsAtCurDir(".");
    ResolveRelative(fs, cwd, [CurDir]);
    assert cwd + [CurDir][1..] == cwd;
    GatherTaskFilesExact(fs, cwd, [CurDir], p);
  }

  /** An empty configuration directory, or none at all, gives no task files. */
  lemma GatherTaskFilesEmpty(fs: Entry, cwd: Path, dir: Path)
    requires var at := Resolve(fs, cwd, dir);
             at.Some? && at.value.Dir? ==> forall i :: 0 <= i < |at.value.children| ==> at.value.children[i].Unreadable?
    ensures GatherTaskFiles(fs, cwd, dir) == []
  {
    var r := GatherTaskFiles(fs, cwd, dir);
    if r != [] {
      GatherTaskFilesExact(fs, cwd, dir, r[0]);
    }
  }

  // ---------------------------------------------------------------------------
  // The working directory's tasks.json
  // ---------------------------------------------------------------------------

  /** An entry that settles the search: a readable one named `tasks.json` or `.vscode`. */
  predicate Decisive(e: Entry) {
    Named(e, TasksJson) || Named(e, VscodeDir)
  }

  /** No entry of the listing settles the search. */
  predicate NoneDecisive(entries: seq<Entry>) {
    forall j :: 0 <= j < |entries| ==> !Decisive(entries[j])
  }

  /** `d` is `dir` followed by zero or more `.vscode` components. */
  predicate VscodeChain(dir: Path, d: Path) {
    |d| >= |dir| && d[..|dir|] == dir && forall k :: |dir| <= k < |d| ==> d[k] == VscodeDir
  }

  /** `p` is `dir`, zero or more `.vscode` components, then `tasks.json`. */
  predicate IsTasksPath(dir: Path, p: Path) {
    |p| > 0 && p[|p| - 1] == TasksJson && VscodeChain(dir, p[..|p| - 1])
  }

  lemma VscodeChainSnoc(dir: Path, d: Path)
    requires VscodeChain(dir + [VscodeDir], d)
    ensures VscodeChain(dir, d)
  {
  }

  /** The loop over the direct children of `dir`, in listing order: the first decisive
      entry settles the outcome. `tasks.json` is accepted whatever its kind; a
      `.vscode` directory restarts the search inside it; a `.vscode` that is not a
      directory is an error; running out of entries is an error. */
  function Scan(dir: Path, entries: seq<Entry>): (r: Result<Path, FindError>)
    ensures r.Ok? ==> IsTasksPath(dir, r.value)
    ensures r.Err? ==> (r.error.TasksNotFound? || r.error.VscodeNotDir?) && VscodeChain(dir, r.error.dir)
    decreases entries
  {
    if |entries| == 0 then Err(TasksNotFound(dir))
    else
      var e := entries[0];
      if Named(e, TasksJson) then
        var p := dir + [TasksJson];
        assert p[..|p| - 1] == dir;
        Ok(p)
      else if Named(e, VscodeDir) then
        if e.Dir? then
          var r := Scan(dir + [VscodeDir], e.children);
          if r.Ok? then
            VscodeChainSnoc(dir, r.value[..|r.value| - 1]);
            r
          else
            VscodeChainSnoc(dir, r.error.dir);
            r
        else Err(VscodeNotDir(dir))
      else Scan(dir, entries[1..])
  }

  /** `vscode_tasks_file`: the search among the direct children of the working
      directory `cwd`. A `cwd` that is missing or not a directory has no children,
      so nothing is found. */
  function VscodeTasksFile(fs: Entry, cwd: Path): (r: Result<Path, FindError>)
    ensures r.Ok? ==> IsTasksPath(cwd, r.value)
    ensures r.Err? ==> (r.error.TasksNotFound? || r.error.VscodeNotDir?) && VscodeChain(cwd, r.error.dir)
  {
    var at := Lookup(fs, cwd);
    if at.Some? && at.value.Dir? then Scan(cwd, at.value.children) else Err(TasksNotFound(cwd))
  }

  /** Entries that do not settle the search are passed over. */
  lemma {:induction false} ScanSkips(dir: Path, entries: seq<Entry>, i: nat)
    requires i <= |entries| && NoneDecisive(entries[..i])
    ensures Scan(dir, entries) == Scan(dir, entries[i..])
    decreases i
  {
    if i > 0 {
      assert entries[..i][0] == entries[0];
      assert entries[1..][..i - 1] == entries[..i][1..];
      assert entries[1..][i - 1..] == entries[i..];
      ScanSkips(dir, entries[1..], i - 1);
    }
  }

  /** The entries after the first decisive one are never looked at. */
  lemma ScanIgnoresLaterSiblings(dir: Path, entries: seq<Entry>, i: nat, later: seq<Entry>)
    requires i < |entries| && NoneDecisive(entries[..i]) && Decisive(entries[i])
    ensures Scan(dir, entries) == Scan(dir, entries[..i + 1] + later)
  {
    var other := entries[..i + 1] + later;
    assert other[..i] == entries[..i];
    ScanSkips(dir, entries, i);
    ScanSkips(dir, other, i);
    assert other[i..][0] == entries[i..][0] == entries[i];
  }

  /** The search fails with `TasksNotFound(dir)` for `dir` itself exactly when no
      entry of its listing is decisive. */
  lemma {:induction false} ScanNotFoundIff(dir: Path, entries: seq<Entry>)
    ensures Scan(dir, entries) == Err(TasksNotFound(dir)) <==> NoneDecisive(entries)
    decreases entries
  {
    if |entries| > 0 {
      if Decisive(entries[0]) {
        var r := Scan(dir, entries);
        if r.Err? {
          assert r.error.dir != dir || r.error.VscodeNotDir? by {
            var e := entries[0];
            if e.Dir? && !Named(e, TasksJson) {
              assert |r.error.dir| >= |dir| + 1;
            }
          }
        }
      } else {
        ScanNotFoundIff(dir, entries[1..]);
        assert forall j :: 1 <= j < |entries| ==> entries[j] == entries[1..][j - 1];
      }
    }
  }

  /** The listing with every subdirectory other than `.vscode` emptied. */
  function Prune(entries: seq<Entry>): (r: seq<Entry>)
    ensures |r| == |entries|
    ensures forall i :: 0 <= i < |r| ==> Decisive(r[i]) == Decisive(entries[i])
  {
    if |entries| == 0 then []
    else
      var e := entries[0];
      [if e.Dir? && e.name != VscodeDir then Dir(e.name, []) else e] + Prune(entries[1..])
  }

  /** Only direct children are inspected: emptying every subdirectory other than
      `.vscode` leaves the outcome unchanged. */
  lemma {:induction false} ScanIgnoresSubtrees(dir: Path, entries: seq<Entry>)
    ensures Scan(dir, entries) == Scan(dir, Prune(entries))
    decreases entries
  {
    if |entries| > 0 {
      var e := entries[0];
      var pruned := Prune(entries);
      assert pruned[1..] == Prune(entries[1..]);
      if !Decisive(e) {
        ScanIgnoresSubtrees(dir, entries[1..]);
      }
    }
  }

  /** `tasks.json` as the first decisive child: its path is the result. */
  lemma VscodeTasksFileFindsTasksJson(fs: Entry, cwd: Path, i: nat)
    requires Lookup(fs, cwd).Some? && Lookup(fs, cwd).value.Dir?
    requires var ch := Lookup(fs, cwd).value.children;
             i < |ch| && NoneDecisive(ch[..i]) && Named(ch[i], TasksJson)
    ensures VscodeTasksFile(fs, cwd) == Ok(cwd + [TasksJson])
  {
    var ch := Lookup(fs, cwd).value.children;
    ScanSkips(cwd, ch, i);
    assert ch[i..][0] == ch[i];
  }

  /** A `.vscode` directory as the first decisive child: the result is the search
      run afresh in `cwd/.vscode`. */
  lemma VscodeTasksFileDescends(fs: Entry, cwd: Path, i: nat)
    requires Lookup(fs, cwd).Some? && Lookup(fs, cwd).value.Dir?
    requires var ch := Lookup(fs, cwd).value.children;
             i < |ch| && NoneDecisive(ch[..i]) && Named(ch[i], VscodeDir) && ch[i].Dir?
    ensures VscodeTasksFile(fs, cwd) == VscodeTasksFile(fs, cwd + [VscodeDir])
  {
    var ch := Lookup(fs, cwd).value.children;
    ScanSkips(cwd, ch, i);
    assert ch[i..][0] == ch[i];
    LookupSnoc(fs, cwd, VscodeDir);
    assert forall j :: 0 <= j < i ==> ch[j] == ch[..i][j];
    FindChildFirst(ch, VscodeDir, i);
  }

  /** A `.vscode` that is not a directory, as the first decisive child: an error. */
  lemma VscodeTasksFileRejectsVscodeFile(fs: Entry, cwd: Path, i: nat)
    requires Lookup(fs, cwd).Some? && Lookup(fs, cwd).value.Dir?
    requires var ch := Lookup(fs, cwd).value.children;
             i < |ch| && NoneDecisive(ch[..i]) && Named(ch[i], VscodeDir) && !ch[i].Dir?
    ensures VscodeTasksFile(fs, cwd) == Err(VscodeNotDir(cwd))
  {
    var ch := Lookup(fs, cwd).value.children;
    ScanSkips(cwd, ch, i);
    assert ch[i..][0] == ch[i];
  }

  /** The search fails with `TasksNotFound(cwd)` exactly when `cwd` is not a
      directory or none of its children is decisive. */
  lemma VscodeTasksFileNotFoundIff(fs: Entry, cwd: Path)
    ensures VscodeTasksFile(fs, cwd) == Err(TasksNotFound(cwd)) <==>
              var at := Lookup(fs, cwd);
              !(at.Some? && at.value.Dir?) || NoneDecisive(at.value.children)
  {
    var at := Lookup(fs, cwd);
    if at.Some? && at.value.Dir? {
      ScanNotFoundIff(cwd, at.value.children);
    }
  }

  // ---------------------------------------------------------------------------
  // All task files
  // ---------------------------------------------------------------------------

  /** `task_files`: the configuration directory's task files followed by the working
      directory's one task file. The environment and the outcome of
      `env::current_dir` (None when it fails) are inputs. */
  function TaskFiles(env: Env, fs: Entry, currentDir: Option<Path>): (r: Result<seq<Path>, FindError>)
    ensures r.Ok? ==> currentDir.Some? && |r.value| >= 1 && IsTasksPath(currentDir.value, r.value[|r.value| - 1])
    ensures r.Ok? ==> var dir := ConfigDir(env.runRsConfig, env.xdgConfigHome, env.home);
                      dir.Ok? &&
                      forall k :: 0 <= k < |r.value| - 1 ==>
                        Below(Components(dir.value), r.value[k]) && IsJsonName(r.value[k][|r.value[k]| - 1])
  {
    var dir :- ConfigDir(env.runRsConfig, env.xdgConfigHome, env.home);
    if currentDir.None? then Err(CurrentDirUnavailable)
    else
      var cwd := currentDir.value;
      var gathered := GatherTaskFiles(fs, cwd, Components(dir));
      var path :- VscodeTasksFile(fs, cwd);
      var r := gathered + [path];
      assert forall k :: 0 <= k < |r| - 1 ==> r[k] in gathered;
      Ok(r)
  }

  /** `RUN_RS_CONFIG` set to the empty string names no directory: nothing is
      gathered, and the result is the working directory's task file alone, or the
      error of finding it. */
  lemma TaskFilesEmptyConfigDir(env: Env, fs: Entry, currentDir: Option<Path>)
    requires env.runRsConfig == Ok("")
    ensures currentDir.None? ==> TaskFiles(env, fs, currentDir) == Err(CurrentDirUnavailable)
    ensures currentDir.Some? ==>
              var found := VscodeTasksFile(fs, currentDir.value);
              TaskFiles(env, fs, currentDir) == if found.Ok? then Ok([found.value]) else Err(found.error)
  {
    assert ConfigDir(env.runRsConfig, env.xdgConfigHome, env.home) == Ok("");
    if currentDir.None? {
      TaskFilesNeedsCurrentDir(env, fs);
    } else {
      var cwd := currentDir.value;
      if VscodeTasksFile(fs, cwd).Err? {
        TaskFilesPropagatesSearchError(env, fs, cwd);
      } else {
        TaskFilesAppendsSearchResult(env, fs, cwd);
        assert Components("") == [];
        assert GatherTaskFiles(fs, cwd, []) == [];
        assert [] + [VscodeTasksFile(fs, cwd).value] == [VscodeTasksFile(fs, cwd).value];
      }
    }
  }

  /** Without a configuration variable the call fails before anything else is looked
      at: the outcome depends on neither the filesystem nor the working directory. */
  lemma TaskFilesNeedsConfig(env: Env, fs: Entry, currentDir: Option<Path>)
    requires env.runRsConfig.Err? && env.xdgConfigHome.Err? && env.home.Err?
    ensures TaskFiles(env, fs, currentDir) == Err(ConfigNotSet(ConfigVars))
  {
  }

  /** A working directory that cannot be obtained is an error once the
      configuration directory is known. */
  lemma TaskFilesNeedsCurrentDir(env: Env, fs: Entry)
    requires ConfigDir(env.runRsConfig, env.xdgConfigHome, env.home).Ok?
    ensures TaskFiles(env, fs, None) == Err(CurrentDirUnavailable)
  {
  }

  /** An error of the working-directory search is the call's error. */
  lemma TaskFilesPropagatesSearchError(env: Env, fs: Entry, cwd: Path)
    requires ConfigDir(env.runRsConfig, env.xdgConfigHome, env.home).Ok?
    requires VscodeTasksFile(fs, cwd).Err?
    ensures TaskFiles(env, fs, Some(cwd)) == Err(VscodeTasksFile(fs, cwd).error)
  {
  }

  /** On success: all gathered files, in walk order, then the working directory's
      task file as the one last element, with nothing removed. */
  lemma TaskFilesAppendsSearchResult(env: Env, fs: Entry, cwd: Path)
    requires ConfigDir(env.runRsConfig, env.xdgConfigHome, env.home).Ok?
    requires VscodeTasksFile(fs, cwd).Ok?
    ensures var dir := Components(ConfigDir(env.runRsConfig, env.xdgConfigHome, env.home).value);
            TaskFiles(env, fs, Some(cwd)) == Ok(GatherTaskFiles(fs, cwd, dir) + [VscodeTasksFile(fs, cwd).value])
  {
  }
}
