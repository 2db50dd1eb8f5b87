/** The scenarios of find.rs's own tests, and whole-discovery scenarios, stated
    on the model. */
module FindExamples {
  import opened Wrappers
  import opened Paths
  import opened FileTree
  import opened Find

  const TempDir: Path := ["/", "tmp", "t"]

  /** A root filesystem holding `listing` as the contents of /tmp/t. */
  function WithTempDir(listing: seq<Entry>): Entry {
    Dir("/", [Dir("tmp", [Dir("t", listing)])])
  }

  lemma LookupTempDir(listing: seq<Entry>)
    ensures Lookup(WithTempDir(listing), TempDir) == Some(Dir("t", listing))
  {
    var t := Dir("t", listing);
    var tmp := Dir("tmp", [t]);
    assert TempDir[1..] == ["tmp", "t"];
    assert ["tmp", "t"][1..] == ["t"];
    assert ["t"][1..] == [];
    assert FindChild([t], "t") == Some(t);
    assert Descend(tmp, ["t"]) == Some(t);
    assert FindChild([tmp], "tmp") == Some(tmp);
  }

  lemma ConfigDirTests()
    ensures ConfigDir(Err(NotPresent), Err(NotPresent), Err(NotPresent)).Err?
    ensures ConfigDir(Ok("RUN_RS_CONFIG"), Ok("XDG_CONFIG_HOME"), Ok("HOME")) == Ok("RUN_RS_CONFIG")
    ensures ConfigDir(Err(NotPresent), Ok("XDG_CONFIG_HOME"), Ok("HOME")) == Ok("XDG_CONFIG_HOME/run_rs")
    ensures ConfigDir(Err(NotPresent), Err(NotPresent), Ok("HOME")) == Ok("HOME/.config/run_rs")
  {
    assert "XDG_CONFIG_HOME" + XdgSuffix == "XDG_CONFIG_HOME/run_rs";
    assert "HOME" + HomeSuffix == "HOME/.config/run_rs";
  }

  lemma GatherTaskFilesNoFiles()
    ensures GatherTaskFiles(WithTempDir([]), TempDir, TempDir) == []
  {
    LookupTempDir([]);
  }

  /** The tree of the json-in-tree test, with its names abstracted: four files whose
      names have the extension "json" at depths one to three, and three directories
      whose names do not. */
  function JsonTree(a: string, b: string, c: string, d: string, one: string, two: string, three: string): seq<Entry> {
    [File(a), Dir(one, [File(b), Dir(two, [File(c)])]), Dir(three, [File(d)])]
  }

  /** A file whose name has the extension "json" contributes its own path. */
  lemma WalkFileThen(dir: Path, n: string, rest: seq<Entry>)
    requires IsJsonName(n)
    ensures Walk(dir, [File(n)] + rest) == [dir + [n]] + Walk(dir, rest)
  {
  }

  /** A directory whose name lacks the extension "json" contributes its contents. */
  lemma WalkDirThen(dir: Path, n: string, children: seq<Entry>, rest: seq<Entry>)
    requires !IsJsonName(n)
    ensures Walk(dir, [Dir(n, children)] + rest) == Walk(dir + [n], children) + Walk(dir, rest)
  {
  }

  lemma WalkJsonTree(root: Path, a: string, b: string, c: string, d: string, one: string, two: string, three: string)
    requires IsJsonName(a) && IsJsonName(b) && IsJsonName(c) && IsJsonName(d)
    requires !IsJsonName(one) && !IsJsonName(two) && !IsJsonName(three)
    ensures Walk(root, JsonTree(a, b, c, d, one, two, three))
            == [root + [a], root + [one, b], root + [one, two, c], root + [three, d]]
  {
    var d1 := root + [one];
    var d2 := d1 + [two];
    var d3 := root + [three];
    var deepest: seq<Entry> := [File(c)];
    var inner: seq<Entry> := [File(b), Dir(two, deepest)];
    var last: seq<Entry> := [File(d)];
    WalkFileThen(d2, c, []);
    assert deepest == [File(c)] + [];
    WalkDirThen(d1, two, deepest, []);
    assert [Dir(two, deepest)] == [Dir(two, deepest)] + [];
    WalkFileThen(d1, b, [Dir(two, deepest)]);
    assert inner == [File(b)] + [Dir(two, deepest)];
    assert Walk(d1, inner) == [d1 + [b], d2 + [c]];
    WalkFileThen(d3, d, []);
    assert last == [File(d)] + [];
    WalkDirThen(root, three, last, []);
    assert [Dir(three, last)] == [Dir(three, last)] + [];
    WalkDirThen(root, one, inner, [Dir(three, last)]);
    WalkFileThen(root, a, [Dir(one, inner), Dir(three, last)]);
    assert JsonTree(a, b, c, d, one, two, three) == [File(a)] + ([Dir(one, inner)] + [Dir(three, last)]);
    assert [Dir(one, inner), Dir(three, last)] == [Dir(one, inner)] + [Dir(three, last)];
    assert d1 + [b] == root + [one, b];
    assert d2 + [c] == root + [one, two, c];
    assert d3 + [d] == root + [three, d];
  }

  /** The file names of the json-in-tree test have the extension "json"... */
  lemma JsonTreeFileNames()
    ensures IsJsonName("1.json") && IsJsonName("2.json") && IsJsonName("3.json") && IsJsonName("4.json")
  {
    JsonFileName("1");
    JsonFileName("2");
    JsonFileName("3");
    JsonFileName("4");
    assert "1" + ".json" == "1.json" && "2" + ".json" == "2.json";
    assert "3" + ".json" == "3.json" && "4" + ".json" == "4.json";
  }

  /** ... and its directory names do not, so together they meet the requirements
      of `WalkJsonTree`. */
  lemma JsonTreeDirNames()
    ensures !IsJsonName("dir_one") && !IsJsonName("dir_two") && !IsJsonName("dir_three")
  {
    NoDotNoExtension("dir_one");
    NoDotNoExtension("dir_two");
    NoDotNoExtension("dir_three");
  }

  lemma VscodeTasksFileTests()
    ensures VscodeTasksFile(WithTempDir([]), TempDir).Err?
    ensures VscodeTasksFile(WithTempDir([File("tasks.json")]), TempDir) == Ok(TempDir + ["tasks.json"])
    ensures VscodeTasksFile(WithTempDir([File(".vscode")]), TempDir).Err?
  {
    LookupTempDir([]);
    LookupTempDir([File("tasks.json")]);
    LookupTempDir([File(".vscode")]);
  }

  lemma VscodeTasksFileInVscode()
    ensures VscodeTasksFile(WithTempDir([Dir(".vscode", [File("tasks.json")])]), TempDir)
            == Ok(TempDir + [".vscode", "tasks.json"])
  {
    LookupTempDir([Dir(".vscode", [File("tasks.json")])]);
    assert TempDir + [".vscode"] + [TasksJson] == TempDir + [".vscode", "tasks.json"];
  }

  /** A listing holding only `tasks.json` contributes exactly that file. */
  lemma WalkOnlyTasksJson(dir: Path)
    ensures Walk(dir, [File(TasksJson)]) == [dir + [TasksJson]]
  {
    TasksJsonExtension();
  }

  lemma GatherOnlyTasksJson(fs: Entry, cwd: Path, dir: Path, name: string)
    requires Resolve(fs, cwd, dir) == Some(Dir(name, [File(TasksJson)]))
    ensures GatherTaskFiles(fs, cwd, dir) == [dir + [TasksJson]]
  {
    WalkOnlyTasksJson(dir);
  }

  lemma FindOnlyTasksJson(fs: Entry, cwd: Path, name: string)
    requires Lookup(fs, cwd) == Some(Dir(name, [File(TasksJson)]))
    ensures VscodeTasksFile(fs, cwd) == Ok(cwd + [TasksJson])
  {
  }

  lemma FindOnlyVscodeTasksJson(fs: Entry, cwd: Path)
    requires Lookup(fs, cwd).Some? && Lookup(fs, cwd).value.Dir?
    requires Lookup(fs, cwd).value.children == [Dir(VscodeDir, [File(TasksJson)])]
    ensures VscodeTasksFile(fs, cwd) == Ok(cwd + [VscodeDir, TasksJson])
  {
    assert Scan(cwd + [VscodeDir], [File(TasksJson)]) == Ok(cwd + [VscodeDir] + [TasksJson]);
    assert cwd + [VscodeDir] + [TasksJson] == cwd + [VscodeDir, TasksJson];
  }

  /** When the configuration directory and the working directory are the same
      directory holding just `tasks.json`, that file is listed twice: once gathered,
      once found. */
  lemma TaskFilesKeepsDuplicates(env: Env, fs: Entry, cwd: Path, name: string)
    requires ConfigDir(env.runRsConfig, env.xdgConfigHome, env.home).Ok?
    requires Components(ConfigDir(env.runRsConfig, env.xdgConfigHome, env.home).value) == cwd
    requires Lookup(fs, cwd) == Some(Dir(name, [File(TasksJson)]))
    ensures TaskFiles(env, fs, Some(cwd)) == Ok([cwd + [TasksJson], cwd + [TasksJson]])
  {
    GatherOnlyTasksJson(fs, cwd, cwd, name);
    FindOnlyTasksJson(fs, cwd, name);
    var g := GatherTaskFiles(fs, cwd, cwd);
    var v := VscodeTasksFile(fs, cwd).value;
    assert g + [v] == [cwd + [TasksJson], cwd + [TasksJson]];
    TaskFilesAppendsSearchResult(env, fs, cwd);
  }

  lemma HomeOnlyConfigDir(env: Env, home: string)
    requires env.runRsConfig.Err? && env.xdgConfigHome.Err? && env.home == Ok(home)
    ensures ConfigDir(env.runRsConfig, env.xdgConfigHome, env.home).Ok?
    ensures |home| > 0 ==> Components(ConfigDir(env.runRsConfig, env.xdgConfigHome, env.home).value)
                           == Components(home) + [".config", "run_rs"]
    ensures |home| == 0 ==> Components(ConfigDir(env.runRsConfig, env.xdgConfigHome, env.home).value)
                            == [Root, ".config", "run_rs"]
  {
    HomeConfigDirComponents(home);
  }

  /** Appending to a one-element list gives the two-element list. */
  lemma SingletonSnoc(g: seq<Path>, v: Path, x: Path)
    requires g == [x]
    ensures g + [v] == [x, v]
  {
  }

  /** A configuration directory holding just `tasks.json` and a working directory
      holding just `.vscode/tasks.json`: exactly those two files are found, the
      configuration one first. */
  lemma TaskFilesConfigAndVscode(env: Env, fs: Entry, cwd: Path, dir: Path, configName: string)
    requires ConfigDir(env.runRsConfig, env.xdgConfigHome, env.home).Ok?
    requires Components(ConfigDir(env.runRsConfig, env.xdgConfigHome, env.home).value) == dir
    requires Resolve(fs, cwd, dir) == Some(Dir(configName, [File(TasksJson)]))
    requires Lookup(fs, cwd).Some? && Lookup(fs, cwd).value.Dir?
    requires Lookup(fs, cwd).value.children == [Dir(VscodeDir, [File(TasksJson)])]
    ensures TaskFiles(env, fs, Some(cwd)) == Ok([dir + [TasksJson], cwd + [VscodeDir, TasksJson]])
  {
    GatherOnlyTasksJson(fs, cwd, dir, configName);
    FindOnlyVscodeTasksJson(fs, cwd);
    TaskFilesAppendsSearchResult(env, fs, cwd);
    SingletonSnoc(GatherTaskFiles(fs, cwd, dir), VscodeTasksFile(fs, cwd).value, dir + [TasksJson]);
  }

  /** `RUN_RS_CONFIG` set to the empty string, in a working directory holding
      `a.json` and `tasks.json`: `a.json` is not gathered, and the one result is
      the working directory's `tasks.json`. */
  lemma EmptyConfigSkipsWorkingDir()
    ensures TaskFiles(Env(Ok(""), Err(NotPresent), Err(NotPresent)),
                      Dir("/", [Dir("w", [File("a.json"), File(TasksJson)])]),
                      Some(["/", "w"]))
            == Ok([["/", "w", TasksJson]])
  {
    var w := Dir("w", [File("a.json"), File(TasksJson)]);
    var fs := Dir("/", [w]);
    assert Lookup(fs, ["/", "w"]) == Some(w) by {
      assert ["/", "w"][1..] == ["w"];
      assert ["w"][1..] == [];
      assert FindChild([w], "w") == Some(w);
      assert Descend(fs, ["w"]) == Some(w);
    }
    assert NoneDecisive(w.children[..1]) && Named(w.children[1], TasksJson);
    VscodeTasksFileFindsTasksJson(fs, ["/", "w"], 1);
    assert ["/", "w"] + [TasksJson] == ["/", "w", TasksJson];
    TaskFilesEmptyConfigDir(Env(Ok(""), Err(NotPresent), Err(NotPresent)), fs, Some(["/", "w"]));
  }
}
