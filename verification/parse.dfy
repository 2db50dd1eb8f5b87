/** The parse step that follows discovery: the extensions the registered parsers
    claim, and the pass over the discovered task files, which so far only rejects a
    path without an extension and otherwise yields an empty task map. */
module Parse {
  import opened Wrappers
  import opened Paths
  import opened FileTree
  import opened Find

  /** A parser, seen only through the file extensions it claims. */
  datatype Parser = Parser(extensions: seq<string>)

  /** The one concrete parser: VS Code task files are JSON. */
  const VSCode: Parser := Parser(["json"])

  /** The sum of the parsers' list lengths. */
  function TotalExtensions(parsers: seq<Parser>): nat {
    if |parsers| == 0 then 0 else |parsers[0].extensions| + TotalExtensions(parsers[1..])
  }

  /** Some parser of the list claims `ext`. */
  predicate Claims(parsers: seq<Parser>, ext: string) {
    exists i :: 0 <= i < |parsers| && ext in parsers[i].extensions
  }

  /** Every parser's extension list, one after the other, in parser order. */
  function SupportedExtension(parsers: seq<Parser>): (r: seq<string>)
    ensures |r| == TotalExtensions(parsers)
    ensures forall ext :: ext in r <==> Claims(parsers, ext)
  {
    if |parsers| == 0 then []
    else
      var rest := SupportedExtension(parsers[1..]);
      assert forall ext :: Claims(parsers[1..], ext) ==> Claims(parsers, ext) by {
        forall ext | Claims(parsers[1..], ext) ensures Claims(parsers, ext) {
          var i :| 0 <= i < |parsers[1..]| && ext in parsers[1..][i].extensions;
          assert parsers[i + 1] == parsers[1..][i];
        }
      }
      assert forall ext :: Claims(parsers, ext) ==> ext in parsers[0].extensions || Claims(parsers[1..], ext) by {
        forall ext | Claims(parsers, ext) && ext !in parsers[0].extensions ensures Claims(parsers[1..], ext) {
          var i :| 0 <= i < |parsers| && ext in parsers[i].extensions;
          assert parsers[1..][i - 1] == parsers[i];
        }
      }
      parsers[0].extensions + rest
  }

  /** Flattening distributes over concatenation of parser lists. */
  lemma {:induction false} SupportedExtensionAppend(a: seq<Parser>, b: seq<Parser>)
    ensures SupportedExtension(a + b) == SupportedExtension(a) + SupportedExtension(b)
    decreases |a|
  {
    if |a| == 0 {
      assert a + b == b;
    } else {
      assert (a + b)[1..] == a[1..] + b;
      SupportedExtensionAppend(a[1..], b);
    }
  }

  /** A single parser contributes exactly its own list. */
  lemma SupportedExtensionSingle(p: Parser)
    ensures SupportedExtension([p]) == p.extensions
  {
  }

  /** The `j`-th extension of parser `i` sits right after the extensions of the
      parsers before it. */
  lemma SupportedExtensionAt(parsers: seq<Parser>, i: int, j: int)
    requires 0 <= i < |parsers| && 0 <= j < |parsers[i].extensions|
    ensures TotalExtensions(parsers[..i]) + j < |SupportedExtension(parsers)|
    ensures SupportedExtension(parsers)[TotalExtensions(parsers[..i]) + j] == parsers[i].extensions[j]
  {
    assert parsers == parsers[..i] + parsers[i..];
    SupportedExtensionAppend(parsers[..i], parsers[i..]);
    assert parsers[i..][1..] == parsers[i + 1..];
  }

  lemma VSCodeSupportsJson()
    ensures SupportedExtension([VSCode]) == [JsonExtension]
  {
  }

  datatype ParseError = NoExtension(path: Path)

  /** Tasks keyed by the file that defines them. */
  type TaskMap = map<Path, seq<string>>

  predicate HasExtension(p: Path) {
    PathExtension(p).Some?
  }

  /** Checks every task file for an extension, stopping at the first without one;
      the parsers are not consulted yet and the task map stays empty. */
  method Tasks(taskFiles: seq<Path>, parsers: seq<Parser>) returns (r: Result<TaskMap, ParseError>)
    ensures r.Err? <==> exists i :: 0 <= i < |taskFiles| && !HasExtension(taskFiles[i])
    ensures r.Err? ==> exists i :: 0 <= i < |taskFiles| && taskFiles[i] == r.error.path &&
                                   !HasExtension(taskFiles[i]) &&
                                   forall j :: 0 <= j < i ==> HasExtension(taskFiles[j])
    ensures r.Ok? ==> r.value == map[]
  {
    var result: TaskMap := map[];
    var k := 0;
    while k < |taskFiles|
      invariant 0 <= k <= |taskFiles|
      invariant forall j :: 0 <= j < k ==> HasExtension(taskFiles[j])
    {
      if PathExtension(taskFiles[k]).None? {
        return Err(NoExtension(taskFiles[k]));
      }
      k := k + 1;
    }
    return Ok(result);
  }

  /** A name with extension `json` makes any path ending in it have that extension. */
  lemma JsonNameExtension(p: Path)
    requires |p| > 0 && IsJsonName(p[|p| - 1])
    ensures PathExtension(p) == Some(JsonExtension)
  {
  }

  /** Every path of a discovery result has the extension `json`: the gathered ones
      by their names and the located one because it is a `tasks.json`. */
  lemma DiscoveredHaveJsonExtension(files: seq<Path>, cwd: Path, dir: Path, k: int)
    requires |files| >= 1 && IsTasksPath(cwd, files[|files| - 1])
    requires forall j :: 0 <= j < |files| - 1 ==> Below(dir, files[j]) && IsJsonName(files[j][|files[j]| - 1])
    requires 0 <= k < |files|
    ensures PathExtension(files[k]) == Some(JsonExtension)
  {
    if k == |files| - 1 {
      TasksJsonExtension();
    }
    JsonNameExtension(files[k]);
  }

  /** Every path discovery returns has the extension `json`, so the parse pass never
      rejects discovery's own output. */
  lemma TaskFilesHaveJsonExtension(env: Env, fs: Entry, currentDir: Option<Path>)
    ensures var r := TaskFiles(env, fs, currentDir);
            r.Ok? ==> forall k :: 0 <= k < |r.value| ==> PathExtension(r.value[k]) == Some(JsonExtension)
  {
    var r := TaskFiles(env, fs, currentDir);
    if r.Ok? {
      var dir := Components(ConfigDir(env.runRsConfig, env.xdgConfigHome, env.home).value);
      forall k | 0 <= k < |r.value|
        ensures PathExtension(r.value[k]) == Some(JsonExtension)
      {
        DiscoveredHaveJsonExtension(r.value, currentDir.value, dir, k);
      }
    }
  }
}
