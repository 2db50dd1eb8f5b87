# run-rs task-file discovery, modelled in Dafny

run-rs is a command-line task runner that reads VS Code style `tasks.json` files.
This project models the part of it that decides *which* files to read, and the
first step of reading them:

- **Configuration directory.** The directory comes from `RUN_RS_CONFIG` as written.
  If that is not set, it is `XDG_CONFIG_HOME/run_rs`. If that is not set either, it
  is `HOME/.config/run_rs`. With none of the three set, discovery fails.
- **Gathering.** Every descendant of the configuration directory whose extension is
  `json` is collected. This covers every depth and every kind of entry, but not the
  directory itself. Entries the walker cannot read are skipped.
- **Locating.** The working directory's task file is searched for among its direct
  children, in listing order:
  - a `tasks.json` is the answer;
  - a `.vscode` directory restarts the search inside it;
  - a `.vscode` that is not a directory is an error;
  - running out of children is an error.
- **Composition.** `task_files` returns the gathered files followed by the located
  one. Duplicates are kept.
- **Parsing.** The registered parsers each claim a list of extensions. The parse
  pass rejects the first task file without an extension and otherwise returns an
  empty task map.

Modules, one per file:

| file | module | contents |
|---|---|---|
| `wrappers.dfy` | `Wrappers` | `Option`, and `Result` with the `:-` failure protocol |
| `paths.dfy` | `Paths` | paths as component lists, and Rust's `Path::components`, `Path::file_name` and `Path::extension` rules |
| `filetree.dfy` | `FileTree` | the filesystem as a tree of entries in listing order; lookup by path |
| `find.dfy` | `Find` | `config_dir`, `gather_task_files`, `vscode_tasks_file`, `task_files` |
| `find_examples.dfy` | `FindExamples` | find.rs's unit tests and whole-discovery scenarios, restated as lemmas |
| `parse.dfy` | `Parse` | `supported_extension`, `tasks`, the VS Code parser's extension list |

The process environment, the result of `std::env::current_dir` and the filesystem
are all inputs. `std::env::var` becomes a `Result<string, VarError>`. The
filesystem is a root `Entry`. `File` stands for any non-directory, including a
symbolic link met inside a walk, because the walker does not follow links below its
start. `Dir` holds its listing in the order the walker yields it, and `Unreadable`
stands for an item the walker reports as an error. A path is the sequence of its components, and an absolute path starts
with the root component `/`. `ConfigDir` returns the directory as text, just as the
source formats it, and `Components` turns that text into a path.

## Model

| member | source | states |
|---|---|---|
| Paths.NameExtensionSplit | src/action/find.rs:101-102 | a name has extension `ext` exactly when it is a non-empty stem, a `.`, then `ext` with no further `.`, and the name is not `..` |
| Paths.NameExtensionExamples | src/action/find.rs:101-102 | hidden names (`.json`, `.vscode`), `..` and dot-free names have no extension, so they are never gathered |
| Paths.TasksJsonExtension | src/action/find.rs:134 | `tasks.json` has the extension `json` |
| Paths.JsonFileName | src/action/find.rs:230-239 | every `<stem>.json` with a non-empty stem has the extension `json` |
| Paths.FileNameOfJoin | src/action/find.rs:101-102 | the file name of `<dir>/<name>` is `name`, and the path's extension is the name's, so testing a walked entry's path is testing the entry's own name |
| Paths.NameExtensionOf | src/action/find.rs:101-102 | `<stem>.<ext>` with a non-empty stem and a non-empty, dot-free `ext` has the extension `ext` |
| Paths.NoDotNoExtension | src/action/find.rs:101-102 | a name without `.` has no extension, so it is never gathered |
| Paths.HiddenNoExtension | src/action/find.rs:101-102 | a hidden name with no further `.` has no extension |
| Paths.Components | src/action/find.rs:65-76 | the path is absolute exactly when its text starts with `/`, and starts with the current-directory component exactly when its text is `.` or starts with `./` |
| Paths.SegmentsArePlain | src/action/find.rs:65-69 | splitting path text drops empty and `.` pieces: every piece is a plain name without `/` |
| Paths.ComponentsArePlain | src/action/find.rs:65-76 | every component other than a leading root or current directory is a plain name |
| Paths.SegmentsJoin | src/action/find.rs:69 | splitting `a/b` gives the pieces of `a` followed by the pieces of `b` |
| Paths.ComponentsJoin | src/action/find.rs:69 | appending `/<b>` to non-empty path text appends the pieces of `b` |
| Paths.ComponentsJoin2 | src/action/find.rs:76 | appending `/<n>/<m>` for plain names `n`, `m` appends exactly those two components |
| FileTree.FindChild | src/action/find.rs:123-128 | a child with the name is found exactly when some readable entry of the listing has it, and the one found is in the listing with that name |
| FileTree.FindChildFirst | src/action/find.rs:123-134 | of several entries with the same name, the first in listing order is the one found |
| FileTree.ResolveRelative | src/action/find.rs:96 | a non-empty relative path opens the entry reached by descending from the working directory along its names (after a leading `.`), and nothing when the working directory is missing |
| FileTree.ResolveAbsoluteOrEmpty | src/action/find.rs:96 | an absolute path opens the same entry whatever the working directory, and the empty path opens nothing |
| FileTree.DescendAppend | src/action/find.rs:96 | descending along two joined paths is descending along the first, then the second from where it ends |
| FileTree.DescendSnoc | src/action/find.rs:137 | following one more name is looking it up in the listing of the directory already reached |
| FileTree.LookupSnoc | src/action/find.rs:137 | the entry at `p` joined with one name is that name's entry in the listing at `p` |
| Find.ConfigDir | src/action/find.rs:59-77 | an error exactly when all three variables are unset; otherwise `RUN_RS_CONFIG` verbatim, else XDG plus `/run_rs`, else HOME plus `/.config/run_rs` |
| Find.FirstPresent | src/action/find.rs:64-75 | some candidate is chosen exactly when one is present, and the chosen one is among the candidates |
| Find.ConfigDirIsFirstCandidate | src/action/find.rs:64-76 | the directory is the first present candidate in priority order, and it is an error when no candidate is present |
| Find.ConfigDirOnlyPresenceMatters | src/action/find.rs:64-75 | which error a lookup reported never matters, a set empty string counts as set, and a set variable hides every variable below it |
| Find.XdgConfigDirComponents | src/action/find.rs:69 | the XDG directory is `XDG_CONFIG_HOME`'s components then `run_rs`; an empty value gives the absolute `/run_rs` |
| Find.HomeConfigDirComponents | src/action/find.rs:76 | the HOME directory is `HOME`'s components then `.config`, `run_rs`; an empty HOME gives the absolute `/.config/run_rs` |
| Find.WalkUnfold | src/action/find.rs:96-100 | a path is in the walk of a listing exactly when it is the first entry, or lies inside it, or comes from the rest of the listing |
| Find.WalkBelow | src/action/find.rs:96-106 | everything the walk yields lies strictly below its start and is named with the extension `json` |
| Find.WalkHead | src/action/find.rs:96-106 | what one readable entry contributes to the walk, itself or something inside it, is exactly the paths reached through it and named with the extension `json` |
| Find.WalkExact | src/action/find.rs:96-106 | the walk yields exactly the paths below its start that reach an entry of the tree and are named with the extension `json` |
| Find.GatherTaskFiles | src/action/find.rs:93-109 | every gathered path lies strictly below the configuration directory and is named with the extension `json` |
| Find.GatherTaskFilesCurDir | src/action/find.rs:64-65 | with the configuration text `.`, the working directory is walked and each gathered path is `.` followed by the names reaching a `json` entry |
| Find.GatherTaskFilesExact | src/action/find.rs:93-109 | as a set, the gathered paths are exactly the descendants, at any depth and of any kind, named with the case-sensitive extension `json`; a missing directory gives none |
| Find.GatherTaskFilesEmpty | src/action/find.rs:217-224 | a configuration directory that is missing, or has no readable entries, gives no task files |
| Find.Scan | src/action/find.rs:122-152 | a success is the directory, zero or more `.vscode` components, then `tasks.json`; a failure names a directory on that `.vscode` chain |
| Find.VscodeTasksFile | src/action/find.rs:122-152 | the same, for the search from the working directory |
| Find.ScanSkips | src/action/find.rs:144 | entries named neither `tasks.json` nor `.vscode` are passed over |
| Find.ScanIgnoresLaterSiblings | src/action/find.rs:134-143 | the first `tasks.json` or `.vscode` in listing order settles the outcome, and later siblings never matter |
| Find.ScanNotFoundIff | src/action/find.rs:148-151 | the search fails with not-found for the directory itself exactly when no child is named `tasks.json` or `.vscode` |
| Find.Prune | src/action/find.rs:123-125 | emptying subdirectories keeps the listing's length and which entries are `tasks.json` or `.vscode` |
| Find.ScanIgnoresSubtrees | src/action/find.rs:123-125 | only direct children are inspected: the contents of other subdirectories never change the outcome |
| Find.VscodeTasksFileFindsTasksJson | src/action/find.rs:134 | a `tasks.json` as first decisive child gives its path, whether it is a file or a directory |
| Find.VscodeTasksFileDescends | src/action/find.rs:135-137 | a `.vscode` directory as first decisive child gives the outcome of the search inside it |
| Find.VscodeTasksFileRejectsVscodeFile | src/action/find.rs:138-142 | a `.vscode` that is not a directory, as first decisive child, is an error for that directory |
| Find.VscodeTasksFileNotFoundIff | src/action/find.rs:148-151 | the search fails with not-found for the working directory exactly when that directory is missing or has no decisive child |
| Find.TaskFiles | src/action/find.rs:24-39 | on success the working directory was known, the last path is its task file, and every earlier path lies below the configuration directory and is named with the extension `json` |
| Find.TaskFilesNeedsConfig | src/action/find.rs:27-31 | with no configuration variable set, the call fails whatever the filesystem and working directory |
| Find.TaskFilesEmptyConfigDir | src/action/find.rs:64-65 | with `RUN_RS_CONFIG` set to the empty string nothing is gathered: the result is the working directory's task file alone, or the error of the search or of `current_dir` |
| Find.TaskFilesNeedsCurrentDir | src/action/find.rs:34 | an unavailable working directory is an error once the configuration directory is known |
| Find.TaskFilesPropagatesSearchError | src/action/find.rs:35 | a failed search of the working directory is the call's error |
| Find.TaskFilesAppendsSearchResult | src/action/find.rs:32-38 | on success the result is all the gathered files in walk order, then the located file, with nothing removed |
| FindExamples.ConfigDirTests | src/action/find.rs:172-215 | the four configuration-directory tests: no variable set, and each variable winning |
| FindExamples.GatherTaskFilesNoFiles | src/action/find.rs:217-224 | an empty temporary directory gathers nothing |
| FindExamples.WalkJsonTree | src/action/find.rs:226-252 | in the test's tree, exactly the four `json` files are gathered, at depths one to three, in walk order |
| FindExamples.WalkFileThen | src/action/find.rs:101-104 | a file named with the extension `json` contributes its own path, ahead of the rest of its listing |
| FindExamples.WalkDirThen | src/action/find.rs:96-100 | a directory not named with the extension `json` contributes only its contents, ahead of the rest of its listing |
| FindExamples.JsonTreeFileNames | src/action/find.rs:230-239 | the test's file names have the extension `json` |
| FindExamples.JsonTreeDirNames | src/action/find.rs:232-238 | the test's directory names have no extension `json` |
| FindExamples.VscodeTasksFileTests | src/action/find.rs:254-303 | an empty directory, and a `.vscode` that is a plain file, are errors; a `tasks.json` in the working directory is found |
| FindExamples.VscodeTasksFileInVscode | src/action/find.rs:277-291 | `.vscode/tasks.json` is found through the `.vscode` directory |
| FindExamples.WalkOnlyTasksJson | src/action/find.rs:96-106 | a listing holding only `tasks.json` walks to exactly that file |
| FindExamples.GatherOnlyTasksJson | src/action/find.rs:93-109 | a configuration directory holding only `tasks.json` gathers exactly that file |
| FindExamples.FindOnlyTasksJson | src/action/find.rs:134 | a working directory holding only `tasks.json` locates it |
| FindExamples.FindOnlyVscodeTasksJson | src/action/find.rs:135-137 | a working directory holding only `.vscode/tasks.json` locates it |
| FindExamples.TaskFilesKeepsDuplicates | src/action/find.rs:32-36 | when the configuration and working directories coincide, the same `tasks.json` is returned twice |
| FindExamples.EmptyConfigSkipsWorkingDir | src/action/find.rs:64-65 | with `RUN_RS_CONFIG` empty and a working directory holding `a.json` and `tasks.json`, the one result is that `tasks.json` |
| FindExamples.HomeOnlyConfigDir | src/action/find.rs:72-76 | with only HOME set, the directory is HOME's components then `.config`, `run_rs`, or the absolute `/.config/run_rs` when HOME is empty |
| FindExamples.TaskFilesConfigAndVscode | src/action/find.rs:24-39 | a configuration directory holding just `tasks.json` and a working directory holding just `.vscode/tasks.json` give exactly those two files, the configuration one first |
| Parse.SupportedExtension | src/action/parse.rs:8-14 | the length is the sum of the parsers' list lengths, and an extension is listed exactly when some parser claims it |
| Parse.SupportedExtensionAppend | src/action/parse.rs:9-13 | the list for concatenated parser lists is the concatenation of their lists |
| Parse.SupportedExtensionSingle | src/action/parse.rs:11 | a single parser contributes exactly its own list |
| Parse.SupportedExtensionAt | src/action/parse.rs:9-13 | parser `i`'s `j`-th extension sits right after all extensions of the parsers before it, so parser order is kept |
| Parse.VSCodeSupportsJson | src/parsers/vscode.rs:8-10 | the VS Code parser alone supports exactly `json` |
| Parse.Tasks | src/action/parse.rs:16-33 | an error exactly when some task file has no extension, naming the first such file; otherwise an empty map |
| Parse.JsonNameExtension | src/action/find.rs:101-102 | a path whose last name has the extension `json` has that extension as a path |
| Parse.DiscoveredHaveJsonExtension | src/action/find.rs:24-39 | every path of a result of discovery's shape has the extension `json` |
| Parse.TaskFilesHaveJsonExtension | src/action/find.rs:24-39 | every path discovery returns has the extension `json`, so the parse pass never rejects discovery's own output |

## Left out

- Environment and working directory: `std::env::var` and `std::env::current_dir` are inputs to `TaskFiles`, not calls. The order of those calls cannot be observed in a pure model: `TaskFiles` tests the working directory before gathering, while the source gathers first. The outcome is the same, and a relative configuration directory is walked from that same working directory.
- Filesystem failures beyond an unreadable entry: races, OS error kinds and permission details are not modelled. An item the walker reports as an error is `Unreadable` and is skipped. A missing directory, or one that is not a directory, has no entries.
- Directories that can be passed through but not listed: a directory whose listing cannot be read holds just `Unreadable`, so no path leads through it. The operating system only needs search permission to pass through, so such a directory on the way to the working directory or the configuration directory cannot be drawn faithfully.
- Symbolic links inside a walk: the walker does not follow them, so such a link is a `File`, even one that points to a directory.
- Symbolic links on the way to a walk's start: the walker opens its start through links, and the operating system resolves links on the path leading there. The model does not follow links, so a configuration directory that is a link, or is reached through one, must be drawn as the `Dir` it leads to; otherwise the model gathers nothing there.
- Non-UTF-8 file names: names are strings. The error `vscode_tasks_file` raises for a name it cannot convert (src/action/find.rs:132) is therefore not modelled.
- Error messages and the source locations that src/util/anyhow.rs adds to them: a `FindError` or `ParseError` records only which failure happened.
- `..` inside configuration paths: `Components` keeps `..` as a name, and lookup does not resolve it to the parent directory. A `.` that is not the first piece is dropped, as Rust does.
- Paths.Components: the result is not proved to match Rust's `Path::components` on every text. The model relies only on the join lemmas, on which texts give a root or a current-directory component, and on the remaining components being plain names (`Paths.ComponentsArePlain`).
- Relative configuration directories: the directory is opened from the working directory, as the operating system does. The returned paths keep the relative form, as the walker returns them.
- Listing order: each directory's listing order is an input. The walker's own order is the operating system's, and the walker does not sort.
- `Parser::parse` (src/parsers/vscode.rs:12-14): a stub that returns an empty vector. The trait in src/parsers/parser_trait.rs becomes the `Parser` datatype, reduced to its extension list.
- Parse.Tasks: the `parsers` argument is accepted but unused, as in the source.
- The `playground` test in src/action/parse.rs:35-54: a serde scratch test unrelated to discovery.
- src/main.rs and tests/cli.rs: argument parsing and the `--rerun` stub. These never call discovery.

## Behaviour of the code worth knowing

- **Sibling order.** Neither `tasks.json` nor `.vscode` is preferred: whichever comes first in listing order decides the search (`Find.ScanIgnoresLaterSiblings`).
- **Recursion depth.** The search into `.vscode` has no depth cap, so `.vscode/.vscode/tasks.json` is found too (`Find.Scan` allows any number of `.vscode` components).
- **Working directory.** There is no option to choose it: it always comes from `std::env::current_dir`.
- **Empty variables.** The doc comment of `config_dir` says a variable is skipped "if empty". The code skips a variable only when it is unset, so a variable set to an empty string wins (`Find.ConfigDirOnlyPresenceMatters`). An empty `XDG_CONFIG_HOME` gives the absolute directory `/run_rs` (`Find.XdgConfigDirComponents`), and an empty `HOME` gives `/.config/run_rs` (`Find.HomeConfigDirComponents`). An empty `RUN_RS_CONFIG` names no directory at all, so nothing is gathered (`Find.TaskFilesEmptyConfigDir`).
