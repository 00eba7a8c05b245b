# cade-task core, modelled in Dafny

`cade-task` is a small command-line front end to the macOS `reminders` tool. It works out which reminders list a working directory belongs to, runs `reminders` with the right arguments, and turns the tool's output into lines, JSON records or exceptions. It then sequences the `add` and `complete` commands on top of that.

This project models that core and proves properties of it:

- **Path to list name** (`Paths`, `cade_task/lib.py:82-103`).
  - Paths follow `pathlib.PurePosixPath`: a root plus the segments between slashes, with empty and `.` segments dropped.
  - `relative_to` is a segment-prefix test.
  - The list name is the first segment below the project directory.
- **Record normalisation** (`TaskItems`, `cade_task/lib.py:11-35`).
  - `TaskItem.from_dict` renames the tool's keys in place, in a loop over a copy of the keys, then calls the dataclass constructor.
  - The constructor fails on unknown keywords or a missing `title`/`parent`.
- **Running the tool** (`Commands`, `cade_task/lib.py:106-154`).
  - `run_and_return` builds the argument vector, runs the process once, and dispatches on the mode.
  - `TaskCommandException` captures a failed run.
  - The process, the `PATH` lookup and `json.loads` are an oracle `World`.
  - A `Tool` object logs every argument vector actually spawned.
- **Lists** (`TaskLists`, `cade_task/lib.py:48-79`).
  - `TaskList` is a class whose `cache` field is the `_tasks` memo.
  - `tasks()` classifies the "No reminders list matching" failure.
  - `exists()` and `create()` build on it.
- **Command sequencing** (`Cli`, `cade_task/cli.py`).
  - The `--list` fallback.
  - `add`: joins the words, refuses empty text, echoes the first line.
  - `complete`: a loop over `sorted(tasks, reverse=True)` that stops at the first failure.
  - The empty check and the rows of `display_table`.

Every state-changing operation is a method:

- `Tool.RunAndReturn`
- `TaskList.Tasks`, `Exists` and `Create`
- `FromDict`, `ItemsFromDocument`
- `Cli.Add`, `Complete` and `CompleteEach`, `DisplayTable`

Each method is proved against a pure step function: `Run`, `TasksSpec`, `ExistsSpec`, `CreateSpec`, `ItemOf`, `ItemsOf`, `AddSpec`, `CompleteFrom`. A step function returns the argument vectors the operation spawns and its outcome. The lemmas state the source's promises about those functions.

Three behaviours of the code are worth stating:

- Path matching is case-sensitive (`PurePosixPath.relative_to`).
- The "list not found" marker is looked for only in the failure's `output`, which is the stripped standard output (`cade_task/lib.py:73,152`), and never in standard error.
- An unknown mode is rejected only after the process has run (`cade_task/lib.py:120-132`).

## Model

| member | source | states |
|---|---|---|
| Paths.RelativeTo | cade_task/lib.py:89-92 | `relative_to` succeeds exactly when the roots agree and the base's segments are a prefix; the base's segments followed by the result are the path's segments |
| Paths.ListNameFromPath | cade_task/lib.py:82-103 | a name exactly when the working directory lies strictly below the project directory; the name is the first segment below it and is a proper segment |
| Paths.SegmentsAreSegments | cade_task/lib.py:99-101 | every part of a parsed path is non-empty, not ".", and holds no slash |
| Paths.SegmentsAppend | cade_task/lib.py:84-90 | parsing `a + "/" + b` gives the segments of `a` followed by those of `b` |
| Paths.SegmentsJoin | cade_task/lib.py:99 | segments joined with "/" parse back to the same segments |
| Paths.ParseAbsolute | cade_task/lib.py:84-90 | "/" followed by joined segments parses to the root "/" and those segments |
| Paths.ListNameOfAbsolute | cade_task/lib.py:89-103 | for absolute paths, the result is the next segment when the project's segments are a proper prefix of the directory's, otherwise None |
| Paths.NestedDirectory | cade_task/lib.py:99-103 | however deep the working directory is nested below a list's directory, the list name is the same |
| Paths.ParseTrailingSlash | cade_task/lib.py:84-90 | a trailing slash does not change how a path parses |
| Paths.ProjectTrailingSlash | cade_task/lib.py:90 | a trailing slash on the project directory does not change the result |
| Paths.ListNameTrailing | cade_task/lib.py:90 | trailing slashes on both directories do not change the result |
| Paths.ExampleAbove | tests/test_lib.py:23 | "/home/bill" under project "/home/bill/work" gives None |
| Paths.ExampleSame | tests/test_lib.py:24 | the project directory itself gives None |
| Paths.ExampleElsewhere | tests/test_lib.py:25 | "/etc/" under project "/home/bill/work/" gives None |
| Paths.ExampleProject | tests/test_lib.py:26 | "/home/bill/work/my_project" gives "my_project" |
| Paths.ExampleNested | tests/test_lib.py:28-32 | the doubly nested directory still gives "my_project" |
| Paths.ExampleCase | cade_task/lib.py:90 | a directory that differs from the project only in letter case is not below it |
| TaskItems.RenamedSpec | cade_task/lib.py:25-33 | after renaming: no key with a rule is left, each rule's target holds that key's value, every other key keeps its value unless a target overwrote it, nothing else appears |
| TaskItems.RenameStep | cade_task/lib.py:31-33 | visiting one more key moves the renaming on by that key's rule, whatever order the keys are visited in |
| TaskItems.FromDict | cade_task/lib.py:22-35 | the in-place renaming loop leaves exactly the renamed record, and the result is the task of that record |
| TaskItems.Construct | cade_task/lib.py:11-35 | the keyword call succeeds exactly when every key is a field and `title` and `parent` are present; an unknown key is `UnexpectedField`; the task holds the given values and `None` elsewhere |
| TaskItems.ExternalRoundTrip | cade_task/lib.py:25-35 | a task written out in the tool's key names converts back to the same task |
| TaskItems.RecordWithoutIndex | tests/test_lib.py:81-98 | a record with the keys of the unit test converts to the task holding its values, with `index` left at None |
| TaskItems.UnknownKeyFails | cade_task/lib.py:35 | a key that is neither renamed nor a field makes the conversion fail |
| TaskItems.MissingKeyFails | cade_task/lib.py:15-35 | no `title`, or neither `list` nor `parent`, makes the conversion fail |
| TaskItems.ItemsOfRecords | cade_task/lib.py:78 | the comprehension succeeds exactly when every record converts, and then holds each record's task in order |
| TaskItems.FirstFailure | cade_task/lib.py:78 | a failing comprehension fails with the failure of a record before which all records converted |
| TaskItems.FailsAt | cade_task/lib.py:78 | the first record that does not convert decides the comprehension's failure |
| TaskItems.AllConvert | cade_task/lib.py:78 | when every record converts, the comprehension gives exactly the converted records |
| TaskItems.ItemsFromDocument | cade_task/lib.py:78 | the record-by-record loop returns what the comprehension does |
| Commands.Located | cade_task/lib.py:135-139 | the tool is found exactly when the lookup gives a non-empty path, and then it is that path |
| Commands.BuildCommand | cade_task/lib.py:113-118 | the tool path first when injected, then the caller's arguments unchanged, then `--format json` exactly in json mode |
| Commands.CommandFailure | cade_task/lib.py:149-154 | the failure keeps the exit status; `output` equals `stdout`; both streams are the captured ones with all trailing whitespace cut: a prefix, followed only by whitespace, and not ending in whitespace |
| Commands.CommandFailureArgv | cade_task/lib.py:151 | the joined command splits back into the argument vector when no argument holds a space |
| Commands.Decode | cade_task/lib.py:120-132 | nonzero exit is a command failure in any mode; raw mode splits the output into lines; json mode decodes the stripped output; any other mode is an error |
| Commands.Run | cade_task/lib.py:110-132 | nothing is spawned exactly when the tool must be injected and is not found; otherwise one command is spawned and decoded, and success happens only in raw or json mode |
| Commands.Rejected | cade_task/lib.py:114-121 | a list name that is None fails after the tool lookup, never by spawning |
| Commands.RawOutputLines | cade_task/lib.py:125-127 | output printed line by line comes back as exactly those lines, with no trailing empty line |
| Commands.EchoMultiline | tests/test_lib.py:53-57 | the `echo` of three lines returns three lines |
| Commands.InvalidModeRunsFirst | cade_task/lib.py:131-132 | an unknown mode still spawns the command, then fails; the failure is the mode error exactly when the command exited with status 0 |
| Commands.Tool.RunAndReturn | cade_task/lib.py:110-132 | appends the spawned argument vector to the log and returns what `Run` describes |
| Commands.Tool.GetLists | cade_task/lib.py:106-107 | runs `show-lists` in json mode; success is a document |
| Text.SplitLinesFinalNewline | cade_task/lib.py:126 | one final newline after text adds no line |
| Text.SplitLinesTerminated | cade_task/lib.py:126 | splitting lines each followed by a newline gives the lines back |
| Text.SplitJoin | cade_task/lib.py:151 | joining with a one-character separator that no word holds is undone by splitting |
| Text.JoinEmpty | cade_task/cli.py:60-61 | a join with a non-empty separator is empty exactly for no words or one empty word |
| Text.ContainsRStrip | cade_task/lib.py:73 | removing trailing whitespace does not change whether a needle ending in a non-space occurs |
| Text.SortDescending | cade_task/cli.py:79 | `sorted(..., reverse=True)` gives a descending permutation of its input |
| Text.DescendingUnique | cade_task/cli.py:79 | two descending orders of the same elements are equal, so the sorted order is determined |
| TaskLists.Classify | cade_task/lib.py:72-76 | a command failure whose output holds the marker becomes "list not found"; any other failure is raised unchanged |
| TaskLists.TasksTwice | cade_task/lib.py:67-79 | after a successful `tasks()`, the next call spawns nothing and returns the same tasks |
| TaskLists.ListNotFoundExactly | cade_task/lib.py:66-76 | "list not found" exactly when nothing is cached, the tool is found, and `show` exits nonzero with the marker in its standard output |
| TaskLists.NotFoundOnFailure | cade_task/lib.py:72-74 | after a failing `show`, "list not found" exactly when its output holds the marker |
| TaskLists.NoNotFoundOnSuccess | cade_task/lib.py:71-78 | a `show` that exits with status 0 never yields "list not found" |
| TaskLists.ItemsNeverNotFound | cade_task/lib.py:78 | converting the records never yields "list not found" |
| TaskLists.TasksReraises | cade_task/lib.py:70-79 | an empty memo spawns just the `show` command; a failure without the marker is raised unchanged; a success converts the records |
| TaskLists.ExistsFalseExactly | cade_task/lib.py:54-60 | `exists()` is false exactly when `tasks()` reports "list not found"; every other failure escapes |
| TaskLists.CreateSequence | cade_task/lib.py:62-64 | `create()` first does what `exists()` does, adds commands only when the list is absent, and passes on a failure of `exists()` |
| TaskLists.CreateIssuesNewList | cade_task/lib.py:62-64 | `create()` spawns one more command exactly when `exists()` answered false, and that command is `[tool, "new-list", name]` |
| TaskLists.TaskList.Tasks | cade_task/lib.py:66-79 | logs the commands and returns what `TasksSpec` describes; the memo is set by a success and untouched by a failure |
| TaskLists.TaskList.Exists | cade_task/lib.py:54-60 | logs the commands and returns what `ExistsSpec` describes; the memo is set exactly when the inner `tasks()` succeeded |
| TaskLists.TaskList.Create | cade_task/lib.py:62-64 | logs the commands and returns what `CreateSpec` describes; the memo is what the inner `tasks()` left, since `new-list` does not touch it |
| Cli.TargetList | cade_task/cli.py:59 | the `--list` value when it is given and not empty, otherwise the resolved list |
| Cli.Wrap | cade_task/cli.py:66-67 | command failures become click errors wrapping them; other failures pass through |
| Cli.EchoFirstSpec | cade_task/cli.py:65 | spawns `[tool, verb, list, arg]` exactly when the tool is found; succeeds exactly when that command exits with status 0 and prints something; returns its first line |
| Cli.AddEmptyText | cade_task/cli.py:60-62 | `add` refuses with "No task specified" exactly for no words or one empty word, and then spawns nothing |
| Cli.AddIssuesOne | cade_task/cli.py:59-65 | with text, a list and the tool, `add` spawns exactly `[tool, "add", list, text]` and succeeds exactly when it echoes |
| Cli.AddTextWords | cade_task/cli.py:60 | the text of `add` splits back into its words when none holds a space |
| Cli.Echo | cade_task/cli.py:64-67 | spawns through the log exactly what `EchoFirst` describes and returns its outcome: the first output line, or the wrapped command failure |
| Cli.Add | cade_task/cli.py:55-67 | logs the commands and returns what `AddSpec` describes |
| Cli.CompleteBounds | cade_task/cli.py:79-83 | at most one command per argument; none when the list or tool is missing; on success, one command and one echoed line per argument |
| Cli.CompleteCommands | cade_task/cli.py:79-81 | command `k` of `complete` is `[tool, "complete", list, t]` for the `k`-th argument visited |
| Cli.CompleteStops | cade_task/cli.py:79-83 | on success every command echoed; on a failure after spawning, every command but the last echoed and the last did not |
| Cli.CompleteNothing | cade_task/cli.py:79 | `complete` with no arguments spawns nothing and succeeds |
| Cli.CompleteDescending | cade_task/cli.py:79-81 | the spawned commands name given arguments, in descending string order |
| Cli.CompleteExampleDigits | cade_task/cli.py:79 | arguments 2 0 3 are visited as 3, 2, 0 |
| Cli.CompleteExampleStrings | cade_task/cli.py:79 | arguments 10 9 are visited as 9, 10: the order is on strings |
| Cli.Complete | cade_task/cli.py:73-83 | logs the commands and returns what `CompleteSpec` describes |
| Cli.CompleteEach | cade_task/cli.py:79-83 | the loop over the sorted arguments logs exactly the commands of `CompleteFrom` and returns its outcome |
| Cli.CompleteTurn | cade_task/cli.py:80-83 | one turn of the loop: a failing command ends it with that failure, an echoing one goes on with the next argument |
| Cli.DisplayTable | cade_task/cli.py:113-125 | succeeds exactly on a non-empty sequence and refuses an empty one with "No results found"; otherwise the headers and one single-cell row per element, in order |

## Left out

- Spawning processes (`subprocess.run`), the `PATH` lookup (`shutil.which`), `Path.cwd()`, UTF-8 decoding and `json.loads` are not modelled as code. They are inputs: the `World` oracle and the `cwd` parameter.
- `list_resolve` and `get_tasks`, which `cade_task/cli.py` imports, are not part of this model. The list they would resolve is the parameter `resolved`.
- `TaskItem.add`, `TaskItem.complete` and `TaskItem.edit` (`cade_task/lib.py:37-45`) are not modelled as members of their own.
  - `add` is a single `run_and_return` call in raw mode, which `Run` describes.
  - `complete` passes `self.index`, an `int` or `None` (`cade_task/lib.py:20,42`), as an argument. The process invocation rejects a non-string argument with a `TypeError` after the tool lookup, so nothing is spawned. That is the outcome `Rejected` describes, not `Run`.
  - `edit` does nothing.
- `TaskCommandException.__str__` is not modelled: it only formats a message.
- The click and tablib rendering is not modelled: `click.echo`, the table export, `display_title` colouring. `DisplayTable` returns the rows it would hand over.
- The `list`, `lists`, `open` and `sync` commands are not modelled: they are output formatting, an app launch, or an empty stub.
- JSON numbers are integers only: no floats.
- TaskItems.FromDict visits the keys in an arbitrary order rather than the dictionary's insertion order. The result does not depend on the order, as `RenameStep` shows.
- Exceptions are values: a `Failure` in a `Result`. Which exception class Python would raise is recorded in the constructor name (`CommandFailed`, `ListNotFound`, `Click`, `ClickWrapping`, `NoOutputLine`, …), not as a class hierarchy.
