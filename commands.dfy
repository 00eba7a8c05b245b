/**
 * `run_and_return`, `reminders` and `TaskCommandException`: how the core
 * builds the argument vector of the `reminders` tool, runs it once, and turns
 * its exit status and output into lines, a JSON document or an exception.
 *
 * The tool itself is an oracle (`World`): where the search path finds it, what
 * it replies to each argument vector given the commands issued before, and
 * what `json.loads` makes of a text. A `Tool` object records every argument
 * vector actually spawned.
 */
module Commands {
  import opened Wrappers
  import opened JsonValues
  import opened Failures
  import opened Text

  /** What a finished process hands back: its exit status and its two output streams, decoded. */
  datatype Completed = Completed(returncode: int, stdout: string, stderr: string)

  /**
   * The environment of the core: the result of `shutil.which("reminders")`,
   * the reply of the tool to an argument vector after the earlier ones, and
   * `json.loads` (None for text that is not a document).
   */
  datatype World = World(
    locate: Option<string>,
    respond: (seq<seq<string>>, seq<string>) -> Completed,
    decodeJson: string -> Option<Json>)

  /** What a successful `run_and_return` returns: raw lines or a decoded document. */
  datatype Output = Lines(lines: seq<string>) | Document(doc: Json)

  /** One operation of the core: the argument vectors it spawned, in order, and its outcome. */
  datatype Step<+T> = Step(issued: seq<seq<string>>, result: Result<T, Failure>)

  /** `reminders()`: the tool's path, or None when the lookup finds nothing or an empty path. */
  function Located(w: World): (path: Option<string>)
    ensures path.Some? <==> w.locate.Some? && w.locate.value != ""
    ensures path.Some? ==> path == w.locate
  {
    if w.locate.Some? && w.locate.value != "" then w.locate else None
  }

  /**
   * The argument vector `run_and_return` spawns: the tool path when one is
   * injected, the caller's arguments, and `--format json` in json mode.
   */
  function BuildCommand(tool: Option<string>, cmd: seq<string>, mode: string): (argv: seq<string>)
    ensures var offset := if tool.Some? then 1 else 0;
      && |argv| == offset + |cmd| + (if mode == "json" then 2 else 0)
      && (tool.Some? ==> argv[0] == tool.value)
      && argv[offset..offset + |cmd|] == cmd
      && (mode == "json" ==> argv[offset + |cmd|..] == ["--format", "json"])
  {
    var head := if tool.Some? then [tool.value] else [];
    var tail := if mode == "json" then ["--format", "json"] else [];
    assert (head + cmd + tail)[|head|..|head| + |cmd|] == cmd;
    head + cmd + tail
  }

  /**
   * `TaskCommandException(e)`: the exit status, the argument vector joined with
   * single spaces, and the output streams with trailing whitespace removed;
   * `output` is the standard output again.
   */
  function CommandFailure(argv: seq<string>, c: Completed): (f: Failure)
    ensures f.CommandFailed? && f.returncode == c.returncode
    ensures f.output == f.stdout
    ensures f.stdout <= c.stdout && f.stderr <= c.stderr
    ensures forall i :: |f.stdout| <= i < |c.stdout| ==> IsSpace(c.stdout[i])
    ensures forall i :: |f.stderr| <= i < |c.stderr| ==> IsSpace(c.stderr[i])
    ensures f.stdout == [] || !IsSpace(f.stdout[|f.stdout| - 1])
    ensures f.stderr == [] || !IsSpace(f.stderr[|f.stderr| - 1])
  {
    CommandFailed(c.returncode, JoinWith(" ", argv), RStrip(c.stdout), RStrip(c.stdout), RStrip(c.stderr))
  }

  /** The command of a failure gives back the argument vector when no argument holds a space. */
  lemma CommandFailureArgv(argv: seq<string>, c: Completed)
    requires argv != []
    requires forall k :: 0 <= k < |argv| ==> ' ' !in argv[k]
    ensures SplitOn(' ', CommandFailure(argv, c).cmd) == argv
  {
    SplitJoin(' ', argv);
  }

  /**
   * What `run_and_return` makes of the finished process `c` that ran `argv`:
   * a nonzero exit is a command failure whatever the mode; otherwise raw mode
   * splits the output into lines, json mode decodes the stripped output, and
   * any other mode is rejected only now, after the process has run.
   */
  function Decode(argv: seq<string>, mode: string, c: Completed, decodeJson: string -> Option<Json>): (r: Result<Output, Failure>)
    ensures c.returncode != 0 ==> r == Err(CommandFailure(argv, c))
    ensures c.returncode == 0 && mode == "raw" ==> r == Ok(Lines(SplitLines(c.stdout)))
    ensures c.returncode == 0 && mode == "json" ==>
      r == (if decodeJson(Strip(c.stdout)).Some? then Ok(Document(decodeJson(Strip(c.stdout)).value)) else Err(JsonDecodeError))
    ensures c.returncode == 0 && mode != "raw" && mode != "json" ==> r == Err(InvalidMode)
  {
    if c.returncode != 0 then Err(CommandFailure(argv, c))
    else if mode == "raw" then Ok(Lines(SplitLines(c.stdout)))
    else if mode == "json" then
      match decodeJson(Strip(c.stdout))
      case Some(doc) => Ok(Document(doc))
      case None => Err(JsonDecodeError)
    else Err(InvalidMode)
  }

  /**
   * `run_and_return(cmd, mode, inject_reminder)` after the commands `history`:
   * when the tool is to be injected and cannot be found nothing is spawned;
   * otherwise exactly one argument vector is spawned and its result decoded.
   */
  function Run(w: World, history: seq<seq<string>>, cmd: seq<string>, mode: string, inject: bool): (s: Step<Output>)
    ensures |s.issued| <= 1
    ensures s.issued == [] <==> inject && Located(w).None?
    ensures s.issued == [] ==> s.result == Err(ToolNotFound)
    ensures s.issued != [] ==> s.issued[0] == BuildCommand(if inject then Located(w) else None, cmd, mode)
    ensures s.issued != [] ==> s.result == Decode(s.issued[0], mode, w.respond(history, s.issued[0]), w.decodeJson)
    ensures s.result.Ok? && mode == "raw" ==> s.result.value.Lines?
    ensures s.result.Ok? && mode == "json" ==> s.result.value.Document?
    ensures s.result.Ok? ==> mode == "raw" || mode == "json"
  {
    if inject && Located(w).None? then Step([], Err(ToolNotFound))
    else
      var argv := BuildCommand(if inject then Located(w) else None, cmd, mode);
      Step([argv], Decode(argv, mode, w.respond(history, argv), w.decodeJson))
  }

  /**
   * `run_and_return` on an argument list that holds `None` (a list name that
   * was never resolved): the tool lookup still comes first, then the process
   * invocation rejects the argument with a `TypeError` before spawning.
   */
  function Rejected(w: World, inject: bool): (f: Failure)
    ensures f == ToolNotFound <==> inject && Located(w).None?
    ensures f != ToolNotFound ==> f == ArgumentNotString
  {
    if inject && Located(w).None? then ToolNotFound else ArgumentNotString
  }

  /**
   * A raw command whose output is the lines `lines`, each printed with its
   * newline, returns exactly those lines: no trailing empty element.
   */
  lemma RawOutputLines(w: World, history: seq<seq<string>>, cmd: seq<string>, inject: bool, lines: seq<string>)
    requires !inject || Located(w).Some?
    requires forall k :: 0 <= k < |lines| ==> NoLineBoundary(lines[k])
    requires var argv := BuildCommand(if inject then Located(w) else None, cmd, "raw");
      w.respond(history, argv) == Completed(0, Terminated(lines), w.respond(history, argv).stderr)
    ensures Run(w, history, cmd, "raw", inject).result == Ok(Lines(lines))
  {
    SplitLinesTerminated(lines);
  }

  /** The `echo` case of the unit test: three lines printed, three lines back. */
  lemma EchoMultiline(w: World, history: seq<seq<string>>, text: string)
    requires text == "this\nis\nmultiline\n"
    requires var argv := BuildCommand(None, ["echo", "this\nis\nmultiline"], "raw");
      w.respond(history, argv) == Completed(0, text, w.respond(history, argv).stderr)
    ensures Run(w, history, ["echo", "this\nis\nmultiline"], "raw", false).result.Ok?
    ensures |Run(w, history, ["echo", "this\nis\nmultiline"], "raw", false).result.value.lines| == 3
  {
    var lines := ["this", "is", "multiline"];
    MultilineSpelling(lines);
    MultilineWords(lines);
    RawOutputLines(w, history, ["echo", "this\nis\nmultiline"], false, lines);
  }

  /** The output of the `echo` case, line by line. */
  lemma MultilineSpelling(lines: seq<string>)
    requires lines == ["this", "is", "multiline"]
    ensures Terminated(lines) == "this\nis\nmultiline\n"
  {
    TerminatedThree("this", "is", "multiline");
    var last := "multiline\n";
    assert last == "multiline" + "\n";
    var middle := "is\n" + last;
    assert middle == "is" + "\n" + last;
    assert "this\nis\nmultiline\n" == "this" + "\n" + middle;
  }

  /** The words of the `echo` case hold no line boundary. */
  lemma MultilineWords(lines: seq<string>)
    requires lines == ["this", "is", "multiline"]
    ensures forall k :: 0 <= k < |lines| ==> NoLineBoundary(lines[k])
  {
    LowerCase("this");
    LowerCase("is");
    LowerCase("multi");
    LowerCase("line");
    assert "multiline" == "multi" + "line";
    NoLineBoundaryConcat("multi", "line");
  }

  lemma NoLineBoundaryConcat(a: string, b: string)
    requires NoLineBoundary(a) && NoLineBoundary(b)
    ensures NoLineBoundary(a + b)
  {
    forall i | 0 <= i < |a + b| ensures !IsLineBoundary((a + b)[i]) {
      if i >= |a| { assert (a + b)[i] == b[i - |a|]; }
    }
  }

  /** A word of lower-case letters holds no line boundary. */
  lemma LowerCase(s: string)
    requires forall i :: 0 <= i < |s| ==> 'a' <= s[i] <= 'z'
    ensures NoLineBoundary(s)
  {
  }

  lemma TerminatedThree(a: string, b: string, c: string)
    ensures Terminated([a, b, c]) == a + "\n" + (b + "\n" + (c + "\n"))
  {
    assert [a, b, c][1..] == [b, c] && [b, c][1..] == [c];
    assert Terminated([c]) == c + "\n" + "";
  }

  /** A mode other than raw or json still runs the command, then fails. */
  lemma InvalidModeRunsFirst(w: World, history: seq<seq<string>>, cmd: seq<string>, mode: string, inject: bool)
    requires mode != "raw" && mode != "json"
    requires !inject || Located(w).Some?
    ensures var s := Run(w, history, cmd, mode, inject);
      && |s.issued| == 1
      && s.result.Err?
      && (s.result.error == InvalidMode <==> w.respond(history, s.issued[0]).returncode == 0)
  {
  }

  /**
   * The tool as the core runs it: every run appends to one log of spawned
   * argument vectors.
   */
  class Tool {
    const world: World
    var issued: seq<seq<string>>

    constructor (world: World)
      ensures this.world == world && issued == []
    {
      this.world := world;
      issued := [];
    }

    /** `run_and_return(cmd, mode, inject_reminder)`. */
    method RunAndReturn(cmd: seq<string>, mode: string, inject: bool) returns (r: Result<Output, Failure>)
      modifies this
      ensures var s := Run(world, old(issued), cmd, mode, inject);
        issued == old(issued) + s.issued && r == s.result
    {
      var tool: Option<string>;
      if inject {
        tool := Located(world);
        if tool.None? {
          return Err(ToolNotFound);
        }
      } else {
        tool := None;
      }
      var argv := BuildCommand(tool, cmd, mode);
      var completed := world.respond(issued, argv);
      issued := issued + [argv];
      if completed.returncode != 0 {
        return Err(CommandFailure(argv, completed));
      }
      if mode == "raw" {
        r := Ok(Lines(SplitLines(completed.stdout)));
      } else if mode == "json" {
        var doc := world.decodeJson(Strip(completed.stdout));
        r := if doc.Some? then Ok(Document(doc.value)) else Err(JsonDecodeError);
      } else {
        r := Err(InvalidMode);
      }
    }

    /** `get_lists()`: the `show-lists` command in json mode. */
    method GetLists() returns (r: Result<Output, Failure>)
      modifies this
      ensures var s := Run(world, old(issued), ["show-lists"], "json", true);
        issued == old(issued) + s.issued && r == s.result
      ensures r.Ok? ==> r.value.Document?
    {
      r := RunAndReturn(["show-lists"], "json", true);
    }
  }
}
