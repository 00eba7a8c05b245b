/**
 * `TaskList`: a reminders list by name, whose tasks are fetched with the
 * `show` command once and then kept in the object (`_tasks`), and which can
 * tell whether the list exists and create it when it does not.
 */
module TaskLists {
  import opened Wrappers
  import opened JsonValues
  import opened Failures
  import opened Text
  import opened Commands
  import opened TaskItems

  /** The text by which the tool's reply tells that no list has the name asked for. */
  const Marker: string := "No reminders list matching"

  /** `ListNotFoundException(f"List '{name}' not found")`. */
  function NotFound(name: string): Failure
  {
    ListNotFound("List '" + name + "' not found")
  }

  /**
   * The `except TaskCommandException` clause of `tasks()`: a command failure
   * whose output mentions the marker becomes "list not found"; every other
   * failure is raised again unchanged.
   */
  function Classify(name: string, f: Failure): (g: Failure)
    ensures f.CommandFailed? && Contains(f.output, Marker) ==> g == NotFound(name)
    ensures !(f.CommandFailed? && Contains(f.output, Marker)) ==> g == f
  {
    if f.CommandFailed? && Contains(f.output, Marker) then NotFound(name) else f
  }

  /**
   * `tasks()` on a list whose memo is `cache`, after the commands `history`:
   * the memo when there is one, else the records of the `show` command in
   * json mode, or its failure classified.
   */
  function TasksSpec(w: World, history: seq<seq<string>>, name: string, cache: Option<seq<TaskItem>>): Step<seq<TaskItem>>
  {
    if cache.Some? then Step([], Ok(cache.value))
    else
      var run := Run(w, history, ["show", name], "json", true);
      if run.result.Err? then Step(run.issued, Err(Classify(name, run.result.error)))
      else Step(run.issued, ItemsOf(run.result.value.doc))
  }

  /** The memo after `tasks()`: set by a success, untouched by a failure. */
  function CacheAfter(cache: Option<seq<TaskItem>>, r: Result<seq<TaskItem>, Failure>): (c: Option<seq<TaskItem>>)
    ensures r.Ok? ==> c == Some(r.value)
    ensures r.Err? ==> c == cache
  {
    if r.Ok? then Some(r.value) else cache
  }

  /** `exists()`: "list not found" means false, a success true, and any other failure escapes. */
  function ExistsSpec(w: World, history: seq<seq<string>>, name: string, cache: Option<seq<TaskItem>>): Step<bool>
  {
    var t := TasksSpec(w, history, name, cache);
    if t.result.Ok? then Step(t.issued, Ok(true))
    else if t.result.error == NotFound(name) then Step(t.issued, Ok(false))
    else Step(t.issued, Err(t.result.error))
  }

  /**
   * `create()` once `exists()` has had the outcome `e`: a failure escapes, a
   * present list needs nothing more, an absent one gets `new-list` in raw mode.
   */
  function CreateAfter(w: World, history: seq<seq<string>>, name: string, e: Step<bool>): Step<()>
  {
    if e.result.Err? then Step(e.issued, Err(e.result.error))
    else if e.result.value then Step(e.issued, Ok(()))
    else
      var run := Run(w, history + e.issued, ["new-list", name], "raw", true);
      Step(e.issued + run.issued, if run.result.Ok? then Ok(()) else Err(run.result.error))
  }

  /** `create()` on a list whose memo is `cache`. */
  function CreateSpec(w: World, history: seq<seq<string>>, name: string, cache: Option<seq<TaskItem>>): Step<()>
  {
    CreateAfter(w, history, name, ExistsSpec(w, history, name, cache))
  }

  /** The memo makes a second `tasks()` free: no command, the same tasks. */
  lemma TasksTwice(w: World, history: seq<seq<string>>, name: string)
    ensures var first := TasksSpec(w, history, name, None);
      first.result.Ok? ==>
        TasksSpec(w, history + first.issued, name, CacheAfter(None, first.result)) == Step([], first.result)
  {
  }

  /** The marker ends in a letter, so stripping trailing whitespace cannot cut it off. */
  lemma MarkerEndsInLetter()
    ensures Marker != [] && !IsSpace(Marker[|Marker| - 1])
  {
    assert Marker[|Marker| - 1] == 'g';
  }

  /**
   * `tasks()` reports "list not found" exactly when nothing is cached, the tool
   * is found, and the `show` command exits nonzero with the marker somewhere in
   * its standard output (trailing whitespace makes no difference).
   */
  lemma ListNotFoundExactly(w: World, history: seq<seq<string>>, name: string, cache: Option<seq<TaskItem>>)
    ensures var argv := BuildCommand(Located(w), ["show", name], "json");
      var reply := w.respond(history, argv);
      TasksSpec(w, history, name, cache).result == Err(NotFound(name)) <==>
        cache.None? && Located(w).Some? && reply.returncode != 0 && Contains(reply.stdout, Marker)
  {
    var argv := BuildCommand(Located(w), ["show", name], "json");
    var run := Run(w, history, ["show", name], "json", true);
    if cache.Some? {
    } else if Located(w).None? {
      assert run.result == Err(ToolNotFound);
    } else if w.respond(history, argv).returncode != 0 {
      NotFoundOnFailure(w, history, name);
    } else {
      NoNotFoundOnSuccess(w, history, name);
    }
  }

  /** A failing `show` command means "list not found" exactly when its output holds the marker. */
  lemma NotFoundOnFailure(w: World, history: seq<seq<string>>, name: string)
    requires Located(w).Some?
    requires w.respond(history, BuildCommand(Located(w), ["show", name], "json")).returncode != 0
    ensures var reply := w.respond(history, BuildCommand(Located(w), ["show", name], "json"));
      TasksSpec(w, history, name, None).result == Err(NotFound(name)) <==> Contains(reply.stdout, Marker)
  {
    var argv := BuildCommand(Located(w), ["show", name], "json");
    var reply := w.respond(history, argv);
    var run := Run(w, history, ["show", name], "json", true);
    assert run.result == Err(CommandFailure(argv, reply));
    MarkerEndsInLetter();
    ContainsRStrip(reply.stdout, Marker);
  }

  /** A `show` command that exits with status 0 never means "list not found". */
  lemma NoNotFoundOnSuccess(w: World, history: seq<seq<string>>, name: string)
    requires Located(w).Some?
    requires w.respond(history, BuildCommand(Located(w), ["show", name], "json")).returncode == 0
    ensures TasksSpec(w, history, name, None).result != Err(NotFound(name))
  {
    var run := Run(w, history, ["show", name], "json", true);
    if run.result.Ok? {
      ItemsNeverNotFound(run.result.value.doc, name);
    } else {
      assert run.result.error == JsonDecodeError;
    }
  }

  /** Decoding a document never produces "list not found". */
  lemma ItemsNeverNotFound(doc: Json, name: string)
    ensures ItemsOf(doc) != Err(NotFound(name))
  {
    if doc.Array? && ItemsOf(doc).Err? {
      FirstFailure(doc.items);
      var i :| 0 <= i < |doc.items| && ItemOfJson(doc.items[i]) == Err(ItemsOf(doc).error);
      ItemNeverNotFound(doc.items[i]);
    }
  }

  /** A single record fails, if at all, only for its keys or its shape. */
  lemma ItemNeverNotFound(x: Json)
    ensures ItemOfJson(x).Err? ==> ItemOfJson(x).error in {UnexpectedField, MissingField, NotARecord}
  {
    if x.Object? {
      var r := Renamed(x.members);
      assert ItemOf(x.members) == Construct(r);
    }
  }

  /** `exists()` is false exactly when `tasks()` reports "list not found"; every other failure escapes. */
  lemma ExistsFalseExactly(w: World, history: seq<seq<string>>, name: string, cache: Option<seq<TaskItem>>)
    ensures var t := TasksSpec(w, history, name, cache);
      && (ExistsSpec(w, history, name, cache).result == Ok(false) <==> t.result == Err(NotFound(name)))
      && (t.result.Err? && t.result.error != NotFound(name) ==> ExistsSpec(w, history, name, cache).result == Err(t.result.error))
  {
  }

  /**
   * `tasks()` on an empty memo spawns the `show` command and no other; a
   * failure without the marker in the output is raised again unchanged.
   */
  lemma TasksReraises(w: World, history: seq<seq<string>>, name: string)
    ensures var run := Run(w, history, ["show", name], "json", true);
      var t := TasksSpec(w, history, name, None);
      && t.issued == run.issued
      && (run.result.Err? && !(run.result.error.CommandFailed? && Contains(run.result.error.output, Marker)) ==>
            t.result == Err(run.result.error))
      && (run.result.Ok? ==> t.result == ItemsOf(run.result.value.doc))
  {
  }

  /**
   * `create()` first does what `exists()` does; it adds a command only when the
   * list is absent, and a failure of `exists()` escapes.
   */
  lemma CreateSequence(w: World, history: seq<seq<string>>, name: string, e: Step<bool>)
    ensures var s := CreateAfter(w, history, name, e);
      && e.issued <= s.issued
      && (e.result != Ok(false) ==> s.issued == e.issued)
      && (e.result.Err? ==> s.result == Err(e.result.error))
      && (e.result == Ok(true) ==> s.result == Ok(()))
      && (e.result == Ok(false) ==> s.issued == e.issued + Run(w, history + e.issued, ["new-list", name], "raw", true).issued)
  {
  }

  /** `create()` spawns `new-list <name>` exactly when `exists()` answered false. */
  lemma CreateIssuesNewList(w: World, history: seq<seq<string>>, name: string, e: Step<bool>)
    requires Located(w).Some?
    ensures var s := CreateAfter(w, history, name, e);
      && (e.result == Ok(false) <==> |s.issued| == |e.issued| + 1)
      && (e.result == Ok(false) ==> s.issued[|e.issued|] == [Located(w).value, "new-list", name])
  {
    if e.result == Ok(false) {
      var run := Run(w, history + e.issued, ["new-list", name], "raw", true);
      var tool := Located(w).value;
      BuildRaw(tool, ["new-list", name]);
      assert [tool] + ["new-list", name] == [tool, "new-list", name];
      assert run.issued == [[Located(w).value, "new-list", name]];
    }
  }

  lemma BuildRaw(tool: string, cmd: seq<string>)
    ensures BuildCommand(Some(tool), cmd, "raw") == [tool] + cmd
  {
  }

  /** A list that holds its name and, once fetched, its tasks. */
  class TaskList {
    const name: string
    var cache: Option<seq<TaskItem>>

    constructor (name: string)
      ensures this.name == name && cache == None
    {
      this.name := name;
      cache := None;
    }

    /** `tasks()`. */
    method Tasks(tool: Tool) returns (r: Result<seq<TaskItem>, Failure>)
      modifies this, tool
      ensures var s := TasksSpec(tool.world, old(tool.issued), name, old(cache));
        && tool.issued == old(tool.issued) + s.issued
        && r == s.result
        && cache == CacheAfter(old(cache), r)
    {
      if cache.Some? {
        return Ok(cache.value);
      }
      var run := tool.RunAndReturn(["show", name], "json", true);
      if run.Err? {
        var failure := run.error;
        if failure.CommandFailed? && Contains(failure.output, Marker) {
          failure := NotFound(name);
        }
        return Err(failure);
      }
      r := ItemsFromDocument(run.value.doc);
      if r.Ok? {
        cache := Some(r.value);
      }
    }

    /** `exists()`. */
    method Exists(tool: Tool) returns (r: Result<bool, Failure>)
      modifies this, tool
      ensures var s := ExistsSpec(tool.world, old(tool.issued), name, old(cache));
        && tool.issued == old(tool.issued) + s.issued
        && r == s.result
        && cache == CacheAfter(old(cache), TasksSpec(tool.world, old(tool.issued), name, old(cache)).result)
    {
      var tasks := Tasks(tool);
      if tasks.Ok? {
        return Ok(true);
      }
      if tasks.error == NotFound(name) {
        return Ok(false);
      }
      return Err(tasks.error);
    }

    /** `create()`. */
    method Create(tool: Tool) returns (r: Result<(), Failure>)
      modifies this, tool
      ensures var s := CreateSpec(tool.world, old(tool.issued), name, old(cache));
        && tool.issued == old(tool.issued) + s.issued
        && r == s.result
        && cache == CacheAfter(old(cache), TasksSpec(tool.world, old(tool.issued), name, old(cache)).result)
    {
      ghost var history := tool.issued;
      ghost var e := ExistsSpec(tool.world, history, name, cache);
      var present := Exists(tool);
      assert present == e.result && tool.issued == history + e.issued;
      if present.Err? {
        return Err(present.error);
      }
      if present.value {
        return Ok(());
      }
      ghost var after := tool.issued;
      var run := tool.RunAndReturn(["new-list", name], "raw", true);
      ghost var s := Run(tool.world, after, ["new-list", name], "raw", true);
      assert tool.issued == after + s.issued;
      Text.ConcatAssociative(history, e.issued, s.issued);
      r := if run.Ok? then Ok(()) else Err(run.error);
    }
  }
}
