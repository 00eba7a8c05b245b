/**
 * The command sequencing of the command-line interface: which list a command
 * acts on, how `add` builds the task text, the order and the stopping rule of
 * `complete`, and the empty check of `display_table`.
 */
module Cli {
  import opened Wrappers
  import opened Failures
  import opened Text
  import opened Commands

  /**
   * `r_list or list_resolve()`: the `--list` value when it is given and not
   * empty, otherwise whatever the resolution returned (`resolved`).
   */
  function TargetList(option: Option<string>, resolved: Option<string>): (target: Option<string>)
    ensures option.Some? && option.value != "" ==> target == option
    ensures option.None? || option.value == "" ==> target == resolved
  {
    if option.Some? && option.value != "" then option else resolved
  }

  /** `except TaskCommandException as e: raise click.ClickException(e)`; other errors pass through. */
  function Wrap(f: Failure): (g: Failure)
    ensures f.CommandFailed? ==> g == ClickWrapping(f)
    ensures !f.CommandFailed? ==> g == f
  {
    if f.CommandFailed? then ClickWrapping(f) else f
  }

  /** The command `add` and `complete` spawn for list `list` and argument `arg`, when the tool is found. */
  function ListCommand(w: World, verb: string, list: string, arg: string): (argv: seq<string>)
    requires Located(w).Some?
    ensures argv == [Located(w).value, verb, list, arg]
  {
    BuildCommand(Located(w), [verb, list, arg], "raw")
  }

  /** A raw command echoes a first line: it exits with status 0 and prints something. */
  predicate Echoes(w: World, history: seq<seq<string>>, argv: seq<string>)
  {
    w.respond(history, argv).returncode == 0 && w.respond(history, argv).stdout != ""
  }

  /**
   * `run_and_return([verb, list, arg])[0]` inside the `try` of `add` and
   * `complete`: the first output line, a wrapped command failure, or an
   * `IndexError` when the command printed nothing.
   */
  function EchoFirst(w: World, history: seq<seq<string>>, verb: string, list: string, arg: string): Step<string>
  {
    var run := Run(w, history, [verb, list, arg], "raw", true);
    if run.result.Err? then Step(run.issued, Err(Wrap(run.result.error)))
    else if run.result.value.lines == [] then Step(run.issued, Err(NoOutputLine))
    else Step(run.issued, Ok(run.result.value.lines[0]))
  }

  /**
   * The echo spawns the one command `[tool, verb, list, arg]` when the tool is
   * found, and succeeds exactly when that command exits with status 0 and
   * prints something, whose first line it returns.
   */
  lemma EchoFirstSpec(w: World, history: seq<seq<string>>, verb: string, list: string, arg: string)
    ensures var s := EchoFirst(w, history, verb, list, arg);
      && s.issued == Run(w, history, [verb, list, arg], "raw", true).issued
      && (s.issued != [] <==> Located(w).Some?)
      && (s.issued != [] ==> s.issued == [ListCommand(w, verb, list, arg)])
      && (s.result.Ok? <==> s.issued != [] && Echoes(w, history, s.issued[0]))
      && (s.result.Ok? ==> s.result.value == SplitLines(w.respond(history, s.issued[0]).stdout)[0])
  {
    var run := Run(w, history, [verb, list, arg], "raw", true);
    if run.issued != [] && run.result.Ok? {
      var stdout := w.respond(history, run.issued[0]).stdout;
      assert run.result.value.lines == SplitLines(stdout);
    }
  }

  /**
   * `add`: the words joined with single spaces; empty text is refused before
   * anything runs; otherwise one `add` command, whose first output line is
   * echoed.
   */
  function AddSpec(w: World, history: seq<seq<string>>, option: Option<string>, resolved: Option<string>, words: seq<string>): Step<string>
  {
    var list := TargetList(option, resolved);
    var text := JoinWith(" ", words);
    if text == "" then Step([], Err(Click("No task specified, arborting")))
    else if list.None? then Step([], Err(Rejected(w, true)))
    else EchoFirst(w, history, "add", list.value, text)
  }

  /** `add` refuses exactly no words or one empty word, and then spawns nothing. */
  lemma AddEmptyText(w: World, history: seq<seq<string>>, option: Option<string>, resolved: Option<string>, words: seq<string>)
    ensures AddSpec(w, history, option, resolved, words).result == Err(Click("No task specified, arborting"))
      <==> words == [] || words == [""]
    ensures words == [] || words == [""] ==> AddSpec(w, history, option, resolved, words).issued == []
  {
    JoinEmpty(" ", words);
    var list := TargetList(option, resolved);
    var text := JoinWith(" ", words);
    if text != "" && list.Some? {
      var s := EchoFirst(w, history, "add", list.value, text);
      var run := Run(w, history, ["add", list.value, text], "raw", true);
      assert run.result.Err? ==> run.result.error in {ToolNotFound, InvalidMode, JsonDecodeError} || run.result.error.CommandFailed?;
    }
  }

  /**
   * With text, a list and the tool found, `add` spawns exactly
   * `[tool, "add", list, text]` and succeeds exactly when that command echoes.
   */
  lemma AddIssuesOne(w: World, history: seq<seq<string>>, option: Option<string>, resolved: Option<string>, words: seq<string>)
    requires JoinWith(" ", words) != "" && TargetList(option, resolved).Some? && Located(w).Some?
    ensures var argv := [Located(w).value, "add", TargetList(option, resolved).value, JoinWith(" ", words)];
      && AddSpec(w, history, option, resolved, words).issued == [argv]
      && (AddSpec(w, history, option, resolved, words).result.Ok? <==> Echoes(w, history, argv))
  {
    EchoFirstSpec(w, history, "add", TargetList(option, resolved).value, JoinWith(" ", words));
  }

  /** The text of `add` splits back into its words when none of them holds a space. */
  lemma AddTextWords(words: seq<string>)
    requires words != []
    requires forall k :: 0 <= k < |words| ==> ' ' !in words[k]
    ensures SplitOn(' ', JoinWith(" ", words)) == words
  {
    SplitJoin(' ', words);
  }

  /**
   * The loop of `complete` over the arguments `pending`, already in the order
   * it visits them: one command each, stopping at the first that fails or
   * prints nothing. The result holds the echoed lines.
   */
  function CompleteFrom(w: World, history: seq<seq<string>>, list: Option<string>, pending: seq<string>): Step<seq<string>>
    decreases |pending|
  {
    if pending == [] then Step([], Ok([]))
    else if list.None? then Step([], Err(Rejected(w, true)))
    else
      var first := EchoFirst(w, history, "complete", list.value, pending[0]);
      if first.result.Err? then Step(first.issued, Err(first.result.error))
      else
        var rest := CompleteFrom(w, history + first.issued, list, pending[1..]);
        Step(first.issued + rest.issued, if rest.result.Ok? then Ok([first.result.value] + rest.result.value) else rest.result)
  }

  /**
   * `complete` spawns at most one command per argument, nothing at all when
   * the list or the tool is missing, and when it succeeds one command and one
   * echoed line per argument.
   */
  lemma {:induction false} CompleteBounds(w: World, history: seq<seq<string>>, list: Option<string>, pending: seq<string>)
    ensures var s := CompleteFrom(w, history, list, pending);
      && |s.issued| <= |pending|
      && (pending != [] && (list.None? || Located(w).None?) ==> s.issued == [] && s.result.Err?)
      && (s.result.Ok? ==> |s.issued| == |pending| && |s.result.value| == |pending|)
    decreases |pending|
  {
    if pending != [] && list.Some? {
      var first := EchoFirst(w, history, "complete", list.value, pending[0]);
      if first.result.Ok? {
        CompleteBounds(w, history + first.issued, list, pending[1..]);
      }
    }
  }

  /** Command `k` of `complete` names the `k`-th argument it visits. */
  lemma {:induction false} CompleteCommands(w: World, history: seq<seq<string>>, list: string, pending: seq<string>)
    requires Located(w).Some?
    ensures var issued := CompleteFrom(w, history, Some(list), pending).issued;
      && |issued| <= |pending|
      && forall k :: 0 <= k < |issued| ==> issued[k] == ListCommand(w, "complete", list, pending[k])
    decreases |pending|
  {
    if pending != [] {
      var first := EchoFirst(w, history, "complete", list, pending[0]);
      EchoFirstSpec(w, history, "complete", list, pending[0]);
      if first.result.Ok? {
        var rest := CompleteFrom(w, history + first.issued, Some(list), pending[1..]);
        CompleteCommands(w, history + first.issued, list, pending[1..]);
        var issued := first.issued + rest.issued;
        forall k | 0 < k < |issued| ensures issued[k] == ListCommand(w, "complete", list, pending[k]) {
          assert issued[k] == rest.issued[k - 1] && pending[1..][k - 1] == pending[k];
        }
      }
    }
  }

  /** Each of the commands `cmds`, spawned in turn after `history`, echoed a line. */
  predicate AllEcho(w: World, history: seq<seq<string>>, cmds: seq<seq<string>>)
    decreases |cmds|
  {
    cmds == [] || (Echoes(w, history, cmds[0]) && AllEcho(w, history + [cmds[0]], cmds[1..]))
  }

  /** Of the commands `cmds`, spawned in turn after `history`, all but the last echoed a line and the last did not. */
  predicate FailsLast(w: World, history: seq<seq<string>>, cmds: seq<seq<string>>)
    decreases |cmds|
  {
    cmds != [] &&
    if |cmds| == 1 then !Echoes(w, history, cmds[0])
    else Echoes(w, history, cmds[0]) && FailsLast(w, history + [cmds[0]], cmds[1..])
  }

  /**
   * `complete` stops at the first command that fails or prints nothing: when
   * it succeeds every command echoed, and when it fails after spawning, only
   * its last command did not.
   */
  lemma {:induction false} CompleteStops(w: World, history: seq<seq<string>>, list: Option<string>, pending: seq<string>)
    ensures var s := CompleteFrom(w, history, list, pending);
      && (s.result.Ok? ==> AllEcho(w, history, s.issued))
      && (s.result.Err? && s.issued != [] ==> FailsLast(w, history, s.issued))
    decreases |pending|
  {
    if pending != [] && list.Some? {
      var first := EchoFirst(w, history, "complete", list.value, pending[0]);
      if first.result.Ok? {
        var rest := CompleteFrom(w, history + first.issued, list, pending[1..]);
        var issued := first.issued + rest.issued;
        CompleteStops(w, history + first.issued, list, pending[1..]);
        assert issued[0] == first.issued[0] && issued[1..] == rest.issued;
        assert history + first.issued == history + [issued[0]];
      }
    }
  }

  /** `complete`: the arguments from largest to smallest as strings, on the target list. */
  function CompleteSpec(w: World, history: seq<seq<string>>, option: Option<string>, resolved: Option<string>, tasks: seq<string>): Step<seq<string>>
  {
    CompleteFrom(w, history, TargetList(option, resolved), SortDescending(tasks))
  }

  /** `complete` with no arguments spawns nothing and succeeds. */
  lemma CompleteNothing(w: World, history: seq<seq<string>>, option: Option<string>, resolved: Option<string>)
    ensures CompleteSpec(w, history, option, resolved, []) == Step([], Ok([]))
  {
  }

  /**
   * The commands `complete` spawns name its arguments in descending string
   * order, each argument at most as often as it was given.
   */
  lemma CompleteDescending(w: World, history: seq<seq<string>>, option: Option<string>, resolved: Option<string>, tasks: seq<string>)
    requires TargetList(option, resolved).Some? && Located(w).Some?
    ensures var issued := CompleteSpec(w, history, option, resolved, tasks).issued;
      && (forall k :: 0 <= k < |issued| ==> |issued[k]| == 4 && issued[k][3] in tasks)
      && (forall i, j :: 0 <= i < j < |issued| ==> !LexLess(issued[i][3], issued[j][3]))
  {
    var order := SortDescending(tasks);
    var issued := CompleteSpec(w, history, option, resolved, tasks).issued;
    CompleteCommands(w, history, TargetList(option, resolved).value, order);
    forall k | 0 <= k < |issued| ensures |issued[k]| == 4 && issued[k][3] in tasks {
      assert issued[k][3] == order[k];
      assert order[k] in multiset(order);
    }
  }

  /** `complete 2 0 3` visits 3, then 2, then 0. */
  lemma CompleteExampleDigits(given: seq<string>, expected: seq<string>)
    requires given == ["2", "0", "3"] && expected == ["3", "2", "0"]
    ensures SortDescending(given) == expected
  {
    assert LexLess("2", "3") && LexLess("0", "2") && LexLess("0", "3");
    assert Descending(expected);
    assert multiset(given) == multiset(expected);
    DescendingUnique(SortDescending(given), expected);
  }

  /** `complete 10 9` visits 9 before 10: the order is on strings, not numbers. */
  lemma CompleteExampleStrings(given: seq<string>, expected: seq<string>)
    requires given == ["10", "9"] && expected == ["9", "10"]
    ensures SortDescending(given) == expected
  {
    assert LexLess("10", "9");
    assert Descending(expected);
    assert multiset(given) == multiset(expected);
    DescendingUnique(SortDescending(given), expected);
  }

  /** `add`, spawning through `tool`. */
  method Add(tool: Tool, option: Option<string>, resolved: Option<string>, words: seq<string>) returns (r: Result<string, Failure>)
    modifies tool
    ensures var s := AddSpec(tool.world, old(tool.issued), option, resolved, words);
      tool.issued == old(tool.issued) + s.issued && r == s.result
  {
    var list := TargetList(option, resolved);
    var text := JoinWith(" ", words);
    if text == "" {
      return Err(Click("No task specified, arborting"));
    }
    if list.None? {
      return Err(Rejected(tool.world, true));
    }
    r := Echo(tool, "add", list.value, text);
  }

  /** `click.echo(run_and_return([verb, list, arg])[0])` inside its `try`. */
  method Echo(tool: Tool, verb: string, list: string, arg: string) returns (r: Result<string, Failure>)
    modifies tool
    ensures var s := EchoFirst(tool.world, old(tool.issued), verb, list, arg);
      tool.issued == old(tool.issued) + s.issued && r == s.result
  {
    var run := tool.RunAndReturn([verb, list, arg], "raw", true);
    if run.Err? {
      return Err(Wrap(run.error));
    }
    if run.value.lines == [] {
      return Err(NoOutputLine);
    }
    return Ok(run.value.lines[0]);
  }

  /** `complete`, spawning through `tool`: the loop over `sorted(tasks, reverse=True)`. */
  method Complete(tool: Tool, option: Option<string>, resolved: Option<string>, tasks: seq<string>) returns (r: Result<seq<string>, Failure>)
    modifies tool
    ensures var s := CompleteSpec(tool.world, old(tool.issued), option, resolved, tasks);
      tool.issued == old(tool.issued) + s.issued && r == s.result
  {
    var list := TargetList(option, resolved);
    var order := SortDescending(tasks);
    if order == [] {
      return Ok([]);
    }
    if list.None? {
      // The first turn of the loop passes `None` on to the tool.
      return Err(Rejected(tool.world, true));
    }
    r := CompleteEach(tool, list.value, order);
  }

  /** The loop of `complete` on a resolved list, over `order` one argument at a time. */
  method CompleteEach(tool: Tool, list: string, order: seq<string>) returns (r: Result<seq<string>, Failure>)
    modifies tool
    ensures var s := CompleteFrom(tool.world, old(tool.issued), Some(list), order);
      tool.issued == old(tool.issued) + s.issued && r == s.result
  {
    ghost var w := tool.world;
    ghost var start := tool.issued;
    ghost var all := CompleteFrom(w, start, Some(list), order);
    ghost var done: seq<seq<string>> := [];
    var echoed: seq<string> := [];
    assert order[0..] == order;
    PrependEmpty([], [], all);
    for i := 0 to |order|
      invariant tool.issued == start + done
      invariant all == Prepend(done, echoed, CompleteFrom(w, tool.issued, Some(list), order[i..]))
    {
      ghost var first := EchoFirst(w, tool.issued, "complete", list, order[i]);
      CompleteTurn(w, tool.issued, list, order, i, done, echoed);
      var line := Echo(tool, "complete", list, order[i]);
      ConcatAssociative(start, done, first.issued);
      if line.Err? {
        return Err(line.error);
      }
      done := done + first.issued;
      echoed := echoed + [line.value];
    }
    assert order[|order|..] == [];
    PrependEmpty(done, echoed, Step([], Ok([])));
    return Ok(echoed);
  }

  /**
   * One turn of `complete`'s loop, after the loop has spawned `done` and echoed
   * `echoed`: a failing command ends the loop with its failure, an echoing one
   * hands on to the next argument.
   */
  lemma CompleteTurn(w: World, history: seq<seq<string>>, list: string, order: seq<string>, i: nat,
                     done: seq<seq<string>>, echoed: seq<string>)
    requires i < |order|
    ensures var first := EchoFirst(w, history, "complete", list, order[i]);
      var whole := Prepend(done, echoed, CompleteFrom(w, history, Some(list), order[i..]));
      && (first.result.Err? ==> whole == Step(done + first.issued, Err(first.result.error)))
      && (first.result.Ok? ==> whole == Prepend(done + first.issued, echoed + [first.result.value],
                                                CompleteFrom(w, history + first.issued, Some(list), order[i + 1..])))
  {
    var first := EchoFirst(w, history, "complete", list, order[i]);
    if first.result.Ok? {
      var next := CompleteFrom(w, history + first.issued, Some(list), order[i + 1..]);
      CompleteFromStep(w, history, list, order, i);
      PrependTwice(done, echoed, first.issued, [first.result.value], next);
    }
  }

  /**
   * The outcome of a loop that has already spawned `issued` and echoed
   * `echoed`, and then goes on as `s`.
   */
  function Prepend(issued: seq<seq<string>>, echoed: seq<string>, s: Step<seq<string>>): Step<seq<string>>
  {
    Step(issued + s.issued, if s.result.Ok? then Ok(echoed + s.result.value) else s.result)
  }

  /** Nothing done yet leaves the outcome alone; nothing left to do ends in success. */
  lemma PrependEmpty(issued: seq<seq<string>>, echoed: seq<string>, s: Step<seq<string>>)
    ensures Prepend([], [], s) == s
    ensures Prepend(issued, echoed, Step([], Ok([]))) == Step(issued, Ok(echoed))
  {
    assert [] + s.issued == s.issued;
    assert issued + [] == issued && echoed + [] == echoed;
    if s.result.Ok? {
      assert [] + s.result.value == s.result.value;
    }
  }

  /** Two stretches of the loop run one after the other make one. */
  lemma PrependTwice(issued: seq<seq<string>>, echoed: seq<string>, issued2: seq<seq<string>>, echoed2: seq<string>, s: Step<seq<string>>)
    ensures Prepend(issued, echoed, Prepend(issued2, echoed2, s)) == Prepend(issued + issued2, echoed + echoed2, s)
  {
    assert issued + (issued2 + s.issued) == issued + issued2 + s.issued;
    if s.result.Ok? {
      assert echoed + (echoed2 + s.result.value) == echoed + echoed2 + s.result.value;
    }
  }

  /** One turn of `complete`'s loop, when the command for `order[i]` echoed. */
  lemma CompleteFromStep(w: World, history: seq<seq<string>>, list: string, order: seq<string>, i: nat)
    requires i < |order|
    requires EchoFirst(w, history, "complete", list, order[i]).result.Ok?
    ensures var first := EchoFirst(w, history, "complete", list, order[i]);
      CompleteFrom(w, history, Some(list), order[i..])
        == Prepend(first.issued, [first.result.value], CompleteFrom(w, history + first.issued, Some(list), order[i + 1..]))
  {
    assert order[i..][1..] == order[i + 1..];
  }

  /** The table `display_table` hands to the renderer: the headers and one single-cell row per entry. */
  datatype Table = Table(headers: seq<string>, rows: seq<seq<string>>)

  /** `display_table(array, headers)`: refuses an empty sequence, else one row per element, in order. */
  method DisplayTable(entries: seq<string>, headers: seq<string>) returns (r: Result<Table, Failure>)
    ensures r.Ok? <==> entries != []
    ensures entries == [] <==> r == Err(Click("No results found"))
    ensures r.Ok? ==> r.value.headers == headers && |r.value.rows| == |entries|
    ensures r.Ok? ==> forall i :: 0 <= i < |entries| ==> r.value.rows[i] == [entries[i]]
  {
    if |entries| == 0 {
      return Err(Click("No results found"));
    }
    var rows: seq<seq<string>> := [];
    for i := 0 to |entries|
      invariant |rows| == i
      invariant forall j :: 0 <= j < i ==> rows[j] == [entries[j]]
    {
      rows := rows + [[entries[i]]];
    }
    return Ok(Table(headers, rows));
  }
}
