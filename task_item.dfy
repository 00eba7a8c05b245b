/**
 * `TaskItem` and `TaskItem.from_dict`: turning one record of the tool's JSON
 * output into a task, after renaming the tool's keys to the field names.
 */
module TaskItems {
  import opened Wrappers
  import opened JsonValues
  import opened Failures

  /** A reminder. Optional fields hold `Null` when absent, as the dataclass defaults them to `None`. */
  datatype TaskItem = TaskItem(title: Json, parent: Json, id: Json, isComplete: Json, priority: Json, index: Json)

  /** The dataclass fields, as keyword names. */
  const Fields: set<string> := {"title", "parent", "id", "is_complete", "priority", "index"}

  /** `rename_rules`: the tool's key on the left, the field it becomes on the right. */
  const RenameRules: map<string, string> := map["externalId" := "id", "isCompleted" := "is_complete", "list" := "parent"]

  /** The keys that the renaming of `d` writes. */
  function TargetsOf(d: map<string, Json>): set<string>
  {
    set s | s in d && s in RenameRules :: RenameRules[s]
  }

  /** `d[dst] = d.pop(src)`, when `apply` holds and `src` is a key of `d`. */
  function Move(d: map<string, Json>, src: string, dst: string, apply: bool): map<string, Json>
  {
    if apply && src in d then (d - {src})[dst := d[src]] else d
  }

  /**
   * The record `d` once the keys in `done` have been visited: every visited key
   * that has a rule is replaced by its target, which takes its value. The three
   * rules touch pairwise different keys, so the order of the visits is immaterial.
   */
  function RenamedPart(d: map<string, Json>, done: set<string>): map<string, Json>
  {
    var a := Move(d, "externalId", "id", "externalId" in done);
    var b := Move(a, "isCompleted", "is_complete", "isCompleted" in done);
    Move(b, "list", "parent", "list" in done)
  }

  /** The record after the renaming pass over all of its keys. */
  function Renamed(d: map<string, Json>): map<string, Json>
  {
    RenamedPart(d, d.Keys)
  }

  /**
   * What the renaming pass does: no key with a rule is left, each rule's
   * target holds the value of its key, every other key keeps its value unless
   * a target overwrote it, and nothing else is added.
   */
  lemma RenamedSpec(d: map<string, Json>)
    ensures var r := Renamed(d);
      && (forall s :: s in RenameRules ==> s !in r)
      && (forall s :: s in d && s in RenameRules ==> RenameRules[s] in r && r[RenameRules[s]] == d[s])
      && (forall k :: k in d && k !in RenameRules && k !in TargetsOf(d) ==> k in r && r[k] == d[k])
      && (forall k :: k in r ==> k in TargetsOf(d) || (k in d && k !in RenameRules))
  {
  }

  /** A keyword argument, or the dataclass default `None`. */
  function FieldOr(m: map<string, Json>, key: string): Json
  {
    if key in m then m[key] else Null
  }

  /** `TaskItem(**m)`: fails on a keyword that is not a field, then on a missing `title` or `parent`. */
  function Construct(m: map<string, Json>): (r: Result<TaskItem, Failure>)
    ensures r.Ok? <==> m.Keys <= Fields && "title" in m && "parent" in m
    ensures !(m.Keys <= Fields) ==> r == Err(UnexpectedField)
    ensures r.Ok? ==> r.value == TaskItem(m["title"], m["parent"], FieldOr(m, "id"),
                                          FieldOr(m, "is_complete"), FieldOr(m, "priority"), FieldOr(m, "index"))
  {
    if !(m.Keys <= Fields) then Err(UnexpectedField)
    else if "title" !in m || "parent" !in m then Err(MissingField)
    else Ok(TaskItem(m["title"], m["parent"], FieldOr(m, "id"),
                     FieldOr(m, "is_complete"), FieldOr(m, "priority"), FieldOr(m, "index")))
  }

  /** What `from_dict` makes of a record. */
  function ItemOf(d: map<string, Json>): Result<TaskItem, Failure>
  {
    Construct(Renamed(d))
  }

  /** Two moves between four different keys commute. */
  lemma MoveSwap(d: map<string, Json>, s1: string, t1: string, a1: bool, s2: string, t2: string, a2: bool)
    requires s1 != s2 && s1 != t2 && t1 != s2 && t1 != t2
    ensures Move(Move(d, s1, t1, a1), s2, t2, a2) == Move(Move(d, s2, t2, a2), s1, t1, a1)
  {
    var left, right := Move(Move(d, s1, t1, a1), s2, t2, a2), Move(Move(d, s2, t2, a2), s1, t1, a1);
    assert left.Keys == right.Keys;
    forall key | key in left ensures left[key] == right[key] {
    }
  }

  /** Visiting one more key moves the renaming on by that key's rule, if it has one. */
  lemma RenameStep(d: map<string, Json>, done: set<string>, k: string)
    requires k in d && k !in done
    ensures k in RenamedPart(d, done)
    ensures RenamedPart(d, done + {k}) ==
      if k in RenameRules then Move(RenamedPart(d, done), k, RenameRules[k], true)
      else RenamedPart(d, done)
  {
    var e, c, l := "externalId" in done, "isCompleted" in done, "list" in done;
    if k == "externalId" {
      MoveSwap(d, "externalId", "id", true, "isCompleted", "is_complete", c);
      MoveSwap(Move(d, "isCompleted", "is_complete", c), "externalId", "id", true, "list", "parent", l);
    } else if k == "isCompleted" {
      MoveSwap(Move(d, "externalId", "id", e), "isCompleted", "is_complete", true, "list", "parent", l);
    } else if k == "list" {
    } else {
      assert k !in RenameRules;
      assert ("externalId" in done + {k}) == e && ("isCompleted" in done + {k}) == c && ("list" in done + {k}) == l;
    }
  }

  /**
   * `TaskItem.from_dict(task)`: the loop over a copy of the keys renames the
   * record in place, then the record is passed as keyword arguments. The keys
   * are visited in an arbitrary order, which covers the dictionary's own.
   * `renamed` is the record as the loop leaves it.
   */
  method FromDict(task: map<string, Json>) returns (item: Result<TaskItem, Failure>, renamed: map<string, Json>)
    ensures renamed == Renamed(task)
    ensures item == ItemOf(task)
  {
    renamed := task;
    var pending := task.Keys;
    while pending != {}
      invariant pending <= task.Keys
      invariant renamed == RenamedPart(task, task.Keys - pending)
      decreases pending
    {
      var attribute :| attribute in pending;
      RenameStep(task, task.Keys - pending, attribute);
      assert task.Keys - pending + {attribute} == task.Keys - (pending - {attribute});
      if attribute in RenameRules {
        var value := renamed[attribute];
        renamed := (renamed - {attribute})[RenameRules[attribute] := value];
      }
      pending := pending - {attribute};
    }
    item := Construct(renamed);
  }

  /** The record the tool prints for a task, in its own key names. */
  function External(t: TaskItem): map<string, Json>
  {
    map["externalId" := t.id, "isCompleted" := t.isComplete, "list" := t.parent,
        "priority" := t.priority, "title" := t.title, "index" := t.index]
  }

  /** A task written out in the tool's key names comes back unchanged. */
  lemma ExternalRoundTrip(t: TaskItem)
    ensures ItemOf(External(t)) == Ok(t)
  {
    var d := External(t);
    var r := Renamed(d);
    assert r == map["id" := t.id, "is_complete" := t.isComplete, "parent" := t.parent,
                    "priority" := t.priority, "title" := t.title, "index" := t.index];
  }

  /**
   * A record with the keys of the `from_dict` unit test (no `index`) maps to the
   * task holding its values, with `index` left at its default.
   */
  lemma RecordWithoutIndex(d: map<string, Json>)
    requires d.Keys == {"externalId", "isCompleted", "list", "priority", "title"}
    ensures ItemOf(d) == Ok(TaskItem(d["title"], d["list"], d["externalId"], d["isCompleted"], d["priority"], Null))
  {
    var r := Renamed(d);
    RenamedSpec(d);
    assert TargetsOf(d) == {"id", "is_complete", "parent"} by {
      assert "externalId" in d && "isCompleted" in d && "list" in d;
    }
    assert r.Keys == {"id", "is_complete", "parent", "priority", "title"};
  }

  /** A key that is neither renamed nor a field makes `from_dict` fail. */
  lemma UnknownKeyFails(d: map<string, Json>, k: string)
    requires k in d && k !in RenameRules && k !in Fields
    ensures ItemOf(d) == Err(UnexpectedField)
  {
    RenamedSpec(d);
    assert k !in TargetsOf(d);
    assert k in Renamed(d);
  }

  /** A record without a title, or without both `list` and `parent`, makes `from_dict` fail. */
  lemma MissingKeyFails(d: map<string, Json>)
    requires "title" !in d || ("parent" !in d && "list" !in d)
    ensures ItemOf(d).Err?
  {
    var r := Renamed(d);
    RenamedSpec(d);
    assert "title" !in TargetsOf(d);
    assert "parent" in TargetsOf(d) ==> "list" in d;
  }

  /** One element of the document, as `from_dict` sees it: only a JSON object is a record. */
  function ItemOfJson(x: Json): Result<TaskItem, Failure>
  {
    if x.Object? then ItemOf(x.members) else Err(NotARecord)
  }

  /** `[TaskItem.from_dict(t) for t in records]`: stops at the first record that fails. */
  function ItemsOfRecords(records: seq<Json>): (r: Result<seq<TaskItem>, Failure>)
    ensures r.Ok? <==> forall i :: 0 <= i < |records| ==> ItemOfJson(records[i]).Ok?
    ensures r.Ok? ==> |r.value| == |records| && forall i :: 0 <= i < |records| ==> ItemOfJson(records[i]) == Ok(r.value[i])
  {
    if records == [] then Ok([])
    else
      var first := ItemOfJson(records[0]);
      if first.Err? then Err(first.error)
      else
        var rest := ItemsOfRecords(records[1..]);
        if rest.Err? then Err(rest.error) else Ok([first.value] + rest.value)
  }

  /** A failure of the comprehension is the failure of the first record that fails. */
  lemma {:induction false} FirstFailure(records: seq<Json>)
    requires ItemsOfRecords(records).Err?
    ensures exists i :: 0 <= i < |records| && ItemOfJson(records[i]) == Err(ItemsOfRecords(records).error)
                        && forall j :: 0 <= j < i ==> ItemOfJson(records[j]).Ok?
  {
    var e := ItemsOfRecords(records).error;
    if ItemOfJson(records[0]).Err? {
      assert ItemOfJson(records[0]) == Err(e);
    } else {
      var tail := records[1..];
      FirstFailure(tail);
      var i :| 0 <= i < |tail| && ItemOfJson(tail[i]) == Err(e) && forall j :: 0 <= j < i ==> ItemOfJson(tail[j]).Ok?;
      assert records[i + 1] == tail[i];
      assert forall j :: 0 < j <= i ==> records[j] == tail[j - 1];
    }
  }

  /** When every record before the `i`-th converts and the `i`-th does not, the comprehension fails with its failure. */
  lemma {:induction false} FailsAt(records: seq<Json>, i: nat)
    requires i < |records| && ItemOfJson(records[i]).Err?
    requires forall j :: 0 <= j < i ==> ItemOfJson(records[j]).Ok?
    ensures ItemsOfRecords(records) == Err(ItemOfJson(records[i]).error)
  {
    if i > 0 {
      var tail := records[1..];
      assert forall j :: 0 <= j < i - 1 ==> tail[j] == records[j + 1];
      assert tail[i - 1] == records[i];
      FailsAt(tail, i - 1);
    }
  }

  /** When every record converts, the comprehension gives the converted records in order. */
  lemma {:induction false} AllConvert(records: seq<Json>, items: seq<TaskItem>)
    requires |items| == |records|
    requires forall j :: 0 <= j < |records| ==> ItemOfJson(records[j]) == Ok(items[j])
    ensures ItemsOfRecords(records) == Ok(items)
  {
    if records != [] {
      assert forall j :: 0 <= j < |records| - 1 ==> records[1..][j] == records[j + 1] && items[1..][j] == items[j + 1];
      AllConvert(records[1..], items[1..]);
      assert items == [items[0]] + items[1..];
    }
  }

  /**
   * The tasks of a decoded `show` document. Iterating an object yields its keys
   * and iterating a string its characters, neither of which is a record, so
   * only the empty object and the empty string give no tasks.
   */
  function ItemsOf(doc: Json): Result<seq<TaskItem>, Failure>
  {
    match doc
    case Array(records) => ItemsOfRecords(records)
    case Object(members) => if members == map[] then Ok([]) else Err(NotARecord)
    case Str(s) => if s == "" then Ok([]) else Err(NotARecord)
    case _ => Err(NotIterable)
  }

  /** The list comprehension that builds the tasks of a `show` document, record by record. */
  method ItemsFromDocument(doc: Json) returns (r: Result<seq<TaskItem>, Failure>)
    ensures r == ItemsOf(doc)
  {
    if !doc.Array? {
      return ItemsOf(doc);
    }
    var records := doc.items;
    var items: seq<TaskItem> := [];
    for i := 0 to |records|
      invariant |items| == i
      invariant forall j :: 0 <= j < i ==> ItemOfJson(records[j]) == Ok(items[j])
    {
      var item: Result<TaskItem, Failure>;
      if records[i].Object? {
        var renamed;
        item, renamed := FromDict(records[i].members);
      } else {
        item := Err(NotARecord);
      }
      if item.Err? {
        FailsAt(records, i);
        return Err(item.error);
      }
      items := items + [item.value];
    }
    AllConvert(records, items);
    return Ok(items);
  }
}
