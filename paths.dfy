/**
 * `list_name_from_path`: which reminders list a working directory belongs to.
 * Paths follow `pathlib.PurePosixPath`: a root ("", "/" or "//") and the
 * segments between slashes, with empty and "." segments dropped. Comparison is
 * exact (POSIX paths do not fold case).
 */
module Paths {
  import opened Wrappers
  import Text

  datatype PurePath = PurePath(root: string, segments: seq<string>)

  /** A segment as `PurePosixPath` keeps it: not empty, not ".", no slash. */
  predicate IsSegment(s: string)
  {
    s != "" && s != "." && '/' !in s
  }

  /** The index of the first '/' in `s`, or `|s|` when there is none. */
  function SlashIndex(s: string): (i: nat)
    ensures i <= |s|
    ensures forall j :: 0 <= j < i ==> s[j] != '/'
    ensures i < |s| ==> s[i] == '/'
  {
    if s == [] || s[0] == '/' then 0 else 1 + SlashIndex(s[1..])
  }

  /** A piece between slashes as a list of segments: nothing when it is empty or ".". */
  function Kept(piece: string): seq<string>
  {
    if piece == "" || piece == "." then [] else [piece]
  }

  /** The segments of `s`: the pieces between slashes, without empty and "." pieces. */
  function Segments(s: string): seq<string>
    decreases |s|
  {
    var i := SlashIndex(s);
    Kept(s[..i]) + if i < |s| then Segments(s[i + 1..]) else []
  }

  /** Every piece `Segments` keeps is a segment. */
  lemma {:induction false} SegmentsAreSegments(s: string)
    ensures forall k :: 0 <= k < |Segments(s)| ==> IsSegment(Segments(s)[k])
    decreases |s|
  {
    var i := SlashIndex(s);
    var head := s[..i];
    assert '/' !in head by {
      assert forall j :: 0 <= j < |head| ==> head[j] == s[j];
    }
    if i < |s| {
      SegmentsAreSegments(s[i + 1..]);
    }
  }

  /** The first slash is where the characters before it are no slashes and the next one is. */
  lemma {:induction false} SlashIndexAt(s: string, i: nat)
    requires i <= |s| && (forall j :: 0 <= j < i ==> s[j] != '/') && (i < |s| ==> s[i] == '/')
    ensures SlashIndex(s) == i
    decreases |s|
  {
    if i > 0 {
      var tail := s[1..];
      assert forall j :: 0 <= j < i - 1 ==> tail[j] == s[j + 1];
      assert i - 1 < |tail| ==> tail[i - 1] == s[i];
      SlashIndexAt(tail, i - 1);
    }
  }

  /** The root `PurePosixPath` gives a path: exactly two leading slashes are kept as "//". */
  function Root(s: string): string
  {
    if |s| >= 1 && s[0] == '/' then
      if |s| >= 2 && s[1] == '/' && (|s| == 2 || s[2] != '/') then "//" else "/"
    else ""
  }

  /** `PurePosixPath(s)`. */
  function Parse(s: string): PurePath
  {
    PurePath(Root(s), Segments(s))
  }

  /** `path.relative_to(base)`: the segments below `base`, or None when `path` is not under it. */
  function RelativeTo(path: PurePath, base: PurePath): (rel: Option<seq<string>>)
    ensures rel.Some? <==> path.root == base.root && base.segments <= path.segments
    ensures rel.Some? ==> base.segments + rel.value == path.segments
  {
    if path.root == base.root && base.segments <= path.segments then
      Some(path.segments[|base.segments|..])
    else None
  }

  /** `path` lies strictly below `base`. */
  predicate Below(path: PurePath, base: PurePath)
  {
    path.root == base.root && base.segments < path.segments
  }

  /** The directory the resolution looks at: `working_dir` when it is given and not empty, else the current directory. */
  function EffectiveDir(workingDir: Option<string>, cwd: string): string
  {
    if workingDir.Some? && workingDir.value != "" then workingDir.value else cwd
  }

  /**
   * `list_name_from_path(project_dir, working_dir)`, with the process's current
   * directory passed in as `cwd`: the first segment of the working directory
   * below the project directory, or None when the working directory is the
   * project directory or not inside it.
   */
  function ListNameFromPath(projectDir: string, workingDir: Option<string>, cwd: string): (name: Option<string>)
    ensures var dir, project := Parse(EffectiveDir(workingDir, cwd)), Parse(projectDir);
      && (name.Some? <==> Below(dir, project))
      && (name.Some? ==> name.value == dir.segments[|project.segments|] && IsSegment(name.value))
  {
    var dir := Parse(EffectiveDir(workingDir, cwd));
    var rel := RelativeTo(dir, Parse(projectDir));
    SegmentsAreSegments(EffectiveDir(workingDir, cwd));
    if rel.None? then None
    else if rel.value == [] then None
    else Some(rel.value[0])
  }

  /** Appending "/" and more text to a path extends its segments by the segments of that text. */
  lemma {:induction false} SegmentsAppend(a: string, b: string)
    ensures Segments(a + "/" + b) == Segments(a) + Segments(b)
    decreases |a|, 1
  {
    if SlashIndex(a) < |a| {
      SegmentsAppendAfterSlash(a, b);
    } else {
      SegmentsAppendNoSlash(a, b);
    }
  }

  /** The case of `SegmentsAppend` where `a` holds a slash: the first piece is the same on both sides. */
  lemma {:induction false} SegmentsAppendAfterSlash(a: string, b: string)
    requires SlashIndex(a) < |a|
    ensures Segments(a + "/" + b) == Segments(a) + Segments(b)
    decreases |a|, 0
  {
    var i := SlashIndex(a);
    var tail := a[i + 1..];
    SlicesOfAppend(a, "/" + b, i);
    PrefixSlashIndex(a, "/" + b);
    SegmentsAppend(tail, b);
    SegmentsAt(a + ("/" + b), i);
    SegmentsAt(a, i);
    ConcatSlash(a, b);
    ConcatSlash(tail, b);
    Text.ConcatAssociative(Kept(a[..i]), Segments(tail), Segments(b));
  }

  /** `Segments` split at the first slash. */
  lemma SegmentsAt(s: string, i: nat)
    requires i == SlashIndex(s) && i < |s|
    ensures Segments(s) == Kept(s[..i]) + Segments(s[i + 1..])
  {
  }

  lemma SlicesOfAppend(a: string, t: string, i: nat)
    requires i < |a|
    ensures (a + t)[..i] == a[..i] && (a + t)[i + 1..] == a[i + 1..] + t
  {
  }

  lemma ConcatSlash(a: string, b: string)
    ensures a + "/" + b == a + ("/" + b)
  {
  }

  /** The case of `SegmentsAppend` where `a` has no slash: `a` is the first piece. */
  lemma SegmentsAppendNoSlash(a: string, b: string)
    requires SlashIndex(a) == |a|
    ensures Segments(a + "/" + b) == Segments(a) + Segments(b)
  {
    SlicesAtSlash(a, b);
    SlashIndexAt(a + "/" + b, |a|);
    SegmentsAt(a + "/" + b, |a|);
    SegmentsWhole(a);
  }

  /** The pieces of `a + "/" + b` around the slash after `a`. */
  lemma SlicesAtSlash(a: string, b: string)
    ensures (a + "/" + b)[..|a|] == a && (a + "/" + b)[|a|] == '/' && (a + "/" + b)[|a| + 1..] == b
    ensures forall j :: 0 <= j < |a| ==> (a + "/" + b)[j] == a[j]
  {
  }

  /** A text without a slash is one piece. */
  lemma SegmentsWhole(a: string)
    requires SlashIndex(a) == |a|
    ensures Segments(a) == Kept(a)
  {
    assert a[..|a|] == a;
  }

  /** A slash inside `a` is still the first slash once more text follows. */
  lemma PrefixSlashIndex(a: string, t: string)
    requires SlashIndex(a) < |a|
    ensures SlashIndex(a + t) == SlashIndex(a)
  {
    var i := SlashIndex(a);
    assert forall j :: 0 <= j <= i ==> (a + t)[j] == a[j];
    SlashIndexAt(a + t, i);
  }

  /** A path with a character other than '/' keeps its root whatever is appended. */
  lemma RootAppend(a: string, b: string)
    requires exists j :: 0 <= j < |a| && a[j] != '/'
    ensures Root(a + b) == Root(a)
  {
    var s := a + b;
    var j :| 0 <= j < |a| && a[j] != '/';
    assert s[0] == a[0];
    if |a| >= 3 {
      assert s[1] == a[1] && s[2] == a[2];
    } else if a[0] == '/' {
      assert j == 1;
      assert s[1] == a[1];
    }
  }

  /** However deep the working directory lies below the list's directory, the list name is the same. */
  lemma NestedDirectory(projectDir: string, dir: string, deeper: string, cwd: string)
    requires dir != "" && ListNameFromPath(projectDir, Some(dir), cwd).Some?
    ensures ListNameFromPath(projectDir, Some(dir + "/" + deeper), cwd) == ListNameFromPath(projectDir, Some(dir), cwd)
  {
    assert EffectiveDir(Some(dir), cwd) == dir;
    assert Parse(dir).segments != [];
    ParseNested(dir, deeper);
    BelowExtended(Parse(dir), Parse(projectDir), Segments(deeper));
    assert EffectiveDir(Some(dir + "/" + deeper), cwd) == dir + "/" + deeper;
  }

  /** Appending "/" and more text to a path with a segment keeps its root and extends its segments. */
  lemma ParseNested(dir: string, deeper: string)
    requires Segments(dir) != []
    ensures Parse(dir + "/" + deeper) == PurePath(Root(dir), Segments(dir) + Segments(deeper))
  {
    NonSlashWitness(dir);
    RootAppend(dir, "/" + deeper);
    ConcatSlash(dir, deeper);
    SegmentsAppend(dir, deeper);
  }

  /** A path below a base stays below it, by the same first segment, when segments are appended. */
  lemma BelowExtended(path: PurePath, base: PurePath, extra: seq<string>)
    requires Below(path, base)
    ensures Below(PurePath(path.root, path.segments + extra), base)
    ensures (path.segments + extra)[|base.segments|] == path.segments[|base.segments|]
  {
    assert (path.segments + extra)[..|path.segments|] == path.segments;
  }

  /** A path with at least one segment has a character other than '/'. */
  lemma {:induction false} NonSlashWitness(s: string)
    requires Segments(s) != []
    ensures exists j :: 0 <= j < |s| && s[j] != '/'
    decreases |s|
  {
    var i := SlashIndex(s);
    if i > 0 {
      assert s[0] != '/';
    } else {
      assert s[..i] == "";
      assert i < |s|;
      NonSlashWitness(s[i + 1..]);
      var j :| 0 <= j < |s[i + 1..]| && s[i + 1..][j] != '/';
      assert s[i + 1 + j] != '/';
    }
  }

  /** A trailing slash on the project directory does not change the result. */
  lemma ProjectTrailingSlash(projectDir: string, workingDir: Option<string>, cwd: string)
    requires exists j :: 0 <= j < |projectDir| && projectDir[j] != '/'
    ensures ListNameFromPath(projectDir + "/", workingDir, cwd) == ListNameFromPath(projectDir, workingDir, cwd)
  {
    RootAppend(projectDir, "/");
    SegmentsAppend(projectDir, "");
    assert projectDir + "/" + "" == projectDir + "/";
    assert Segments("") == [];
    assert Parse(projectDir + "/") == Parse(projectDir);
  }

  /** A single segment parses to itself. */
  lemma SegmentsOfSegment(w: string)
    requires IsSegment(w)
    ensures Segments(w) == [w]
  {
    assert SlashIndex(w) == |w|;
    assert w[..|w|] == w;
  }

  /** Segments joined with '/' parse back to the same segments. */
  lemma {:induction false} SegmentsJoin(parts: seq<string>)
    requires forall p :: p in parts ==> IsSegment(p)
    ensures Segments(Text.JoinWith("/", parts)) == parts
  {
    if parts == [] {
      SegmentsEmpty();
    } else if |parts| == 1 {
      SegmentsOfSegment(parts[0]);
    } else {
      var rest := Text.JoinWith("/", parts[1..]);
      JoinCons(parts);
      SegmentsOfSegment(parts[0]);
      SegmentsJoin(parts[1..]);
      SegmentsAppend(parts[0], rest);
      ConsTail(parts);
    }
  }

  lemma JoinCons(parts: seq<string>)
    requires |parts| > 1
    ensures Text.JoinWith("/", parts) == parts[0] + "/" + Text.JoinWith("/", parts[1..])
  {
  }

  lemma ConsTail<T>(s: seq<T>)
    requires s != []
    ensures [s[0]] + s[1..] == s
  {
  }

  lemma SegmentsEmpty()
    ensures Segments("") == []
  {
  }

  /** The absolute path made of `parts`. */
  lemma ParseAbsolute(s: string, parts: seq<string>)
    requires forall p :: p in parts ==> IsSegment(p)
    requires parts != [] && s == "/" + Text.JoinWith("/", parts)
    ensures Parse(s) == PurePath("/", parts)
  {
    var joined := Text.JoinWith("/", parts);
    SegmentsJoin(parts);
    JoinStartsWithFirst(parts);
    LeadingSlash(joined);
  }

  /** One slash before a text that does not start with one: the root "/" and the text's own segments. */
  lemma LeadingSlash(t: string)
    requires |t| > 0 && t[0] != '/'
    ensures Root("/" + t) == "/" && Segments("/" + t) == Segments(t)
  {
    var s := "/" + t;
    assert s[0] == '/' && s[1] == t[0] && s[1..] == t;
    SlashIndexAt(s, 0);
    SegmentsAt(s, 0);
    assert s[..0] == "";
  }

  lemma JoinStartsWithFirst(parts: seq<string>)
    requires forall p :: p in parts ==> IsSegment(p)
    requires parts != []
    ensures |Text.JoinWith("/", parts)| > 0 && Text.JoinWith("/", parts)[0] != '/'
  {
    var p := parts[0];
    assert p in parts && IsSegment(p);
    assert p[0] in p;
    if |parts| > 1 {
      assert Text.JoinWith("/", parts) == p + ("/" + Text.JoinWith("/", parts[1..]));
    }
  }

  /** For absolute paths spelled out segment by segment, resolution is arithmetic on the segments. */
  lemma ListNameOfAbsolute(project: string, dir: string, projectParts: seq<string>, dirParts: seq<string>)
    requires forall p :: p in projectParts ==> IsSegment(p)
    requires forall p :: p in dirParts ==> IsSegment(p)
    requires projectParts != [] && project == "/" + Text.JoinWith("/", projectParts)
    requires dirParts != [] && dir == "/" + Text.JoinWith("/", dirParts)
    ensures ListNameFromPath(project, Some(dir), "/")
         == if projectParts < dirParts then Some(dirParts[|projectParts|]) else None
  {
    ParseAbsolute(project, projectParts);
    ParseAbsolute(dir, dirParts);
  }

  /** Trailing slashes on both directories do not change the list name. */
  lemma ListNameTrailing(project: string, dir: string)
    requires Segments(project) != [] && Segments(dir) != []
    ensures ListNameFromPath(project + "/", Some(dir + "/"), "/") == ListNameFromPath(project, Some(dir), "/")
  {
    NonSlashWitness(project);
    NonSlashWitness(dir);
    ParseTrailingSlash(project);
    ParseTrailingSlash(dir);
    assert dir != "";
  }

  /** A trailing slash does not change how a path with a character other than '/' parses. */
  lemma ParseTrailingSlash(s: string)
    requires exists j :: 0 <= j < |s| && s[j] != '/'
    ensures Parse(s + "/") == Parse(s)
  {
    RootAppend(s, "/");
    SegmentsAppend(s, "");
    assert s + "/" + "" == s + "/";
    assert Segments("") == [];
  }

  /** The absolute paths of the path test, spelled segment by segment. */
  lemma SpellWork()
    ensures "/home/bill/work" == "/" + Text.JoinWith("/", ["home", "bill", "work"])
  {
  }

  lemma SpellBill()
    ensures "/home/bill" == "/" + Text.JoinWith("/", ["home", "bill"])
  {
  }

  lemma SpellProject()
    ensures "/home/bill/work/my_project" == "/" + Text.JoinWith("/", ["home", "bill", "work", "my_project"])
  {
  }

  lemma SpellCapital()
    ensures "/home/Bill/work/my_project" == "/" + Text.JoinWith("/", ["home", "Bill", "work", "my_project"])
  {
  }

  lemma SpellEtc()
    ensures "/etc" == "/" + Text.JoinWith("/", ["etc"])
  {
  }

  /** The trailing slashes of one case of the path test. */
  lemma TrailingSpellings()
    ensures "/home/bill/work/" == "/home/bill/work" + "/"
    ensures "/etc/" == "/etc" + "/"
  {
  }

  /** The cases of the parametrised path test, and a case that differs only in letter case. */
  lemma ExampleAbove(project: string, dir: string)
    requires project == "/home/bill/work" && dir == "/home/bill"
    ensures ListNameFromPath(project, Some(dir), "/") == None
  {
    SpellWork();
    SpellBill();
    ListNameOfAbsolute(project, dir, ["home", "bill", "work"], ["home", "bill"]);
  }

  lemma ExampleSame(project: string, dir: string)
    requires project == "/home/bill/work" && dir == "/home/bill/work"
    ensures ListNameFromPath(project, Some(dir), "/") == None
  {
    SpellWork();
    ListNameOfAbsolute(project, dir, ["home", "bill", "work"], ["home", "bill", "work"]);
  }

  lemma ExampleElsewhere(project: string, dir: string)
    requires project == "/home/bill/work/" && dir == "/etc/"
    ensures ListNameFromPath(project, Some(dir), "/") == None
  {
    var p, d := "/home/bill/work", "/etc";
    TrailingSpellings();
    SpellWork();
    SpellEtc();
    ListNameOfAbsolute(p, d, ["home", "bill", "work"], ["etc"]);
    ParseAbsolute(p, ["home", "bill", "work"]);
    ParseAbsolute(d, ["etc"]);
    ListNameTrailing(p, d);
  }

  lemma ExampleProject(project: string, dir: string)
    requires project == "/home/bill/work" && dir == "/home/bill/work/my_project"
    ensures ListNameFromPath(project, Some(dir), "/") == Some("my_project")
  {
    SpellWork();
    SpellProject();
    ListNameOfAbsolute(project, dir, ["home", "bill", "work"], ["home", "bill", "work", "my_project"]);
  }

  lemma ExampleNested(project: string, dir: string)
    requires project == "/home/bill/work" && dir == "/home/bill/work/my_project/nested_dir/second/nested_dir"
    ensures ListNameFromPath(project, Some(dir), "/") == Some("my_project")
  {
    var top, deeper := "/home/bill/work/my_project", "nested_dir/second/nested_dir";
    NestedSpelling();
    ExampleProject(project, top);
    NestedDirectory(project, top, deeper, "/");
  }

  lemma NestedSpelling()
    ensures "/home/bill/work/my_project/nested_dir/second/nested_dir"
         == "/home/bill/work/my_project" + "/" + "nested_dir/second/nested_dir"
  {
  }

  lemma ExampleCase(project: string, dir: string)
    requires project == "/home/bill/work" && dir == "/home/Bill/work/my_project"
    ensures ListNameFromPath(project, Some(dir), "/") == None
  {
    SpellWork();
    SpellCapital();
    assert "bill"[0] != "Bill"[0];
    ListNameOfAbsolute(project, dir, ["home", "bill", "work"], ["home", "Bill", "work", "my_project"]);
  }
}
