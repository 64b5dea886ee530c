/**
 * `tags-diff/compare_tags.py`: the text `format_file_changes` builds for the
 * files of a GitHub comparison, the result record of `compare_tags`, and the
 * statistics `print_file_changes` reports.
 */
module CompareTags {
  import opened Wrappers
  import opened Text
  import opened Json

  // ---------------------------------------------------------------------
  // format_file_changes
  // ---------------------------------------------------------------------

  /**
   * One entry of the comparison's `files` list. `filename` and `status` are
   * read with `[]`; the counts and the patch with `.get`, so each may be
   * missing.
   */
  datatype FileChange = FileChange(filename: string, status: string,
                                   additions: Option<int>, deletions: Option<int>, changes: Option<int>,
                                   patch: Option<string>)

  /** `file_data.get(field, 0)`. */
  function Count(field: Option<int>): (n: int)
    ensures field.None? ==> n == 0
    ensures field.Some? ==> n == field.value
  {
    field.GetOr(0)
  }

  const AddedIcon := "✅"
  const ModifiedIcon := "\U{1F504}"
  const RemovedIcon := "❌"

  /** The status icon table, with the "modified" icon for any other status. */
  function StatusIcon(status: string): (icon: string)
    ensures status == "added" ==> icon == AddedIcon
    ensures status == "removed" ==> icon == RemovedIcon
    ensures status != "added" && status != "removed" ==> icon == ModifiedIcon
    ensures |icon| == 1 && icon[0] != ' '
  {
    if status == "added" then AddedIcon
    else if status == "modified" then ModifiedIcon
    else if status == "removed" then RemovedIcon
    else if status == "renamed" then ModifiedIcon
    else ModifiedIcon
  }

  /** The ` [+a/-d]` suffix of a status line. */
  function CountSuffix(f: FileChange): string {
    " [+" + IntToString(Count(f.additions)) + "/-" + IntToString(Count(f.deletions)) + "]"
  }

  /** What follows the icon on a status line: the name, the status, and the counts when `changes > 0`. */
  function Description(f: FileChange): string {
    " " + f.filename + " (" + f.status + ")" + (if Count(f.changes) > 0 then CountSuffix(f) else "")
  }

  /** The status line of one file. */
  function StatusLine(f: FileChange): string {
    "  " + StatusIcon(f.status) + Description(f)
  }

  const DiffPreview := "    Diff preview:"
  const Truncated := "    ... (truncated)"

  /** The number of patch lines a preview shows. */
  const PreviewLimit := 10

  /** Each line of `ls` behind four spaces. */
  function Indent(ls: seq<string>): (r: seq<string>)
    ensures |r| == |ls| && forall i :: 0 <= i < |ls| ==> r[i] == "    " + ls[i]
    decreases |ls|
  {
    if ls == [] then [] else Indent(ls[..|ls| - 1]) + ["    " + ls[|ls| - 1]]
  }

  /** `patch.split('\n')[:10]`. */
  function ShownPatchLines(patch: string): seq<string> {
    var all := Split(patch, '\n');
    if |all| <= PreviewLimit then all else all[..PreviewLimit]
  }

  /** The preview block of a patch. */
  function Preview(patch: string): seq<string> {
    [DiffPreview] + Indent(ShownPatchLines(patch))
    + (if |Split(patch, '\n')| > PreviewLimit then [Truncated] else []) + [""]
  }

  /** `show_details and file_data.get('patch')`. */
  predicate HasPreview(f: FileChange, showDetails: bool) {
    showDetails && f.patch.Some? && f.patch.value != ""
  }

  /** The lines one file contributes. */
  function FileBlock(f: FileChange, showDetails: bool): seq<string> {
    if HasPreview(f, showDetails) then [StatusLine(f)] + Preview(f.patch.value) else [StatusLine(f)]
  }

  /** The list `output` for a list of files. */
  function FileChangeLines(files: seq<FileChange>, showDetails: bool): seq<string>
    decreases |files|
  {
    if files == [] then []
    else FileChangeLines(files[..|files| - 1], showDetails) + FileBlock(files[|files| - 1], showDetails)
  }

  /** `format_file_changes`. */
  method FormatFileChanges(files: seq<FileChange>, showDetails: bool) returns (text: string)
    ensures text == Join(FileChangeLines(files, showDetails), "\n")
  {
    var output: seq<string> := [];
    for i := 0 to |files|
      invariant output == FileChangeLines(files[..i], showDetails)
    {
      FileChangeLinesSnoc(files, i, showDetails);
      output := AppendFileBlock(output, files[i], showDetails);
    }
    assert files[..|files|] == files;
    text := Join(output, "\n");
  }

  lemma FileChangeLinesSnoc(files: seq<FileChange>, i: nat, showDetails: bool)
    requires i < |files|
    ensures FileChangeLines(files[..i + 1], showDetails) == FileChangeLines(files[..i], showDetails) + FileBlock(files[i], showDetails)
  {
    assert files[..i + 1][..i] == files[..i];
  }

  /** The loop body of `format_file_changes`: the status line, then the preview if asked for. */
  method AppendFileBlock(output: seq<string>, f: FileChange, showDetails: bool) returns (out: seq<string>)
    ensures out == output + FileBlock(f, showDetails)
  {
    out := output + [StatusLine(f)];
    if showDetails && f.patch.Some? && f.patch.value != "" {
      out := AppendPreview(out, f.patch.value);
      Assoc(output, [StatusLine(f)], Preview(f.patch.value));
    }
  }

  /** The preview part of the loop body of `format_file_changes`. */
  method AppendPreview(output: seq<string>, patch: string) returns (out: seq<string>)
    ensures out == output + Preview(patch)
  {
    out := output + [DiffPreview];
    var patchLines := ShownPatchLines(patch);
    for j := 0 to |patchLines|
      invariant out == output + [DiffPreview] + Indent(patchLines[..j])
    {
      assert patchLines[..j + 1][..j] == patchLines[..j];
      out := out + ["    " + patchLines[j]];
    }
    assert patchLines[..|patchLines|] == patchLines;
    ghost var tail: seq<string> := if |Split(patch, '\n')| > PreviewLimit then [Truncated] else [];
    if |Split(patch, '\n')| > PreviewLimit {
      out := out + [Truncated];
    } else {
      assert out + tail == out;
    }
    out := out + [""];
    Assoc4(output, [DiffPreview], Indent(patchLines), tail, [""]);
  }

  lemma Assoc<T>(a: seq<T>, b: seq<T>, c: seq<T>)
    ensures (a + b) + c == a + (b + c)
  {
  }

  lemma Assoc4<T>(o: seq<T>, a: seq<T>, b: seq<T>, c: seq<T>, d: seq<T>)
    ensures o + a + b + c + d == o + (a + b + c + d)
  {
  }

  /** A line that opens with two spaces and then a non-space: the shape of a status line. */
  predicate IsStatusLine(line: string) {
    |line| >= 3 && line[0] == ' ' && line[1] == ' ' && line[2] != ' '
  }

  /** The lines of `lines` that have the shape of a status line, in order. */
  function StatusLines(lines: seq<string>): seq<string>
    decreases |lines|
  {
    if lines == [] then []
    else StatusLines(lines[..|lines| - 1]) + (if IsStatusLine(lines[|lines| - 1]) then [lines[|lines| - 1]] else [])
  }

  /** `[g(x) for x in xs]`. */
  function MapSeq<T, U>(xs: seq<T>, g: T -> U): seq<U>
    decreases |xs|
  {
    if xs == [] then [] else MapSeq(xs[..|xs| - 1], g) + [g(xs[|xs| - 1])]
  }

  /** Position `k` of `MapSeq(xs, g)` is `g(xs[k])`. */
  lemma {:induction false} MapSeqIndex<T, U>(xs: seq<T>, g: T -> U)
    ensures var r := MapSeq(xs, g); |r| == |xs| && forall k :: 0 <= k < |xs| ==> r[k] == g(xs[k])
    decreases |xs|
  {
    if xs != [] {
      var init := xs[..|xs| - 1];
      MapSeqIndex(init, g);
      var r := MapSeq(xs, g);
      forall k | 0 <= k < |init| ensures r[k] == g(xs[k]) {
        assert init[k] == xs[k];
      }
    }
  }

  /** The status lines of the files, one per file, in input order. */
  function StatusLinesFor(files: seq<FileChange>): (r: seq<string>)
    ensures |r| == |files| && forall k :: 0 <= k < |files| ==> r[k] == StatusLine(files[k])
  {
    MapSeqIndex(files, StatusLine);
    MapSeq(files, StatusLine)
  }

  lemma {:induction false} StatusLinesAppend(a: seq<string>, b: seq<string>)
    ensures StatusLines(a + b) == StatusLines(a) + StatusLines(b)
    decreases |b|
  {
    if b == [] {
      assert a + b == a;
    } else {
      var b' := b[..|b| - 1];
      assert (a + b)[..|a + b| - 1] == a + b';
      assert (a + b)[|a + b| - 1] == b[|b| - 1];
      StatusLinesAppend(a, b');
    }
  }

  /** No line of `ls` is a status line. */
  lemma {:induction false} NoStatusLines(ls: seq<string>)
    requires forall i :: 0 <= i < |ls| ==> !IsStatusLine(ls[i])
    ensures StatusLines(ls) == []
    decreases |ls|
  {
    if ls != [] {
      NoStatusLines(ls[..|ls| - 1]);
    }
  }

  /** A status line has the shape of one: the icon follows the two leading spaces. */
  lemma StatusLineShape(f: FileChange)
    ensures IsStatusLine(StatusLine(f))
  {
    IconLine(StatusIcon(f.status), Description(f));
  }

  /** Two spaces, a one-character icon other than a space, then anything: a status line. */
  lemma IconLine(icon: string, rest: string)
    requires |icon| == 1 && icon[0] != ' '
    ensures IsStatusLine("  " + icon + rest)
  {
    assert ("  " + icon + rest)[2] == icon[0];
  }

  /** No line of a preview has the shape of a status line: they are indented by four, or empty. */
  lemma PreviewHasNoStatusLine(patch: string)
    ensures StatusLines(Preview(patch)) == []
  {
    var p := Preview(patch);
    var shown := Indent(ShownPatchLines(patch));
    var tail := (if |Split(patch, '\n')| > PreviewLimit then [Truncated] else []) + [""];
    assert p == [DiffPreview] + shown + tail;
    forall i | 0 <= i < |p| ensures !IsStatusLine(p[i]) {
      if i == 0 {
        assert p[i] == DiffPreview;
      } else if i <= |shown| {
        assert p[i] == shown[i - 1];
      } else {
        assert p[i] == tail[i - 1 - |shown|];
      }
    }
    NoStatusLines(p);
  }

  /** A file's block holds exactly one status line, its own. */
  lemma FileBlockStatusLine(f: FileChange, showDetails: bool)
    ensures StatusLines(FileBlock(f, showDetails)) == [StatusLine(f)]
  {
    var s := StatusLine(f);
    StatusLineShape(f);
    assert StatusLines([s]) == [s] by {
      assert [s][..0] == [];
    }
    if HasPreview(f, showDetails) {
      StatusLinesAppend([s], Preview(f.patch.value));
      PreviewHasNoStatusLine(f.patch.value);
    }
  }

  /**
   * `format_file_changes` emits exactly one status line per file, in input
   * order: the lines that look like status lines are those of the files.
   */
  lemma {:induction false} OneStatusLinePerFile(files: seq<FileChange>, showDetails: bool)
    ensures StatusLines(FileChangeLines(files, showDetails)) == StatusLinesFor(files)
    decreases |files|
  {
    if files != [] {
      var init := files[..|files| - 1];
      var f := files[|files| - 1];
      OneStatusLinePerFile(init, showDetails);
      assert StatusLinesFor(files) == StatusLinesFor(init) + [StatusLine(f)];
      StatusLinesAppend(FileChangeLines(init, showDetails), FileBlock(f, showDetails));
      FileBlockStatusLine(f, showDetails);
    }
  }

  /** The ` [+a/-d]` suffix ends a status line exactly when `changes > 0`; missing counts are 0. */
  lemma CountSuffixIffChanges(f: FileChange)
    ensures EndsWith(StatusLine(f), CountSuffix(f)) <==> Count(f.changes) > 0
    ensures f.changes.None? ==> !EndsWith(StatusLine(f), CountSuffix(f))
  {
    var s := StatusLine(f);
    var c := CountSuffix(f);
    if Count(f.changes) > 0 {
      assert s[|s| - |c|..] == c;
    } else {
      assert s[|s| - 1] == ')';
      assert c[|c| - 1] == ']';
    }
  }

  /**
   * A preview appears only with `show_details` and a non-empty patch; it
   * shows the first patch lines, at most ten of them, and ends with
   * "... (truncated)" exactly when the patch has more than ten lines.
   */
  lemma PreviewShape(f: FileChange, showDetails: bool)
    ensures !HasPreview(f, showDetails) ==> FileBlock(f, showDetails) == [StatusLine(f)]
    ensures HasPreview(f, showDetails) ==>
              var all := Split(f.patch.value, '\n');
              var shown := ShownPatchLines(f.patch.value);
              var p := Preview(f.patch.value);
              |shown| <= PreviewLimit && |shown| <= |all|
              && (forall i :: 0 <= i < |shown| ==> shown[i] == all[i] && p[1 + i] == "    " + all[i])
              && (|all| > PreviewLimit <==> |p| == |shown| + 3 && p[|p| - 2] == Truncated)
              && (|all| <= PreviewLimit ==> |shown| == |all|)
  {
    if HasPreview(f, showDetails) {
      var all := Split(f.patch.value, '\n');
      var shown := ShownPatchLines(f.patch.value);
      var p := Preview(f.patch.value);
      forall i | 0 <= i < |shown| ensures shown[i] == all[i] && p[1 + i] == "    " + all[i] {
        assert p[1 + i] == Indent(shown)[i];
      }
      if |all| <= PreviewLimit {
        assert |p| == |shown| + 2;
      }
    }
  }

  // ---------------------------------------------------------------------
  // compare_tags
  // ---------------------------------------------------------------------

  /** The dict `compare_tags` returns. */
  datatype TagComparison =
    | Failed(error: string)
    | Compared(repo: string, fromTag: string, toTag: string, status: JsonValue,
               aheadBy: JsonValue, behindBy: JsonValue, totalCommits: JsonValue,
               commits: JsonValue, files: JsonValue)

  const ComparisonFailed := "Failed to get comparison data"

  /**
   * `compare_tags` once `get_comparison` has answered with the members of
   * the decoded object, or with nothing.
   */
  function CompareTagsResult(repo: string, fromTag: string, toTag: string,
                             comparison: Option<seq<(string, JsonValue)>>): (r: TagComparison)
    ensures r.Failed? <==> comparison.None? || comparison.value == []
    ensures r.Failed? ==> r.error == ComparisonFailed
    ensures r.Compared? ==> r.repo == repo && r.fromTag == fromTag && r.toTag == toTag
    ensures r.Compared? ==>
              var c := comparison.value;
              (!HasKey(c, "status") ==> r.status == JString("unknown"))
              && (!HasKey(c, "ahead_by") ==> r.aheadBy == JNumber(0))
              && (!HasKey(c, "behind_by") ==> r.behindBy == JNumber(0))
              && (!HasKey(c, "total_commits") ==> r.totalCommits == JNumber(0))
              && (!HasKey(c, "commits") ==> r.commits == JArray([]))
              && (!HasKey(c, "files") ==> r.files == JArray([]))
              && (HasKey(c, "status") ==> r.status == Get(c, "status"))
              && (HasKey(c, "ahead_by") ==> r.aheadBy == Get(c, "ahead_by"))
              && (HasKey(c, "behind_by") ==> r.behindBy == Get(c, "behind_by"))
              && (HasKey(c, "total_commits") ==> r.totalCommits == Get(c, "total_commits"))
              && (HasKey(c, "files") ==> r.files == Get(c, "files"))
              && (HasKey(c, "commits") ==> r.commits == Get(c, "commits"))
  {
    match comparison
    case None => Failed(ComparisonFailed)
    case Some(c) =>
      if c == [] then Failed(ComparisonFailed)
      else
        Compared(repo, fromTag, toTag,
                 GetOr(c, "status", JString("unknown")),
                 GetOr(c, "ahead_by", JNumber(0)),
                 GetOr(c, "behind_by", JNumber(0)),
                 GetOr(c, "total_commits", JNumber(0)),
                 GetOr(c, "commits", JArray([])),
                 GetOr(c, "files", JArray([])))
  }

  // ---------------------------------------------------------------------
  // print_file_changes statistics
  // ---------------------------------------------------------------------

  /** `sum(f.get('additions', 0) for f in files)`. */
  function TotalAdditions(files: seq<FileChange>): int
    decreases |files|
  {
    if files == [] then 0 else TotalAdditions(files[..|files| - 1]) + Count(files[|files| - 1].additions)
  }

  /** `sum(f.get('deletions', 0) for f in files)`. */
  function TotalDeletions(files: seq<FileChange>): int
    decreases |files|
  {
    if files == [] then 0 else TotalDeletions(files[..|files| - 1]) + Count(files[|files| - 1].deletions)
  }

  /** `len([f for f in files if f['status'] == status])`. */
  function CountStatus(files: seq<FileChange>, status: string): (n: nat)
    ensures n <= |files|
    decreases |files|
  {
    if files == [] then 0
    else CountStatus(files[..|files| - 1], status) + (if files[|files| - 1].status == status then 1 else 0)
  }

  /** The statistics `print_file_changes` reports. */
  datatype FileStats = FileStats(added: nat, modified: nat, deleted: nat, totalAdditions: int, totalDeletions: int)

  function Stats(files: seq<FileChange>): FileStats {
    FileStats(CountStatus(files, "added"), CountStatus(files, "modified"), CountStatus(files, "removed"),
              TotalAdditions(files), TotalDeletions(files))
  }

  /** The added, modified and deleted counts never exceed the number of files. */
  lemma {:induction false} StatusCountsBounded(files: seq<FileChange>)
    ensures var s := Stats(files); s.added + s.modified + s.deleted <= |files|
    decreases |files|
  {
    if files != [] {
      StatusCountsBounded(files[..|files| - 1]);
    }
  }

  /** A file list split in two: every statistic is the sum of the two halves' statistics. */
  lemma {:induction false} StatsAppend(a: seq<FileChange>, b: seq<FileChange>)
    ensures var s := Stats(a + b); var sa := Stats(a); var sb := Stats(b);
            s.added == sa.added + sb.added && s.modified == sa.modified + sb.modified
            && s.deleted == sa.deleted + sb.deleted
            && s.totalAdditions == sa.totalAdditions + sb.totalAdditions
            && s.totalDeletions == sa.totalDeletions + sb.totalDeletions
    decreases |b|
  {
    if b == [] {
      assert a + b == a;
    } else {
      var b' := b[..|b| - 1];
      assert (a + b)[..|a + b| - 1] == a + b';
      assert (a + b)[|a + b| - 1] == b[|b| - 1];
      StatsAppend(a, b');
    }
  }

  /** The statistics of one file: its own counts, and a 1 for its status. */
  lemma StatsSingle(f: FileChange)
    ensures var s := Stats([f]);
            s.totalAdditions == Count(f.additions) && s.totalDeletions == Count(f.deletions)
            && s.added == (if f.status == "added" then 1 else 0)
            && s.modified == (if f.status == "modified" then 1 else 0)
            && s.deleted == (if f.status == "removed" then 1 else 0)
  {
    assert [f][..0] == [];
    assert TotalAdditions([f]) == TotalAdditions([]) + Count(f.additions);
    assert TotalDeletions([f]) == TotalDeletions([]) + Count(f.deletions);
  }
}
