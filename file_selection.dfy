/**
 * The pure parts of `FileSelector` in espada/applications/cli/file_selector.py:
 * merging two file tables, choosing and ordering the project's files, marking
 * the lines of the selection file with `# `, and reading the selection back.
 * The glob walk, the TOML reader and writer, the editor and `.gitignore`
 * filtering are outside the model: their results are given as inputs.
 */
module FileSelection {
  import opened PyStr
  import opened LineMaps
  import opened Wrappers
  import opened DiffMerge

  // ---------------------------------------------------------------------
  // merge_file_lists
  // ---------------------------------------------------------------------

  /** A dict from file name to its properties, which `merge_file_lists` updates in place. */
  class FileTable<V> {
    var entries: seq<(string, V)>

    constructor (entries: seq<(string, V)>)
      ensures this.entries == entries
    {
      this.entries := entries;
    }
  }

  /**
   * What `merge_file_lists` promises: the files are those of both tables, a
   * file already present keeps its properties, a new one takes those of its
   * first entry in `incoming`, and the existing entries stay first, in order.
   */
  lemma MergeFileListsKeys<V>(existing: seq<(string, V)>, incoming: seq<(string, V)>, k: string)
    ensures var r := MergeFirst(existing, incoming);
      (HasKey(r, k) <==> HasKey(existing, k) || HasKey(incoming, k))
      && (HasKey(existing, k) ==> Get(r, k) == Get(existing, k))
      && (!HasKey(existing, k) && HasKey(incoming, k) ==> Get(r, k) == Get(incoming, k))
      && |existing| <= |r| && r[..|existing|] == existing
  {
    MergeFirstKeeps(existing, incoming);
    MergeFirstValue(existing, incoming, k);
  }

  class FileSelector {
    /** `is_linting`. */
    var isLinting: bool
    /** `LINTING_STRING`, the linting section written at the top of the selection file. */
    var lintingString: string

    constructor ()
      ensures isLinting && lintingString == LintingString
    {
      isLinting := true;
      lintingString := LintingString;
    }

    /**
     * `merge_file_lists`: every file of `incoming` that `existing` lacks is
     * added to `existing` in place, and `existing` itself is returned.
     */
    method MergeFileLists<V>(existing: FileTable<V>, incoming: seq<(string, V)>) returns (r: FileTable<V>)
      modifies existing
      ensures r == existing
      ensures existing.entries == MergeFirst(old(existing.entries), incoming)
    {
      for i := 0 to |incoming|
        invariant MergeFirst(existing.entries, incoming[i..]) == MergeFirst(old(existing.entries), incoming)
      {
        var (file, properties) := incoming[i];
        assert incoming[i..][1..] == incoming[i + 1..];
        if !HasKey(existing.entries, file) {
          PutShape(existing.entries, file, properties);
          existing.entries := Put(existing.entries, file, properties);
        }
      }
      assert incoming[|incoming|..] == [];
      return existing;
    }

    /**
     * The linting check of `get_files_from_toml`, the file names of the
     * `[files]` table in order, and the two failures: no `[files]` table
     * (a `KeyError`) and an empty one. The flag is set before either failure.
     */
    method GetFilesFromToml(tree: Toml) returns (r: Selection)
      modifies this
      ensures isLinting == !LintingOff(tree) && lintingString == old(lintingString)
      ensures tree.files.None? ==> r == Failed(MissingFiles)
      ensures tree.files.Some? && tree.files.value == [] ==> r == Failed(NothingSelected)
      ensures tree.files.Some? && tree.files.value != [] ==> r == Selected(FileNames(tree.files.value))
    {
      if LintingOff(tree) {
        isLinting := false;
      } else {
        isLinting := true;
      }
      if tree.files.None? {
        return Failed(MissingFiles);
      }
      var table := tree.files.value;
      var selectedFiles := [];
      for i := 0 to |table|
        invariant selectedFiles == FileNames(table[..i])
      {
        assert table[..i + 1] == table[..i] + [table[i]];
        selectedFiles := selectedFiles + [table[i].0];
      }
      assert table[..|table|] == table;
      if selectedFiles == [] {
        return Failed(NothingSelected);
      }
      r := Selected(selectedFiles);
    }

    /**
     * The linting check of `editor_file_selector` when a selection file
     * exists: linting set to `off` turns the flag off and the linting
     * section into its uncommented form; anything else changes nothing.
     */
    method ReadLintingStatus(tree: Toml)
      modifies this
      ensures LintingOff(tree) ==> !isLinting && lintingString == LintingOffString
      ensures !LintingOff(tree) ==> isLinting == old(isLinting) && lintingString == old(lintingString)
    {
      if LintingOff(tree) {
        isLinting := false;
        lintingString := LintingOffString;
      }
    }
  }

  // ---------------------------------------------------------------------
  // The selection file
  // ---------------------------------------------------------------------

  const LintingString: string := "[linting]\n# \"linting\" = \"off\"\n\n"
  const LintingOffString: string := "[linting]\n\"linting\" = \"off\"\n\n"

  /** The parsed selection file: its `[linting]` table (string values) and its `[files]` table, when present. */
  datatype Toml = Toml(linting: Option<seq<(string, string)>>, files: Option<seq<(string, string)>>)

  datatype SelectionError = MissingFiles | NothingSelected

  datatype Selection = Selected(files: seq<string>) | Failed(error: SelectionError)

  const Off: string := "off"
  const LintingKey: string := "linting"

  /** `linting.linting`, lower-cased, is `off`. */
  predicate LintingOff(tree: Toml)
  {
    tree.linting.Some? && Lower(GetOr(tree.linting.value, LintingKey, "")) == Off
  }

  function FileNames(table: seq<(string, string)>): (r: seq<string>)
    ensures |r| == |table| && forall i :: 0 <= i < |table| ==> r[i] == table[i].0
  {
    seq(|table|, i requires 0 <= i < |table| => table[i].0)
  }

  /** Linting is off exactly when the `[linting]` table's `linting` entry reads `off` in any case. */
  lemma LintingOffCaseless(table: seq<(string, string)>, files: Option<seq<(string, string)>>)
    ensures LintingOff(Toml(Some(table), files)) <==> HasKey(table, LintingKey) && Lower(Get(table, LintingKey)) == Off
    ensures !LintingOff(Toml(None, files))
  {
    if !HasKey(table, LintingKey) {
      assert |Lower("")| == 0;
    }
  }

  const SelectedSuffix: string := " = \"selected\""
  const CommentMark: string := "# "

  /** A line of the fresh selection file: commented out when it ends with ` = "selected"`. */
  function CommentLine(line: string): string
  {
    if EndsWith(line, SelectedSuffix) then CommentMark + line else line
  }

  function CommentLines(ls: seq<string>): (r: seq<string>)
    ensures |r| == |ls| && forall i :: 0 <= i < |ls| ==> r[i] == CommentLine(ls[i])
  {
    seq(|ls|, i requires 0 <= i < |ls| => CommentLine(ls[i]))
  }

  /** The comment-prefixing of `editor_file_selector` on a fresh selection file. */
  function CommentSelected(s: string): string
  {
    Join(CommentLines(Split(s, '\n')), ['\n'])
  }

  /** A line of the selection file with its `# ` taken off, when it is a commented `selected` line. */
  function UncommentLine(line: string): string
  {
    if StartsWith(line, CommentMark) && EndsWith(line, SelectedSuffix) then line[|CommentMark|..] else line
  }

  function UncommentLines(ls: seq<string>): (r: seq<string>)
    ensures |r| == |ls| && forall i :: 0 <= i < |ls| ==> r[i] == UncommentLine(ls[i])
  {
    seq(|ls|, i requires 0 <= i < |ls| => UncommentLine(ls[i]))
  }

  /** Every commented `selected` line with its mark taken off. */
  function Uncomment(s: string): string
  {
    Join(UncommentLines(Split(s, '\n')), ['\n'])
  }

  /** A piecewise rewrite of the lines that adds no newline can be split back into its lines. */
  lemma SplitRewritten(ls: seq<string>, rs: seq<string>)
    requires |rs| == |ls| >= 1
    requires forall i :: 0 <= i < |ls| ==> '\n' !in ls[i]
    requires forall i :: 0 <= i < |ls| ==> rs[i] == ls[i] || rs[i] == CommentMark + ls[i]
    ensures Split(Join(rs, ['\n']), '\n') == rs
  {
    forall i | 0 <= i < |rs|
      ensures '\n' !in rs[i]
    {
      assert '\n' !in CommentMark;
    }
    SplitJoin(rs, '\n');
  }

  /**
   * The lines of the marked file are the lines of the original, in the same
   * number, each ending with ` = "selected"` commented out and every other
   * one unchanged.
   */
  lemma CommentSelectedLines(s: string)
    ensures Split(CommentSelected(s), '\n') == CommentLines(Split(s, '\n'))
  {
    var ls := Split(s, '\n');
    SplitPiecesFree(s, '\n');
    SplitRewritten(ls, CommentLines(ls));
  }

  /** Putting `mark` in front of a line that ends with `suffix` keeps that ending, and taking `mark` off again gives the line back. */
  lemma PrefixedKeepsEnd(mark: string, line: string, suffix: string)
    requires EndsWith(line, suffix)
    ensures StartsWith(mark + line, mark) && EndsWith(mark + line, suffix)
    ensures (mark + line)[|mark|..] == line
  {
    var c := mark + line;
    assert c[..|mark|] == mark;
    assert c[|mark|..] == line;
    assert c[|c| - |suffix|..] == line[|line| - |suffix|..];
  }

  /** Taking the mark off a marked line gives the line back. */
  lemma UncommentCommentLine(line: string)
    ensures UncommentLine(CommentLine(line)) == line
  {
    if EndsWith(line, SelectedSuffix) {
      PrefixedKeepsEnd(CommentMark, line, SelectedSuffix);
    }
  }

  /** The marking loses nothing: taking the marks off gives back the original text. */
  lemma UncommentCommentSelected(s: string)
    ensures Uncomment(CommentSelected(s)) == s
  {
    var ls := Split(s, '\n');
    var cs := CommentLines(ls);
    CommentSelectedLines(s);
    assert Uncomment(CommentSelected(s)) == Join(UncommentLines(cs), ['\n']);
    forall i | 0 <= i < |ls|
      ensures UncommentLines(cs)[i] == ls[i]
    {
      UncommentCommentLine(ls[i]);
    }
    assert UncommentLines(cs) == ls;
    JoinSplit(s, '\n');
  }

  const KeySeparator: string := " = "

  /** `s.split(sep)[0]`: the text before the first occurrence of `sep`, or all of `s`. */
  function Before(s: string, sep: string): (r: string)
    requires sep != []
    ensures StartsWith(s, r)
    decreases |s|
  {
    if s == [] || StartsWith(s, sep) then [] else [s[0]] + Before(s[1..], sep)
  }

  /** `s.strip(c)`: every leading and trailing `c` removed. */
  function StripChar(s: string, c: char): (r: string)
    ensures |r| <= |s|
    ensures r != [] ==> r[0] != c && r[|r| - 1] != c
    decreases |s|
  {
    if s == [] then []
    else if s[0] == c then StripChar(s[1..], c)
    else if s[|s| - 1] == c then StripChar(s[..|s| - 1], c)
    else s
  }

  /** The file name a line of the file table names: the text before ` = `, without its quotes. */
  function KeyOf(line: string): string
  {
    StripChar(Before(line, KeySeparator), '"')
  }

  /** A line of the file table when a selection exists: kept when its file was selected, commented out otherwise. */
  function MarkLine(line: string, chosen: set<string>): string
  {
    if KeyOf(line) in chosen then line else CommentMark + line
  }

  function MarkLines(ls: seq<string>, chosen: set<string>): (r: seq<string>)
    requires ls != []
    ensures |r| == |ls| && r[0] == ls[0]
    ensures forall i :: 1 <= i < |ls| ==> r[i] == MarkLine(ls[i], chosen)
  {
    [ls[0]] + seq(|ls| - 1, i requires 0 <= i < |ls| - 1 => MarkLine(ls[i + 1], chosen))
  }

  /** The rewriting of a fresh file table against the files selected before (`editor_file_selector`, second branch). */
  function MarkSelected(s: string, chosen: set<string>): string
  {
    Join(MarkLines(Split(s, '\n'), chosen), ['\n'])
  }

  /**
   * The first line (the table header) is kept; each later line is kept when
   * the file it names was selected before, and commented out otherwise.
   */
  lemma MarkSelectedLines(s: string, chosen: set<string>)
    ensures var ls := Split(s, '\n'); var ms := Split(MarkSelected(s, chosen), '\n');
      |ms| == |ls| && ms[0] == ls[0]
      && forall i :: 1 <= i < |ls| ==> (ms[i] == ls[i] <==> KeyOf(ls[i]) in chosen) && (ms[i] == ls[i] || ms[i] == CommentMark + ls[i])
  {
    var ls := Split(s, '\n');
    SplitPiecesFree(s, '\n');
    var rs := MarkLines(ls, chosen);
    SplitRewritten(ls, rs);
    forall i | 1 <= i < |ls|
      ensures rs[i] == ls[i] <==> KeyOf(ls[i]) in chosen
    {
      assert |CommentMark + ls[i]| != |ls[i]|;
    }
  }

  // ---------------------------------------------------------------------
  // get_current_files
  // ---------------------------------------------------------------------

  /** A path relative to the project, as its parts. */
  type RelPath = seq<string>

  const IgnoreFolders: set<string> := {"site-packages", "node_modules", "venv", "__pycache__"}
  const Dot: string := "."
  const PromptName: string := "prompt"

  /** `relpath.name`: the last part, or `""` for the empty path. */
  function Name(parts: RelPath): string
  {
    if parts == [] then "" else parts[|parts| - 1]
  }

  /** `str(relpath)`: the parts joined with `/`. */
  function PathText(parts: RelPath): string
  {
    Join(parts, "/")
  }

  /** A file is listed when no part is hidden or an ignored folder and its name is not `prompt`. */
  predicate Listed(parts: RelPath)
  {
    (forall i :: 0 <= i < |parts| ==> !StartsWith(parts[i], Dot))
    && (forall i :: 0 <= i < |parts| ==> parts[i] !in IgnoreFolders)
    && Name(parts) != PromptName
  }

  /** The texts of the listed files, in the order of the walk. */
  function ListedFiles(files: seq<RelPath>): (r: seq<string>)
    ensures |r| <= |files|
  {
    if files == [] then []
    else ListedFiles(files[..|files| - 1]) + (if Listed(files[|files| - 1]) then [PathText(files[|files| - 1])] else [])
  }

  /** A name is listed exactly when some file of the walk passes the filter and has that text. */
  lemma {:induction false} ListedFilesMembers(files: seq<RelPath>, x: string)
    ensures x in ListedFiles(files) <==> exists i :: 0 <= i < |files| && Listed(files[i]) && PathText(files[i]) == x
    decreases |files|
  {
    if files != [] {
      var init := files[..|files| - 1];
      ListedFilesMembers(init, x);
      if x in ListedFiles(files) && x !in ListedFiles(init) {
        assert Listed(files[|files| - 1]) && PathText(files[|files| - 1]) == x;
      }
      if exists i :: 0 <= i < |files| && Listed(files[i]) && PathText(files[i]) == x {
        var i :| 0 <= i < |files| && Listed(files[i]) && PathText(files[i]) == x;
        if i < |files| - 1 {
          assert init[i] == files[i];
        }
      }
    }
  }

  /** Python's `<=` on strings: code-point order, with a proper prefix first. */
  predicate LessEq(a: string, b: string)
    decreases |a|
  {
    a == [] || (b != [] && (a[0] < b[0] || (a[0] == b[0] && LessEq(a[1..], b[1..]))))
  }

  lemma {:induction false} LessEqTotal(a: string, b: string)
    ensures LessEq(a, b) || LessEq(b, a)
    decreases |a|
  {
    if a != [] && b != [] && a[0] == b[0] {
      LessEqTotal(a[1..], b[1..]);
    }
  }

  lemma {:induction false} LessEqTrans(a: string, b: string, c: string)
    requires LessEq(a, b) && LessEq(b, c)
    ensures LessEq(a, c)
    decreases |a|
  {
    if a != [] && a[0] == b[0] && b[0] == c[0] {
      LessEqTrans(a[1..], b[1..], c[1..]);
    }
  }

  predicate Sorted(s: seq<string>)
  {
    forall i, j :: 0 <= i < j < |s| ==> LessEq(s[i], s[j])
  }

  /** `x` placed before the first element it does not exceed. */
  function Insert(x: string, s: seq<string>): (r: seq<string>)
    ensures multiset(r) == multiset(s) + multiset{x}
    ensures Sorted(s) ==> Sorted(r)
    decreases |s|
  {
    if s == [] then [x]
    else if LessEq(x, s[0]) then
      InsertFirst(x, s);
      [x] + s
    else
      var t := Insert(x, s[1..]);
      assert s == [s[0]] + s[1..];
      InsertLater(x, s, t);
      [s[0]] + t
  }

  lemma InsertFirst(x: string, s: seq<string>)
    requires s != [] && LessEq(x, s[0])
    ensures Sorted(s) ==> Sorted([x] + s)
  {
    if Sorted(s) {
      var r := [x] + s;
      forall i, j | 0 <= i < j < |r|
        ensures LessEq(r[i], r[j])
      {
        if i == 0 && j > 1 {
          LessEqTrans(x, s[0], s[j - 1]);
        }
      }
    }
  }

  lemma InsertLater(x: string, s: seq<string>, t: seq<string>)
    requires s != [] && !LessEq(x, s[0])
    requires multiset(t) == multiset(s[1..]) + multiset{x}
    requires Sorted(s[1..]) ==> Sorted(t)
    ensures Sorted(s) ==> Sorted([s[0]] + t)
  {
    if Sorted(s) {
      LessEqTotal(x, s[0]);
      assert Sorted(s[1..]);
      var r := [s[0]] + t;
      forall i, j | 0 <= i < j < |r|
        ensures LessEq(r[i], r[j])
      {
        if i == 0 {
          var y := t[j - 1];
          assert y in multiset(t);
          if y != x {
            assert y in multiset(s[1..]);
            var m :| 0 <= m < |s[1..]| && s[1..][m] == y;
            assert s[m + 1] == y;
          }
        }
      }
    }
  }

  /** `sorted(xs)`, as an insertion sort. */
  function Sort(s: seq<string>): (r: seq<string>)
    ensures multiset(r) == multiset(s) && Sorted(r)
    decreases |s|
  {
    if s == [] then [] else
      assert s == [s[0]] + s[1..];
      Insert(s[0], Sort(s[1..]))
  }

  /**
   * `get_current_files` over the files of the walk, in the order the walk
   * gives them; `gitignore` stands for `filter_by_gitignore`, applied when
   * the project is a git repository and `projects` is not one of its parts.
   */
  method GetCurrentFiles(files: seq<RelPath>, isGitRepo: bool, projectParts: seq<string>,
                         gitignore: seq<string> -> seq<string>) returns (r: seq<string>)
    ensures r == Sort(if isGitRepo && ProjectsName !in projectParts then gitignore(ListedFiles(files)) else ListedFiles(files))
  {
    var allFiles := [];
    for i := 0 to |files|
      invariant allFiles == ListedFiles(files[..i])
    {
      var parts := files[i];
      assert files[..i + 1][..i] == files[..i];
      if exists j :: 0 <= j < |parts| && StartsWith(parts[j], Dot) {
        continue;
      }
      if exists j :: 0 <= j < |parts| && parts[j] in IgnoreFolders {
        continue;
      }
      if Name(parts) == PromptName {
        continue;
      }
      allFiles := allFiles + [PathText(parts)];
    }
    assert files[..|files|] == files;
    if isGitRepo && ProjectsName !in projectParts {
      allFiles := gitignore(allFiles);
    }
    r := Sort(allFiles);
  }

  const ProjectsName: string := "projects"

  /**
   * Outside a git repository the listed files are sorted, and a name is
   * listed exactly when some file of the walk has it and passes the filter.
   */
  lemma CurrentFilesListed(files: seq<RelPath>, x: string)
    ensures Sorted(Sort(ListedFiles(files)))
    ensures x in Sort(ListedFiles(files)) <==> exists i :: 0 <= i < |files| && Listed(files[i]) && PathText(files[i]) == x
  {
    var l := ListedFiles(files);
    ListedFilesMembers(files, x);
    assert x in Sort(l) <==> x in multiset(Sort(l));
    assert x in l <==> x in multiset(l);
  }
}
