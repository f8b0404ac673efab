/**
 * The value-level specification of one hunk of espada/core/diff.py: its
 * lines, its text rendering, and the localisation and line-by-line validation
 * that repairs a model-written hunk against the line map of the file it edits.
 *
 * `ValidateLinesFrom` is `validate_lines` written as a tail-recursive function
 * over its two cursors; `FindStart` and `ValidateAndCorrect` are the mutually
 * recursive `find_start_line` / `validate_and_correct`. The source recursion
 * has no bound of its own (see `Divergent`): it goes on until Python's
 * recursion limit raises `RecursionError`. The two carry a fuel argument, and
 * `None` means the fuel ran out, which stands for that `RecursionError`.
 */
module HunkSpec {
  import opened PyStr
  import opened Wrappers
  import opened LineMaps
  import opened Similarity

  datatype Tag = Retain | Add | Remove

  datatype Line = Line(tag: Tag, text: string)

  /** The fields of a `Hunk` object (its `category_counts` are derived from `lines`). */
  datatype HunkState = HunkState(
    startPre: int, lenPre: int, startPost: int, lenPost: int,
    lines: seq<Line>, isNewFile: bool)

  /** `forward_block_len`. */
  const ForwardBlockLen: nat := 10

  /** Fuel that suffices for every hunk that is not `Divergent` (see `FuelSuffices`). */
  const RetryDepth: nat := 2

  /** The category names `RETAIN`, `ADD`, `REMOVE`. */
  function TagName(t: Tag): string
  {
    match t
    case Retain => "retain"
    case Add => "add"
    case Remove => "remove"
  }

  /** The one-character prefix of a line in the unified format. */
  function Prefix(t: Tag): string
  {
    match t
    case Retain => " "
    case Add => "+"
    case Remove => "-"
  }

  /** The lines carrying tag `t`, in order. */
  function Tagged(ls: seq<Line>, t: Tag): (r: seq<Line>)
    ensures |r| <= |ls|
    decreases |ls|
  {
    if ls == [] then []
    else if ls[0].tag == t then [ls[0]] + Tagged(ls[1..], t)
    else Tagged(ls[1..], t)
  }

  /** `category_counts[t]` for the line list `ls`. */
  function Count(ls: seq<Line>, t: Tag): nat
  {
    |Tagged(ls, t)|
  }

  function NonAdd(ls: seq<Line>): nat
  {
    Count(ls, Retain) + Count(ls, Remove)
  }

  /** `category_counts` as it should be for the line list `ls`. */
  function Tally(ls: seq<Line>): map<Tag, int>
  {
    map[Retain := Count(ls, Retain), Add := Count(ls, Add), Remove := Count(ls, Remove)]
  }

  predicate AllAdd(ls: seq<Line>)
  {
    forall i :: 0 <= i < |ls| ==> ls[i].tag == Add
  }

  /** The state `Hunk.__init__` builds: `is_new_file` holds when no line is RETAIN or REMOVE. */
  function NewHunk(startPre: int, lenPre: int, startPost: int, lenPost: int, lines: seq<Line>): (r: HunkState)
    ensures r.lines == lines
  {
    HunkState(startPre, lenPre, startPost, lenPost, lines,
              Count(lines, Retain) == 0 && Count(lines, Remove) == 0)
  }

  // ----- rendering -----

  /** The header line written by `hunk_to_string`. */
  function HeaderText(s: HunkState): string
  {
    "@@ -" + IntToString(s.startPre) + "," + IntToString(s.lenPre)
    + " +" + IntToString(s.startPost) + "," + IntToString(s.lenPost) + " @@\n"
  }

  function RenderLine(l: Line): string
  {
    Prefix(l.tag) + l.text + "\n"
  }

  function RenderLines(ls: seq<Line>): string
    decreases |ls|
  {
    if ls == [] then "" else RenderLine(ls[0]) + RenderLines(ls[1..])
  }

  /** `hunk_to_string`. */
  function HunkText(s: HunkState): string
  {
    HeaderText(s) + RenderLines(s.lines)
  }

  /** The texts of the lines that are not ADD, in order. */
  function NonAddTexts(ls: seq<Line>): (r: seq<string>)
    ensures |r| == NonAdd(ls)
    decreases |ls|
  {
    if ls == [] then []
    else if ls[0].tag == Add then NonAddTexts(ls[1..])
    else [ls[0].text] + NonAddTexts(ls[1..])
  }

  /** `make_forward_block(i, n)`: the first `n` non-ADD texts from index `i` on, joined by newlines. */
  function ForwardBlock(ls: seq<Line>, i: int, n: nat): string
  {
    Join(Take(NonAddTexts(SliceFrom(ls, i)), n), "\n")
  }

  // ----- the line map seen as a contiguous range of keys -----

  /** `lines_dict[k]` for a key inside the contiguous range. */
  function At(m: LineMap, k: int): (r: string)
    requires Contiguous(m) && |m| > 0 && Lo(m) <= k <= Hi(m)
    ensures HasKey(m, k) && r == Get(m, k)
  {
    ContiguousFind(m, k);
    m[k - Lo(m)].1
  }

  /** The texts of keys `f .. min(f + 10, max key) - 1`: the last key of the map is never included. */
  function Window(m: LineMap, f: int): (r: seq<string>)
    requires Contiguous(m) && |m| > 0 && Lo(m) <= f <= Hi(m)
    ensures |r| == Min(f + ForwardBlockLen, Hi(m)) - f
    ensures forall i :: 0 <= i < |r| ==> r[i] == At(m, f + i)
  {
    var w := Min(f + ForwardBlockLen, Hi(m)) - f;
    seq(w, i requires 0 <= i < w => At(m, f + i))
  }

  /** The `forward_code` block of `validate_lines`. */
  function ForwardCode(m: LineMap, f: int): string
    requires Contiguous(m) && |m| > 0 && Lo(m) <= f <= Hi(m)
  {
    Join(Window(m, f), "\n")
  }

  // ----- list edits -----

  /** `lines.insert(i, l)` for an index inside the list. */
  function InsertAt(ls: seq<Line>, i: nat, l: Line): (r: seq<Line>)
    requires i <= |ls|
    ensures |r| == |ls| + 1 && r[i] == l
  {
    ls[..i] + [l] + ls[i..]
  }

  /** `lines.pop(i)`. */
  function RemoveAt(ls: seq<Line>, i: nat): (r: seq<Line>)
    requires i < |ls|
    ensures |r| == |ls| - 1
  {
    ls[..i] + ls[i + 1..]
  }

  // ----- problem messages -----

  function NotFoundProblem(s: HunkState): string
  {
    "In " + HunkText(s) + ":can not find the starting line of the diff"
  }

  function MissingStartProblem(s: HunkState): string
  {
    "In " + HunkText(s) + ":The starting line of the diff " + HunkText(s) + " does not exist in the code"
  }

  function MismatchProblem(s: HunkState): string
  {
    "In Hunk:" + HunkText(s) + ", there was at least one mismatch."
  }

  function Described(ls: seq<Line>): seq<string>
  {
    seq(|ls|, i requires 0 <= i < |ls| => TagName(ls[i].tag) + ": " + ls[i].text)
  }

  /** The message names the hunk lines from index `f + 1` on: the file cursor is used as a hunk index. */
  function StoppedProblem(s: HunkState, f: int): string
  {
    "In " + HunkText(s) + ":Hunk validation stopped before the lines "
    + Join(Described(SliceFrom(s.lines, f + 1)), "\n") + " were validated. The diff is incorrect"
  }

  /** What a validation step reports: the hunk after it, its verdict, and the problems it appended. */
  datatype Verdict = Verdict(hunk: HunkState, ok: bool, problems: seq<string>)

  function Fail(s: HunkState, problem: string): Verdict
  {
    Verdict(s, false, [problem])
  }

  // ----- validate_lines -----

  /** The measure that falls at every step of `validate_lines` that keeps the file cursor. */
  function Pending(ls: seq<Line>, h: nat): nat
    requires h <= |ls|
  {
    |ls| - h + NonAdd(ls[h..])
  }

  /**
   * The three scores of a mismatching line against the file block at `f`:
   * the hunk block as written, the block with the file line inserted in front,
   * and the block with the hunk line dropped.
   */
  function Scores(ls: seq<Line>, m: LineMap, h: nat, f: int): (real, real, real)
    requires Contiguous(m) && |m| > 0 && Lo(m) <= f <= Hi(m)
  {
    var code := ForwardCode(m, f);
    (CountRatio(ForwardBlock(ls, h, ForwardBlockLen), code),
     CountRatio(At(m, f) + "\n" + ForwardBlock(ls, h, ForwardBlockLen - 1), code),
     CountRatio(ForwardBlock(ls, h + 1, ForwardBlockLen), code))
  }

  /** What one pass of the `validate_lines` loop body does: carry on with new lines and cursors, or stop. */
  datatype Step = Continue(lines: seq<Line>, h: nat, f: int) | Stop(ok: bool, problem: string)

  /** The precondition of the loop: a line looked up below the first key would raise `KeyError`. */
  predicate CursorsOk(ls: seq<Line>, m: LineMap, h: nat, f: int)
  {
    Contiguous(m) && |m| > 0 && h <= |ls| && (Lo(m) <= f || AllAdd(ls[h..]))
  }

  /**
   * One iteration of the `validate_lines` loop at hunk cursor `h` and file
   * cursor `f`, or the end check once the loop condition fails. Every
   * `Continue` either advances the file cursor or shrinks `Pending`.
   */
  function ValidateStep(s: HunkState, m: LineMap, h: nat, f: int): (st: Step)
    requires CursorsOk(s.lines, m, h, f)
    ensures st.Continue? ==> CursorsOk(st.lines, m, st.h, st.f) && f <= Hi(m)
    ensures st.Continue? ==> f < st.f || (f == st.f && Pending(st.lines, st.h) < Pending(s.lines, h))
    ensures st.Continue? ==> st.f <= f + 1
  {
    var ls := s.lines;
    if h < |ls| && f <= Hi(m) then
      PendingStep(ls, h);
      if ls[h].tag == Add then
        assert ls[h + 1..] == ls[h..][1..];
        Continue(ls, h + 1, f)
      else
        assert ls[h..][0] == ls[h];
        var fileLine := At(m, f);
        if !IsSimilar(ls[h].text, fileLine) then
          if '#' in ls[h].text then
            var ls' := ls[h := Line(Add, ls[h].text)];
            PendingStep(ls', h);
            assert ls'[h + 1..] == ls[h + 1..];
            Continue(ls', h, f)
          else
            var (orig, missing, falseLine) := Scores(ls, m, h, f);
            if orig >= missing && orig >= falseLine then
              Stop(false, MismatchProblem(s))
            else if missing > falseLine then
              Continue(InsertAt(ls, h, Line(Retain, fileLine)), h + 1, f + 1)
            else
              var ls' := RemoveAt(ls, h);
              assert ls'[h..] == ls[h + 1..];
              Continue(ls', h, f)
        else
          Continue(ls, h + 1, f + 1)
    else if h < |ls| - 1 then
      Stop(false, StoppedProblem(s, f))
    else
      Stop(true, "")
  }

  /** `validate_lines` from hunk cursor `h` and file cursor `f`: the loop run to its end. */
  function ValidateLinesFrom(s: HunkState, m: LineMap, h: nat, f: int): (v: Verdict)
    requires CursorsOk(s.lines, m, h, f)
    ensures v.ok <==> v.problems == []
    ensures |v.problems| <= 1
    ensures v.hunk == s.(lines := v.hunk.lines)
    decreases if f <= Hi(m) then Hi(m) + 1 - f else 0, Pending(s.lines, h), 1
  {
    RunLoop(s, m, h, f)
  }

  /**
   * One turn of the `validate_lines` loop from cursors `h` and `f` and the
   * turns after it; kept apart from `ValidateLinesFrom` so that unfolding the
   * loop once does not unfold a step as well.
   */
  function RunLoop(s: HunkState, m: LineMap, h: nat, f: int): (v: Verdict)
    requires CursorsOk(s.lines, m, h, f)
    ensures v.ok <==> v.problems == []
    ensures |v.problems| <= 1
    ensures v.hunk == s.(lines := v.hunk.lines)
    decreases if f <= Hi(m) then Hi(m) + 1 - f else 0, Pending(s.lines, h), 0
  {
    match ValidateStep(s, m, h, f)
    case Continue(ls', h', f') => ValidateLinesFrom(s.(lines := ls'), m, h', f')
    case Stop(ok, problem) => if ok then Verdict(s, true, []) else Fail(s, problem)
  }

  /** `validate_lines` as called: both cursors at their start. */
  function ValidateLines(s: HunkState, m: LineMap): Verdict
    requires Contiguous(m) && |m| > 0
    requires Lo(m) <= s.startPre || AllAdd(s.lines)
  {
    assert s.lines[0..] == s.lines;
    ValidateLinesFrom(s, m, 0, s.startPre)
  }

  lemma PendingStep(ls: seq<Line>, h: nat)
    requires h < |ls|
    ensures NonAdd(ls[h..]) == (if ls[h].tag == Add then 0 else 1) + NonAdd(ls[h + 1..])
  {
    assert ls[h..][1..] == ls[h + 1..];
  }

  // ----- find_start_line / validate_and_correct -----

  /** The position of the first line of the map whose text is similar to `t`, or -1. */
  function FirstSimilar(m: LineMap, t: string): (r: int)
    ensures -1 <= r < |m|
    ensures r >= 0 ==> IsSimilar(t, m[r].1) && forall j {:trigger IsSimilar(t, m[j].1)} :: 0 <= j < r ==> !IsSimilar(t, m[j].1)
    ensures r == -1 ==> forall j {:trigger IsSimilar(t, m[j].1)} :: 0 <= j < |m| ==> !IsSimilar(t, m[j].1)
  {
    FirstSimilarFromFound(m, t, 0);
    FirstSimilarFromNone(m, t, 0);
    FirstSimilarFrom(m, t, 0)
  }

  /** The scan behind `FirstSimilar`, from position `i` on. */
  function FirstSimilarFrom(m: LineMap, t: string, i: nat): (r: int)
    requires i <= |m|
    ensures r == -1 || i <= r < |m|
    decreases |m| - i
  {
    if i == |m| then -1
    else if IsSimilar(t, m[i].1) then i
    else FirstSimilarFrom(m, t, i + 1)
  }

  /** A position the scan returns is similar, and every position it passed over is not. */
  lemma {:induction false} FirstSimilarFromFound(m: LineMap, t: string, i: nat)
    requires i <= |m|
    ensures var r := FirstSimilarFrom(m, t, i);
            r >= 0 ==> IsSimilar(t, m[r].1) && forall j {:trigger IsSimilar(t, m[j].1)} :: i <= j < r ==> !IsSimilar(t, m[j].1)
    decreases |m| - i
  {
    if i < |m| && !IsSimilar(t, m[i].1) {
      FirstSimilarFromFound(m, t, i + 1);
    }
  }

  /** When the scan finds nothing, no position from `i` on is similar. */
  lemma {:induction false} FirstSimilarFromNone(m: LineMap, t: string, i: nat)
    requires i <= |m|
    ensures FirstSimilarFrom(m, t, i) == -1 ==> forall j {:trigger IsSimilar(t, m[j].1)} :: i <= j < |m| ==> !IsSimilar(t, m[j].1)
    decreases |m| - i
  {
    if i < |m| && FirstSimilarFrom(m, t, i) == -1 {
      FirstSimilarFromNone(m, t, i + 1);
      assert !IsSimilar(t, m[i].1);
    }
  }

  /** The index of the first line that is not ADD, or `|ls|`. */
  function FirstNonAdd(ls: seq<Line>): (r: nat)
    ensures r <= |ls|
    ensures forall j :: 0 <= j < r ==> ls[j].tag == Add
    ensures r < |ls| ==> ls[r].tag != Add
    decreases |ls|
  {
    if ls == [] || ls[0].tag != Add then 0 else 1 + FirstNonAdd(ls[1..])
  }

  /** A scan that stops at the first similar entry finds what `FirstSimilar` names. */
  lemma FirstSimilarUnique(m: LineMap, t: string, j: int)
    requires 0 <= j < |m| && IsSimilar(t, m[j].1)
    requires forall i {:trigger IsSimilar(t, m[i].1)} :: 0 <= i < j ==> !IsSimilar(t, m[i].1)
    ensures FirstSimilar(m, t) == j
  {
  }

  lemma FirstSimilarNone(m: LineMap, t: string)
    requires forall i {:trigger IsSimilar(t, m[i].1)} :: 0 <= i < |m| ==> !IsSimilar(t, m[i].1)
    ensures FirstSimilar(m, t) == -1
  {
  }

  lemma FirstNonAddUnique(ls: seq<Line>, i: nat)
    requires i <= |ls| && (forall j :: 0 <= j < i ==> ls[j].tag == Add)
    requires i < |ls| ==> ls[i].tag != Add
    ensures FirstNonAdd(ls) == i
  {
  }

  /** How `find_start_line` ends before any recursion: a start found, a problem, or a restart on an edited hunk. */
  datatype Located = Found(hunk: HunkState) | Lost(hunk: HunkState, problem: string) | Restart(hunk: HunkState)

  /** The body of `find_start_line` up to its recursive calls of `validate_and_correct`. */
  /**
   * The ADD-first branch of `find_start_line` once the line before the match,
   * `start`, is known: it becomes the start, and is put in front of the hunk
   * as a RETAIN line when the file has it.
   */
  function PlaceStart(s: HunkState, m: LineMap, start: int): (r: Located)
    requires |s.lines| > 0
    ensures !r.Found? && r.hunk.isNewFile == s.isNewFile && |r.hunk.lines| > 0
    ensures r.hunk.startPre == start
  {
    var s1 := s.(startPre := start);
    if GetOr(m, start, "") != "" then
      Restart(s1.(lines := [Line(Retain, Get(m, start))] + s1.lines))
    else
      Lost(s1, MissingStartProblem(s1))
  }

  function Locate(s: HunkState, m: LineMap): (r: Located)
    requires |s.lines| > 0
    ensures r.hunk.isNewFile == s.isNewFile && |r.hunk.lines| > 0
    ensures r.Found? ==> HasKey(m, r.hunk.startPre) && r.hunk == s.(startPre := r.hunk.startPre)
  {
    var i := FirstNonAdd(s.lines);
    if s.lines[0].tag == Add && i < |s.lines| then
      var t := s.lines[i].text;
      var j := if t == "" then -1 else FirstSimilar(m, t);
      if j == -1 then
        Lost(s, NotFoundProblem(s))
      else
        PlaceStart(s, m, m[j].0 - 1)
    else
      var j := FirstSimilar(m, s.lines[0].text);
      if j == -1 then
        if '#' in s.lines[0].text then
          Restart(s.(lines := s.lines[0 := Line(Add, s.lines[0].text)]))
        else
          Lost(s, MissingStartProblem(s))
      else
        assert Find(m, m[j].0) >= 0;
        Found(s.(startPre := m[j].0))
  }

  /**
   * What `find_start_line` does once the hunk is localised: report success or
   * the problem, or, on a restart, run the recursive `validate_and_correct`,
   * which costs one unit of fuel.
   */
  function Resume(r: Located, m: LineMap, fuel: nat): (v: Option<Verdict>)
    requires Contiguous(m) && !r.hunk.isNewFile && |r.hunk.lines| > 0
    requires r.Found? ==> HasKey(m, r.hunk.startPre)
    ensures v.Some? ==> (v.value.ok <==> v.value.problems == []) && |v.value.problems| <= 1
    ensures v.Some? ==> !v.value.hunk.isNewFile
    ensures v.Some? && v.value.ok ==> HasKey(m, v.value.hunk.startPre)
    decreases fuel, 0
  {
    match r
    case Found(s1) => Some(Verdict(s1, true, []))
    case Lost(s1, problem) => Some(Fail(s1, problem))
    case Restart(s1) => if fuel == 0 then None else ValidateAndCorrect(s1, m, fuel - 1)
  }

  /** `find_start_line`. */
  function FindStart(s: HunkState, m: LineMap, fuel: nat): (r: Option<Verdict>)
    requires Contiguous(m) && !s.isNewFile && |s.lines| > 0
    ensures r.Some? ==> (r.value.ok <==> r.value.problems == []) && |r.value.problems| <= 1
    ensures r.Some? ==> r.value.hunk.isNewFile == s.isNewFile
    ensures r.Some? && r.value.ok ==> HasKey(m, r.value.hunk.startPre)
    decreases fuel, 1
  {
    Resume(Locate(s, m), m, fuel)
  }

  /**
   * `Hunk.validate_and_correct`. `check_start_line` returns true only for a
   * new-file hunk (otherwise it falls off its end and returns `None`), so every
   * other hunk is first re-localised by `find_start_line`.
   */
  function ValidateAndCorrect(s: HunkState, m: LineMap, fuel: nat): (r: Option<Verdict>)
    requires Contiguous(m)
    requires s.isNewFile ==> |m| > 0 && (Lo(m) <= s.startPre || AllAdd(s.lines))
    requires !s.isNewFile ==> |s.lines| > 0
    ensures r.Some? ==> (r.value.ok <==> r.value.problems == []) && |r.value.problems| <= 1
    ensures r.Some? ==> r.value.hunk.isNewFile == s.isNewFile
    ensures r.Some? && r.value.ok && !s.isNewFile ==> HasKey(m, r.value.hunk.startPre)
    decreases fuel, 2
  {
    if s.isNewFile then
      Some(ValidateLines(s, m))
    else
      var found := FindStart(s, m, fuel);
      if found.None? || !found.value.ok then found
      else
        var s1 := found.value.hunk;
        ContiguousFind(m, s1.startPre);
        Some(ValidateLines(s1, m))
  }

  /**
   * The inputs on which the recursion has no end short of `RecursionError`: every line after the first
   * is ADD, the first contains `#`, and no line of the map is similar to it.
   * Relabelling the first line as ADD then restarts from the same state.
   */
  predicate Divergent(s: HunkState, m: LineMap)
  {
    |s.lines| > 0
    && (forall i :: 1 <= i < |s.lines| ==> s.lines[i].tag == Add)
    && '#' in s.lines[0].text
    && FirstSimilar(m, s.lines[0].text) == -1
  }
}
