/**
 * The value-level specification of `Diff` in espada/core/diff.py: its text
 * rendering, the new-file test, and `validate_and_correct`, which walks the
 * hunks with a working line map that only ever shrinks, drops the hunks that
 * fail and renumbers the rest.
 *
 * The walk is written twice. `WalkFrom` follows the source's `for` loop over a
 * list it removes from while iterating: the iterator's index moves on by one
 * after a removal, so the hunk that slid into the removed one's place is passed
 * over. `Sweep` reads the same walk front to back over the original list, with
 * that passed-over hunk made explicit; `WalkMatchesSweep` shows the two agree.
 */
module DiffSpec {
  import opened PyStr
  import opened Wrappers
  import opened LineMaps
  import opened HunkSpec

  /**
   * The fields of a `Diff` object. `filename_pre` is `None` when the parsed
   * block had no `--- ` line before its `+++ ` line.
   */
  datatype DiffState = DiffState(pre: Option<string>, post: string, hunks: seq<HunkState>)

  const DevNull: string := "/dev/null"

  /** `Diff.is_new_file`. */
  predicate IsNewFile(d: DiffState)
  {
    d.pre == Some(DevNull) || exists i :: 0 <= i < |d.hunks| && d.hunks[i].isNewFile
  }

  /** How an f-string renders an optional file name: `None` prints as `None`. */
  function NameText(name: Option<string>): string
  {
    match name
    case None => "None"
    case Some(n) => n
  }

  /** The two file-name lines that open a diff. */
  function DiffHeader(d: DiffState): string
  {
    "--- " + NameText(d.pre) + "\n+++ " + d.post + "\n"
  }

  /** The `hunk_to_string` texts of the hunks, one after the other. */
  function HunksText(hs: seq<HunkState>): string
    decreases |hs|
  {
    if hs == [] then "" else HunkText(hs[0]) + HunksText(hs[1..])
  }

  /** `diff_to_string`. */
  function DiffText(d: DiffState): string
  {
    Strip(DiffHeader(d) + HunksText(d.hunks))
  }

  lemma {:induction false} HunksTextAppend(hs: seq<HunkState>, h: HunkState)
    ensures HunksText(hs + [h]) == HunksText(hs) + HunkText(h)
    decreases |hs|
  {
    if hs != [] {
      assert (hs + [h])[1..] == hs[1..] + [h];
      HunksTextAppend(hs[1..], h);
    }
  }

  lemma HunksTextPrefix(head: string, hs: seq<HunkState>, k: nat)
    requires k < |hs|
    ensures head + HunksText(hs[..k]) + HunkText(hs[k]) == head + HunksText(hs[..k + 1])
  {
    assert hs[..k + 1] == hs[..k] + [hs[k]];
    HunksTextAppend(hs[..k], hs[k]);
  }

  /** The text of a non-empty run of hunks opens with the first hunk's `@@`. */
  lemma HunksTextOpens(hs: seq<HunkState>)
    requires hs != []
    ensures |HunksText(hs)| >= 2 && HunksText(hs)[0] == '@' && HunksText(hs)[1] == '@'
  {
    var h := HeaderText(hs[0]);
    assert h[0] == '@' && h[1] == '@';
    var t := HunksText(hs[1..]);
    assert HunksText(hs) == h + RenderLines(hs[0].lines) + t;
  }

  /** A diff with hunks renders as its two file-name lines followed by the first hunk's `@@` header. */
  lemma DiffTextKeepsHeader(d: DiffState)
    requires d.hunks != []
    ensures var h := DiffHeader(d);
            |DiffText(d)| > |h| + 1 && DiffText(d)[..|h|] == h && DiffText(d)[|h|] == '@' && DiffText(d)[|h| + 1] == '@'
  {
    var h := DiffHeader(d);
    assert h[0] == '-';
    HunksTextOpens(d.hunks);
    StripKeepsPrefix(h, HunksText(d.hunks));
  }

  /** Stripping `h + t`, where `h` opens with a non-blank and `t` with two non-blanks, keeps `h` and those two. */
  lemma StripKeepsPrefix(h: string, t: string)
    requires h != [] && !IsSpace(h[0]) && |t| >= 2 && !IsSpace(t[0]) && !IsSpace(t[1])
    ensures |Strip(h + t)| > |h| + 1 && Strip(h + t)[..|h|] == h && Strip(h + t)[|h|] == t[0] && Strip(h + t)[|h| + 1] == t[1]
  {
    var s := h + t;
    assert Strip(s) == StripRight(s) by {
      assert s[0] == h[0];
      assert StripLeft(s) == s;
    }
    assert s[|h| + 1] == t[1] && s[..|h|] == h;
    StripRightKeeps(s, |h| + 1);
    SamePrefix(StripRight(s), s, |h|);
  }

  /** Two strings that agree up to position `n + 1` agree on the part before `n` and at `n` and `n + 1`. */
  lemma SamePrefix(a: string, s: string, n: nat)
    requires n + 1 < |a| && n + 1 < |s| && a[..n + 1 + 1] == s[..n + 1 + 1]
    ensures a[..n] == s[..n] && a[n] == s[n] && a[n + 1] == s[n + 1]
  {
    var a2, s2 := a[..n + 1 + 1], s[..n + 1 + 1];
    assert a[..n] == a2[..n] && s[..n] == s2[..n];
    assert a[n] == a2[n] && s[n] == s2[n];
    assert a[n + 1] == a2[n + 1] && s[n + 1] == s2[n + 1];
  }

  // ----- Diff.validate_and_correct -----

  /** `hunk_len_post_edit` as the walk recomputes it: RETAIN plus ADD lines (`NonAdd` is the pre-edit length). */
  function PostLen(ls: seq<Line>): nat
  {
    Count(ls, Retain) + Count(ls, Add)
  }

  /** The post-edit start of a hunk at pre-edit start `start`, placed after the hunk `p`. */
  function ShiftedStart(start: int, p: HunkState): int
  {
    start + p.lenPost - p.lenPre + p.startPost - p.startPre
  }

  /** The numbers the walk writes into a hunk it has visited; `past` is the hunk visited before it. */
  function Renumber(s: HunkState, past: Option<HunkState>): (r: HunkState)
    ensures r.lenPre == NonAdd(r.lines) && r.lenPost == PostLen(r.lines)
    ensures r == s.(lenPre := r.lenPre, lenPost := r.lenPost, startPost := r.startPost)
    ensures past.None? ==> r.startPost == r.startPre
    ensures past.Some? ==> r.startPost == ShiftedStart(r.startPre, past.value)
  {
    var startPost := match past
      case None => s.startPre
      case Some(p) => ShiftedStart(s.startPre, p);
    s.(lenPre := NonAdd(s.lines), lenPost := PostLen(s.lines), startPost := startPost)
  }

  /**
   * `cut_lines_dict` before hunk `s` is checked: from the second visited hunk
   * on, the keys below the end of the previous hunk or the start of `s`,
   * whichever is smaller, are dropped. The map keeps a run of its keys.
   */
  function Cut(cut: LineMap, past: Option<HunkState>, s: HunkState): (r: LineMap)
    requires Contiguous(cut)
    ensures Contiguous(r) && |r| <= |cut|
    ensures exists k :: 0 <= k <= |cut| && r == cut[k..]
    ensures past.Some? ==> forall i :: 0 <= i < |r| ==> r[i].0 >= Min(past.value.startPre + past.value.lenPre, s.startPre)
  {
    match past
    case None =>
      assert cut == cut[0..];
      cut
    case Some(p) =>
      var c := Min(p.startPre + p.lenPre, s.startPre);
      KeepFromContiguous(cut, c);
      var r := KeepFrom(cut, c);
      assert r == cut[|cut| - |r|..];
      r
  }

  /**
   * A check of one hunk against the working map, as the walk calls
   * `Hunk.validate_and_correct`: the verdict, or `None` where the check's
   * recursion would not end. The walk is stated for any check that answers the
   * way that method does (`Answers`); `ValidateDiff` uses `CheckHunk`.
   */
  type HunkCheck = (HunkState, LineMap) -> Option<Verdict>

  /** A check reports a problem exactly when it fails, and never more than one. */
  ghost predicate Answers(check: HunkCheck)
  {
    forall s, m :: check(s, m).Some? ==>
      (check(s, m).value.ok <==> check(s, m).value.problems == []) && |check(s, m).value.problems| <= 1
  }

  /**
   * `hunk.validate_and_correct(cut_lines_dict)` with its default recursion
   * depth, for the hunks the walk is given (existing-file hunks with a line,
   * on a map that keeps a run of keys); the walk hands it nothing else.
   */
  function CheckHunk(s: HunkState, m: LineMap): (r: Option<Verdict>)
    ensures r.Some? ==> Contiguous(m) && !s.isNewFile && |s.lines| > 0
    ensures Contiguous(m) && !s.isNewFile && |s.lines| > 0 ==> r == ValidateAndCorrect(s, m, RetryDepth)
  {
    if Contiguous(m) && !s.isNewFile && |s.lines| > 0 then ValidateAndCorrect(s, m, RetryDepth) else None
  }

  lemma CheckHunkAnswers()
    ensures Answers(CheckHunk)
  {
    forall s, m | CheckHunk(s, m).Some?
      ensures (CheckHunk(s, m).value.ok <==> CheckHunk(s, m).value.problems == []) && |CheckHunk(s, m).value.problems| <= 1
    {
      var v := ValidateAndCorrect(s, m, RetryDepth);
      assert CheckHunk(s, m) == v;
    }
  }

  /** What one pass of the loop body leaves: the cut map, the renumbered hunk, the problems so far, and whether the hunk stays. */
  datatype Visited = Visited(cut: LineMap, hunk: HunkState, problems: seq<string>, kept: bool)

  /**
   * The body of the loop on hunk `s`: cut the map, check the hunk against it,
   * remove the hunk when it failed and some problem has been reported, and
   * renumber it in any case.
   */
  function VisitHunk(check: HunkCheck, s: HunkState, past: Option<HunkState>, cut: LineMap, problems: seq<string>): (r: Option<Visited>)
    requires Contiguous(cut)
    ensures r.Some? ==> Contiguous(r.value.cut) && r.value.cut == Cut(cut, past, s)
    ensures r.Some? ==> check(s, r.value.cut).Some? && r.value.hunk == Renumber(check(s, r.value.cut).value.hunk, past)
  {
    var cut' := Cut(cut, past, s);
    match check(s, cut')
    case None => None
    case Some(v) =>
      var problems' := problems + v.problems;
      Some(Visited(cut', Renumber(v.hunk, past), problems', !(!v.ok && |problems'| > 0)))
  }

  /** With a check that answers like the source's, a kept hunk adds no problem and a removed one adds exactly one. */
  lemma VisitAnswers(check: HunkCheck, s: HunkState, past: Option<HunkState>, cut: LineMap, problems: seq<string>)
    requires Contiguous(cut) && Answers(check)
    ensures var r := VisitHunk(check, s, past, cut, problems);
            (r.Some? && r.value.kept ==> r.value.problems == problems)
            && (r.Some? && !r.value.kept ==> |r.value.problems| == |problems| + 1 && r.value.problems[..|problems|] == problems)
  {
    var cut' := Cut(cut, past, s);
    if check(s, cut').Some? {
      var v := check(s, cut').value;
      assert (v.ok <==> v.problems == []) && |v.problems| <= 1;
      assert (problems + v.problems)[..|problems|] == problems;
    }
  }

  /**
   * The state of `for hunk in self.hunks`: the list as it is now, the position
   * of the list iterator, `past_hunk`, `cut_lines_dict` and `problems`.
   */
  datatype Walk = Walk(hunks: seq<HunkState>, i: nat, past: Option<HunkState>, cut: LineMap, problems: seq<string>)

  /** One turn of the loop; a removal shifts the rest of the list down while the position still moves on by one. */
  function Turn(check: HunkCheck, w: Walk): (r: Option<Walk>)
    requires Contiguous(w.cut) && w.i < |w.hunks|
    ensures r.Some? ==> Contiguous(r.value.cut) && r.value.i == w.i + 1 && |r.value.hunks| <= |w.hunks|
  {
    match VisitHunk(check, w.hunks[w.i], w.past, w.cut, w.problems)
    case None => None
    case Some(v) =>
      if v.kept then
        Some(Walk(w.hunks[w.i := v.hunk], w.i + 1, Some(v.hunk), v.cut, v.problems))
      else
        Some(Walk(w.hunks[..w.i] + w.hunks[w.i + 1..], w.i + 1, Some(v.hunk), v.cut, v.problems))
  }

  /** The loop run to its end: the iterator stops once its position is past the end of the list. */
  function WalkFrom(check: HunkCheck, w: Walk): (r: Option<Walk>)
    requires Contiguous(w.cut)
    ensures r.Some? ==> r.value.i >= |r.value.hunks|
    decreases if w.i <= |w.hunks| then |w.hunks| - w.i else 0, 1
  {
    if w.i >= |w.hunks| then Some(w) else WalkOn(check, w)
  }

  /** One turn of the loop followed by the rest of the run (kept apart from `WalkFrom` so that each unfolding takes one turn). */
  function WalkOn(check: HunkCheck, w: Walk): (r: Option<Walk>)
    requires Contiguous(w.cut) && w.i < |w.hunks|
    ensures r.Some? ==> r.value.i >= |r.value.hunks|
    decreases |w.hunks| - w.i, 0
  {
    match Turn(check, w)
    case None => None
    case Some(w') => WalkFrom(check, w')
  }

  /** The hunks `Diff.validate_and_correct` is given: those of an existing file, each with a line. */
  predicate Checkable(hs: seq<HunkState>)
  {
    forall j :: 0 <= j < |hs| ==> !hs[j].isNewFile && |hs[j].lines| > 0
  }

  /**
   * `Diff.validate_and_correct(lines_dict)`: the diff after the walk and the
   * problems reported; `None` where a hunk's recursion would not end.
   */
  function ValidateDiff(d: DiffState, m: LineMap): Option<(DiffState, seq<string>)>
    requires Contiguous(m) && Checkable(d.hunks)
  {
    match WalkFrom(CheckHunk, Walk(d.hunks, 0, None, m, []))
    case None => None
    case Some(w) => Some((d.(hunks := w.hunks), w.problems))
  }

  /**
   * The walk read front to back over the original list: a kept hunk is
   * replaced by its renumbered self; a removed hunk disappears, and the one
   * after it is passed over and stays exactly as it was.
   */
  function Sweep(check: HunkCheck, hs: seq<HunkState>, past: Option<HunkState>, cut: LineMap, problems: seq<string>)
    : (r: Option<(seq<HunkState>, seq<string>)>)
    requires Contiguous(cut)
    ensures r.Some? ==> |r.value.0| <= |hs|
    decreases |hs|, 1
  {
    if hs == [] then Some(([], problems)) else SweepVisit(check, hs, past, cut, problems)
  }

  /** `Sweep` on a non-empty list: visit its first hunk, then sweep what follows the hunks it settles. */
  function SweepVisit(check: HunkCheck, hs: seq<HunkState>, past: Option<HunkState>, cut: LineMap, problems: seq<string>)
    : (r: Option<(seq<HunkState>, seq<string>)>)
    requires Contiguous(cut) && hs != []
    ensures r.Some? ==> |r.value.0| <= |hs|
    decreases |hs|, 0
  {
    match VisitHunk(check, hs[0], past, cut, problems)
    case None => None
    case Some(v) =>
      if v.kept then
        match Sweep(check, hs[1..], Some(v.hunk), v.cut, v.problems)
        case None => None
        case Some(rest) => Some(([v.hunk] + rest.0, rest.1))
      else if |hs| == 1 then
        Some(([], v.problems))
      else
        match Sweep(check, hs[2..], Some(v.hunk), v.cut, v.problems)
        case None => None
        case Some(rest) => Some(([hs[1]] + rest.0, rest.1))
  }

  /** A walk that finishes takes its first turn, and finishes from where that turn leaves it. */
  lemma WalkTurn(check: HunkCheck, w: Walk)
    requires Contiguous(w.cut) && w.i < |w.hunks| && WalkFrom(check, w).Some?
    ensures Turn(check, w).Some? && WalkFrom(check, w) == WalkFrom(check, Turn(check, w).value)
  {
    assert WalkFrom(check, w) == WalkOn(check, w);
  }

  /** A walk on the real check that finishes can check the hunk it is at. */
  lemma WalkChecks(w: Walk)
    requires Contiguous(w.cut) && w.i < |w.hunks| && WalkFrom(CheckHunk, w).Some?
    ensures CheckHunk(w.hunks[w.i], Cut(w.cut, w.past, w.hunks[w.i])).Some?
  {
    WalkTurn(CheckHunk, w);
  }

  /** Where one turn leaves the walk once the hunk's verdict `v` against the cut map `cut'` is known. */
  function Next(w: Walk, cut': LineMap, v: Verdict): (r: Walk)
    requires w.i < |w.hunks|
    ensures r.i == w.i + 1 && r.cut == cut' && r.problems == w.problems + v.problems
    ensures r.past == Some(Renumber(v.hunk, w.past))
  {
    var s := Renumber(v.hunk, w.past);
    var ps := w.problems + v.problems;
    if !v.ok && |ps| > 0 then Walk(w.hunks[..w.i] + w.hunks[w.i + 1..], w.i + 1, Some(s), cut', ps)
    else Walk(w.hunks[w.i := s], w.i + 1, Some(s), cut', ps)
  }

  /**
   * `Next` assembled from its parts: `mid` is the list once the checked hunk
   * `v.hunk` replaced the one at the walk's position, `hs` the list after the
   * turn and `s` the renumbered hunk.
   */
  lemma NextParts(w: Walk, cut': LineMap, v: Verdict, mid: seq<HunkState>, hs: seq<HunkState>, s: HunkState)
    requires w.i < |w.hunks| && mid == w.hunks[w.i := v.hunk] && s == Renumber(v.hunk, w.past)
    requires hs == if !v.ok && |w.problems + v.problems| > 0 then mid[..w.i] + mid[w.i + 1..] else mid[w.i := s]
    ensures Walk(hs, w.i + 1, Some(s), cut', w.problems + v.problems) == Next(w, cut', v)
  {
    assert mid[..w.i] == w.hunks[..w.i];
    assert mid[w.i + 1..] == w.hunks[w.i + 1..];
    assert mid[w.i := s] == w.hunks[w.i := s];
  }

  /** One turn of the walk with the real check, in the terms the loop body computes it. */
  lemma TurnOnCheck(w: Walk, cut': LineMap, v: Verdict)
    requires Contiguous(w.cut) && w.i < |w.hunks|
    requires cut' == Cut(w.cut, w.past, w.hunks[w.i]) && CheckHunk(w.hunks[w.i], cut') == Some(v)
    ensures Turn(CheckHunk, w) == Some(Next(w, cut', v))
  {
  }

  /** A walk that finishes on the real check finishes from where its first turn leaves it. */
  lemma WalkAdvance(w: Walk, cut': LineMap, v: Verdict)
    requires Contiguous(w.cut) && w.i < |w.hunks|
    requires cut' == Cut(w.cut, w.past, w.hunks[w.i]) && CheckHunk(w.hunks[w.i], cut') == Some(v)
    ensures Contiguous(cut') && WalkFrom(CheckHunk, w) == WalkFrom(CheckHunk, Next(w, cut', v))
  {
    assert WalkFrom(CheckHunk, w) == WalkOn(CheckHunk, w);
    TurnOnCheck(w, cut', v);
  }

  /** One turn of the walk as the loop body takes it: check, then remove or renumber in place. */
  lemma VisitStep(w: Walk, cut': LineMap, v: Verdict, mid: seq<HunkState>, hs: seq<HunkState>, s: HunkState)
    requires Contiguous(w.cut) && w.i < |w.hunks|
    requires cut' == Cut(w.cut, w.past, w.hunks[w.i]) && CheckHunk(w.hunks[w.i], cut') == Some(v)
    requires mid == w.hunks[w.i := v.hunk] && s == Renumber(v.hunk, w.past)
    requires hs == if !v.ok && |w.problems + v.problems| > 0 then mid[..w.i] + mid[w.i + 1..] else mid[w.i := s]
    ensures Contiguous(cut') && WalkFrom(CheckHunk, Walk(hs, w.i + 1, Some(s), cut', w.problems + v.problems)) == WalkFrom(CheckHunk, w)
  {
    NextParts(w, cut', v, mid, hs, s);
    WalkAdvance(w, cut', v);
  }

  // ----- properties of the walk -----

  /** The loop from state `w` on and the front-to-back reading of the rest of the list give the same hunks and problems. */
  ghost predicate SameOutcome(check: HunkCheck, w: Walk)
    requires Contiguous(w.cut) && w.i <= |w.hunks|
  {
    var r := WalkFrom(check, w);
    var s := Sweep(check, w.hunks[w.i..], w.past, w.cut, w.problems);
    (r.Some? <==> s.Some?)
    && (r.Some? ==> r.value.hunks == w.hunks[..w.i] + s.value.0 && r.value.problems == s.value.1)
  }

  lemma UpdateSplits(hs: seq<HunkState>, i: nat, x: HunkState)
    requires i < |hs|
    ensures hs[i := x][..i + 1] == hs[..i] + [x] && hs[i := x][i + 1..] == hs[i + 1..]
  {
  }

  lemma RemoveSplits(hs: seq<HunkState>, i: nat)
    requires i + 1 < |hs|
    ensures var rest := hs[..i] + hs[i + 1..];
            rest[..i + 1] == hs[..i] + [hs[i + 1]] && rest[i + 1..] == hs[i + 2..]
  {
    var rest := hs[..i] + hs[i + 1..];
    assert rest[..i + 1] == hs[..i] + [hs[i + 1]];
  }

  /** The index-based loop and the front-to-back reading agree. */
  lemma {:induction false} WalkMatchesSweep(check: HunkCheck, w: Walk)
    requires Contiguous(w.cut) && w.i <= |w.hunks|
    ensures SameOutcome(check, w)
    decreases |w.hunks| - w.i, 1
  {
    if w.i == |w.hunks| {
      assert w.hunks[..w.i] == w.hunks && w.hunks[w.i..] == [];
    } else {
      var hs := w.hunks[w.i..];
      assert hs[0] == w.hunks[w.i];
      assert WalkFrom(check, w) == WalkOn(check, w);
      assert Sweep(check, hs, w.past, w.cut, w.problems) == SweepVisit(check, hs, w.past, w.cut, w.problems);
      var v := VisitHunk(check, w.hunks[w.i], w.past, w.cut, w.problems);
      if v.Some? && v.value.kept {
        KeptMatches(check, w, v.value);
      } else if v.Some? {
        RemovedMatches(check, w, v.value);
      }
    }
  }

  lemma {:induction false} KeptMatches(check: HunkCheck, w: Walk, v: Visited)
    requires Contiguous(w.cut) && w.i < |w.hunks|
    requires VisitHunk(check, w.hunks[w.i], w.past, w.cut, w.problems) == Some(v) && v.kept
    ensures var r := WalkOn(check, w);
            var s := SweepVisit(check, w.hunks[w.i..], w.past, w.cut, w.problems);
            (r.Some? <==> s.Some?)
            && (r.Some? ==> r.value.hunks == w.hunks[..w.i] + s.value.0 && r.value.problems == s.value.1)
    decreases |w.hunks| - w.i, 0
  {
    var w' := Walk(w.hunks[w.i := v.hunk], w.i + 1, Some(v.hunk), v.cut, v.problems);
    var hs := w.hunks[w.i..];
    var r := WalkOn(check, w);
    var s' := Sweep(check, hs[1..], Some(v.hunk), v.cut, v.problems);
    assert SweepVisit(check, hs, w.past, w.cut, w.problems) == if s'.None? then None else Some(([v.hunk] + s'.value.0, s'.value.1)) by {
      assert hs[0] == w.hunks[w.i];
    }
    assert (r.Some? <==> s'.Some?) && (r.Some? ==> r.value.hunks == (w.hunks[..w.i] + [v.hunk]) + s'.value.0 && r.value.problems == s'.value.1) by {
      assert r == WalkFrom(check, w') by {
        assert Turn(check, w) == Some(w');
      }
      assert w'.hunks[w'.i..] == hs[1..] && w'.hunks[..w'.i] == w.hunks[..w.i] + [v.hunk] by {
        UpdateSplits(w.hunks, w.i, v.hunk);
      }
      WalkMatchesSweep(check, w');
    }
    PrependAgrees(w.hunks[..w.i], v.hunk, r, s', SweepVisit(check, hs, w.past, w.cut, w.problems));
  }

  /** Moving one settled hunk `x` from the finished part to the front of the rest keeps the walk and the sweep in agreement. */
  lemma PrependAgrees(pre: seq<HunkState>, x: HunkState, r: Option<Walk>, s': Option<(seq<HunkState>, seq<string>)>, s: Option<(seq<HunkState>, seq<string>)>)
    requires s == if s'.None? then None else Some(([x] + s'.value.0, s'.value.1))
    requires (r.Some? <==> s'.Some?) && (r.Some? ==> r.value.hunks == (pre + [x]) + s'.value.0 && r.value.problems == s'.value.1)
    ensures (r.Some? <==> s.Some?) && (r.Some? ==> r.value.hunks == pre + s.value.0 && r.value.problems == s.value.1)
  {
    if r.Some? {
      assert (pre + [x]) + s'.value.0 == pre + ([x] + s'.value.0);
    }
  }

  lemma {:induction false} RemovedMatches(check: HunkCheck, w: Walk, v: Visited)
    requires Contiguous(w.cut) && w.i < |w.hunks|
    requires VisitHunk(check, w.hunks[w.i], w.past, w.cut, w.problems) == Some(v) && !v.kept
    ensures var r := WalkOn(check, w);
            var s := SweepVisit(check, w.hunks[w.i..], w.past, w.cut, w.problems);
            (r.Some? <==> s.Some?)
            && (r.Some? ==> r.value.hunks == w.hunks[..w.i] + s.value.0 && r.value.problems == s.value.1)
    decreases |w.hunks| - w.i, 0
  {
    var rest := w.hunks[..w.i] + w.hunks[w.i + 1..];
    var w' := Walk(rest, w.i + 1, Some(v.hunk), v.cut, v.problems);
    assert Turn(check, w) == Some(w');
    var hs := w.hunks[w.i..];
    assert hs[0] == w.hunks[w.i];
    if |hs| == 1 {
      assert rest == w.hunks[..w.i];
      assert WalkFrom(check, w') == Some(w');
    } else {
      assert hs[1] == w.hunks[w.i + 1];
      RemoveSplits(w.hunks, w.i);
      assert w'.hunks[w'.i..] == hs[2..];
      WalkMatchesSweep(check, w');
      var s' := Sweep(check, hs[2..], Some(v.hunk), v.cut, v.problems);
      if s'.Some? {
        assert w.hunks[..w.i] + [hs[1]] + s'.value.0 == w.hunks[..w.i] + ([hs[1]] + s'.value.0);
      }
    }
  }

  /** `ValidateDiff` is `Sweep` over the whole list, starting with no previous hunk and the full map. */
  lemma ValidateDiffIsSweep(d: DiffState, m: LineMap)
    requires Contiguous(m) && Checkable(d.hunks)
    ensures var r := ValidateDiff(d, m);
            var s := Sweep(CheckHunk, d.hunks, None, m, []);
            (r.Some? <==> s.Some?)
            && (r.Some? ==> r.value.0 == d.(hunks := s.value.0) && r.value.1 == s.value.1)
  {
    var w := Walk(d.hunks, 0, None, m, []);
    WalkMatchesSweep(CheckHunk, w);
    assert w.hunks[0..] == d.hunks && w.hunks[..0] == [];
  }

  /**
   * Every removed hunk reports exactly one problem and no kept hunk reports any:
   * the problems only grow, and the number of hunks lost is the number of new problems.
   */
  lemma {:induction false} SweepCountsRemovals(check: HunkCheck, hs: seq<HunkState>, past: Option<HunkState>, cut: LineMap, problems: seq<string>)
    requires Contiguous(cut) && Answers(check)
    ensures var r := Sweep(check, hs, past, cut, problems);
            r.Some? ==> |problems| <= |r.value.1| && r.value.1[..|problems|] == problems
                        && |r.value.0| + (|r.value.1| - |problems|) == |hs|
    decreases |hs|
  {
    if hs != [] {
      assert Sweep(check, hs, past, cut, problems) == SweepVisit(check, hs, past, cut, problems);
      var v := VisitHunk(check, hs[0], past, cut, problems);
      VisitAnswers(check, hs[0], past, cut, problems);
      if v.Some? {
        var ps := v.value.problems;
        if v.value.kept {
          SweepCountsRemovals(check, hs[1..], Some(v.value.hunk), v.value.cut, ps);
        } else if |hs| > 1 {
          SweepCountsRemovals(check, hs[2..], Some(v.value.hunk), v.value.cut, ps);
          var r := Sweep(check, hs[2..], Some(v.value.hunk), v.value.cut, ps);
          if r.Some? {
            assert r.value.1[..|problems|] == r.value.1[..|ps|][..|problems|];
          }
        }
      }
    }
  }

  /** A hunk whose lengths agree with its lines, as the walk leaves every hunk it visits. */
  predicate Counted(s: HunkState)
  {
    s.lenPre == NonAdd(s.lines) && s.lenPost == PostLen(s.lines)
  }

  /** Each hunk of the result either has its lengths recounted or is one of the original hunks, passed over unchanged. */
  lemma {:induction false} SweepRecounts(check: HunkCheck, hs: seq<HunkState>, past: Option<HunkState>, cut: LineMap, problems: seq<string>)
    requires Contiguous(cut)
    ensures var r := Sweep(check, hs, past, cut, problems);
            r.Some? ==> forall j :: 0 <= j < |r.value.0| ==> Counted(r.value.0[j]) || r.value.0[j] in hs
    decreases |hs|
  {
    if hs != [] {
      assert Sweep(check, hs, past, cut, problems) == SweepVisit(check, hs, past, cut, problems);
      var v := VisitHunk(check, hs[0], past, cut, problems);
      if v.Some? && (v.value.kept || |hs| > 1) {
        var d := if v.value.kept then 1 else 2;
        var first := if v.value.kept then v.value.hunk else hs[1];
        SweepRecounts(check, hs[d..], Some(v.value.hunk), v.value.cut, v.value.problems);
        var rest := Sweep(check, hs[d..], Some(v.value.hunk), v.value.cut, v.value.problems);
        if rest.Some? {
          assert forall j :: 0 <= j < |rest.value.0| ==> Counted(rest.value.0[j]) || rest.value.0[j] in hs[d..];
          if v.value.kept {
            assert first == Renumber(check(hs[0], v.value.cut).value.hunk, past);
          } else {
            assert first == hs[1];
          }
          ConsKeeps(first, rest.value.0, hs, d);
        }
      }
    }
  }

  /** A recounted or original hunk in front of hunks that are recounted or taken from `hs[d..]`. */
  lemma ConsKeeps(first: HunkState, tail: seq<HunkState>, hs: seq<HunkState>, d: nat)
    requires d <= |hs| && (Counted(first) || first in hs)
    requires forall j :: 0 <= j < |tail| ==> Counted(tail[j]) || tail[j] in hs[d..]
    ensures forall j :: 0 <= j < |[first] + tail| ==> Counted(([first] + tail)[j]) || ([first] + tail)[j] in hs
  {
    var out := [first] + tail;
    forall j | 1 <= j < |out|
      ensures Counted(out[j]) || out[j] in hs
    {
      assert out[j] == tail[j - 1];
      if !Counted(out[j]) {
        InSuffix(hs, d, out[j]);
      }
    }
  }

  /** An element of a suffix is an element of the whole. */
  lemma InSuffix<T>(hs: seq<T>, d: nat, x: T)
    requires d <= |hs| && x in hs[d..]
    ensures x in hs
  {
    var k :| 0 <= k < |hs| - d && hs[d..][k] == x;
    assert hs[d + k] == x;
  }

  /**
   * The post-edit starts of an accepted run: the first hunk's follows `past`
   * (or equals its own pre-edit start when there is none), each later one
   * follows the hunk before it.
   */
  predicate Chained(past: Option<HunkState>, out: seq<HunkState>)
  {
    (|out| > 0 ==> (match past
                    case None => out[0].startPost == out[0].startPre
                    case Some(p) => out[0].startPost == ShiftedStart(out[0].startPre, p)))
    && forall j :: 1 <= j < |out| ==> out[j].startPost == ShiftedStart(out[j].startPre, out[j - 1])
  }

  /**
   * When no hunk reports a problem, no hunk is dropped or passed over: every
   * hunk is recounted, and the post-edit starts are chained by the offset rule.
   */
  lemma {:induction false} SweepAllAccepted(check: HunkCheck, hs: seq<HunkState>, past: Option<HunkState>, cut: LineMap, problems: seq<string>)
    requires Contiguous(cut) && Answers(check)
    requires Sweep(check, hs, past, cut, problems).Some?
    requires Sweep(check, hs, past, cut, problems).value.1 == problems
    ensures var out := Sweep(check, hs, past, cut, problems).value.0;
            |out| == |hs| && (forall j :: 0 <= j < |out| ==> Counted(out[j])) && Chained(past, out)
    decreases |hs|
  {
    if hs != [] {
      assert Sweep(check, hs, past, cut, problems) == SweepVisit(check, hs, past, cut, problems);
      var v := VisitHunk(check, hs[0], past, cut, problems).value;
      VisitAnswers(check, hs[0], past, cut, problems);
      SweepCountsRemovals(check, hs, past, cut, problems);
      if v.kept {
        SweepAllAccepted(check, hs[1..], Some(v.hunk), v.cut, v.problems);
        var rest := Sweep(check, hs[1..], Some(v.hunk), v.cut, v.problems).value.0;
        assert Sweep(check, hs, past, cut, problems).value.0 == [v.hunk] + rest;
        AcceptedCons(past, v.hunk, rest);
      } else {
        assert false;
      }
    }
  }

  /** A recounted hunk chained to `past`, in front of recounted hunks chained to it, gives recounted hunks chained to `past`. */
  lemma AcceptedCons(past: Option<HunkState>, x: HunkState, rest: seq<HunkState>)
    requires Counted(x) && Chained(past, [x])
    requires (forall j :: 0 <= j < |rest| ==> Counted(rest[j])) && Chained(Some(x), rest)
    ensures var out := [x] + rest;
            (forall j :: 0 <= j < |out| ==> Counted(out[j])) && Chained(past, out)
  {
    var out := [x] + rest;
    assert forall j :: 1 <= j < |out| ==> out[j] == rest[j - 1];
  }

  /** The source's skip: after a removed hunk, the next hunk is never checked and comes out exactly as it went in. */
  lemma RemovalPassesOverNext(check: HunkCheck, hs: seq<HunkState>, past: Option<HunkState>, cut: LineMap, problems: seq<string>)
    requires Contiguous(cut) && |hs| >= 2
    requires VisitHunk(check, hs[0], past, cut, problems).Some? && !VisitHunk(check, hs[0], past, cut, problems).value.kept
    ensures var r := Sweep(check, hs, past, cut, problems);
            r.Some? ==> |r.value.0| >= 1 && r.value.0[0] == hs[1]
  {
    var v := VisitHunk(check, hs[0], past, cut, problems).value;
    var rest := Sweep(check, hs[2..], Some(v.hunk), v.cut, v.problems);
    assert SweepVisit(check, hs, past, cut, problems)
        == if rest.None? then None else Some(([hs[1]] + rest.value.0, rest.value.1));
    assert Sweep(check, hs, past, cut, problems) == SweepVisit(check, hs, past, cut, problems);
  }
}
