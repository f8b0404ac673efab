/**
 * Properties of the hunk specification: how category counts follow the list
 * edits, that a hunk that already matches the file passes validation
 * unchanged, that validation never drops or reorders ADD lines, and exactly
 * which inputs make `find_start_line` / `validate_and_correct` recurse until
 * Python raises `RecursionError`.
 */
module HunkLemmas {
  import opened PyStr
  import opened Wrappers
  import opened LineMaps
  import opened Similarity
  import opened Subsequences
  import opened HunkSpec

  // ----- counts -----

  lemma {:induction false} TaggedConcat(a: seq<Line>, b: seq<Line>, t: Tag)
    ensures Tagged(a + b, t) == Tagged(a, t) + Tagged(b, t)
    decreases |a|
  {
    if a != [] {
      TaggedConcat(a[1..], b, t);
      assert (a + b)[0] == a[0];
      assert (a + b)[1..] == a[1..] + b;
    } else {
      assert a + b == b;
    }
  }

  /** Every line carries exactly one of the three tags. */
  lemma {:induction false} CountsPartition(ls: seq<Line>)
    ensures Count(ls, Retain) + Count(ls, Add) + Count(ls, Remove) == |ls|
    decreases |ls|
  {
    if ls != [] {
      CountsPartition(ls[1..]);
    }
  }

  /** A hunk is built as a new file exactly when all of its lines are ADD. */
  lemma {:induction false} NewHunkFlag(startPre: int, lenPre: int, startPost: int, lenPost: int, lines: seq<Line>)
    ensures NewHunk(startPre, lenPre, startPost, lenPost, lines).isNewFile <==> AllAdd(lines)
  {
    CountsPartition(lines);
    if AllAdd(lines) {
      AllAddTagged(lines);
    } else {
      var i :| 0 <= i < |lines| && lines[i].tag != Add;
      TaggedConcat(lines[..i], lines[i..], lines[i].tag);
      assert lines[..i] + lines[i..] == lines;
      assert lines[i..][0] == lines[i];
    }
  }

  lemma {:induction false} AllAddTagged(ls: seq<Line>)
    requires AllAdd(ls)
    ensures Count(ls, Add) == |ls|
    decreases |ls|
  {
    if ls != [] {
      AllAddTagged(ls[1..]);
    }
  }

  lemma CountAppend(ls: seq<Line>, l: Line, t: Tag)
    ensures Count(ls + [l], t) == Count(ls, t) + (if l.tag == t then 1 else 0)
  {
    TaggedConcat(ls, [l], t);
    TaggedSingle(l, t);
  }

  /** Rendering one more line of `ls` after a fixed header adds that line's text. */
  lemma RenderPrefix(header: string, ls: seq<Line>, k: nat)
    requires k < |ls|
    ensures header + RenderLines(ls[..k + 1]) == header + RenderLines(ls[..k]) + RenderLine(ls[k])
  {
    RenderLinesAppend(ls[..k], ls[k]);
    assert ls[..k + 1] == ls[..k] + [ls[k]];
  }

  lemma {:induction false} RenderLinesAppend(ls: seq<Line>, l: Line)
    ensures RenderLines(ls + [l]) == RenderLines(ls) + RenderLine(l)
    decreases |ls|
  {
    if ls == [] {
      assert [l][1..] == [];
    } else {
      var head, tail := RenderLine(ls[0]), RenderLines(ls[1..]);
      RenderLinesAppend(ls[1..], l);
      assert (ls + [l])[0] == ls[0] && (ls + [l])[1..] == ls[1..] + [l];
      assert RenderLines(ls + [l]) == head + (tail + RenderLine(l));
      assert head + (tail + RenderLine(l)) == (head + tail) + RenderLine(l);
    }
  }

  /** The three list edits and what they do to the count of every tag. */
  lemma CountAfterInsert(ls: seq<Line>, i: nat, l: Line, t: Tag)
    requires i <= |ls|
    ensures Count(InsertAt(ls, i, l), t) == Count(ls, t) + (if l.tag == t then 1 else 0)
  {
    TaggedConcat(ls[..i] + [l], ls[i..], t);
    TaggedConcat(ls[..i], [l], t);
    TaggedConcat(ls[..i], ls[i..], t);
    assert ls[..i] + ls[i..] == ls;
  }

  lemma CountAfterRemove(ls: seq<Line>, i: nat, t: Tag)
    requires i < |ls|
    ensures Count(RemoveAt(ls, i), t) == Count(ls, t) - (if ls[i].tag == t then 1 else 0)
  {
    TaggedConcat(ls[..i], ls[i + 1..], t);
    TaggedConcat(ls[..i], [ls[i]] + ls[i + 1..], t);
    TaggedConcat([ls[i]], ls[i + 1..], t);
    assert ls[..i] + ([ls[i]] + ls[i + 1..]) == ls;
  }

  lemma CountAfterRelabel(ls: seq<Line>, i: nat, t': Tag, t: Tag)
    requires i < |ls|
    ensures Count(ls[i := Line(t', ls[i].text)], t)
         == Count(ls, t) - (if ls[i].tag == t then 1 else 0) + (if t' == t then 1 else 0)
  {
    var l := Line(t', ls[i].text);
    CountAfterRemove(ls, i, t);
    CountAfterInsert(RemoveAt(ls, i), i, l, t);
    assert InsertAt(RemoveAt(ls, i), i, l) == ls[i := l];
  }

  /** The per-tag counts kept by `Hunk` follow each list edit by one decrement or increment. */
  lemma TallyAfterInsert(ls: seq<Line>, i: nat, l: Line)
    requires i <= |ls|
    ensures l.tag in Tally(ls)
    ensures Tally(InsertAt(ls, i, l)) == Tally(ls)[l.tag := Tally(ls)[l.tag] + 1]
  {
    CountAfterInsert(ls, i, l, Retain);
    CountAfterInsert(ls, i, l, Add);
    CountAfterInsert(ls, i, l, Remove);
    match l.tag { case Retain => case Add => case Remove => }
  }

  lemma TallyAfterRemove(ls: seq<Line>, i: nat)
    requires i < |ls|
    ensures ls[i].tag in Tally(ls) && Tally(ls)[ls[i].tag] > 0
    ensures Tally(RemoveAt(ls, i)) == Tally(ls)[ls[i].tag := Tally(ls)[ls[i].tag] - 1]
  {
    CountAfterRemove(ls, i, Retain);
    CountAfterRemove(ls, i, Add);
    CountAfterRemove(ls, i, Remove);
    match ls[i].tag { case Retain => case Add => case Remove => }
  }

  lemma TallyAfterRelabel(ls: seq<Line>, i: nat, t': Tag)
    requires i < |ls|
    ensures ls[i].tag in Tally(ls) && t' in Tally(ls)
    ensures var c := Tally(ls)[ls[i].tag := Tally(ls)[ls[i].tag] - 1];
            Tally(ls[i := Line(t', ls[i].text)]) == c[t' := c[t'] + 1]
  {
    CountAfterRelabel(ls, i, t', Retain);
    CountAfterRelabel(ls, i, t', Add);
    CountAfterRelabel(ls, i, t', Remove);
    match ls[i].tag { case Retain => case Add => case Remove => }
    match t' { case Retain => case Add => case Remove => }
  }

  lemma TallyAfterAppend(ls: seq<Line>, l: Line)
    ensures l.tag in Tally(ls)
    ensures Tally(ls + [l]) == Tally(ls)[l.tag := Tally(ls)[l.tag] + 1]
  {
    CountAppend(ls, l, Retain);
    CountAppend(ls, l, Add);
    CountAppend(ls, l, Remove);
    match l.tag { case Retain => case Add => case Remove => }
  }

  /** `is_new_file` read off the kept counts is the flag `NewHunk` derives from the lines. */
  lemma NewHunkFromTally(startPre: int, lenPre: int, startPost: int, lenPost: int, ls: seq<Line>, counts: map<Tag, int>)
    requires counts == Tally(ls)
    ensures NewHunk(startPre, lenPre, startPost, lenPost, ls)
         == HunkState(startPre, lenPre, startPost, lenPost, ls, counts[Retain] == 0 && counts[Remove] == 0)
  {
  }

  // ----- validate_lines -----

  /**
   * The hunk lines from `h` on agree with the file from key `f` on: every
   * non-ADD line is the file line under the cursor. Once the cursor has passed
   * the last key at most one line may remain, because `validate_lines` stops
   * there and tolerates a single unvalidated trailing line.
   */
  predicate ExactFrom(ls: seq<Line>, h: nat, m: LineMap, f: int)
    requires Contiguous(m) && |m| > 0 && h <= |ls| && Lo(m) <= f
    decreases |ls| - h
  {
    if h == |ls| then true
    else if f > Hi(m) then h == |ls| - 1
    else if ls[h].tag == Add then ExactFrom(ls, h + 1, m, f)
    else ls[h].text == At(m, f) && ExactFrom(ls, h + 1, m, f + 1)
  }

  /** A hunk that matches the file exactly passes validation unchanged and reports nothing. */
  lemma {:induction false} ExactLinesAccepted(s: HunkState, m: LineMap, h: nat, f: int)
    requires Contiguous(m) && |m| > 0 && h <= |s.lines| && Lo(m) <= f
    requires ExactFrom(s.lines, h, m, f)
    ensures ValidateLinesFrom(s, m, h, f) == Verdict(s, true, [])
    decreases |s.lines| - h
  {
    if h < |s.lines| && f <= Hi(m) {
      var f' := if s.lines[h].tag == Add then f else f + 1;
      ExactAdvance(s, m, h, f);
      ExactLinesAccepted(s, m, h + 1, f');
    } else {
      RunAtEnd(s, m, h, f);
    }
  }

  /** One pass over an exactly matching line moves both cursors past it and edits nothing. */
  lemma ExactAdvance(s: HunkState, m: LineMap, h: nat, f: int)
    requires Contiguous(m) && |m| > 0 && h < |s.lines| && Lo(m) <= f <= Hi(m)
    requires ExactFrom(s.lines, h, m, f)
    ensures var f' := if s.lines[h].tag == Add then f else f + 1;
            ExactFrom(s.lines, h + 1, m, f')
            && ValidateLinesFrom(s, m, h, f) == ValidateLinesFrom(s, m, h + 1, f')
  {
    if s.lines[h].tag == Add {
      StepOnAdd(s, m, h, f);
    } else {
      SimilarSelf(s.lines[h].text);
      StepOnSimilar(s, m, h, f);
    }
    RunAfterStep(s, m, h, f);
  }

  /**
   * From cursors `h` and `f` the hunk runs through the last line of the file
   * and then has two or more lines left, all ADD: every non-ADD line on the
   * way is similar to the file line under the cursor.
   */
  predicate AddsPastEnd(ls: seq<Line>, h: nat, m: LineMap, f: int)
    requires Contiguous(m) && |m| > 0 && h <= |ls| && Lo(m) <= f
    decreases |ls| - h
  {
    if h == |ls| then false
    else if f > Hi(m) then f == Hi(m) + 1 && h < |ls| - 1 && AllAdd(ls[h..])
    else if ls[h].tag == Add then AddsPastEnd(ls, h + 1, m, f)
    else IsSimilar(ls[h].text, At(m, f)) && AddsPastEnd(ls, h + 1, m, f + 1)
  }

  /**
   * The end check counts lines, not unvalidated lines: a hunk that runs
   * through the last line of the file and then adds two or more lines is
   * rejected, although those lines are ADD and need no validation. So no
   * hunk can append two or more lines at the end of a file.
   */
  lemma {:induction false} AddsAfterLastLineRejected(s: HunkState, m: LineMap, h: nat, f: int)
    requires Contiguous(m) && |m| > 0 && h <= |s.lines| && Lo(m) <= f
    requires AddsPastEnd(s.lines, h, m, f)
    ensures ValidateLinesFrom(s, m, h, f) == Fail(s, StoppedProblem(s, Hi(m) + 1))
    decreases |s.lines| - h
  {
    if h < |s.lines| && f <= Hi(m) {
      var f' := if s.lines[h].tag == Add then f else f + 1;
      PastEndAdvance(s, m, h, f);
      AddsAfterLastLineRejected(s, m, h + 1, f');
    } else {
      RunAtEnd(s, m, h, f);
    }
  }

  /** One pass over a line before the end of the file moves past it and edits nothing. */
  lemma PastEndAdvance(s: HunkState, m: LineMap, h: nat, f: int)
    requires Contiguous(m) && |m| > 0 && h < |s.lines| && Lo(m) <= f <= Hi(m)
    requires AddsPastEnd(s.lines, h, m, f)
    ensures var f' := if s.lines[h].tag == Add then f else f + 1;
            AddsPastEnd(s.lines, h + 1, m, f')
            && ValidateLinesFrom(s, m, h, f) == ValidateLinesFrom(s, m, h + 1, f')
  {
    if s.lines[h].tag == Add {
      StepOnAdd(s, m, h, f);
    } else {
      StepOnSimilar(s, m, h, f);
    }
    RunAfterStep(s, m, h, f);
  }

  /** An instance: keeping the one-line file "a" and adding two lines after it is rejected. */
  lemma TwoAddsAfterLastLineRejected()
    ensures !ValidateLinesFrom(
              HunkState(1, 1, 1, 3, [Line(Retain, "a"), Line(Add, "b"), Line(Add, "c")], false),
              [(1, "a")], 0, 1).ok
  {
    var s := HunkState(1, 1, 1, 3, [Line(Retain, "a"), Line(Add, "b"), Line(Add, "c")], false);
    var m: LineMap := [(1, "a")];
    SimilarSelf("a");
    assert At(m, 1) == "a";
    assert AddsPastEnd(s.lines, 1, m, 2);
    AddsAfterLastLineRejected(s, m, 0, 1);
  }

  /** No non-ADD line from `h` on contains `#`, so none can be relabelled. */
  predicate NoCommentFrom(ls: seq<Line>, h: nat)
  {
    forall i :: h <= i < |ls| && ls[i].tag != Add ==> '#' !in ls[i].text
  }

  lemma TaggedSingle(l: Line, t: Tag)
    ensures Tagged([l], t) == if l.tag == t then [l] else []
  {
    assert [l][1..] == [];
  }

  /** Splitting a list around index `h`. */
  lemma TaggedAround(ls: seq<Line>, h: nat, t: Tag)
    requires h < |ls|
    ensures Tagged(ls, t) == Tagged(ls[..h], t) + Tagged([ls[h]], t) + Tagged(ls[h + 1..], t)
  {
    calc {
      Tagged(ls, t);
      { assert ls == ls[..h] + ([ls[h]] + ls[h + 1..]); }
      Tagged(ls[..h] + ([ls[h]] + ls[h + 1..]), t);
      { TaggedConcat(ls[..h], [ls[h]] + ls[h + 1..], t); }
      Tagged(ls[..h], t) + Tagged([ls[h]] + ls[h + 1..], t);
      { TaggedConcat([ls[h]], ls[h + 1..], t); }
      Tagged(ls[..h], t) + (Tagged([ls[h]], t) + Tagged(ls[h + 1..], t));
    }
  }

  lemma AddsAfterRelabel(ls: seq<Line>, h: nat)
    requires h < |ls| && ls[h].tag != Add
    ensures IsSubseq(Tagged(ls, Add), Tagged(ls[h := Line(Add, ls[h].text)], Add))
  {
    var l := Line(Add, ls[h].text);
    var ls' := ls[h := l];
    var pre, post := Tagged(ls[..h], Add), Tagged(ls[h + 1..], Add);
    TaggedAround(ls, h, Add);
    TaggedSingle(ls[h], Add);
    TaggedAround(ls', h, Add);
    TaggedSingle(l, Add);
    assert ls'[..h] == ls[..h] && ls'[h + 1..] == ls[h + 1..];
    assert Tagged(ls, Add) == pre + post;
    assert Tagged(ls', Add) == pre + [l] + post;
    SubseqInsert(pre, post, l);
  }

  lemma AddsAfterInsert(ls: seq<Line>, h: nat, text: string)
    requires h <= |ls|
    ensures Tagged(InsertAt(ls, h, Line(Retain, text)), Add) == Tagged(ls, Add)
  {
    var l := Line(Retain, text);
    InsertSplits(ls, h, l);
    TaggedSkips(ls[..h], ls[h..], l, Add);
  }

  /** Inserting at `h` puts the line between the first `h` lines and the others, which together are `ls`. */
  lemma InsertSplits(ls: seq<Line>, h: nat, l: Line)
    requires h <= |ls|
    ensures InsertAt(ls, h, l) == ls[..h] + [l] + ls[h..] && ls[..h] + ls[h..] == ls
  {
  }

  /** A line with another tag put between two parts leaves the lines tagged `t` as they were. */
  lemma TaggedSkips(pre: seq<Line>, post: seq<Line>, l: Line, t: Tag)
    requires l.tag != t
    ensures Tagged(pre + [l] + post, t) == Tagged(pre + post, t)
  {
    TaggedConcat(pre + [l], post, t);
    TaggedConcat(pre, [l], t);
    TaggedSingle(l, t);
    TaggedConcat(pre, post, t);
  }

  lemma AddsAfterRemove(ls: seq<Line>, h: nat)
    requires h < |ls| && ls[h].tag != Add
    ensures Tagged(RemoveAt(ls, h), Add) == Tagged(ls, Add)
  {
    TaggedAround(ls, h, Add);
    TaggedSingle(ls[h], Add);
    TaggedConcat(ls[..h], ls[h + 1..], Add);
  }

  // The cases of one loop pass, each stated on its own so that the loop of
  // `Hunks.Hunk.ValidateLines` can match them one branch at a time.

  lemma StepOnAdd(s: HunkState, m: LineMap, h: nat, f: int)
    requires CursorsOk(s.lines, m, h, f) && h < |s.lines| && f <= Hi(m) && s.lines[h].tag == Add
    ensures ValidateStep(s, m, h, f) == Continue(s.lines, h + 1, f)
  {
  }

  lemma StepOnSimilar(s: HunkState, m: LineMap, h: nat, f: int)
    requires CursorsOk(s.lines, m, h, f) && h < |s.lines| && Lo(m) <= f <= Hi(m) && s.lines[h].tag != Add
    requires IsSimilar(s.lines[h].text, At(m, f))
    ensures ValidateStep(s, m, h, f) == Continue(s.lines, h + 1, f + 1)
  {
  }

  lemma StepOnComment(s: HunkState, m: LineMap, h: nat, f: int)
    requires CursorsOk(s.lines, m, h, f) && h < |s.lines| && Lo(m) <= f <= Hi(m) && s.lines[h].tag != Add
    requires !IsSimilar(s.lines[h].text, At(m, f)) && '#' in s.lines[h].text
    ensures ValidateStep(s, m, h, f) == Continue(s.lines[h := Line(Add, s.lines[h].text)], h, f)
  {
  }

  lemma StepOnMismatch(s: HunkState, m: LineMap, h: nat, f: int)
    requires CursorsOk(s.lines, m, h, f) && h < |s.lines| && Lo(m) <= f <= Hi(m) && s.lines[h].tag != Add
    requires !IsSimilar(s.lines[h].text, At(m, f)) && '#' !in s.lines[h].text
    ensures var (orig, missing, falseLine) := Scores(s.lines, m, h, f);
            ValidateStep(s, m, h, f)
            == if orig >= missing && orig >= falseLine then Stop(false, MismatchProblem(s))
               else if missing > falseLine then Continue(InsertAt(s.lines, h, Line(Retain, At(m, f))), h + 1, f + 1)
               else Continue(RemoveAt(s.lines, h), h, f)
  {
  }

  lemma StepOnEnd(s: HunkState, m: LineMap, h: nat, f: int)
    requires CursorsOk(s.lines, m, h, f) && !(h < |s.lines| && f <= Hi(m))
    ensures ValidateStep(s, m, h, f)
         == if h < |s.lines| - 1 then Stop(false, StoppedProblem(s, f)) else Stop(true, "")
  {
  }

  /** A pass that carries on leaves the rest of the run to the new cursors. */
  lemma RunAfterStep(s: HunkState, m: LineMap, h: nat, f: int)
    requires CursorsOk(s.lines, m, h, f) && ValidateStep(s, m, h, f).Continue?
    ensures var st := ValidateStep(s, m, h, f);
            ValidateLinesFrom(s, m, h, f) == ValidateLinesFrom(s.(lines := st.lines), m, st.h, st.f)
  {
  }

  /** A pass that stops ends the run with its verdict. */
  lemma RunStops(s: HunkState, m: LineMap, h: nat, f: int)
    requires CursorsOk(s.lines, m, h, f) && ValidateStep(s, m, h, f).Stop?
    ensures var st := ValidateStep(s, m, h, f);
            ValidateLinesFrom(s, m, h, f) == Verdict(s, st.ok, if st.ok then [] else [st.problem])
  {
  }

  /** Once either cursor runs out, the run ends; it fails when two or more hunk lines are left. */
  lemma RunAtEnd(s: HunkState, m: LineMap, h: nat, f: int)
    requires CursorsOk(s.lines, m, h, f) && !(h < |s.lines| && f <= Hi(m))
    ensures ValidateLinesFrom(s, m, h, f)
         == if h < |s.lines| - 1 then Fail(s, StoppedProblem(s, f)) else Verdict(s, true, [])
  {
  }

  // The outcomes of `Locate`, one path each, for `Hunks.Hunk.FindStartLine`.

  lemma LocateNoPriorLine(s: HunkState, m: LineMap, i: nat)
    requires |s.lines| > 0 && s.lines[0].tag == Add && i == FirstNonAdd(s.lines) && i < |s.lines|
    requires s.lines[i].text == "" || FirstSimilar(m, s.lines[i].text) == -1
    ensures Locate(s, m) == Lost(s, NotFoundProblem(s))
  {
  }

  lemma LocatePriorLine(s: HunkState, m: LineMap, i: nat, j: nat)
    requires |s.lines| > 0 && s.lines[0].tag == Add && i == FirstNonAdd(s.lines) && i < |s.lines|
    requires s.lines[i].text != "" && FirstSimilar(m, s.lines[i].text) == j
    ensures Locate(s, m) == PlaceStart(s, m, m[j].0 - 1)
  {
    var t := s.lines[i].text;
    assert (if t == "" then -1 else FirstSimilar(m, t)) == j;
  }

  lemma LocateFromFirstLine(s: HunkState, m: LineMap)
    requires |s.lines| > 0 && !(s.lines[0].tag == Add && FirstNonAdd(s.lines) < |s.lines|)
    ensures var j := FirstSimilar(m, s.lines[0].text);
            Locate(s, m) == if j == -1 then
                              if '#' in s.lines[0].text then Restart(s.(lines := s.lines[0 := Line(Add, s.lines[0].text)]))
                              else Lost(s, MissingStartProblem(s))
                            else Found(s.(startPre := m[j].0))
  {
  }

  /** One loop pass never drops or reorders an ADD line. */
  lemma StepKeepsAdds(s: HunkState, m: LineMap, h: nat, f: int)
    requires CursorsOk(s.lines, m, h, f)
    ensures var st := ValidateStep(s, m, h, f);
            st.Continue? ==>
              IsSubseq(Tagged(s.lines, Add), Tagged(st.lines, Add))
              && (NoCommentFrom(s.lines, h) ==>
                    Tagged(st.lines, Add) == Tagged(s.lines, Add) && NoCommentFrom(st.lines, st.h))
  {
    var ls := s.lines;
    var st := ValidateStep(s, m, h, f);
    if h < |ls| && f <= Hi(m) {
      if ls[h].tag == Add || IsSimilar(ls[h].text, At(m, f)) {
        assert st.lines == ls;
        SubseqRefl(Tagged(ls, Add));
      } else if '#' in ls[h].text {
        assert st.lines == ls[h := Line(Add, ls[h].text)];
        AddsAfterRelabel(ls, h);
      } else if st.Continue? {
        EditKeepsAdds(ls, h, At(m, f), st.lines, st.h);
      }
    }
  }

  /** The two edits of a mismatching line, insertion of the file line before it and removal of it. */
  lemma EditKeepsAdds(ls: seq<Line>, h: nat, text: string, ls': seq<Line>, h': nat)
    requires h < |ls| && ls[h].tag != Add
    requires (ls' == InsertAt(ls, h, Line(Retain, text)) && h' == h + 1) || (ls' == RemoveAt(ls, h) && h' == h)
    ensures Tagged(ls', Add) == Tagged(ls, Add)
    ensures IsSubseq(Tagged(ls, Add), Tagged(ls', Add))
    ensures NoCommentFrom(ls, h) ==> NoCommentFrom(ls', h')
  {
    if h' == h + 1 {
      InsertKeepsAdds(ls, h, text);
    } else {
      RemoveKeepsAdds(ls, h);
    }
    SubseqRefl(Tagged(ls, Add));
  }

  lemma InsertKeepsAdds(ls: seq<Line>, h: nat, text: string)
    requires h < |ls|
    ensures var ls' := InsertAt(ls, h, Line(Retain, text));
            Tagged(ls', Add) == Tagged(ls, Add) && (NoCommentFrom(ls, h) ==> NoCommentFrom(ls', h + 1))
  {
    var ls' := InsertAt(ls, h, Line(Retain, text));
    AddsAfterInsert(ls, h, text);
    forall i | h + 1 <= i < |ls'|
      ensures ls'[i] == ls[i - 1]
    {
      assert ls'[i] == ls[h..][i - h - 1];
    }
  }

  lemma RemoveKeepsAdds(ls: seq<Line>, h: nat)
    requires h < |ls| && ls[h].tag != Add
    ensures var ls' := RemoveAt(ls, h);
            Tagged(ls', Add) == Tagged(ls, Add) && (NoCommentFrom(ls, h) ==> NoCommentFrom(ls', h))
  {
    var ls' := RemoveAt(ls, h);
    AddsAfterRemove(ls, h);
    forall i | h <= i < |ls'|
      ensures ls'[i] == ls[i + 1]
    {
      assert ls'[i] == ls[h + 1..][i - h];
    }
  }

  /**
   * `validate_lines` never removes or reorders an ADD line: the ADD lines
   * before are a subsequence of those after, and the same list when no line
   * still to be checked is a comment that could be relabelled.
   */
  lemma {:induction false} ValidateLinesKeepsAdds(s: HunkState, m: LineMap, h: nat, f: int)
    requires CursorsOk(s.lines, m, h, f)
    ensures IsSubseq(Tagged(s.lines, Add), Tagged(ValidateLinesFrom(s, m, h, f).hunk.lines, Add))
    ensures NoCommentFrom(s.lines, h) ==>
              Tagged(ValidateLinesFrom(s, m, h, f).hunk.lines, Add) == Tagged(s.lines, Add)
    decreases if f <= Hi(m) then Hi(m) + 1 - f else 0, Pending(s.lines, h)
  {
    var st := ValidateStep(s, m, h, f);
    assert ValidateLinesFrom(s, m, h, f) == RunLoop(s, m, h, f);
    StepKeepsAdds(s, m, h, f);
    if st.Continue? {
      var s' := s.(lines := st.lines);
      ValidateLinesKeepsAdds(s', m, st.h, st.f);
      SubseqTrans(Tagged(s.lines, Add), Tagged(st.lines, Add),
                  Tagged(ValidateLinesFrom(s', m, st.h, st.f).hunk.lines, Add));
    } else {
      SubseqRefl(Tagged(s.lines, Add));
    }
  }

  // ----- find_start_line / validate_and_correct -----

  /**
   * On the path that does not start with an ADD line, `find_start_line` picks
   * the first key, in map order, whose line is similar to the first hunk line;
   * the assertion that closes `find_start_line` holds there.
   */
  lemma FindStartPicksFirstSimilar(s: HunkState, m: LineMap, fuel: nat)
    requires Contiguous(m) && !s.isNewFile && |s.lines| > 0
    requires s.lines[0].tag != Add || AllAdd(s.lines)
    requires FirstSimilar(m, s.lines[0].text) >= 0
    ensures var j := FirstSimilar(m, s.lines[0].text);
            FindStart(s, m, fuel) == Some(Verdict(s.(startPre := m[j].0), true, []))
            && HasKey(m, m[j].0) && IsSimilar(s.lines[0].text, Get(m, m[j].0))
  {
    var j := FirstSimilar(m, s.lines[0].text);
    ContiguousFind(m, m[j].0);
    assert FirstNonAdd(s.lines) < |s.lines| ==> s.lines[FirstNonAdd(s.lines)].tag != Add;
    LocateFromFirstLine(s, m);
    assert FindStart(s, m, fuel) == Resume(Found(s.(startPre := m[j].0)), m, fuel);
  }

  /** A hunk that matches the file exactly at the first key similar to its first line is accepted unchanged, apart from its start. */
  lemma ExactHunkAccepted(s: HunkState, m: LineMap, fuel: nat)
    requires Contiguous(m) && !s.isNewFile && |s.lines| > 0 && s.lines[0].tag != Add
    requires FirstSimilar(m, s.lines[0].text) >= 0
    requires ExactFrom(s.lines, 0, m, m[FirstSimilar(m, s.lines[0].text)].0)
    ensures ValidateAndCorrect(s, m, fuel)
         == Some(Verdict(s.(startPre := m[FirstSimilar(m, s.lines[0].text)].0), true, []))
  {
    var k := m[FirstSimilar(m, s.lines[0].text)].0;
    FindStartPicksFirstSimilar(s, m, fuel);
    ContiguousFind(m, k);
    ExactLinesAccepted(s.(startPre := k), m, 0, k);
  }

  /** On a divergent hunk no fuel is enough: in Python the recursion ends in `RecursionError`. */
  lemma {:induction false} DivergentNeverFinishes(s: HunkState, m: LineMap, fuel: nat)
    requires Contiguous(m) && !s.isNewFile && Divergent(s, m)
    ensures ValidateAndCorrect(s, m, fuel) == None
    decreases fuel
  {
    var s1 := DivergentRestarts(s, m);
    if fuel > 0 {
      DivergentNeverFinishes(s1, m, fuel - 1);
      assert ValidateAndCorrect(s1, m, fuel - 1) == None;
    }
    RestartWithoutResult(s, s1, m, fuel);
  }

  /** A divergent hunk restarts as the same hunk with its first line relabelled ADD, which is divergent again. */
  lemma DivergentRestarts(s: HunkState, m: LineMap) returns (s1: HunkState)
    requires Contiguous(m) && !s.isNewFile && Divergent(s, m)
    ensures Locate(s, m) == Restart(s1) && !s1.isNewFile && Divergent(s1, m)
    ensures s1 == s.(lines := s.lines[0 := Line(Add, s.lines[0].text)])
  {
    assert FirstNonAdd(s.lines) > 0 ==> FirstNonAdd(s.lines) == |s.lines|;
    s1 := s.(lines := s.lines[0 := Line(Add, s.lines[0].text)]);
  }

  /** A restart whose nested call runs out of fuel leaves the outer call without a result. */
  lemma RestartWithoutResult(s: HunkState, s1: HunkState, m: LineMap, fuel: nat)
    requires Contiguous(m) && !s.isNewFile && |s.lines| > 0 && Locate(s, m) == Restart(s1)
    requires fuel == 0 || ValidateAndCorrect(s1, m, fuel - 1) == None
    ensures ValidateAndCorrect(s, m, fuel) == None
  {
    assert FindStart(s, m, fuel) == Resume(Restart(s1), m, fuel);
  }

  /** After a restart, `find_start_line` returns what the nested `validate_and_correct` returns, one unit of fuel lower. */
  lemma RestartResult(s: HunkState, s1: HunkState, m: LineMap, fuel: nat)
    requires Contiguous(m) && !s.isNewFile && |s.lines| > 0 && Locate(s, m) == Restart(s1)
    requires FindStart(s, m, fuel).Some?
    ensures fuel > 0 && !s1.isNewFile && |s1.lines| > 0
    ensures FindStart(s, m, fuel) == ValidateAndCorrect(s1, m, fuel - 1)
  {
    assert FindStart(s, m, fuel) == Resume(Restart(s1), m, fuel);
  }

  /** A hunk whose first line is the RETAIN line of a key of `m` is localised at once. */
  lemma RetainedStartFound(s: HunkState, m: LineMap, k: int)
    requires Contiguous(m) && |s.lines| > 0 && HasKey(m, k)
    requires s.lines[0] == Line(Retain, Get(m, k))
    ensures Locate(s, m).Found?
  {
    var t := Get(m, k);
    SimilarSelf(t);
    assert IsSimilar(t, m[Find(m, k)].1);
  }

  /** An ADD-first hunk with a non-ADD line restarts at most once, on a hunk that is then localised at once. */
  lemma AddFirstRestartsOnce(s: HunkState, m: LineMap)
    requires Contiguous(m) && |s.lines| > 0
    requires s.lines[0].tag == Add && FirstNonAdd(s.lines) < |s.lines|
    ensures Locate(s, m).Restart? ==> Locate(Locate(s, m).hunk, m).Found?
  {
    if Locate(s, m).Restart? {
      AddFirstRestartFound(s, m);
    }
  }

  lemma AddFirstRestartFound(s: HunkState, m: LineMap)
    requires Contiguous(m) && |s.lines| > 0
    requires s.lines[0].tag == Add && FirstNonAdd(s.lines) < |s.lines|
    requires Locate(s, m).Restart?
    ensures Locate(Locate(s, m).hunk, m).Found?
  {
    var i := FirstNonAdd(s.lines);
    var j := FirstSimilar(m, s.lines[i].text);
    LocatePriorLine(s, m, i, j);
    RetainedStartFound(Locate(s, m).hunk, m, m[j].0 - 1);
  }

  /** Every hunk that is not divergent is decided within `RetryDepth` nested calls. */
  lemma FuelSuffices(s: HunkState, m: LineMap)
    requires Contiguous(m) && !s.isNewFile && |s.lines| > 0 && !Divergent(s, m)
    ensures ValidateAndCorrect(s, m, RetryDepth).Some?
  {
    var ls := s.lines;
    var r := Locate(s, m);
    DecidedStep(s, m, RetryDepth);
    if r.Restart? {
      var s1 := r.hunk;
      DecidedStep(s1, m, RetryDepth - 1);
      if ls[0].tag == Add && FirstNonAdd(ls) < |ls| {
        AddFirstRestartsOnce(s, m);
      } else {
        CommentRestart(s, m);
        var i :| 1 <= i < |ls| && ls[i].tag != Add;
        assert s1.lines[i] == ls[i];
        assert FirstNonAdd(s1.lines) < |s1.lines|;
        AddFirstRestartsOnce(s1, m);
        if Locate(s1, m).Restart? {
          DecidedStep(Locate(s1, m).hunk, m, RetryDepth - 2);
        }
      }
    }
  }

  /** A restart that is not for a leading ADD line relabels a first line that holds `#` and matches nothing. */
  lemma CommentRestart(s: HunkState, m: LineMap)
    requires |s.lines| > 0 && Locate(s, m).Restart?
    requires !(s.lines[0].tag == Add && FirstNonAdd(s.lines) < |s.lines|)
    ensures FirstSimilar(m, s.lines[0].text) == -1 && '#' in s.lines[0].text
    ensures Locate(s, m).hunk.lines == s.lines[0 := Line(Add, s.lines[0].text)]
  {
  }

  /**
   * One level of the recursion: a hunk that `find_start_line` does not send
   * back is decided at once, and one it sends back is decided exactly when the
   * relabelled hunk is decided with one unit of fuel less.
   */
  lemma DecidedStep(s: HunkState, m: LineMap, fuel: nat)
    requires Contiguous(m) && !s.isNewFile && |s.lines| > 0
    ensures !Locate(s, m).Restart? ==> ValidateAndCorrect(s, m, fuel).Some?
    ensures Locate(s, m).Restart? && fuel >= 1 ==>
      (ValidateAndCorrect(s, m, fuel).Some? <==> ValidateAndCorrect(Locate(s, m).hunk, m, fuel - 1).Some?)
  {
    assert FindStart(s, m, fuel) == Resume(Locate(s, m), m, fuel);
  }

  /** `find_start_line` before recursing never drops or reorders an ADD line. */
  lemma LocateKeepsAdds(s: HunkState, m: LineMap)
    requires |s.lines| > 0
    ensures IsSubseq(Tagged(s.lines, Add), Tagged(Locate(s, m).hunk.lines, Add))
  {
    var r := Locate(s, m);
    if r.hunk.lines == s.lines {
      SubseqRefl(Tagged(s.lines, Add));
    } else if r.hunk.lines == s.lines[0 := Line(Add, s.lines[0].text)] && s.lines[0].tag != Add {
      AddsAfterRelabel(s.lines, 0);
    } else {
      var l := r.hunk.lines[0];
      assert r.hunk.lines == [l] + s.lines && l.tag == Retain;
      TaggedConcat([l], s.lines, Add);
      TaggedSingle(l, Add);
      SubseqRefl(Tagged(s.lines, Add));
    }
  }

  /** Localisation and validation together never drop or reorder an ADD line. */
  lemma {:induction false} ValidateAndCorrectKeepsAdds(s: HunkState, m: LineMap, fuel: nat)
    requires Contiguous(m)
    requires s.isNewFile ==> |m| > 0 && (Lo(m) <= s.startPre || AllAdd(s.lines))
    requires !s.isNewFile ==> |s.lines| > 0
    requires ValidateAndCorrect(s, m, fuel).Some?
    ensures IsSubseq(Tagged(s.lines, Add), Tagged(ValidateAndCorrect(s, m, fuel).value.hunk.lines, Add))
    decreases fuel, 3
  {
    if s.isNewFile {
      assert s.lines[0..] == s.lines;
      ValidateLinesKeepsAdds(s, m, 0, s.startPre);
    } else {
      var found := FindStart(s, m, fuel);
      FindStartKeepsAdds(s, m, fuel);
      if found.value.ok {
        var s1 := found.value.hunk;
        ContiguousFind(m, s1.startPre);
        assert s1.lines[0..] == s1.lines;
        ValidateLinesKeepsAdds(s1, m, 0, s1.startPre);
        SubseqTrans(Tagged(s.lines, Add), Tagged(s1.lines, Add),
                    Tagged(ValidateLines(s1, m).hunk.lines, Add));
      }
    }
  }

  lemma {:induction false} FindStartKeepsAdds(s: HunkState, m: LineMap, fuel: nat)
    requires Contiguous(m) && !s.isNewFile && |s.lines| > 0
    requires FindStart(s, m, fuel).Some?
    ensures IsSubseq(Tagged(s.lines, Add), Tagged(FindStart(s, m, fuel).value.hunk.lines, Add))
    decreases fuel, 2
  {
    LocateKeepsAdds(s, m);
    ResumeKeepsAdds(s.lines, Locate(s, m), m, fuel);
  }

  /** Whatever ADD lines the localised hunk kept, its re-validation keeps too. */
  lemma {:induction false} ResumeKeepsAdds(before: seq<Line>, r: Located, m: LineMap, fuel: nat)
    requires Contiguous(m) && !r.hunk.isNewFile && |r.hunk.lines| > 0
    requires r.Found? ==> HasKey(m, r.hunk.startPre)
    requires Resume(r, m, fuel).Some?
    requires IsSubseq(Tagged(before, Add), Tagged(r.hunk.lines, Add))
    ensures IsSubseq(Tagged(before, Add), Tagged(Resume(r, m, fuel).value.hunk.lines, Add))
    decreases fuel, 1
  {
    if r.Restart? {
      RestartKeepsAdds(before, r, m, fuel);
    } else {
      assert Resume(r, m, fuel).value.hunk == r.hunk;
    }
  }

  lemma {:induction false} RestartKeepsAdds(before: seq<Line>, r: Located, m: LineMap, fuel: nat)
    requires Contiguous(m) && !r.hunk.isNewFile && |r.hunk.lines| > 0 && r.Restart?
    requires Resume(r, m, fuel).Some?
    requires IsSubseq(Tagged(before, Add), Tagged(r.hunk.lines, Add))
    ensures IsSubseq(Tagged(before, Add), Tagged(Resume(r, m, fuel).value.hunk.lines, Add))
    decreases fuel, 0
  {
    ValidateAndCorrectKeepsAdds(r.hunk, m, fuel - 1);
    SubseqTrans(Tagged(before, Add), Tagged(r.hunk.lines, Add),
                Tagged(Resume(r, m, fuel).value.hunk.lines, Add));
  }
}
