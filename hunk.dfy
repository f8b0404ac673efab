/**
 * The `Hunk` class of espada/core/diff.py: an edit list with per-tag counts
 * that its methods update in place. Each method is proved to leave the object
 * in the state the value-level specification in `HunkSpec` computes, and to
 * keep `category_counts` equal to the tally of the lines.
 *
 * The problem lists that the source appends to are returned instead: every
 * method returns the problems it would have appended.
 */
module Hunks {
  import opened PyStr
  import opened Wrappers
  import opened LineMaps
  import opened Similarity
  import opened HunkSpec
  import opened HunkLemmas

  class Hunk {
    var startPre: int
    var lenPre: int
    var startPost: int
    var lenPost: int
    var lines: seq<Line>
    var counts: map<Tag, int>
    var isNewFile: bool

    /** `category_counts` holds the number of lines carrying each tag. */
    ghost predicate Valid()
      reads this
    {
      counts == Tally(lines)
    }

    /** The object's fields as a value. */
    function View(): HunkState
      reads this
    {
      HunkState(startPre, lenPre, startPost, lenPost, lines, isNewFile)
    }

    /** `Hunk.__init__`: the counts start at zero and follow the added lines; the new-file flag is fixed here. */
    constructor(startPre: int, lenPre: int, startPost: int, lenPost: int, newLines: seq<Line>)
      ensures Valid() && View() == NewHunk(startPre, lenPre, startPost, lenPost, newLines)
    {
      this.startPre := startPre;
      this.lenPre := lenPre;
      this.startPost := startPost;
      this.lenPost := lenPost;
      counts := map[Retain := 0, Add := 0, Remove := 0];
      lines := [];
      new;
      assert Tally([]) == counts;
      AddLines(newLines);
      assert lines == [] + newLines == newLines;
      NewHunkFromTally(startPre, lenPre, startPost, lenPost, lines, counts);
      isNewFile := counts[Retain] == 0 && counts[Remove] == 0;
    }

    /** `add_retained_line`: insert a RETAIN line where Python's `list.insert` would. */
    method AddRetainedLine(text: string, index: int)
      requires Valid()
      modifies this
      ensures Valid()
      ensures View() == old(View()).(lines := InsertAt(old(lines), InsertIndex(index, |old(lines)|), Line(Retain, text)))
    {
      var i := InsertIndex(index, |lines|);
      var l := Line(Retain, text);
      TallyAfterInsert(lines, i, l);
      lines := lines[..i] + [l] + lines[i..];
      counts := counts[Retain := counts[Retain] + 1];
    }

    /** `relabel_line`: move one line, addressed with Python indexing, to another category. */
    method RelabelLine(index: int, newLabel: Tag)
      requires Valid() && -|lines| <= index < |lines|
      modifies this
      ensures Valid()
      ensures var i := if index < 0 then index + |old(lines)| else index;
              View() == old(View()).(lines := old(lines)[i := Line(newLabel, old(lines)[i].text)])
    {
      var i := if index < 0 then index + |lines| else index;
      var oldLabel := lines[i].tag;
      TallyAfterRelabel(lines, i, newLabel);
      lines := lines[i := Line(newLabel, lines[i].text)];
      counts := counts[oldLabel := counts[oldLabel] - 1];
      counts := counts[newLabel := counts[newLabel] + 1];
    }

    /**
     * `pop_line`: remove the line at `index`. The caller passes that same line,
     * so the assertion that its category count is positive always holds.
     */
    method PopLine(line: Line, index: int)
      requires Valid() && -|lines| <= index < |lines|
      requires line == lines[if index < 0 then index + |lines| else index]
      modifies this
      ensures Valid()
      ensures var i := if index < 0 then index + |old(lines)| else index;
              View() == old(View()).(lines := RemoveAt(old(lines), i))
    {
      var i := if index < 0 then index + |lines| else index;
      TallyAfterRemove(lines, i);
      lines := lines[..i] + lines[i + 1..];
      assert counts[line.tag] > 0;
      counts := counts[line.tag := counts[line.tag] - 1];
    }

    /** `add_lines`: append each line and count it. */
    method AddLines(newLines: seq<Line>)
      requires Valid()
      modifies this
      ensures Valid()
      ensures View() == old(View()).(lines := old(lines) + newLines)
    {
      for k := 0 to |newLines|
        invariant Valid()
        invariant View() == old(View()).(lines := old(lines) + newLines[..k])
      {
        var line := newLines[k];
        TallyAfterAppend(lines, line);
          lines := lines + [line];
        counts := counts[line.tag := counts[line.tag] + 1];
        assert newLines[..k + 1] == newLines[..k] + [line];
      }
      assert newLines[..|newLines|] == newLines;
    }

    /** `hunk_to_string`: the header line, then one prefixed line per entry. */
    method HunkToString() returns (r: string)
      ensures r == HunkText(View())
    {
      r := "@@ -" + IntToString(startPre) + "," + IntToString(lenPre)
           + " +" + IntToString(startPost) + "," + IntToString(lenPost) + " @@\n";
      ghost var header := r;
      assert header == HeaderText(View());
      for k := 0 to |lines|
        invariant r == header + RenderLines(lines[..k])
      {
        var line := lines[k];
        var prefix := if line.tag == Retain then " " else if line.tag == Add then "+" else "-";
        var piece := prefix + line.text + "\n";
        assert prefix == Prefix(line.tag);
        RenderPrefix(header, lines, k);
        r := r + piece;
      }
      assert lines[..|lines|] == lines;
    }

    /**
     * `check_start_line`: true for a new-file hunk. For any other hunk the
     * source computes a similarity it discards and returns `None`, modelled as
     * false; so `find_start_line` always runs for such hunks.
     */
    method CheckStartLine(m: LineMap) returns (r: bool)
      requires !isNewFile && HasKey(m, startPre) ==> |lines| > 0
      ensures r <==> isNewFile
    {
      if isNewFile {
        return true;
      }
      if HasKey(m, startPre) {
        var discarded := IsSimilar(lines[0].text, Get(m, startPre));
      }
      return false;
    }

    /**
     * One pass of the `validate_lines` loop body at hunk cursor `h` and file
     * line `f`: either the cursors move on (possibly after editing the lines)
     * or the loop stops with a mismatch message, as `ValidateStep` says.
     */
    method ValidateOneLine(m: LineMap, h: nat, f: int) returns (stop: bool, h': nat, f': int, problem: string)
      requires Valid() && CursorsOk(lines, m, h, f) && h < |lines| && f <= Hi(m)
      modifies this
      ensures Valid()
      ensures View() == old(View()).(lines := lines)
      ensures stop ==> lines == old(lines)
      ensures ValidateStep(old(View()), m, h, f) == if stop then Stop(false, problem) else Continue(lines, h', f')
    {
      ghost var v := View();
      stop, h', f', problem := false, h, f, "";
      if lines[h].tag == Add {
        StepOnAdd(v, m, h, f);
        h' := h + 1;
        return;
      }
      assert lines[h..][0] == lines[h];
      var fileLine := At(m, f);
      if IsSimilar(lines[h].text, fileLine) {
        StepOnSimilar(v, m, h, f);
        h', f' := h + 1, f + 1;
        return;
      }
      if '#' in lines[h].text {
        StepOnComment(v, m, h, f);
        RelabelLine(h, Add);
        return;
      }
      StepOnMismatch(v, m, h, f);
      var forwardCode := ForwardCode(m, f);
      var origRatio := CountRatio(ForwardBlock(lines, h, ForwardBlockLen), forwardCode);
      var missingBlock := fileLine + "\n" + ForwardBlock(lines, h, ForwardBlockLen - 1);
      var missingRatio := CountRatio(missingBlock, forwardCode);
      var falseRatio := CountRatio(ForwardBlock(lines, h + 1, ForwardBlockLen), forwardCode);
      assert (origRatio, missingRatio, falseRatio) == Scores(lines, m, h, f);
      if origRatio >= missingRatio && origRatio >= falseRatio {
        var text := HunkToString();
        return true, h, f, "In Hunk:" + text + ", there was at least one mismatch.";
      } else if missingRatio > falseRatio {
        AddRetainedLine(fileLine, h);
        h', f' := h + 1, f + 1;
      } else {
        PopLine(lines[h], h);
      }
    }

    /** `validate_lines`: the cursor loop, proved to end in the state `ValidateLinesFrom` computes. */
    method ValidateLines(m: LineMap) returns (ok: bool, problems: seq<string>)
      requires Valid() && CursorsOk(lines, m, 0, startPre)
      modifies this
      ensures Valid()
      ensures Verdict(View(), ok, problems) == ValidateLinesFrom(old(View()), m, 0, old(startPre))
    {
      var h: nat := 0;
      var f := startPre;
      while h < |lines| && f <= Hi(m)
        invariant Valid() && CursorsOk(lines, m, h, f)
        invariant View() == old(View()).(lines := lines)
        invariant ValidateLinesFrom(View(), m, h, f) == ValidateLinesFrom(old(View()), m, 0, old(startPre))
        decreases if f <= Hi(m) then Hi(m) + 1 - f else 0, Pending(lines, h)
      {
        ghost var v, h0, f0 := View(), h, f;
        var stop, problem;
        stop, h, f, problem := ValidateOneLine(m, h, f);
        if stop {
          RunStops(v, m, h0, f0);
          return false, [problem];
        }
        RunAfterStep(v, m, h0, f0);
      }
      ok, problems := ValidationEnd(m, h, f);
    }

    /**
     * The end of `validate_lines`, once either cursor has run out: the hunk is
     * accepted unless two or more of its lines were never reached.
     */
    method ValidationEnd(m: LineMap, h: nat, f: int) returns (ok: bool, problems: seq<string>)
      requires CursorsOk(lines, m, h, f) && !(h < |lines| && f <= Hi(m))
      ensures Verdict(View(), ok, problems) == ValidateLinesFrom(View(), m, h, f)
    {
      RunAtEnd(View(), m, h, f);
      if h < |lines| - 1 {
        var text := HunkToString();
        var remaining := Join(Described(SliceFrom(lines, f + 1)), "\n");
        return false, ["In " + text + ":Hunk validation stopped before the lines " + remaining
                       + " were validated. The diff is incorrect"];
      }
      return true, [];
    }

    /** The scan of `find_start_line` for the first line that is not ADD. */
    method FirstNonAddIndex() returns (index: nat)
      ensures index == FirstNonAdd(lines)
    {
      index := 0;
      while index < |lines| && lines[index].tag == Add
        invariant index <= |lines|
        invariant forall j :: 0 <= j < index ==> lines[j].tag == Add
      {
        index := index + 1;
      }
      FirstNonAddUnique(lines, index);
    }

    /**
     * The inner scan of `find_start_line`: the line before the first map entry
     * similar to the non-blank `text`, stopping at the first one.
     */
    static method PriorLine(m: LineMap, text: string) returns (found: bool, startLine: int)
      ensures found <==> text != "" && FirstSimilar(m, text) != -1
      ensures found ==> startLine == m[FirstSimilar(m, text)].0 - 1
    {
      found, startLine := false, 0;
      var j := 0;
      while j < |m| && !found
        invariant 0 <= j <= |m|
        invariant !found ==> forall i {:trigger IsSimilar(text, m[i].1)} :: 0 <= i < j ==> !(IsSimilar(text, m[i].1) && text != "")
        invariant found ==> 0 < j && text != "" && IsSimilar(text, m[j - 1].1) && startLine == m[j - 1].0 - 1
        invariant found ==> forall i {:trigger IsSimilar(text, m[i].1)} :: 0 <= i < j - 1 ==> !IsSimilar(text, m[i].1)
      {
        if IsSimilar(text, m[j].1) && text != "" {
          found, startLine := true, m[j].0 - 1;
        }
        j := j + 1;
      }
      if found {
        FirstSimilarUnique(m, text, j - 1);
      } else if text != "" {
        FirstSimilarNone(m, text);
      }
    }

    /** `pot_start_lines` and `sum_of_matches`: how many map entries are similar to `text`, and the first of them. */
    static method SimilarLines(m: LineMap, text: string) returns (matches: nat, firstMatch: int)
      ensures firstMatch == FirstSimilar(m, text)
      ensures matches == 0 <==> firstMatch == -1
      ensures matches <= |m|
    {
      matches, firstMatch := 0, -1;
      for j := 0 to |m|
        invariant matches <= j
        invariant (firstMatch == -1) <==> (matches == 0)
        invariant firstMatch == -1 ==> forall i {:trigger IsSimilar(text, m[i].1)} :: 0 <= i < j ==> !IsSimilar(text, m[i].1)
        invariant firstMatch != -1 ==> 0 <= firstMatch < j && IsSimilar(text, m[firstMatch].1)
        invariant firstMatch != -1 ==> forall i {:trigger IsSimilar(text, m[i].1)} :: 0 <= i < firstMatch ==> !IsSimilar(text, m[i].1)
      {
        if IsSimilar(text, m[j].1) {
          if firstMatch == -1 {
            firstMatch := j;
          }
          matches := matches + 1;
        }
      }
      if firstMatch == -1 {
        FirstSimilarNone(m, text);
      } else {
        FirstSimilarUnique(m, text, firstMatch);
      }
    }

    /** The problem reported when no line of the file is similar to the first line that is not an ADD. */
    method NotFoundMessage() returns (p: string)
      ensures p == NotFoundProblem(View())
    {
      var rendered := HunkToString();
      p := "In " + rendered + ":can not find the starting line of the diff";
    }

    /** The problem reported when the start line of the hunk is not in the file. */
    method MissingStartMessage() returns (p: string)
      ensures p == MissingStartProblem(View())
    {
      var rendered := HunkToString();
      p := "In " + rendered + ":The starting line of the diff " + rendered + " does not exist in the code";
    }

    /**
     * The ADD-first branch of `find_start_line`: the first non-ADD line, at
     * `index`, is looked up in the map, and the line before its match becomes
     * the start, put in front of the hunk as a retained line when the file has it.
     */
    method LocateAfterAdds(m: LineMap, index: nat) returns (restart: bool, problem: string)
      requires Valid() && |lines| > 0 && lines[0].tag == Add && index == FirstNonAdd(lines) && index < |lines|
      modifies this
      ensures Valid()
      ensures Locate(old(View()), m) == if restart then Restart(View()) else Lost(View(), problem)
    {
      ghost var v := View();
      restart, problem := false, "";
      var found, startLine := PriorLine(m, lines[index].text);
      if !found {
        LocateNoPriorLine(v, m, index);
        problem := NotFoundMessage();
        return;
      }
      LocatePriorLine(v, m, index, FirstSimilar(m, lines[index].text));
      startPre := startLine;
      var retainLine := GetOr(m, startLine, "");
      if retainLine != "" {
        assert v.lines[..0] == [] && v.lines[0..] == v.lines;
        AddRetainedLine(Get(m, startLine), 0);
        assert lines == [Line(Retain, Get(m, startLine))] + v.lines;
        restart := true;
        return;
      }
      problem := MissingStartMessage();
    }

    /**
     * The body of `find_start_line` up to its recursive calls: either the
     * start is found, or a problem is reported, or the hunk has been edited
     * (a retained line put in front, or a comment relabelled as ADD) and the
     * caller must start over.
     */
    method LocateStart(m: LineMap) returns (restart: bool, ok: bool, problem: string)
      requires Valid() && |lines| > 0
      modifies this
      ensures Valid()
      ensures Locate(old(View()), m) == if restart then Restart(View()) else if ok then Found(View()) else Lost(View(), problem)
    {
      ghost var v := View();
      restart, ok, problem := false, false, "";
      if lines[0].tag == Add {
        var index := FirstNonAddIndex();
        if index < |lines| {
          restart, problem := LocateAfterAdds(m, index);
          return;
        }
      }
      LocateFromFirstLine(v, m);
      var matches, firstMatch := SimilarLines(m, lines[0].text);
      if matches == 0 {
        if '#' in lines[0].text {
          RelabelLine(0, Add);
          restart := true;
          return;
        }
        problem := MissingStartMessage();
        return;
      }
      startPre := m[firstMatch].0;
      ok := true;
    }

    /** `find_start_line`: a restart recurses into `validate_and_correct`, as `FindStart` does. */
    method FindStartLine(m: LineMap, ghost fuel: nat) returns (ok: bool, problems: seq<string>)
      requires Valid() && Contiguous(m) && !isNewFile && |lines| > 0
      requires FindStart(View(), m, fuel).Some?
      modifies this
      ensures Valid()
      ensures FindStart(old(View()), m, fuel) == Some(Verdict(View(), ok, problems))
      decreases fuel, 0
    {
      var restart, problem;
      restart, ok, problem := LocateStart(m);
      if restart {
        RestartResult(old(View()), View(), m, fuel);
        ok, problems := ValidateAndCorrect(m, fuel - 1);
      } else {
        problems := if ok then [] else [problem];
      }
    }

    /** `Hunk.validate_and_correct`: localise the hunk unless it is a new file, then validate its lines. */
    method ValidateAndCorrect(m: LineMap, ghost fuel: nat) returns (ok: bool, problems: seq<string>)
      requires Valid() && Contiguous(m)
      requires isNewFile ==> |m| > 0 && (Lo(m) <= startPre || AllAdd(lines))
      requires !isNewFile ==> |lines| > 0
      requires HunkSpec.ValidateAndCorrect(View(), m, fuel).Some?
      modifies this
      ensures Valid()
      ensures HunkSpec.ValidateAndCorrect(old(View()), m, fuel) == Some(Verdict(View(), ok, problems))
      decreases fuel, 1
    {
      var startTrue := CheckStartLine(m);
      problems := [];
      if !startTrue {
        ok, problems := FindStartLine(m, fuel);
        if !ok {
          return;
        }
        ContiguousFind(m, startPre);
      }
      assert problems == [];
      assert lines[0..] == lines;
      var valid, more := ValidateLines(m);
      assert problems + more == more;
      return valid, problems + more;
    }
  }
}
