/**
 * The `Diff` class of espada/core/diff.py: a pair of file names and the list of
 * `Hunk` objects it owns. Every method is proved against the value-level
 * functions of `DiffSpec` applied to `State()`.
 */
module Diffs {
  import opened PyStr
  import opened Wrappers
  import opened LineMaps
  import opened HunkSpec
  import opened DiffSpec
  import opened Hunks

  /** The values of the hunk objects `hs`, in order. */
  function Views(hs: seq<Hunk>): (r: seq<HunkState>)
    reads hs
    ensures |r| == |hs|
    decreases |hs|
  {
    if hs == [] then [] else [hs[0].View()] + Views(hs[1..])
  }

  /** The view at position `j` is that object's value. */
  lemma {:induction false} ViewAt(hs: seq<Hunk>, j: nat)
    requires j < |hs|
    ensures Views(hs)[j] == hs[j].View()
    decreases j
  {
    if j > 0 {
      ViewAt(hs[1..], j - 1);
    }
  }

  /** Position by position, the views are the objects' values. */
  lemma {:induction false} ViewsIndex(hs: seq<Hunk>)
    ensures forall j :: 0 <= j < |hs| ==> Views(hs)[j] == hs[j].View()
    decreases |hs|
  {
    if hs != [] {
      ViewsIndex(hs[1..]);
    }
  }

  /** No object appears twice: `list.remove` then removes the one at the position the loop is at. */
  predicate Distinct(hs: seq<Hunk>)
  {
    forall j, k :: 0 <= j < k < |hs| ==> hs[j] != hs[k]
  }

  lemma {:induction false} ViewsAppend(a: seq<Hunk>, b: seq<Hunk>)
    ensures Views(a + b) == Views(a) + Views(b)
    decreases |a|
  {
    if a == [] {
      assert a + b == b;
    } else {
      assert (a + b)[1..] == a[1..] + b;
      ViewsAppend(a[1..], b);
    }
  }

  lemma ViewsTake(hs: seq<Hunk>, i: nat)
    requires i <= |hs|
    ensures Views(hs[..i]) == Views(hs)[..i]
  {
    var a := Views(hs[..i]);
    var b := Views(hs)[..i];
    ViewsIndex(hs);
    ViewsIndex(hs[..i]);
    assert forall j :: 0 <= j < i ==> a[j] == hs[j].View();
  }

  lemma {:induction false} ViewsDrop(hs: seq<Hunk>, i: nat)
    requires i <= |hs|
    ensures Views(hs[i..]) == Views(hs)[i..]
    decreases i
  {
    if i == 0 {
      assert hs[0..] == hs;
    } else {
      ViewsDrop(hs[1..], i - 1);
      assert hs[1..][i - 1..] == hs[i..];
    }
  }

  /** Removing position `i` shifts the later elements down by one. */
  lemma RemoveShifts<T>(a: seq<T>, i: nat)
    requires i < |a|
    ensures |a[..i] + a[i + 1..]| == |a| - 1
    ensures forall j :: 0 <= j < |a| - 1 ==> (a[..i] + a[i + 1..])[j] == if j < i then a[j] else a[j + 1]
  {
  }

  lemma ViewsRemove(hs: seq<Hunk>, i: nat)
    requires i < |hs|
    ensures Views(hs[..i] + hs[i + 1..]) == Views(hs)[..i] + Views(hs)[i + 1..]
  {
    ViewsAppend(hs[..i], hs[i + 1..]);
    ViewsTake(hs, i);
    ViewsDrop(hs, i + 1);
  }

  /** After one object of `hs` changed (position `k`, or none when `k` is negative), the views are the old ones with that one replaced. */
  lemma ViewsUpdate(hs: seq<Hunk>, before: seq<HunkState>, k: int)
    requires |before| == |hs| && k < |hs|
    requires forall j :: 0 <= j < |hs| && j != k ==> hs[j].View() == before[j]
    ensures Views(hs) == if 0 <= k then before[k := hs[k].View()] else before
  {
    var after := if 0 <= k then before[k := hs[k].View()] else before;
    ViewsIndex(hs);
    assert forall j :: 0 <= j < |hs| ==> Views(hs)[j] == after[j];
  }

  /** After the hunk at position `i` was kept or removed, no later hunk is that one. */
  lemma LaterDiffer(hs: seq<Hunk>, hs': seq<Hunk>, i: nat, removed: bool)
    requires Distinct(hs) && i < |hs|
    requires hs' == if removed then hs[..i] + hs[i + 1..] else hs
    ensures forall j :: i + 1 <= j < |hs'| ==> hs'[j] != hs[i]
  {
  }

  class Diff {
    var filenamePre: Option<string>
    var filenamePost: string
    var hunks: seq<Hunk>
    /** The hunk objects this diff owns. */
    ghost var Repr: set<Hunk>

    /** Every hunk is owned and keeps its counts, and no hunk object is listed twice. */
    ghost predicate Valid()
      reads this, Repr
    {
      Distinct(hunks) && forall j :: 0 <= j < |hunks| ==> hunks[j] in Repr && hunks[j].Valid()
    }

    /** The object's fields and its hunks as a value. */
    function State(): DiffState
      reads this, hunks
    {
      DiffState(filenamePre, filenamePost, Views(hunks))
    }

    /** `Diff.__init__`: the two names and no hunks. */
    constructor(pre: Option<string>, post: string)
      ensures Valid() && State() == DiffState(pre, post, [])
    {
      filenamePre := pre;
      filenamePost := post;
      hunks := [];
      Repr := {};
    }

    /** `self.hunks.append(Hunk(*header, lines))`, as `parse_diff_block` does it: a new hunk at the end. */
    method AddHunk(startPre: int, lenPre: int, startPost: int, lenPost: int, ls: seq<Line>)
      requires Valid()
      modifies this
      ensures Valid() && Repr >= old(Repr)
      ensures State() == old(State()).(hunks := old(State()).hunks + [NewHunk(startPre, lenPre, startPost, lenPost, ls)])
    {
      var h := new Hunk(startPre, lenPre, startPost, lenPost, ls);
      ViewsAppend(hunks, [h]);
      hunks := hunks + [h];
      Repr := Repr + {h};
    }

    /** `is_new_file`: the old name is `/dev/null`, or some hunk is a new-file hunk. */
    method IsNewFile() returns (b: bool)
      ensures b == DiffSpec.IsNewFile(State())
    {
      if filenamePre == Some(DevNull) {
        return true;
      }
      ghost var vs := Views(hunks);
      for k := 0 to |hunks|
        invariant forall j :: 0 <= j < k ==> !vs[j].isNewFile
      {
        ViewAt(hunks, k);
        if hunks[k].isNewFile {
          assert vs[k].isNewFile;
          return true;
        }
      }
      return false;
    }

    /** `diff_to_string`: the two name lines, each hunk's text, all stripped. */
    method DiffToString() returns (r: string)
      ensures r == DiffText(State())
    {
      var text := "--- " + NameText(filenamePre) + "\n+++ " + filenamePost + "\n";
      ghost var vs := Views(hunks);
      ghost var header := text;
      assert header == DiffHeader(State());
      for k := 0 to |hunks|
        invariant text == header + HunksText(vs[..k])
      {
        ViewAt(hunks, k);
        var piece := hunks[k].HunkToString();
        HunksTextPrefix(header, vs, k);
        text := text + piece;
      }
      assert vs[..|hunks|] == vs;
      r := Strip(text);
    }

    /**
     * `validate_and_correct(lines_dict)`: the `for` loop over `self.hunks`,
     * which removes failed hunks from the list it is iterating over. The
     * iterator's position `i` moves on by one after a removal too, so it may end
     * one past the end of the shortened list.
     */
    method ValidateAndCorrect(m: LineMap) returns (problems: seq<string>)
      requires Valid() && Contiguous(m) && Checkable(State().hunks)
      requires ValidateDiff(State(), m).Some?
      modifies this, Repr
      ensures Valid()
      ensures ValidateDiff(old(State()), m) == Some((State(), problems))
    {
      ghost var w0 := Walk(Views(hunks), 0, None, m, []);
      problems := [];
      var past: Hunk? := null;
      ghost var pastView: Option<HunkState> := None;
      var cut := m;
      var i := 0;
      while i < |hunks|
        invariant Valid() && Contiguous(cut) && Repr == old(Repr)
        invariant filenamePre == old(filenamePre) && filenamePost == old(filenamePost)
        invariant past != null ==> forall j :: i <= j < |hunks| ==> hunks[j] != past
        invariant past == null <==> pastView.None?
        invariant past != null ==> pastView == Some(past.View())
        invariant WalkFrom(CheckHunk, w0).Some?
        invariant WalkFrom(CheckHunk, Walk(Views(hunks), i, pastView, cut, problems)) == WalkFrom(CheckHunk, w0)
        decreases |hunks| - i
      {
        var hunk := hunks[i];
        cut, problems := VisitAt(i, past, cut, problems, pastView);
        past := hunk;
        pastView := Some(hunk.View());
        i := i + 1;
      }
    }

    /**
     * The body of the loop for the hunk at position `i`: cut the map and check
     * the hunk, remove it when it failed and some problem has been reported, and
     * renumber it after `past` in any case. The walk goes on from the next
     * position to the same end.
     */
    method VisitAt(i: nat, past: Hunk?, cut: LineMap, problems: seq<string>, ghost pastView: Option<HunkState>)
      returns (cut': LineMap, problems': seq<string>)
      requires Valid() && Contiguous(cut) && i < |hunks|
      requires past != null ==> forall j :: i <= j < |hunks| ==> hunks[j] != past
      requires past == null <==> pastView.None?
      requires past != null ==> pastView == Some(past.View())
      requires WalkFrom(CheckHunk, Walk(Views(hunks), i, pastView, cut, problems)).Some?
      modifies this, hunks[i]
      ensures Valid() && Contiguous(cut') && Repr == old(Repr) && |hunks| <= old(|hunks|)
      ensures filenamePre == old(filenamePre) && filenamePost == old(filenamePost)
      ensures forall j :: i + 1 <= j < |hunks| ==> hunks[j] != old(hunks[i])
      ensures WalkFrom(CheckHunk, Walk(Views(hunks), i + 1, Some(old(hunks[i]).View()), cut', problems'))
              == WalkFrom(CheckHunk, Walk(old(Views(hunks)), i, pastView, cut, problems))
    {
      ghost var w := Walk(Views(hunks), i, pastView, cut, problems);
      ViewAt(hunks, i);
      WalkChecks(w);
      var hunk := hunks[i];
      var isValid, found;
      cut', isValid, found := CheckAt(i, past, cut, pastView);
      ghost var v := Verdict(hunk.View(), isValid, found);
      ghost var mid := Views(hunks);
      problems' := problems + found;
      var remove := !isValid && |problems'| > 0;
      FinishAt(i, past, pastView, remove);
      VisitStep(w, cut', v, mid, Views(hunks), hunk.View());
    }

    /**
     * The second half of the loop body on the hunk at position `i`: remove it
     * from the list when `remove` says so, and renumber it after `past` in any case.
     */
    method FinishAt(i: nat, past: Hunk?, ghost pastView: Option<HunkState>, remove: bool)
      requires Valid() && i < |hunks| && past != hunks[i]
      requires past == null <==> pastView.None?
      requires past != null ==> pastView == Some(past.View())
      modifies this, hunks[i]
      ensures Valid() && Repr == old(Repr) && |hunks| <= old(|hunks|)
      ensures filenamePre == old(filenamePre) && filenamePost == old(filenamePost)
      ensures forall j :: i + 1 <= j < |hunks| ==> hunks[j] != old(hunks[i])
      ensures old(hunks[i]).View() == Renumber(old(hunks[i].View()), pastView)
      ensures Views(hunks) == if remove then old(Views(hunks)[..i] + Views(hunks)[i + 1..])
                              else old(Views(hunks))[i := old(hunks[i]).View()]
    {
      ghost var before := hunks;
      var hunk := hunks[i];
      ghost var k: int := i;
      if remove {
        RemoveAt(i);
        k := -1;
      }
      RenumberHunk(hunk, past, pastView, k);
      LaterDiffer(before, hunks, i, remove);
    }

    /** The first half of the loop body on the hunk at position `i`: from the second hunk on, cut the map after `past`; then check the hunk against it. */
    method CheckAt(i: nat, past: Hunk?, cut: LineMap, ghost pastView: Option<HunkState>)
      returns (cut': LineMap, isValid: bool, found: seq<string>)
      requires Valid() && Contiguous(cut) && i < |hunks| && past != hunks[i]
      requires past == null <==> pastView.None?
      requires past != null ==> pastView == Some(past.View())
      requires CheckHunk(hunks[i].View(), Cut(cut, pastView, hunks[i].View())).Some?
      modifies hunks[i]
      ensures Valid() && hunks == old(hunks) && cut' == Cut(cut, pastView, old(hunks[i].View()))
      ensures CheckHunk(old(hunks[i].View()), cut') == Some(Verdict(hunks[i].View(), isValid, found))
      ensures Views(hunks) == old(Views(hunks))[i := hunks[i].View()]
      ensures past != null ==> past.View() == old(past.View())
    {
      ghost var before := Views(hunks);
      ViewsIndex(hunks);
      cut', isValid, found := CutAndCheck(hunks[i], past, cut, pastView);
      assert forall j :: 0 <= j < |hunks| && j != i ==> hunks[j].View() == before[j] && hunks[j].Valid();
      ViewsUpdate(hunks, before, i);
    }

    /** `self.hunks.remove(hunk)` for the hunk at position `i`: as no object is listed twice, the first one equal to it is that one. */
    method RemoveAt(i: nat)
      requires Valid() && i < |hunks|
      modifies this
      ensures Valid() && Repr == old(Repr) && hunks == old(hunks[..i] + hunks[i + 1..])
      ensures Views(hunks) == old(Views(hunks)[..i] + Views(hunks)[i + 1..])
      ensures filenamePre == old(filenamePre) && filenamePost == old(filenamePost)
    {
      ghost var before := hunks;
      ViewsRemove(hunks, i);
      RemoveShifts(hunks, i);
      hunks := hunks[..i] + hunks[i + 1..];
      assert forall j :: 0 <= j < |hunks| ==> hunks[j] == if j < i then before[j] else before[j + 1];
    }

    /** The second half of the loop body for the hunk listed at position `k`, or not listed any more when `k` is negative. */
    method RenumberHunk(hunk: Hunk, past: Hunk?, ghost pastView: Option<HunkState>, ghost k: int)
      requires Valid() && hunk.Valid() && past != hunk
      requires past == null <==> pastView.None?
      requires past != null ==> pastView == Some(past.View())
      requires k < |hunks| && (0 <= k ==> hunks[k] == hunk)
      requires k < 0 ==> forall j :: 0 <= j < |hunks| ==> hunks[j] != hunk
      modifies hunk
      ensures Valid() && hunk.View() == Renumber(old(hunk.View()), pastView)
      ensures Views(hunks) == if k < 0 then old(Views(hunks)) else old(Views(hunks))[k := hunk.View()]
      ensures past != null ==> past.View() == old(past.View())
    {
      ghost var before := Views(hunks);
      ViewsIndex(hunks);
      RenumberAfter(hunk, past, pastView);
      assert forall j :: 0 <= j < |hunks| && j != k ==> hunks[j].View() == before[j] && hunks[j].Valid();
      ViewsUpdate(hunks, before, k);
    }
  }

  /** From the second hunk on, cut the map after `past`; then check and correct `hunk` against it. */
  method CutAndCheck(hunk: Hunk, past: Hunk?, cut: LineMap, ghost pastView: Option<HunkState>)
    returns (cut': LineMap, isValid: bool, found: seq<string>)
    requires hunk.Valid() && Contiguous(cut) && past != hunk
    requires past == null <==> pastView.None?
    requires past != null ==> pastView == Some(past.View())
    requires CheckHunk(hunk.View(), Cut(cut, pastView, hunk.View())).Some?
    modifies hunk
    ensures hunk.Valid() && cut' == Cut(cut, pastView, old(hunk.View()))
    ensures CheckHunk(old(hunk.View()), cut') == Some(Verdict(hunk.View(), isValid, found))
  {
    ghost var s := hunk.View();
    cut' := cut;
    if past != null {
      cut' := KeepFrom(cut, Min(past.startPre + past.lenPre, hunk.startPre));
    }
    assert cut' == Cut(cut, pastView, s);
    assert CheckHunk(s, cut') == HunkSpec.ValidateAndCorrect(s, cut', RetryDepth);
    isValid, found := hunk.ValidateAndCorrect(cut', RetryDepth);
  }

  /** Recount the hunk's lengths from its counts and place its post-edit start after `past`. */
  method RenumberAfter(hunk: Hunk, past: Hunk?, ghost pastView: Option<HunkState>)
    requires hunk.Valid() && past != hunk
    requires past == null <==> pastView.None?
    requires past != null ==> pastView == Some(past.View())
    modifies hunk
    ensures hunk.Valid() && hunk.View() == Renumber(old(hunk.View()), pastView)
  {
    assert hunk.counts[Retain] == Count(hunk.lines, Retain);
    assert hunk.counts[Remove] == Count(hunk.lines, Remove);
    assert hunk.counts[Add] == Count(hunk.lines, Add);
    hunk.lenPre := hunk.counts[Retain] + hunk.counts[Remove];
    hunk.lenPost := hunk.counts[Retain] + hunk.counts[Add];
    if past != null {
      hunk.startPost := hunk.startPre + past.lenPost - past.lenPre + past.startPost - past.startPre;
    } else {
      hunk.startPost := hunk.startPre;
    }
  }
}
