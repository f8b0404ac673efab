/**
 * The value-level specification of `apply_diffs` in
 * espada/core/chat_to_files.py: each diff, in dict order, writes the entry of
 * its post-edit name in a copy of the files. A new-file diff writes the
 * texts of all its lines; any other diff edits the lines of its pre-edit file
 * through a line map and a cursor, marks removed lines with a flag, drops the
 * flagged lines and joins what is left.
 */
module ApplySpec {
  import opened PyStr
  import opened Wrappers
  import opened LineMaps
  import opened HunkSpec
  import opened DiffSpec
  import opened FilesDicts

  /** `REMOVE_FLAG`, the text a removed line is replaced with until the flagged lines are dropped. */
  const RemoveFlag: string := "<REMOVE_LINE>"

  /**
   * One line of a hunk applied with the cursor at `c`: the new line map and
   * cursor. RETAIN moves on; ADD goes one back, extends that line or writes
   * over a flagged or missing one, and moves on again; REMOVE flags the line
   * under the cursor and moves on.
   */
  function ApplyLine(m: LineMap, c: int, l: Line): (LineMap, int)
  {
    match l.tag
    case Retain => (m, c + 1)
    case Add =>
      if HasKey(m, c - 1) && Get(m, c - 1) != RemoveFlag then (Put(m, c - 1, Get(m, c - 1) + "\n" + l.text), c)
      else (Put(m, c - 1, l.text), c)
    case Remove => (Put(m, c, RemoveFlag), c + 1)
  }

  /** The lines `ls` applied one after the other from cursor `c`. */
  function ApplyLines(m: LineMap, c: int, ls: seq<Line>): LineMap
    decreases |ls|
  {
    if ls == [] then m
    else
      var (m', c') := ApplyLine(m, c, ls[0]);
      ApplyLines(m', c', ls[1..])
  }

  /** The hunks applied in order, the cursor of each starting at its pre-edit start line. */
  function ApplyHunks(m: LineMap, hs: seq<HunkState>): LineMap
    decreases |hs|
  {
    if hs == [] then m else ApplyHunks(ApplyLines(m, hs[0].startPre, hs[0].lines), hs[1..])
  }

  /** The dict comprehension that drops every entry whose text contains `REMOVE_FLAG`. */
  function DropRemoved(m: LineMap): (r: LineMap)
    decreases |m|
  {
    if m == [] then []
    else (if Contains(m[0].1, RemoveFlag) then [] else [m[0]]) + DropRemoved(m[1..])
  }

  /** The texts of all lines of all hunks, in order, whatever their tags. */
  function HunkTexts(hs: seq<HunkState>): seq<string>
    decreases |hs|
  {
    if hs == [] then [] else Texts(hs[0].lines) + HunkTexts(hs[1..])
  }

  function Texts(ls: seq<Line>): (r: seq<string>)
    ensures |r| == |ls| && forall i :: 0 <= i < |ls| ==> r[i] == ls[i].text
  {
    seq(|ls|, i requires 0 <= i < |ls| => ls[i].text)
  }

  /** The content of an edited existing file. */
  function EditedText(content: string, hs: seq<HunkState>): string
  {
    Join(Values(DropRemoved(ApplyHunks(FileToLinesDict(content), hs))), "\n")
  }

  /**
   * One diff applied to the files: `None` where `files[diff.filename_pre]`
   * raises `KeyError` (no pre-edit name, or no such file).
   */
  function ApplyDiff(files: Files, d: DiffState): Option<Files>
  {
    if IsNewFile(d) then Some(Put(files, d.post, Join(HunkTexts(d.hunks), "\n")))
    else if d.pre.Some? && HasKey(files, d.pre.value) then Some(Put(files, d.post, EditedText(Get(files, d.pre.value), d.hunks)))
    else None
  }

  /** `apply_diffs`: the diffs applied in dict order to a copy of the files; `None` where one raises. */
  function ApplyAll(files: Files, ds: seq<(string, DiffState)>): Option<Files>
    decreases |ds|
  {
    if ds == [] then Some(files)
    else
      match ApplyDiff(files, ds[0].1)
      case None => None
      case Some(f) => ApplyAll(f, ds[1..])
  }

  /**
   * A diff writes only the entry of its post-edit name: every other file keeps
   * its content and place, a new name goes at the end, and the KeyError
   * happens exactly when an existing file is edited that is not there.
   */
  lemma ApplyDiffWrites(files: Files, d: DiffState, other: string)
    requires other != d.post
    ensures ApplyDiff(files, d).None? <==> !IsNewFile(d) && (d.pre.None? || !HasKey(files, d.pre.value))
    ensures ApplyDiff(files, d).Some? ==> var r := ApplyDiff(files, d).value;
      HasKey(r, d.post)
      && (HasKey(r, other) <==> HasKey(files, other))
      && (HasKey(files, other) ==> Get(r, other) == Get(files, other))
      && |r| >= |files| && (forall i :: 0 <= i < |files| ==> r[i].0 == files[i].0)
  {
    if ApplyDiff(files, d).Some? {
      var r := ApplyDiff(files, d).value;
      PutOther(files, d.post, Get(r, d.post), other);
      PutShape(files, d.post, Get(r, d.post));
    }
  }

  /** A new file is the newline-join of the texts of its lines, whatever their tags: relabelling a line changes nothing. */
  lemma {:induction false} NewFileIgnoresTags(hs: seq<HunkState>, hs': seq<HunkState>)
    requires |hs| == |hs'|
    requires forall i :: 0 <= i < |hs| ==> |hs[i].lines| == |hs'[i].lines|
    requires forall i, j :: 0 <= i < |hs| && 0 <= j < |hs[i].lines| ==> hs[i].lines[j].text == hs'[i].lines[j].text
    ensures HunkTexts(hs) == HunkTexts(hs')
    decreases |hs|
  {
    if hs != [] {
      assert Texts(hs[0].lines) == Texts(hs'[0].lines);
      NewFileIgnoresTags(hs[1..], hs'[1..]);
    }
  }

  /** The texts of the hunks of a new file: the first hunk's lines, then the rest's. */
  lemma {:induction false} HunkTextsCount(hs: seq<HunkState>)
    ensures |HunkTexts(hs)| == LineCount(hs)
    decreases |hs|
  {
    if hs != [] {
      HunkTextsCount(hs[1..]);
    }
  }

  /** The number of lines of all hunks together. */
  function LineCount(hs: seq<HunkState>): nat
    decreases |hs|
  {
    if hs == [] then 0 else |hs[0].lines| + LineCount(hs[1..])
  }

  predicate AllRetain(ls: seq<Line>)
  {
    forall i :: 0 <= i < |ls| ==> ls[i].tag == Retain
  }

  /** RETAIN lines only move the cursor: the line map is left as it was. */
  lemma {:induction false} RetainOnlyKeepsMap(m: LineMap, c: int, ls: seq<Line>)
    requires AllRetain(ls)
    ensures ApplyLines(m, c, ls) == m
    decreases |ls|
  {
    if ls != [] {
      RetainOnlyKeepsMap(m, c + 1, ls[1..]);
    }
  }

  /** Nothing is dropped from a map none of whose lines contains the flag. */
  lemma {:induction false} DropNothing(m: LineMap)
    requires forall i :: 0 <= i < |m| ==> !Contains(m[i].1, RemoveFlag)
    ensures DropRemoved(m) == m
    decreases |m|
  {
    if m != [] {
      DropNothing(m[1..]);
    }
  }

  /**
   * Hunks of RETAIN lines only leave an existing file as it was, provided
   * no line of it contains the flag text.
   */
  lemma {:induction false} RetainOnlyUnchanged(content: string, hs: seq<HunkState>)
    requires forall i :: 0 <= i < |hs| ==> AllRetain(hs[i].lines)
    requires forall i :: 0 <= i < |Split(content, '\n')| ==> !Contains(Split(content, '\n')[i], RemoveFlag)
    ensures EditedText(content, hs) == content
  {
    var m := FileToLinesDict(content);
    RetainOnlyHunks(m, hs);
    DropNothing(m);
    LinesDictRoundTrip(content);
  }

  lemma {:induction false} RetainOnlyHunks(m: LineMap, hs: seq<HunkState>)
    requires forall i :: 0 <= i < |hs| ==> AllRetain(hs[i].lines)
    ensures ApplyHunks(m, hs) == m
    decreases |hs|
  {
    if hs != [] {
      RetainOnlyKeepsMap(m, hs[0].startPre, hs[0].lines);
      RetainOnlyHunks(m, hs[1..]);
    }
  }

  /** One line applied alone. */
  lemma ApplyOne(m: LineMap, c: int, l: Line)
    ensures ApplyLines(m, c, [l]) == ApplyLine(m, c, l).0
  {
    var (m', c') := ApplyLine(m, c, l);
    assert [l][1..] == [];
  }

  /** `-old` followed by `+new` at line `c` writes the new text over line `c`, in its place. */
  lemma ReplaceInPlace(m: LineMap, c: int, oldText: string, newText: string)
    requires HasKey(m, c)
    ensures ApplyLines(m, c, [Line(Remove, oldText), Line(Add, newText)]) == m[Find(m, c) := (c, newText)]
  {
    var i := Find(m, c);
    var m1 := m[i := (c, RemoveFlag)];
    assert ApplyLine(m, c, Line(Remove, oldText)) == (m1, c + 1);
    FindAfterUpdate(m, i, c, RemoveFlag);
    assert HasKey(m1, c) && Get(m1, c) == RemoveFlag;
    assert Put(m1, c, newText) == m1[i := (c, newText)];
    assert m1[i := (c, newText)] == m[i := (c, newText)];
    assert ApplyLine(m1, c + 1, Line(Add, newText)).0 == m[i := (c, newText)];
    ApplyOne(m1, c + 1, Line(Add, newText));
    assert [Line(Remove, oldText), Line(Add, newText)][1..] == [Line(Add, newText)];
  }

  /** The values after one entry's text is written over. */
  lemma ValuesUpdate(m: LineMap, i: nat, k: int, t: string)
    requires i < |m|
    ensures Values(m[i := (k, t)]) == Values(m)[i := t]
  {
  }

  /**
   * A hunk that removes line `c` of a file and adds a new text after it
   * gives the file with line `c` replaced by that text, when neither the
   * file's lines nor the new text contain the flag.
   */
  lemma ReplaceLine(content: string, c: int, oldText: string, newText: string)
    requires 1 <= c <= |Split(content, '\n')|
    requires forall i :: 0 <= i < |Split(content, '\n')| ==> !Contains(Split(content, '\n')[i], RemoveFlag)
    requires !Contains(newText, RemoveFlag)
    ensures var h := HunkState(c, 1, c, 1, [Line(Remove, oldText), Line(Add, newText)], false);
      EditedText(content, [h]) == Join(Split(content, '\n')[c - 1 := newText], "\n")
  {
    var m := FileToLinesDict(content);
    LinesDictKeys(content);
    ContiguousFind(m, c);
    ReplaceInPlace(m, c, oldText, newText);
    var m' := m[c - 1 := (c, newText)];
    var h := HunkState(c, 1, c, 1, [Line(Remove, oldText), Line(Add, newText)], false);
    assert ApplyHunks(m, [h]) == m';
    DropNothing(m');
    ValuesUpdate(m, c - 1, c, newText);
    assert Values(m) == Split(content, '\n');
  }

  /**
   * An ADD line at the very top of a file (cursor 1) writes key 0, which is
   * not in the line map, so it goes to the end of the dict: the new text is
   * joined after the last line, not before the first.
   */
  lemma AddAtTopGoesLast(content: string, text: string)
    requires forall i :: 0 <= i < |Split(content, '\n')| ==> !Contains(Split(content, '\n')[i], RemoveFlag)
    requires !Contains(text, RemoveFlag)
    ensures EditedText(content, [HunkState(1, 0, 1, 1, [Line(Add, text)], true)]) == content + "\n" + text
  {
    var m := FileToLinesDict(content);
    LinesDictKeys(content);
    AddAtTopMap(m, text);
    var m' := m + [(0, text)];
    forall i | 0 <= i < |m'|
      ensures !Contains(m'[i].1, RemoveFlag)
    {
      if i < |m| {
        assert m'[i].1 == Split(content, '\n')[i];
      }
    }
    DropNothing(m');
    assert Values(m') == Values(m) + [text];
    assert Values(m) == Split(content, '\n');
    JoinAppend(Values(m), text, "\n");
    LinesDictRoundTrip(content);
  }

  /** On a line map numbered from 1, an ADD at cursor 1 appends key 0 at the end. */
  lemma AddAtTopMap(m: LineMap, text: string)
    requires Contiguous(m) && m != [] && Lo(m) == 1
    ensures ApplyHunks(m, [HunkState(1, 0, 1, 1, [Line(Add, text)], true)]) == m + [(0, text)]
  {
    ContiguousFind(m, 0);
    assert ApplyLine(m, 1, Line(Add, text)).0 == m + [(0, text)];
    ApplyOne(m, 1, Line(Add, text));
  }
}
