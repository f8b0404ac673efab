/**
 * `apply_diffs` of espada/core/chat_to_files.py over `Diff` and `Hunk`
 * objects and a `FilesDict`: the loops that move a cursor over the line map
 * of each edited file, proved to compute what `ApplySpec.ApplyAll` states.
 */
module ApplyDiffs {
  import opened PyStr
  import opened Wrappers
  import opened LineMaps
  import opened HunkSpec
  import opened DiffSpec
  import opened Hunks
  import opened Diffs
  import opened FilesDicts
  import opened ApplySpec
  import opened ChatToFiles

  /** The inner loop over `hunk.lines`, with `current_line` starting at the hunk's pre-edit start. */
  method ApplyHunk(m: LineMap, hunk: Hunk) returns (m': LineMap)
    ensures m' == ApplyLines(m, hunk.startPre, hunk.lines)
  {
    var current := hunk.startPre;
    var ls := hunk.lines;
    m' := m;
    for k := 0 to |ls|
      invariant ApplyLines(m', current, ls[k..]) == ApplyLines(m, hunk.startPre, ls)
    {
      assert ls[k..][0] == ls[k] && ls[k..][1..] == ls[k + 1..];
      var line := ls[k];
      if line.tag == Retain {
        current := current + 1;
      } else if line.tag == Add {
        current := current - 1;
        if HasKey(m', current) && Get(m', current) != RemoveFlag {
          m' := Put(m', current, Get(m', current) + "\n" + line.text);
        } else {
          m' := Put(m', current, line.text);
        }
        current := current + 1;
      } else {
        m' := Put(m', current, RemoveFlag);
        current := current + 1;
      }
    }
    assert ls[|ls|..] == [];
  }

  /** The `else` branch for one diff: the pre-edit file's lines edited hunk by hunk, flagged lines dropped, the rest joined. */
  method EditLines(content: string, d: Diff) returns (text: string)
    ensures text == EditedText(content, d.State().hunks)
  {
    var lineDict := FileToLinesDict(content);
    ghost var hs := Views(d.hunks);
    ghost var m0 := lineDict;
    for k := 0 to |d.hunks|
      invariant ApplyHunks(lineDict, hs[k..]) == ApplyHunks(m0, hs)
    {
      ViewAt(d.hunks, k);
      assert hs[k..][0] == hs[k] && hs[k..][1..] == hs[k + 1..];
      lineDict := ApplyHunk(lineDict, d.hunks[k]);
    }
    assert hs[|d.hunks|..] == [];
    lineDict := DropRemoved(lineDict);
    text := Join(Values(lineDict), "\n");
  }

  /**
   * The body of the loop of `apply_diffs` for one diff, up to the
   * assignment: the text to store under the post-edit name, or `ok` false
   * where `files[diff.filename_pre]` raises `KeyError`.
   */
  method DiffResult(diff: Diff, entries: Files, ghost v: DiffState) returns (ok: bool, text: string)
    requires diff.State() == v
    ensures ok <==> ApplyDiff(entries, v).Some?
    ensures ok ==> ApplyDiff(entries, v).value == Put(entries, v.post, text)
  {
    var isNew := diff.IsNewFile();
    if isNew {
      return true, Join(HunkTexts(diff.State().hunks), "\n");
    }
    if diff.filenamePre.None? || !HasKey(entries, diff.filenamePre.value) {
      return false, "";
    }
    ok := true;
    text := EditLines(Get(entries, diff.filenamePre.value), diff);
  }

  /** One turn of the loop of `apply_diffs`: the diff at position `k` applied to `out`. */
  method ApplyAt(diffs: seq<(string, Diff)>, k: nat, out: FilesDict, ghost vs: seq<(string, DiffState)>) returns (ok: bool)
    requires k < |diffs| && Mirrors(diffs, vs)
    modifies out
    ensures Mirrors(diffs, vs)
    ensures ok <==> ApplyDiff(old(out.entries), vs[k].1).Some?
    ensures ok ==> out.entries == ApplyDiff(old(out.entries), vs[k].1).value
  {
    assert Holds(diffs[k], vs[k]);
    var diff := diffs[k].1;
    var text;
    ok, text := DiffResult(diff, out.entries, vs[k].1);
    if ok {
      var _ := out.SetItem(Str(diff.filenamePost), Str(text));
    }
  }

  /**
   * `apply_diffs`: the diffs, in dict order, applied to a new `FilesDict`
   * holding a copy of the files; the given one is not changed. `ok` is false
   * where Python raises `KeyError`.
   */
  method Apply(diffs: seq<(string, Diff)>, files: FilesDict, ghost vs: seq<(string, DiffState)>)
    returns (ok: bool, out: FilesDict)
    requires Mirrors(diffs, vs)
    ensures ok <==> ApplyAll(files.entries, vs).Some?
    ensures ok ==> out.entries == ApplyAll(files.entries, vs).value
  {
    out := new FilesDict(files.entries);
    ghost var f0 := files.entries;
    for k := 0 to |diffs|
      invariant fresh(out) && files.entries == f0 && Mirrors(diffs, vs)
      invariant ApplyAll(out.entries, vs[k..]) == ApplyAll(f0, vs)
    {
      assert vs[k..][0] == vs[k] && vs[k..][1..] == vs[k + 1..];
      var found := ApplyAt(diffs, k, out, vs);
      if !found {
        return false, out;
      }
    }
    assert vs[|diffs|..] == [];
    ok := true;
  }
}
