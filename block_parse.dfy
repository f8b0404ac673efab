/**
 * `parse_diff_block` and the first-wins merge of `parse_diffs` in
 * espada/core/chat_to_files.py. A block is read line by line by a small state
 * machine over the pre-edit name, the post-edit name, the last hunk header and
 * the lines of the pending hunk; each `+++ ` line opens a new `Diff`, keyed by
 * its post-edit name, and a pending hunk is attached to the current `Diff`
 * when the next header, the next `+++ ` line or the end of the block arrives.
 *
 * `Parser` and `Feed` are the value-level reading of that loop; the method
 * `ParseDiffBlock` runs it over `Diff` and `Hunk` objects and is proved to
 * build objects whose values are those of `ParseBlock`.
 */
module BlockParse {
  import opened PyStr
  import opened Wrappers
  import opened LineMaps
  import opened HunkSpec
  import opened DiffSpec
  import opened HeaderParse

  type Header = (int, int, int, int)

  /** `diff_block.strip().split("\n")[1:-1]`: the block's lines without the opening and closing fence. */
  function BlockLines(block: string): seq<string>
  {
    var all := Split(Strip(block), '\n');
    if |all| >= 2 then all[1..|all| - 1] else []
  }

  /** A body line: `+` is an added line, `-` a removed one, anything else retained; the first character is dropped. */
  function Classify(line: string): Line
  {
    var text := if line == [] then [] else line[1..];
    if StartsWith(line, "+") then Line(Add, text)
    else if StartsWith(line, "-") then Line(Remove, text)
    else Line(Retain, text)
  }

  /**
   * The loop's variables: `filename_pre`, `filename_post`, `hunk_header`,
   * `hunk_lines` and the `diffs` dict. `current_diff` is always the entry of
   * `diffs` under `filename_post`, so it is not kept separately.
   */
  datatype Parser = Parser(pre: Option<string>, post: Option<string>, header: Option<Header>,
                           pending: seq<Line>, diffs: seq<(string, DiffState)>)

  /** Once a `+++ ` line has been read, its `Diff` is in the dict. */
  predicate Tracks(p: Parser)
  {
    p.post.Some? ==> HasKey(p.diffs, p.post.value)
  }

  const Start := Parser(None, None, None, [], [])

  /** `current_diff.hunks.append(Hunk(*hunk_header, hunk_lines))` followed by `hunk_lines = []`. */
  function Attach(p: Parser): (r: Parser)
    requires Tracks(p) && p.post.Some? && p.header.Some?
    ensures Tracks(r)
  {
    var name := p.post.value;
    var d := Get(p.diffs, name);
    var h := p.header.value;
    p.(diffs := Put(p.diffs, name, d.(hunks := d.hunks + [NewHunk(h.0, h.1, h.2, h.3, p.pending)])), pending := [])
  }

  /** One turn of the loop of `parse_diff_block`. */
  function Feed(p: Parser, line: string): (r: Parser)
    requires Tracks(p)
    ensures Tracks(r)
  {
    if StartsWith(line, "--- ") then p.(pre := Some(line[4..]))
    else if StartsWith(line, "+++ ") then
      var q := if p.post.Some? && p.header.Some? then Attach(p) else p;
      var name := line[4..];
      q.(post := Some(name), diffs := Put(q.diffs, name, DiffState(q.pre, name, [])))
    else if StartsWith(line, "@@ ") then
      var q := if p.pending != [] && p.post.Some? && p.header.Some? then Attach(p) else p;
      q.(header := Some(ParseHunkHeader(line)))
    else p.(pending := p.pending + [Classify(line)])
  }

  /** The loop over `lines`, from state `p`. */
  function FeedAll(p: Parser, lines: seq<string>): (r: Parser)
    requires Tracks(p)
    ensures Tracks(r)
    decreases |lines|, 1
  {
    if lines == [] then p else FeedOn(p, lines)
  }

  /** One turn followed by the rest of the loop (kept apart from `FeedAll` so that each unfolding takes one turn). */
  function FeedOn(p: Parser, lines: seq<string>): (r: Parser)
    requires Tracks(p) && lines != []
    ensures Tracks(r)
    decreases |lines|, 0
  {
    FeedAll(Feed(p, lines[0]), lines[1..])
  }

  /** After the loop: the last hunk is attached when there is a `Diff`, a header and some lines. */
  function Finish(p: Parser): seq<(string, DiffState)>
    requires Tracks(p)
  {
    if p.post.Some? && p.pending != [] && p.header.Some? then Attach(p).diffs else p.diffs
  }

  /** `parse_diff_block`. */
  function ParseBlock(block: string): seq<(string, DiffState)>
  {
    Finish(FeedAll(Start, BlockLines(block)))
  }

  lemma {:induction false} FeedAllAppend(p: Parser, a: seq<string>, b: seq<string>)
    requires Tracks(p)
    ensures FeedAll(p, a + b) == FeedAll(FeedAll(p, a), b)
    decreases |a|
  {
    if a != [] {
      assert (a + b)[0] == a[0] && (a + b)[1..] == a[1..] + b;
      assert FeedAll(p, a + b) == FeedOn(p, a + b);
      FeedAllAppend(Feed(p, a[0]), a[1..], b);
    } else {
      assert a + b == b;
    }
  }

  /** The loop from line `i` on is one turn on line `i`, then the loop from line `i + 1` on. */
  lemma FeedStep(p: Parser, lines: seq<string>, i: nat)
    requires Tracks(p) && i < |lines|
    ensures FeedAll(p, lines[i..]) == FeedAll(Feed(p, lines[i]), lines[i + 1..])
  {
    assert lines[i..][0] == lines[i] && lines[i..][1..] == lines[i + 1..];
    assert FeedAll(p, lines[i..]) == FeedOn(p, lines[i..]);
  }

  lemma FeedOne(p: Parser, line: string)
    requires Tracks(p)
    ensures FeedAll(p, [line]) == Feed(p, line)
  {
    assert FeedAll(p, [line]) == FeedOn(p, [line]);
    assert [line][1..] == [];
  }

  /** A `--- ` line only records the pre-edit name. */
  lemma FeedPreLine(p: Parser, name: string)
    requires Tracks(p)
    ensures Feed(p, "--- " + name) == p.(pre := Some(name))
  {
    var l := "--- " + name;
    assert l[..4] == "--- " && l[4..] == name;
  }

  /** A `+++ ` line before any other opens the first `Diff`. */
  lemma FeedPostLine(p: Parser, name: string)
    requires Tracks(p) && p.post.None?
    ensures Feed(p, "+++ " + name) == p.(post := Some(name), diffs := Put(p.diffs, name, DiffState(p.pre, name, [])))
  {
    var l := "+++ " + name;
    assert l[..4] == "+++ " && l[4..] == name;
    assert !StartsWith(l, "--- ") by { assert l[0] == '+'; }
  }

  // ----- reading back what `diff_to_string` writes -----

  /** A hunk line as `hunk_to_string` writes it, without its newline. */
  function LineText(l: Line): string
  {
    Prefix(l.tag) + l.text
  }

  function BodyLines(ls: seq<Line>): (r: seq<string>)
    ensures |r| == |ls| && forall k :: 0 <= k < |ls| ==> r[k] == LineText(ls[k])
  {
    seq(|ls|, k requires 0 <= k < |ls| => LineText(ls[k]))
  }

  /** The lines `hunk_to_string` writes for one hunk, without their newlines. */
  function HunkLines(h: HunkState): seq<string>
  {
    [HeaderLine(Written(h), "")] + BodyLines(h.lines)
  }

  function HunksLines(hs: seq<HunkState>): seq<string>
    decreases |hs|
  {
    if hs == [] then [] else HunkLines(hs[0]) + HunksLines(hs[1..])
  }

  /** The lines `diff_to_string` writes, without their newlines. */
  function DiffLines(d: DiffState): seq<string>
  {
    ["--- " + NameText(d.pre), "+++ " + d.post] + HunksLines(d.hunks)
  }

  /** A line that the classifier reads back as itself: an added line must not look like `+++ `, a removed one like `--- `. */
  predicate Readable(l: Line)
  {
    (l.tag == Add ==> !StartsWith(l.text, "++ ")) && (l.tag == Remove ==> !StartsWith(l.text, "-- "))
  }

  /**
   * A hunk whose text reads back as itself: no negative number in its header,
   * at least one line, every line readable, and the new-file flag that
   * `Hunk.__init__` would compute from its lines.
   */
  predicate HunkReadable(h: HunkState)
  {
    h.startPre >= 0 && h.lenPre >= 0 && h.startPost >= 0 && h.lenPost >= 0
    && h.lines != [] && (forall k :: 0 <= k < |h.lines| ==> Readable(h.lines[k]))
    && h == NewHunk(h.startPre, h.lenPre, h.startPost, h.lenPost, h.lines)
  }

  lemma ClassifyReads(l: Line)
    requires Readable(l)
    ensures var t := LineText(l);
            !StartsWith(t, "--- ") && !StartsWith(t, "+++ ") && !StartsWith(t, "@@ ") && Classify(t) == l
  {
    var t := LineText(l);
    assert t[0] == Prefix(l.tag)[0] && t[1..] == l.text;
    assert |t| >= 4 ==> t[1..4] == l.text[..3];
  }

  /** Body lines only add to the pending hunk. */
  lemma {:induction false} FeedBody(p: Parser, ls: seq<Line>)
    requires Tracks(p) && forall k :: 0 <= k < |ls| ==> Readable(ls[k])
    ensures FeedAll(p, BodyLines(ls)) == p.(pending := p.pending + ls)
    decreases |ls|
  {
    if ls == [] {
      assert p.pending + ls == p.pending;
    } else {
      ClassifyReads(ls[0]);
      var q := Feed(p, LineText(ls[0]));
      assert q == p.(pending := p.pending + [ls[0]]);
      assert BodyLines(ls)[1..] == BodyLines(ls[1..]);
      FeedBody(q, ls[1..]);
      assert p.pending + [ls[0]] + ls[1..] == p.pending + ls;
    }
  }

  /** The loop's state inside one `Diff` named `name`: `done` attached, `last` pending under its header. */
  function Inside(pre: string, name: string, done: seq<HunkState>, last: Option<HunkState>): Parser
  {
    Parser(Some(pre), Some(name),
           if last.Some? then Some((last.value.startPre, last.value.lenPre, last.value.startPost, last.value.lenPost)) else None,
           if last.Some? then last.value.lines else [],
           [(name, DiffState(Some(pre), name, done))])
  }

  function Held(last: Option<HunkState>): seq<HunkState>
  {
    if last.Some? then [last.value] else []
  }

  lemma AttachInside(pre: string, name: string, done: seq<HunkState>, last: HunkState)
    requires HunkReadable(last)
    ensures Tracks(Inside(pre, name, done, Some(last)))
    ensures Attach(Inside(pre, name, done, Some(last)))
            == Inside(pre, name, done + [last], None).(header := Inside(pre, name, done, Some(last)).header)
  {
    var p := Inside(pre, name, done, Some(last));
    assert Find(p.diffs, name) == 0;
  }

  lemma FinishInside(pre: string, name: string, done: seq<HunkState>, last: Option<HunkState>)
    requires last.Some? ==> HunkReadable(last.value)
    ensures Tracks(Inside(pre, name, done, last))
    ensures Finish(Inside(pre, name, done, last)) == [(name, DiffState(Some(pre), name, done + Held(last)))]
  {
    var p := Inside(pre, name, done, last);
    assert Find(p.diffs, name) == 0;
    if last.Some? {
      AttachInside(pre, name, done, last.value);
    } else {
      assert done + Held(last) == done;
    }
  }

  /** A hunk's header line attaches the pending hunk and records the new header. */
  lemma FeedHeader(pre: string, name: string, done: seq<HunkState>, last: Option<HunkState>, h: HunkState)
    requires last.Some? ==> HunkReadable(last.value)
    requires HunkReadable(h)
    ensures Tracks(Inside(pre, name, done, last))
    ensures Feed(Inside(pre, name, done, last), HeaderLine(Written(h), ""))
            == Inside(pre, name, done + Held(last), None).(header := Some((h.startPre, h.lenPre, h.startPost, h.lenPost)))
  {
    var p := Inside(pre, name, done, last);
    assert Find(p.diffs, name) == 0;
    HeaderLineReads(h);
    var l := HeaderLine(Written(h), "");
    assert StartsWith(l, "@@ ") && !StartsWith(l, "--- ") && !StartsWith(l, "+++ ") by {
      assert l[..3] == "@@ " && |l| >= 4 && l[0] == '@';
    }
    if last.Some? {
      AttachInside(pre, name, done, last.value);
    } else {
      assert done + Held(last) == done;
    }
  }

  /** The lines of one readable hunk move the loop from one hunk pending to the next. */
  lemma FeedHunk(pre: string, name: string, done: seq<HunkState>, last: Option<HunkState>, h: HunkState)
    requires last.Some? ==> HunkReadable(last.value)
    requires HunkReadable(h)
    ensures Tracks(Inside(pre, name, done, last))
    ensures FeedAll(Inside(pre, name, done, last), HunkLines(h)) == Inside(pre, name, done + Held(last), Some(h))
  {
    var p := Inside(pre, name, done, last);
    FeedHeader(pre, name, done, last, h);
    var q := Feed(p, HeaderLine(Written(h), ""));
    FeedOne(p, HeaderLine(Written(h), ""));
    FeedBody(q, h.lines);
    FeedAllAppend(p, [HeaderLine(Written(h), "")], BodyLines(h.lines));
  }

  /** Feeding the lines of readable hunks attaches each hunk, as it was written, to the `Diff`. */
  lemma {:induction false} FeedHunks(pre: string, name: string, done: seq<HunkState>, last: Option<HunkState>, hs: seq<HunkState>)
    requires last.Some? ==> HunkReadable(last.value)
    requires forall j :: 0 <= j < |hs| ==> HunkReadable(hs[j])
    ensures Tracks(Inside(pre, name, done, last))
    ensures Finish(FeedAll(Inside(pre, name, done, last), HunksLines(hs))) == [(name, DiffState(Some(pre), name, done + Held(last) + hs))]
    decreases |hs|
  {
    var p := Inside(pre, name, done, last);
    if hs == [] {
      FeedHunksNone(pre, name, done, last, hs);
    } else {
      FeedHunksStep(pre, name, done, last, hs);
      FeedHunks(pre, name, done + Held(last), Some(hs[0]), hs[1..]);
      HeldFirst(done + Held(last), hs);
    }
  }

  /** With no hunk left to read, the pending hunk is attached at the end. */
  lemma FeedHunksNone(pre: string, name: string, done: seq<HunkState>, last: Option<HunkState>, hs: seq<HunkState>)
    requires last.Some? ==> HunkReadable(last.value)
    requires hs == []
    ensures Tracks(Inside(pre, name, done, last))
    ensures Finish(FeedAll(Inside(pre, name, done, last), HunksLines(hs))) == [(name, DiffState(Some(pre), name, done + Held(last) + hs))]
  {
    FinishInside(pre, name, done, last);
    assert done + Held(last) + hs == done + Held(last);
  }

  /** Putting the first item back in front of the others. */
  lemma HeldFirst<T>(done: seq<T>, xs: seq<T>)
    requires |xs| >= 1
    ensures done + [xs[0]] + xs[1..] == done + xs
  {
    assert [xs[0]] + xs[1..] == xs;
  }

  /** The lines of the first hunk take the loop to that hunk pending, with the lines of the others still to read. */
  lemma FeedHunksStep(pre: string, name: string, done: seq<HunkState>, last: Option<HunkState>, hs: seq<HunkState>)
    requires last.Some? ==> HunkReadable(last.value)
    requires |hs| >= 1 && HunkReadable(hs[0])
    ensures Tracks(Inside(pre, name, done, last)) && Tracks(Inside(pre, name, done + Held(last), Some(hs[0])))
    ensures FeedAll(Inside(pre, name, done, last), HunksLines(hs))
      == FeedAll(Inside(pre, name, done + Held(last), Some(hs[0])), HunksLines(hs[1..]))
  {
    var p := Inside(pre, name, done, last);
    var h := hs[0];
    FeedHunk(pre, name, done, last, h);
    assert HunksLines(hs) == HunkLines(h) + HunksLines(hs[1..]);
    FeedAllAppend(p, HunkLines(h), HunksLines(hs[1..]));
  }

  /**
   * Reading back the lines of a diff with a pre-edit name and readable hunks
   * gives that diff, keyed by its post-edit name.
   */
  lemma ParseLinesRoundTrip(d: DiffState)
    requires d.pre.Some? && forall j :: 0 <= j < |d.hunks| ==> HunkReadable(d.hunks[j])
    ensures Finish(FeedAll(Start, DiffLines(d))) == [(d.post, d)]
  {
    var pre := d.pre.value;
    var l1, l2 := "--- " + pre, "+++ " + d.post;
    assert DiffLines(d) == [l1, l2] + HunksLines(d.hunks);
    FeedAllAppend(Start, [l1, l2], HunksLines(d.hunks));
    FeedPreLine(Start, pre);
    var p1 := Start.(pre := Some(pre));
    FeedPostLine(p1, d.post);
    assert Feed(p1, l2) == Inside(pre, d.post, [], None);
    assert FeedAll(Start, [l1, l2]) == Inside(pre, d.post, [], None) by {
      FeedAllAppend(Start, [l1], [l2]);
      assert [l1] + [l2] == [l1, l2];
      FeedOne(Start, l1);
      FeedOne(p1, l2);
    }
    FeedHunks(pre, d.post, [], None, d.hunks);
    assert [] + Held(None) + d.hunks == d.hunks;
  }

  /** Each line followed by a newline, as `hunk_to_string` and `diff_to_string` lay them out. */
  function Terminated(ls: seq<string>): string
    decreases |ls|
  {
    if ls == [] then "" else ls[0] + "\n" + Terminated(ls[1..])
  }

  lemma {:induction false} TerminatedJoin(ls: seq<string>)
    requires |ls| >= 1
    ensures Terminated(ls) == Join(ls, "\n") + "\n"
    decreases |ls|
  {
    if |ls| > 1 {
      TerminatedJoin(ls[1..]);
    }
  }

  lemma {:induction false} TerminatedAppend(a: seq<string>, b: seq<string>)
    ensures Terminated(a + b) == Terminated(a) + Terminated(b)
    decreases |a|
  {
    if a == [] {
      assert a + b == b;
    } else {
      assert (a + b)[1..] == a[1..] + b;
      TerminatedAppend(a[1..], b);
    }
  }

  lemma {:induction false} RenderLinesTerminated(ls: seq<Line>)
    ensures RenderLines(ls) == Terminated(BodyLines(ls))
    decreases |ls|
  {
    if ls != [] {
      assert BodyLines(ls)[1..] == BodyLines(ls[1..]);
      RenderLinesTerminated(ls[1..]);
    }
  }

  lemma HunkTextTerminated(h: HunkState)
    ensures HunkText(h) == Terminated(HunkLines(h))
  {
    HeaderTextFields(h);
    HeaderLineNewline(Written(h));
    RenderLinesTerminated(h.lines);
    TerminatedAppend([HeaderLine(Written(h), "")], BodyLines(h.lines));
  }

  lemma {:induction false} HunksTextTerminated(hs: seq<HunkState>)
    ensures HunksText(hs) == Terminated(HunksLines(hs))
    decreases |hs|
  {
    if hs != [] {
      HunkTextTerminated(hs[0]);
      HunksTextTerminated(hs[1..]);
      TerminatedAppend(HunkLines(hs[0]), HunksLines(hs[1..]));
    }
  }

  /** The text `diff_to_string` strips is its lines, each followed by a newline. */
  lemma DiffTextTerminated(d: DiffState)
    ensures DiffHeader(d) + HunksText(d.hunks) == Terminated(DiffLines(d))
  {
    var l1, l2 := "--- " + NameText(d.pre), "+++ " + d.post;
    HunksTextTerminated(d.hunks);
    TerminatedAppend([l1, l2], HunksLines(d.hunks));
    assert [l1, l2][1..] == [l2];
    TerminatedTwo(l1, l2, "\n");
    assert "\n+++ " == "\n" + "+++ ";
    Regroup("--- ", NameText(d.pre), "\n", "+++ ", d.post);
  }

  /** Two lines, each followed by `nl`. */
  lemma TerminatedTwo(l1: string, l2: string, nl: string)
    requires nl == "\n"
    ensures Terminated([l1, l2]) == l1 + nl + (l2 + nl)
  {
    assert [l1, l2][1..] == [l2];
    assert [l2][1..] == [];
    assert Terminated([l2]) == l2 + nl + Terminated([]);
    assert Terminated([l1, l2]) == l1 + nl + Terminated([l2]);
  }

  /** Moving the parentheses of a header of two lines. */
  lemma Regroup(a: string, x: string, nl: string, b: string, y: string)
    ensures a + x + (nl + b) + y + nl == (a + x) + nl + ((b + y) + nl)
  {
  }

  /** A line of a written diff: no newline in any name or line text. */
  predicate SingleLine(s: string)
  {
    '\n' !in s
  }

  /**
   * A diff whose text `parse_diff_block` reads back: a pre-edit name, readable
   * hunks, no newline inside a name or a line, and a last character that
   * `strip()` keeps.
   */
  predicate Writable(d: DiffState)
  {
    d.pre.Some? && SingleLine(d.pre.value) && SingleLine(d.post)
    && (forall j :: 0 <= j < |d.hunks| ==> HunkReadable(d.hunks[j]))
    && (forall j, k :: 0 <= j < |d.hunks| && 0 <= k < |d.hunks[j].lines| ==> SingleLine(d.hunks[j].lines[k].text))
    && var last := DiffLines(d)[|DiffLines(d)| - 1]; last != [] && !IsSpace(last[|last| - 1])
  }

  lemma HeaderLineSingle(h: HunkState)
    requires h.startPre >= 0 && h.lenPre >= 0 && h.startPost >= 0 && h.lenPost >= 0
    ensures SingleLine(HeaderLine(Written(h), ""))
  {
    var w := Written(h);
    assert AllDigits(w.a) && AllDigits(w.b) && AllDigits(w.c) && AllDigits(w.d);
    assert SingleLine(FromD(w, "")) && SingleLine(FromC(w, "")) && SingleLine(FromB(w, "")) && SingleLine(FromA(w, ""));
  }

  lemma {:induction false} HunksLinesSingle(hs: seq<HunkState>)
    requires forall j :: 0 <= j < |hs| ==> HunkReadable(hs[j])
    requires forall j, k :: 0 <= j < |hs| && 0 <= k < |hs[j].lines| ==> SingleLine(hs[j].lines[k].text)
    ensures forall i :: 0 <= i < |HunksLines(hs)| ==> SingleLine(HunksLines(hs)[i])
    decreases |hs|
  {
    if hs != [] {
      var h := hs[0];
      HeaderLineSingle(h);
      assert forall k :: 0 <= k < |h.lines| ==> SingleLine(BodyLines(h.lines)[k]) by {
        forall k | 0 <= k < |h.lines|
          ensures SingleLine(BodyLines(h.lines)[k])
        {
          assert SingleLine(h.lines[k].text);
        }
      }
      HunksLinesSingle(hs[1..]);
      assert HunksLines(hs) == [HeaderLine(Written(h), "")] + BodyLines(h.lines) + HunksLines(hs[1..]);
    }
  }

  /** A fenced text splits back into the fences and the lines. */
  lemma FencedSplit(fence: string, ls: seq<string>)
    requires SingleLine(fence) && |ls| >= 1 && forall i :: 0 <= i < |ls| ==> SingleLine(ls[i])
    ensures Split(fence + "\n" + Join(ls, "\n") + "\n" + fence, '\n') == [fence] + ls + [fence]
  {
    var parts := [fence] + ls + [fence];
    var j := Join(ls, "\n");
    assert parts[1..] == ls + [fence];
    JoinAppend(ls, fence, "\n");
    assert Join(parts, "\n") == fence + "\n" + (j + "\n" + fence);
    assert fence + "\n" + (j + "\n" + fence) == fence + "\n" + j + "\n" + fence;
    assert forall i :: 0 <= i < |parts| ==> '\n' !in parts[i] by {
      forall i | 0 <= i < |parts|
        ensures '\n' !in parts[i]
      {
        if 0 < i < |parts| - 1 {
          assert parts[i] == ls[i - 1];
        }
      }
    }
    SplitJoin(parts, '\n');
  }

  /** `diff_to_string` of a diff whose last line ends in a character `strip()` keeps is its lines joined by newlines. */
  lemma DiffTextJoin(d: DiffState)
    requires var last := DiffLines(d)[|DiffLines(d)| - 1]; last != [] && !IsSpace(last[|last| - 1])
    ensures DiffText(d) == Join(DiffLines(d), "\n")
  {
    var ls := DiffLines(d);
    var j := Join(ls, "\n");
    DiffTextTerminated(d);
    TerminatedJoin(ls);
    DiffLinesFirst(d);
    JoinEnds(ls, "\n");
    StripNewline(j);
    assert DiffText(d) == Strip(j + "\n");
  }

  /** The first line of a diff starts with `-`. */
  lemma DiffLinesFirst(d: DiffState)
    ensures DiffLines(d)[0] != [] && DiffLines(d)[0][0] == '-'
  {
    var l1 := "--- " + NameText(d.pre);
    assert DiffLines(d)[0] == l1;
    assert l1[0] == '-';
  }

  /** A block made of a fence line, the lines and a fence line gives back the lines. */
  lemma FencedBlock(fence: string, ls: seq<string>)
    requires fence != [] && !IsSpace(fence[0]) && !IsSpace(fence[|fence| - 1]) && SingleLine(fence)
    requires |ls| >= 1 && forall i :: 0 <= i < |ls| ==> SingleLine(ls[i])
    ensures BlockLines(fence + "\n" + Join(ls, "\n") + "\n" + fence) == ls
  {
    var block := fence + "\n" + Join(ls, "\n") + "\n" + fence;
    assert Strip(block) == block by {
      assert block[0] == fence[0] && block[|block| - 1] == fence[|fence| - 1];
      StripNoSpaceEnds(block);
    }
    FencedSplit(fence, ls);
    BlockLinesBetween(block, fence, ls);
  }

  lemma BlockLinesBetween(block: string, fence: string, ls: seq<string>)
    requires Strip(block) == block && Split(block, '\n') == [fence] + ls + [fence]
    ensures BlockLines(block) == ls
  {
    var parts := [fence] + ls + [fence];
    assert parts[1..|parts| - 1] == ls;
  }

  /** The lines of a writable diff hold no newline. */
  lemma DiffLinesSingle(d: DiffState)
    requires Writable(d)
    ensures forall i :: 0 <= i < |DiffLines(d)| ==> SingleLine(DiffLines(d)[i])
  {
    var hl := HunksLines(d.hunks);
    HunksLinesSingle(d.hunks);
    var first := "--- " + d.pre.value;
    var second := "+++ " + d.post;
    assert '\n' !in "--- " && '\n' !in "+++ ";
    SingleLineConcat("--- ", d.pre.value);
    SingleLineConcat("+++ ", d.post);
    AllSingleAppend([first, second], hl);
    assert DiffLines(d) == [first, second] + hl;
  }

  lemma SingleLineConcat(a: string, b: string)
    requires SingleLine(a) && SingleLine(b)
    ensures SingleLine(a + b)
  {
  }

  lemma AllSingleAppend(a: seq<string>, b: seq<string>)
    requires forall i :: 0 <= i < |a| ==> SingleLine(a[i])
    requires forall i :: 0 <= i < |b| ==> SingleLine(b[i])
    ensures forall i :: 0 <= i < |a + b| ==> SingleLine((a + b)[i])
  {
    forall i | 0 <= i < |a + b|
      ensures SingleLine((a + b)[i])
    {
      if i >= |a| {
        assert (a + b)[i] == b[i - |a|];
      }
    }
  }

  /**
   * `parse_diff_block` reads back what `diff_to_string` writes, once fenced
   * (the blocks of a reply open and close with three backticks; any line
   * with no newline and no white space at either end does): the writable
   * diff comes back, keyed by its post-edit name.
   */
  lemma ParseBlockRoundTrip(fence: string, d: DiffState)
    requires fence != [] && !IsSpace(fence[0]) && !IsSpace(fence[|fence| - 1]) && SingleLine(fence)
    requires Writable(d)
    ensures ParseBlock(fence + "\n" + DiffText(d) + "\n" + fence) == [(d.post, d)]
  {
    DiffTextJoin(d);
    DiffLinesSingle(d);
    FencedBlock(fence, DiffLines(d));
    ParseLinesRoundTrip(d);
  }
}
