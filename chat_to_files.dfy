/**
 * The loops of espada/core/chat_to_files.py that build and fill `Diff`
 * objects: `parse_diff_block`, which creates one `Diff` per `+++ ` line and
 * appends `Hunk` objects to it. The method is proved to build, key by key and
 * in dict order, objects whose values are those `BlockParse.ParseBlock`
 * computes.
 */
module ChatToFiles {
  import opened PyStr
  import opened Wrappers
  import opened LineMaps
  import opened HunkSpec
  import opened DiffSpec
  import opened HeaderParse
  import opened BlockParse
  import opened Diffs
  import opened DiffMerge

  /** Two dicts with the same keys in the same order have every key at the same place. */
  lemma {:induction false} FindSameKeys<V, W>(a: seq<(string, V)>, b: seq<(string, W)>, k: string)
    requires |a| == |b| && forall j :: 0 <= j < |a| ==> a[j].0 == b[j].0
    ensures Find(a, k) == Find(b, k)
    decreases |a|
  {
    if a != [] && a[0].0 != k {
      FindSameKeys(a[1..], b[1..], k);
    }
  }

  /** Where `m[k] = v` writes: over the entry of an existing key, or at the end. */
  lemma PutPlace<V>(m: seq<(string, V)>, k: string, v: V)
    ensures Find(m, k) >= 0 ==> Put(m, k, v) == m[Find(m, k) := (k, v)]
    ensures Find(m, k) < 0 ==> Put(m, k, v) == m + [(k, v)]
  {
  }

  /** One entry of the dict of objects holds the name and the value of one entry of `vs`. */
  ghost predicate Holds(e: (string, Diff), v: (string, DiffState))
    reads e.1, e.1.Repr
  {
    e.0 == v.0 && e.1.Valid() && e.1.State() == v.1
  }

  /** The dict of objects holds, key by key and in order, the values of `vs`; no object is listed twice. */
  ghost predicate Mirrors(ds: seq<(string, Diff)>, vs: seq<(string, DiffState)>)
    reads set j | 0 <= j < |ds| :: ds[j].1
    reads set j, o | 0 <= j < |ds| && o in ds[j].1.Repr :: o
  {
    |ds| == |vs|
    && (forall j :: 0 <= j < |ds| ==> Holds(ds[j], vs[j]))
    && forall j, k :: 0 <= j < k < |ds| ==> ds[j].1 != ds[k].1
  }

  /**
   * `current_diff.hunks.append(Hunk(*hunk_header, hunk_lines))`, the step
   * `parse_diff_block` takes in three places: the object under the post-edit
   * name gets the pending hunk, as `Attach` says, and no other object changes.
   */
  method AttachTo(current: Diff, h: Header, pending: seq<Line>, diffs: seq<(string, Diff)>, ghost p: Parser)
    requires Tracks(p) && p.post.Some? && p.header == Some(h) && p.pending == pending
    requires Mirrors(diffs, p.diffs)
    requires Find(diffs, p.post.value) >= 0 && diffs[Find(diffs, p.post.value)].1 == current
    modifies current
    ensures Mirrors(diffs, Attach(p).diffs)
  {
    var name := p.post.value;
    var k := Find(diffs, name);
    AttachAt(diffs, p);
    ghost var v := Attach(p).diffs[k];
    assert forall j :: 0 <= j < |diffs| && j != k ==> diffs[j].1 != current;
    current.AddHunk(h.0, h.1, h.2, h.3, pending);
    assert Holds(diffs[k], v);
    MirrorsUpdate(diffs, p.diffs, k, diffs[k], v);
    assert diffs[k := diffs[k]] == diffs;
  }

  /** `Attach` rewrites one entry of the dict of values: the one at the place of the current object in the dict of objects. */
  lemma AttachAt(diffs: seq<(string, Diff)>, p: Parser)
    requires Tracks(p) && p.post.Some? && p.header.Some?
    requires |diffs| == |p.diffs| && forall j :: 0 <= j < |diffs| ==> diffs[j].0 == p.diffs[j].0
    ensures var k := Find(diffs, p.post.value);
      k == Find(p.diffs, p.post.value) && 0 <= k < |p.diffs|
      && Attach(p).diffs == p.diffs[k := Attach(p).diffs[k]]
      && Attach(p).diffs[k] == (p.post.value, p.diffs[k].1.(hunks := p.diffs[k].1.hunks
           + [NewHunk(p.header.value.0, p.header.value.1, p.header.value.2, p.header.value.3, p.pending)]))
  {
    var name := p.post.value;
    FindSameKeys(diffs, p.diffs, name);
    PutPlace(p.diffs, name, Attach(p).diffs[Find(p.diffs, name)].1);
  }

  /** `diffs[name] = Diff(...)` with a new object: the dict still mirrors the values, and the name leads to the new object. */
  lemma MirrorsPut(ds: seq<(string, Diff)>, vs: seq<(string, DiffState)>, k: string, nd: Diff, v: DiffState)
    requires Mirrors(ds, vs) && Holds((k, nd), (k, v))
    requires forall j :: 0 <= j < |ds| ==> ds[j].1 != nd
    ensures Mirrors(Put(ds, k, nd), Put(vs, k, v))
    ensures Find(Put(ds, k, nd), k) >= 0 && Put(ds, k, nd)[Find(Put(ds, k, nd), k)].1 == nd
    ensures forall j :: 0 <= j < |Put(ds, k, nd)| ==> Put(ds, k, nd)[j].1 == nd || (j < |ds| && Put(ds, k, nd)[j] == ds[j])
  {
    FindSameKeys(ds, vs, k);
    PutPlace(ds, k, nd);
    PutPlace(vs, k, v);
    var i := Find(ds, k);
    if i >= 0 {
      MirrorsUpdate(ds, vs, i, (k, nd), (k, v));
    } else {
      MirrorsAppend(ds, vs, (k, nd), (k, v));
    }
  }

  lemma MirrorsUpdate(ds: seq<(string, Diff)>, vs: seq<(string, DiffState)>, i: nat, e: (string, Diff), v: (string, DiffState))
    requires |ds| == |vs| && i < |ds| && Holds(e, v)
    requires forall j :: 0 <= j < |ds| && j != i ==> Holds(ds[j], vs[j]) && ds[j].1 != e.1
    requires forall j, k :: 0 <= j < k < |ds| && j != i && k != i ==> ds[j].1 != ds[k].1
    ensures Mirrors(ds[i := e], vs[i := v])
  {
    assert forall j :: 0 <= j < |ds| ==> ds[i := e][j] == if j == i then e else ds[j];
  }

  lemma MirrorsAppend(ds: seq<(string, Diff)>, vs: seq<(string, DiffState)>, e: (string, Diff), v: (string, DiffState))
    requires Mirrors(ds, vs) && Holds(e, v)
    requires forall j :: 0 <= j < |ds| ==> ds[j].1 != e.1
    ensures Mirrors(ds + [e], vs + [v])
  {
    assert forall j :: 0 <= j < |ds| ==> (ds + [e])[j] == ds[j] && (vs + [v])[j] == vs[j];
  }

  /** `current_diff` is the object under `filename_post`, and there is one exactly when a `+++ ` line has been read. */
  predicate Current(diffs: seq<(string, Diff)>, current: Diff?, post: Option<string>)
  {
    (current != null <==> post.Some?)
    && (current != null ==> Find(diffs, post.value) >= 0 && diffs[Find(diffs, post.value)].1 == current)
  }

  /**
   * One turn of the loop of `parse_diff_block` on the line `line`: it does to
   * the variables and the objects what `Feed` does to the parser's value. The
   * dict only changes at the entry of the (possibly new) current object.
   */
  method Turn(line: string, diffs: seq<(string, Diff)>, current: Diff?, pre: Option<string>, post: Option<string>,
              header: Option<Header>, pending: seq<Line>, ghost p: Parser)
    returns (diffs': seq<(string, Diff)>, current': Diff?, pre': Option<string>, post': Option<string>,
             header': Option<Header>, pending': seq<Line>, ghost p': Parser)
    requires Tracks(p) && p == Parser(pre, post, header, pending, p.diffs)
    requires Mirrors(diffs, p.diffs) && Current(diffs, current, post)
    modifies current
    ensures Tracks(p') && p' == Feed(p, line) && p' == Parser(pre', post', header', pending', p'.diffs)
    ensures Mirrors(diffs', p'.diffs) && Current(diffs', current', post')
    ensures current' == current || fresh(current')
    ensures forall j :: 0 <= j < |diffs'| ==> diffs'[j].1 == current' || (j < |diffs| && diffs'[j] == diffs[j])
  {
    diffs', current', pre', post', header', pending', p' := diffs, current, pre, post, header, pending, p;
    if StartsWith(line, "--- ") {
      pre' := Some(line[4..]);
      p' := p.(pre := pre');
    } else if StartsWith(line, "+++ ") {
      diffs', current', pending', p' := OpenDiff(line, diffs, current, pre, post, header, pending, p);
      post' := Some(line[4..]);
    } else if StartsWith(line, "@@ ") {
      if pending != [] && current != null && header.Some? {
        AttachTo(current, header.value, pending, diffs, p);
        p' := Attach(p);
        pending' := [];
      }
      header' := Some(ParseHunkHeader(line));
      p' := p'.(header := header');
    } else {
      pending' := pending + [Classify(line)];
      p' := p.(pending := pending');
    }
  }

  /**
   * The `+++ ` branch of the loop: the pending hunk goes to the current
   * object when there is a header, and a new `Diff` is stored under the
   * post-edit name, replacing any earlier one.
   */
  method OpenDiff(line: string, diffs: seq<(string, Diff)>, current: Diff?, pre: Option<string>, post: Option<string>,
                  header: Option<Header>, pending: seq<Line>, ghost p: Parser)
    returns (diffs': seq<(string, Diff)>, current': Diff, pending': seq<Line>, ghost p': Parser)
    requires StartsWith(line, "+++ ") && !StartsWith(line, "--- ")
    requires Tracks(p) && p == Parser(pre, post, header, pending, p.diffs)
    requires Mirrors(diffs, p.diffs) && Current(diffs, current, post)
    modifies current
    ensures Tracks(p') && p' == Feed(p, line) && p' == Parser(pre, Some(line[4..]), header, pending', p'.diffs)
    ensures Mirrors(diffs', p'.diffs) && Current(diffs', current', Some(line[4..]))
    ensures fresh(current')
    ensures forall j :: 0 <= j < |diffs'| ==> diffs'[j].1 == current' || (j < |diffs| && diffs'[j] == diffs[j])
  {
    pending', p' := pending, p;
    if post.Some? && current != null && header.Some? {
      AttachTo(current, header.value, pending, diffs, p);
      p' := Attach(p);
      pending' := [];
    }
    var name := line[4..];
    diffs', current' := StoreNew(diffs, pre, name, p'.diffs);
    p' := p'.(post := Some(name), diffs := Put(p'.diffs, name, DiffState(pre, name, [])));
  }

  /** `diffs[filename_post] = Diff(filename_pre, filename_post)`: a new object under `name`, replacing any earlier one. */
  method StoreNew(diffs: seq<(string, Diff)>, pre: Option<string>, name: string, ghost vs: seq<(string, DiffState)>)
    returns (diffs': seq<(string, Diff)>, current': Diff)
    requires Mirrors(diffs, vs)
    ensures diffs' == Put(diffs, name, current')
    ensures Mirrors(diffs', Put(vs, name, DiffState(pre, name, [])))
    ensures Find(diffs', name) >= 0 && diffs'[Find(diffs', name)].1 == current'
    ensures fresh(current')
    ensures forall j :: 0 <= j < |diffs'| ==> diffs'[j].1 == current' || (j < |diffs| && diffs'[j] == diffs[j])
  {
    current' := new Diff(pre, name);
    MirrorsPut(diffs, vs, name, current', DiffState(pre, name, []));
    diffs' := Put(diffs, name, current');
  }

  /**
   * The loop of `parse_diff_block` over the lines of a block: the variables
   * and the objects end as `FeedAll` leaves the parser's value.
   */
  method FeedLines(lines: seq<string>)
    returns (diffs: seq<(string, Diff)>, current: Diff?, pre: Option<string>, post: Option<string>,
             header: Option<Header>, pending: seq<Line>, ghost p: Parser)
    ensures Tracks(p) && p == FeedAll(Start, lines) && p == Parser(pre, post, header, pending, p.diffs)
    ensures Mirrors(diffs, p.diffs) && Current(diffs, current, post)
    ensures forall j :: 0 <= j < |diffs| ==> fresh(diffs[j].1)
  {
    diffs := [];
    current := null;
    pending := [];
    pre, post, header := None, None, None;
    p := Start;
    var i := 0;
    while i < |lines|
      invariant 0 <= i <= |lines|
      invariant Tracks(p) && FeedAll(p, lines[i..]) == FeedAll(Start, lines)
      invariant p == Parser(pre, post, header, pending, p.diffs)
      invariant Mirrors(diffs, p.diffs) && Current(diffs, current, post)
      invariant forall j :: 0 <= j < |diffs| ==> fresh(diffs[j].1)
      invariant current != null ==> fresh(current)
    {
      FeedStep(p, lines, i);
      diffs, current, pre, post, header, pending, p := Turn(lines[i], diffs, current, pre, post, header, pending, p);
      i := i + 1;
    }
    assert lines[i..] == [];
  }

  /**
   * `parse_diff_block`: the `Diff` objects of a block, keyed by post-edit
   * name in the order the dict holds them. The objects are new and each is a
   * different one, and their names and hunks are those `ParseBlock`
   * computes, key by key (`Mirrors`).
   */
  method ParseDiffBlock(block: string) returns (diffs: seq<(string, Diff)>)
    ensures Mirrors(diffs, ParseBlock(block))
    ensures forall j :: 0 <= j < |diffs| ==> fresh(diffs[j].1)
  {
    var current, pre, post, header, pending;
    ghost var p;
    diffs, current, pre, post, header, pending, p := FeedLines(BlockLines(block));
    if current != null && pending != [] && header.Some? {
      AttachTo(current, header.value, pending, diffs, p);
    }
  }

  /** What `parse_diff_block` gives for each block, in order. */
  function ParsedBlocks(blocks: seq<string>): (r: seq<seq<(string, DiffState)>>)
    ensures |r| == |blocks| && forall i :: 0 <= i < |blocks| ==> r[i] == ParseBlock(blocks[i])
  {
    seq(|blocks|, i requires 0 <= i < |blocks| => ParseBlock(blocks[i]))
  }

  /** `parse_diffs` over the blocks the regular expression found: the first-wins merge of their dicts. */
  function ParseReply(blocks: seq<string>): seq<(string, DiffState)>
  {
    MergeAll([], ParsedBlocks(blocks))
  }

  /**
   * When several blocks hold the same post-edit name, the first of them
   * gives its value; the names are those of all the blocks, each once.
   */
  lemma ParseReplyFirstWins(blocks: seq<string>, k: string, i: nat)
    requires i < |blocks| && HasKey(ParseBlock(blocks[i]), k)
    requires forall j :: 0 <= j < i ==> !HasKey(ParseBlock(blocks[j]), k)
    ensures HasKey(ParseReply(blocks), k) && Get(ParseReply(blocks), k) == Get(ParseBlock(blocks[i]), k)
  {
    MergeAllFirst([], ParsedBlocks(blocks), k, i);
  }

  lemma ParseReplyKeys(blocks: seq<string>, k: string)
    ensures HasKey(ParseReply(blocks), k) <==> exists i :: 0 <= i < |blocks| && HasKey(ParseBlock(blocks[i]), k)
    ensures UniqueKeys(ParseReply(blocks))
  {
    var ds := ParsedBlocks(blocks);
    MergeAllKeys([], ds, k);
    if exists i :: 0 <= i < |ds| && HasKey(ds[i], k) {
      var i :| 0 <= i < |ds| && HasKey(ds[i], k);
      assert HasKey(ParseBlock(blocks[i]), k);
    }
  }

  /** The entries of a dict of objects from entry `j` on mirror the values from entry `j` on. */
  lemma MirrorsFrom(ds: seq<(string, Diff)>, vs: seq<(string, DiffState)>, j: nat)
    requires Mirrors(ds, vs) && j <= |ds|
    ensures Mirrors(ds[j..], vs[j..])
  {
    assert forall m :: 0 <= m < |ds| - j ==> ds[j..][m] == ds[j + m] && vs[j..][m] == vs[j + m];
  }

  /**
   * Merging a block's objects into the dict of objects, first wins, mirrors
   * merging their values, when no object is in both.
   */
  lemma {:induction false} MirrorsMerge(ds: seq<(string, Diff)>, vs: seq<(string, DiffState)>,
                                        bs: seq<(string, Diff)>, d: seq<(string, DiffState)>)
    requires Mirrors(ds, vs) && Mirrors(bs, d)
    requires forall m, n :: 0 <= m < |ds| && 0 <= n < |bs| ==> ds[m].1 != bs[n].1
    ensures Mirrors(MergeFirst(ds, bs), MergeFirst(vs, d))
    decreases |bs|
  {
    if bs != [] {
      FindSameKeys(ds, vs, bs[0].0);
      MirrorsFrom(bs, d, 1);
      if HasKey(ds, bs[0].0) {
        MirrorsMerge(ds, vs, bs[1..], d[1..]);
      } else {
        MirrorsAppend(ds, vs, bs[0], d[0]);
        assert forall m, n :: 0 <= m <= |ds| && 0 <= n < |bs| - 1 ==> (ds + [bs[0]])[m].1 != bs[1..][n].1;
        MirrorsMerge(ds + [bs[0]], vs + [d[0]], bs[1..], d[1..]);
      }
    }
  }

  /**
   * The inner loop of `parse_diffs` over one parsed block: each of the
   * block's objects is added under its name unless the name is already in
   * the dict, which is `MergeFirst` over the objects.
   */
  method MergeBlock(diffs: seq<(string, Diff)>, blockDiffs: seq<(string, Diff)>) returns (diffs': seq<(string, Diff)>)
    ensures diffs' == MergeFirst(diffs, blockDiffs)
  {
    diffs' := diffs;
    var j := 0;
    while j < |blockDiffs|
      invariant 0 <= j <= |blockDiffs|
      invariant MergeFirst(diffs', blockDiffs[j..]) == MergeFirst(diffs, blockDiffs)
    {
      MergeFirstStep(diffs', blockDiffs, j);
      var name := blockDiffs[j].0;
      if !HasKey(diffs', name) {
        diffs' := diffs' + [blockDiffs[j]];
      }
      j := j + 1;
    }
    assert blockDiffs[j..] == [];
  }

  /**
   * One turn of the merge loop of `parse_diffs`: the block is parsed and
   * its objects are merged into the dict, first wins.
   */
  method MergeParsed(diffs: seq<(string, Diff)>, block: string, ghost acc: seq<(string, DiffState)>)
    returns (diffs': seq<(string, Diff)>)
    requires Mirrors(diffs, acc)
    ensures Mirrors(diffs', MergeFirst(acc, ParseBlock(block)))
  {
    label Parsed:
    var blockDiffs := ParseDiffBlock(block);
    assert forall m, n :: 0 <= m < |diffs| && 0 <= n < |blockDiffs| ==> diffs[m].1 != blockDiffs[n].1 by {
      forall m, n | 0 <= m < |diffs| && 0 <= n < |blockDiffs|
        ensures diffs[m].1 != blockDiffs[n].1
      {
        assert fresh@Parsed(blockDiffs[n].1);
      }
    }
    assert Mirrors(diffs, acc);
    diffs' := MergeBlock(diffs, blockDiffs);
    assert Mirrors(diffs, acc) && Mirrors(blockDiffs, ParseBlock(block));
    MirrorsMerge(diffs, acc, blockDiffs, ParseBlock(block));
  }

  /**
   * The merge loop of `parse_diffs`, over the blocks found in a reply: each
   * block is parsed, and each of its `Diff` objects is kept unless its
   * post-edit name was already seen. The objects mirror `ParseReply`.
   */
  method ParseDiffs(blocks: seq<string>) returns (diffs: seq<(string, Diff)>)
    ensures Mirrors(diffs, ParseReply(blocks))
  {
    ghost var ds := ParsedBlocks(blocks);
    diffs := [];
    ghost var acc: seq<(string, DiffState)> := [];
    var b := 0;
    while b < |blocks|
      invariant 0 <= b <= |blocks|
      invariant MergeAll(acc, ds[b..]) == MergeAll([], ds)
      invariant Mirrors(diffs, acc)
    {
      MergeAllStep(acc, ds, b);
      diffs := MergeParsed(diffs, blocks[b], acc);
      acc := MergeFirst(acc, ds[b]);
      b := b + 1;
    }
    assert ds[b..] == [];
  }
}
