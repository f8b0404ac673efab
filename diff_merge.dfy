/**
 * The first-wins merge of `parse_diffs` in espada/core/chat_to_files.py:
 * the dicts parsed from the blocks of a reply are merged in order, and a
 * post-edit name already present keeps its first value; a later one is
 * dropped.
 */
module DiffMerge {
  import opened LineMaps

  /** `for filename, diff_obj in diff.items(): if filename not in diffs: diffs[filename] = diff_obj`. */
  function MergeFirst<V>(acc: seq<(string, V)>, d: seq<(string, V)>): seq<(string, V)>
    decreases |d|
  {
    if d == [] then acc
    else MergeFirst(if HasKey(acc, d[0].0) then acc else acc + [d[0]], d[1..])
  }

  /** The merge from entry `j` on is one entry's turn, then the merge from entry `j + 1` on. */
  lemma MergeFirstStep<V>(acc: seq<(string, V)>, d: seq<(string, V)>, j: nat)
    requires j < |d|
    ensures MergeFirst(acc, d[j..]) == MergeFirst(if HasKey(acc, d[j].0) then acc else acc + [d[j]], d[j + 1..])
  {
    assert d[j..][0] == d[j] && d[j..][1..] == d[j + 1..];
  }

  /** The merge from block `b` on is block `b`'s merge, then the merge from block `b + 1` on. */
  lemma MergeAllStep<V>(acc: seq<(string, V)>, ds: seq<seq<(string, V)>>, b: nat)
    requires b < |ds|
    ensures MergeAll(acc, ds[b..]) == MergeAll(MergeFirst(acc, ds[b]), ds[b + 1..])
  {
    assert ds[b..][0] == ds[b] && ds[b..][1..] == ds[b + 1..];
  }

  /** The merge over all blocks, block after block, from an empty dict. */
  function MergeAll<V>(acc: seq<(string, V)>, ds: seq<seq<(string, V)>>): seq<(string, V)>
    decreases |ds|
  {
    if ds == [] then acc else MergeAll(MergeFirst(acc, ds[0]), ds[1..])
  }

  /** No key appears twice, as in a dict. */
  predicate UniqueKeys<V>(m: seq<(string, V)>)
  {
    forall i, j :: 0 <= i < j < |m| ==> m[i].0 != m[j].0
  }

  lemma {:induction false} FindAppend<V>(m: seq<(string, V)>, e: (string, V), k: string)
    ensures Find(m + [e], k) == if Find(m, k) >= 0 then Find(m, k) else if e.0 == k then |m| else -1
    decreases |m|
  {
    if m != [] {
      assert (m + [e])[1..] == m[1..] + [e];
      FindAppend(m[1..], e, k);
    }
  }

  /**
   * What the merge of one block keeps: the entries already there, unchanged
   * and in place, followed by the block's entries under new names; a name
   * is in the result exactly when it was there before or is in the block.
   */
  lemma {:induction false} MergeFirstKeeps<V>(acc: seq<(string, V)>, d: seq<(string, V)>)
    ensures var r := MergeFirst(acc, d); |acc| <= |r| && r[..|acc|] == acc
    ensures forall k :: HasKey(MergeFirst(acc, d), k) <==> HasKey(acc, k) || HasKey(d, k)
    ensures UniqueKeys(acc) ==> UniqueKeys(MergeFirst(acc, d))
    decreases |d|
  {
    if d != [] {
      var acc' := if HasKey(acc, d[0].0) then acc else acc + [d[0]];
      MergeFirstKeeps(acc', d[1..]);
      var r := MergeFirst(acc, d);
      assert r == MergeFirst(acc', d[1..]);
      assert acc'[..|acc|] == acc;
      assert r[..|acc|] == r[..|acc'|][..|acc|];
      forall k
        ensures HasKey(acc', k) <==> HasKey(acc, k) || k == d[0].0
      {
        FindAppend(acc, d[0], k);
      }
      forall k
        ensures HasKey(d, k) <==> k == d[0].0 || HasKey(d[1..], k)
      {
        assert d == [d[0]] + d[1..];
        if HasKey(d[1..], k) {
          assert d[1..][Find(d[1..], k)] == d[1 + Find(d[1..], k)];
        }
      }
      if UniqueKeys(acc) && !HasKey(acc, d[0].0) {
        assert forall i :: 0 <= i < |acc| ==> acc[i].0 != d[0].0;
      }
    }
  }

  /**
   * First wins within a block: a name new to the dict gets the value of its
   * first entry in the block, and a name already there keeps its value.
   */
  lemma {:induction false} MergeFirstValue<V>(acc: seq<(string, V)>, d: seq<(string, V)>, k: string)
    ensures HasKey(acc, k) ==> Find(MergeFirst(acc, d), k) == Find(acc, k)
    ensures !HasKey(acc, k) && HasKey(d, k) ==> HasKey(MergeFirst(acc, d), k) && Get(MergeFirst(acc, d), k) == Get(d, k)
    decreases |d|
  {
    if d != [] {
      var acc' := if HasKey(acc, d[0].0) then acc else acc + [d[0]];
      FindAppend(acc, d[0], k);
      MergeFirstValue(acc', d[1..], k);
      MergeFirstKeeps(acc', d[1..]);
      if !HasKey(acc, k) && HasKey(d, k) && d[0].0 != k {
        assert d[1..][Find(d, k) - 1] == d[Find(d, k)];
        assert Find(d[1..], k) == Find(d, k) - 1;
      }
    }
  }

  /**
   * First wins across blocks: a name gets the value it has in the first
   * block that holds it, and every earlier entry stays in place.
   */
  lemma {:induction false} MergeAllFirst<V>(acc: seq<(string, V)>, ds: seq<seq<(string, V)>>, k: string, i: nat)
    requires !HasKey(acc, k) && i < |ds| && HasKey(ds[i], k)
    requires forall j :: 0 <= j < i ==> !HasKey(ds[j], k)
    ensures HasKey(MergeAll(acc, ds), k) && Get(MergeAll(acc, ds), k) == Get(ds[i], k)
    decreases |ds|
  {
    var acc' := MergeFirst(acc, ds[0]);
    MergeFirstKeeps(acc, ds[0]);
    MergeFirstValue(acc, ds[0], k);
    if i == 0 {
      MergeAllKeeps(acc', ds[1..], k);
    } else {
      MergeAllFirst(acc', ds[1..], k, i - 1);
    }
  }

  /** A name already in the dict keeps its place, and so its value, through the later blocks. */
  lemma {:induction false} MergeAllKeeps<V>(acc: seq<(string, V)>, ds: seq<seq<(string, V)>>, k: string)
    requires HasKey(acc, k)
    ensures Find(MergeAll(acc, ds), k) == Find(acc, k)
    ensures HasKey(MergeAll(acc, ds), k) && Get(MergeAll(acc, ds), k) == Get(acc, k)
    decreases |ds|
  {
    if ds != [] {
      var acc' := MergeFirst(acc, ds[0]);
      MergeFirstValue(acc, ds[0], k);
      MergeFirstKeeps(acc, ds[0]);
      MergeAllKeeps(acc', ds[1..], k);
      assert acc'[Find(acc, k)] == acc[Find(acc, k)];
    }
  }

  /** The merged dict has exactly the names of all the blocks, each once. */
  lemma {:induction false} MergeAllKeys<V>(acc: seq<(string, V)>, ds: seq<seq<(string, V)>>, k: string)
    ensures HasKey(MergeAll(acc, ds), k) <==> HasKey(acc, k) || exists i :: 0 <= i < |ds| && HasKey(ds[i], k)
    ensures UniqueKeys(acc) ==> UniqueKeys(MergeAll(acc, ds))
    decreases |ds|
  {
    if ds != [] {
      MergeFirstKeeps(acc, ds[0]);
      MergeAllKeys(MergeFirst(acc, ds[0]), ds[1..], k);
      if exists i :: 0 <= i < |ds| && HasKey(ds[i], k) {
        var i :| 0 <= i < |ds| && HasKey(ds[i], k);
        if i > 0 {
          assert HasKey(ds[1..][i - 1], k);
        }
      }
      if exists i :: 0 <= i < |ds| - 1 && HasKey(ds[1..][i], k) {
        var i :| 0 <= i < |ds| - 1 && HasKey(ds[1..][i], k);
        assert HasKey(ds[i + 1], k);
      }
    }
  }
}
