/**
 * `DisplayablePath` of espada/applications/cli/file_selector.py: one node of
 * the file tree printed after a selection, linked to its parent, and the
 * line `displayable()` draws for it. Whether the path is a directory is a
 * fact of the file system, given when the node is made.
 */
module DisplayTree {
  import opened PyStr

  const FilenamePrefixMiddle: string := "\U{251c}\U{2500}\U{2500} "
  const FilenamePrefixLast: string := "\U{2514}\U{2500}\U{2500} "
  const ParentPrefixMiddle: string := "    "
  const ParentPrefixLast: string := "\U{2502}   "

  class DisplayablePath {
    /** `path.name`, the last component of the path. */
    const name: string
    /** `path.is_dir()`. */
    const isDir: bool
    const parent: DisplayablePath?
    const isLast: bool
    const depth: nat

    /** The depth of every node on the parent chain is one more than its parent's, and the root's is 0. */
    predicate Valid()
      decreases depth
    {
      if parent == null then depth == 0 else depth == parent.depth + 1 && parent.Valid()
    }

    constructor (name: string, isDir: bool, parent: DisplayablePath?, isLast: bool)
      requires parent != null ==> parent.Valid()
      ensures this.name == name && this.isDir == isDir && this.parent == parent && this.isLast == isLast
      ensures depth == (if parent == null then 0 else parent.depth + 1)
      ensures Valid()
    {
      this.name := name;
      this.isDir := isDir;
      this.parent := parent;
      this.isLast := isLast;
      var d := 0;
      if parent != null {
        d := parent.depth + 1;
      }
      this.depth := d;
    }

    /** `display_name`: the name, with a `/` after it for a directory. */
    function DisplayName(): (r: string)
      ensures isDir ==> r == name + "/"
      ensures !isDir ==> r == name
    {
      if isDir then name + "/" else name
    }

    /** `displayable()`, with its walk up the parent chain collecting one segment per ancestor below the root. */
    method Displayable() returns (r: string)
      requires Valid()
      ensures r == Displayed(this)
      ensures parent == null ==> r == DisplayName()
    {
      if parent == null {
        return DisplayName();
      }
      var filenamePrefix := if isLast then FilenamePrefixLast else FilenamePrefixMiddle;
      var parts := [filenamePrefix + " " + DisplayName()];
      DisplayedStart(this);
      var p := parent;
      while p != null && p.parent != null
        invariant p != null ==> p.Valid()
        invariant Indent(p) + Concat(Reversed(parts)) == Displayed(this)
        decreases if p == null then 0 else p.depth + 1
      {
        IndentStep(p, parts);
        parts := parts + [Segment(p)];
        p := p.parent;
      }
      assert Indent(p) == "";
      r := Concat(Reversed(parts));
    }
  }

  /** The four characters an ancestor contributes: blank when it is a last child, a bar otherwise. */
  function Segment(p: DisplayablePath): (r: string)
    ensures |r| == 4
    ensures p.isLast ==> r == ParentPrefixMiddle
    ensures !p.isLast ==> r == ParentPrefixLast
  {
    if p.isLast then ParentPrefixMiddle else ParentPrefixLast
  }

  /** The segments of the ancestors from just below the root down to `p`, outermost first. */
  function Indent(p: DisplayablePath?): string
    requires p != null ==> p.Valid()
    decreases if p == null then 0 else p.depth + 1
  {
    if p == null || p.parent == null then "" else Indent(p.parent) + Segment(p)
  }

  /** The line of a node: its display name for the root; otherwise the segments, the branch for a last or middle child, a space and the name. */
  function Displayed(n: DisplayablePath): string
    requires n.Valid()
  {
    if n.parent == null then n.DisplayName()
    else Indent(n.parent) + (if n.isLast then FilenamePrefixLast else FilenamePrefixMiddle) + " " + n.DisplayName()
  }

  function Reversed(xs: seq<string>): (r: seq<string>)
    ensures |r| == |xs|
    decreases |xs|
  {
    if xs == [] then [] else Reversed(xs[1..]) + [xs[0]]
  }

  lemma {:induction false} ReversedAppend(xs: seq<string>, x: string)
    ensures Reversed(xs + [x]) == [x] + Reversed(xs)
    decreases |xs|
  {
    if xs != [] {
      assert (xs + [x])[1..] == xs[1..] + [x];
      ReversedAppend(xs[1..], x);
    } else {
      assert Reversed([x]) == Reversed([]) + [x];
    }
  }

  lemma ConcatCons(x: string, xs: seq<string>)
    ensures Concat([x] + xs) == x + Concat(xs)
  {
    assert ([x] + xs)[1..] == xs;
  }

  /** Before the walk: the line of a node below the root is its parent's indent followed by its own tail. */
  lemma DisplayedStart(n: DisplayablePath)
    requires n.Valid() && n.parent != null
    ensures Indent(n.parent) + Concat(Reversed([(if n.isLast then FilenamePrefixLast else FilenamePrefixMiddle) + " " + n.DisplayName()])) == Displayed(n)
  {
    var tail := (if n.isLast then FilenamePrefixLast else FilenamePrefixMiddle) + " " + n.DisplayName();
    assert Reversed([tail]) == [tail] by {
      assert [tail][1..] == [];
    }
    assert Concat([tail]) == tail + Concat([]) by {
      ConcatCons(tail, []);
    }
  }

  /** One step of the walk: moving a segment from the indent of `p` onto the collected parts keeps the text. */
  lemma IndentStep(p: DisplayablePath, parts: seq<string>)
    requires p.Valid() && p.parent != null
    ensures Indent(p.parent) + Concat(Reversed(parts + [Segment(p)])) == Indent(p) + Concat(Reversed(parts))
  {
    var x := Segment(p);
    ReversedAppend(parts, x);
    ConcatCons(x, Reversed(parts));
    assert Indent(p) == Indent(p.parent) + x;
  }

  /** The ancestor of `p` at depth `k`, `p` itself when `k` is its depth. */
  function Ancestor(p: DisplayablePath, k: nat): (r: DisplayablePath)
    requires p.Valid() && k <= p.depth
    ensures r.Valid() && r.depth == k
    decreases p.depth
  {
    if k == p.depth then p else Ancestor(p.parent, k)
  }

  /** Every node below the root contributes one segment of four characters. */
  lemma {:induction false} IndentLength(p: DisplayablePath)
    requires p.Valid()
    ensures |Indent(p)| == 4 * p.depth
    decreases p.depth
  {
    if p.parent != null {
      IndentLength(p.parent);
    }
  }

  /** The `k`-th four characters of the indent are the segment of the ancestor at depth `k`. */
  lemma {:induction false} IndentSegments(p: DisplayablePath, k: nat)
    requires p.Valid() && 1 <= k <= p.depth
    ensures |Indent(p)| == 4 * p.depth
    ensures Indent(p)[4 * (k - 1)..4 * k] == Segment(Ancestor(p, k))
    decreases p.depth
  {
    IndentLength(p);
    var q := p.parent;
    IndentLength(q);
    if k < p.depth {
      IndentSegments(q, k);
      assert Indent(p)[4 * (k - 1)..4 * k] == Indent(q)[4 * (k - 1)..4 * k];
    } else {
      assert Indent(p)[4 * (k - 1)..] == Segment(p);
    }
  }

  /** The line of a node below the root: `depth - 1` segments, then the branch for a last or middle child, a space and the display name. */
  lemma DisplayedTail(n: DisplayablePath)
    requires n.Valid() && n.parent != null
    ensures var tail := (if n.isLast then FilenamePrefixLast else FilenamePrefixMiddle) + " " + n.DisplayName();
      |Displayed(n)| == 4 * (n.depth - 1) + |tail| && Displayed(n)[4 * (n.depth - 1)..] == tail
  {
    var ind := Indent(n.parent);
    IndentLength(n.parent);
    var tail := (if n.isLast then FilenamePrefixLast else FilenamePrefixMiddle) + " " + n.DisplayName();
    assert Displayed(n) == ind + tail;
    SliceOfBack(ind, tail);
  }

  /** Dropping the first part of a concatenation leaves the second. */
  lemma SliceOfBack(a: string, b: string)
    ensures |a + b| == |a| + |b| && (a + b)[|a|..] == b
  {
  }

  /** In the line of a node, the `k`-th segment is blank when the ancestor at depth `k` is a last child and a bar otherwise. */
  lemma DisplayedSegment(n: DisplayablePath, k: nat)
    requires n.Valid() && n.parent != null && 1 <= k < n.depth
    ensures |Displayed(n)| > 4 * (n.depth - 1)
    ensures Displayed(n)[4 * (k - 1)..4 * k] == Segment(Ancestor(n, k))
  {
    var ind := Indent(n.parent);
    IndentSegments(n.parent, k);
    assert Ancestor(n, k) == Ancestor(n.parent, k);
    var tail := (if n.isLast then FilenamePrefixLast else FilenamePrefixMiddle) + " " + n.DisplayName();
    assert Displayed(n) == ind + tail;
    SliceOfFront(ind, tail, 4 * (k - 1), 4 * k);
  }

  /** A slice that ends inside the first part of a concatenation is a slice of that part. */
  lemma SliceOfFront(a: string, b: string, i: nat, j: nat)
    requires i <= j <= |a|
    ensures (a + b)[i..j] == a[i..j]
  {
  }
}
