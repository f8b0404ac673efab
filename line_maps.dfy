/**
 * Insertion-ordered Python dicts, kept as sequences of (key, value) pairs so
 * that the order in which entries are created is part of the model, and the
 * "file as lines" view of espada/core/files_dict.py: a dict from line number
 * to line text.
 */
module LineMaps {
  import opened PyStr

  type LineMap = seq<(int, string)>

  /** The position of key `k`, or -1 when `k` is absent (first occurrence). */
  function Find<K(==), V>(m: seq<(K, V)>, k: K): (r: int)
    ensures -1 <= r < |m|
    ensures r >= 0 ==> m[r].0 == k && forall j :: 0 <= j < r ==> m[j].0 != k
    ensures r == -1 ==> forall j :: 0 <= j < |m| ==> m[j].0 != k
    decreases |m|
  {
    if m == [] then -1
    else if m[0].0 == k then 0
    else
      var r := Find(m[1..], k);
      if r == -1 then -1 else r + 1
  }

  predicate HasKey<K(==), V>(m: seq<(K, V)>, k: K)
  {
    Find(m, k) >= 0
  }

  /** `m[k]`. */
  function Get<K(==), V>(m: seq<(K, V)>, k: K): V
    requires HasKey(m, k)
  {
    m[Find(m, k)].1
  }

  /** `m.get(k, default)`. */
  function GetOr<K(==), V>(m: seq<(K, V)>, k: K, default: V): V
  {
    if HasKey(m, k) then Get(m, k) else default
  }

  /** `m[k] = v`: an existing key keeps its place, a new key goes to the end. */
  function Put<K(==), V>(m: seq<(K, V)>, k: K, v: V): (r: seq<(K, V)>)
    ensures HasKey(r, k) && Get(r, k) == v
  {
    var i := Find(m, k);
    if i >= 0 then
      FindAfterUpdate(m, i, k, v);
      m[i := (k, v)]
    else
      assert (m + [(k, v)])[|m|].0 == k;
      m + [(k, v)]
  }

  lemma FindAfterUpdate<K, V>(m: seq<(K, V)>, i: int, k: K, v: V)
    requires 0 <= i < |m| && Find(m, k) == i
    ensures Find(m[i := (k, v)], k) == i
  {
    assert m[i := (k, v)][i].0 == k;
  }

  /** `m[k] = v` leaves every other key where it was, with its value. */
  lemma {:induction false} PutOther<K, V>(m: seq<(K, V)>, k: K, v: V, k2: K)
    requires k2 != k
    ensures Find(Put(m, k, v), k2) == Find(m, k2)
    ensures HasKey(m, k2) ==> Get(Put(m, k, v), k2) == Get(m, k2)
  {
    var r := Put(m, k, v);
    var i := Find(m, k);
    var j := Find(m, k2);
    if j >= 0 {
      assert r[j] == m[j];
    } else {
      assert forall n :: 0 <= n < |r| ==> r[n].0 != k2 by {
        forall n | 0 <= n < |r| ensures r[n].0 != k2 {
          if n < |m| && n != i {
            assert r[n] == m[n];
          }
        }
      }
    }
  }

  /** `m[k] = v` keeps every entry's key in place, and a new key makes one more entry at the end. */
  lemma PutShape<K, V>(m: seq<(K, V)>, k: K, v: V)
    ensures HasKey(m, k) ==> |Put(m, k, v)| == |m|
    ensures !HasKey(m, k) ==> Put(m, k, v) == m + [(k, v)]
    ensures forall i :: 0 <= i < |m| ==> Put(m, k, v)[i].0 == m[i].0
  {
  }

  /** `list(m.values())`. */
  function Values<K, V>(m: seq<(K, V)>): (r: seq<V>)
    ensures |r| == |m| && forall i :: 0 <= i < |m| ==> r[i] == m[i].1
  {
    seq(|m|, i requires 0 <= i < |m| => m[i].1)
  }

  /** `enumerate(xs, start)` turned into a dict. */
  function Enumerate(xs: seq<string>, start: int): (r: LineMap)
    ensures |r| == |xs|
    ensures forall i :: 0 <= i < |xs| ==> r[i] == (start + i, xs[i])
  {
    seq(|xs|, i requires 0 <= i < |xs| => (start + i, xs[i]))
  }

  /** `file_to_lines_dict`: line numbers from 1 to the text of each line. */
  function FileToLinesDict(content: string): LineMap
  {
    Enumerate(Split(content, '\n'), 1)
  }

  /** Keys form one run of consecutive integers, in increasing order. */
  predicate Contiguous(m: LineMap)
  {
    forall i :: 0 <= i < |m| ==> m[i].0 == m[0].0 + i
  }

  /** `min(m)` / the first key, and `max(m)` / the last key, of a contiguous map. */
  function Lo(m: LineMap): int
    requires |m| > 0
  {
    m[0].0
  }

  function Hi(m: LineMap): int
    requires |m| > 0
  {
    m[|m| - 1].0
  }

  /** `{key: val for key, val in m.items() if key >= c}`. */
  function KeepFrom(m: LineMap, c: int): (r: LineMap)
    ensures |r| <= |m|
    decreases |m|
  {
    if m == [] then []
    else if m[0].0 >= c then [m[0]] + KeepFrom(m[1..], c)
    else KeepFrom(m[1..], c)
  }

  /** In a contiguous map, key `k` is present exactly in the range Lo..Hi, at offset `k - Lo`. */
  lemma {:induction false} ContiguousFind(m: LineMap, k: int)
    requires Contiguous(m)
    ensures HasKey(m, k) <==> |m| > 0 && Lo(m) <= k <= Hi(m)
    ensures HasKey(m, k) ==> Find(m, k) == k - Lo(m)
  {
    if |m| > 0 && Lo(m) <= k <= Hi(m) {
      var i := k - Lo(m);
      assert m[i].0 == k;
    }
  }

  /** Cutting a contiguous map below `c` drops a prefix, so the rest stays contiguous. */
  lemma {:induction false} KeepFromContiguous(m: LineMap, c: int)
    requires Contiguous(m)
    ensures KeepFrom(m, c) == (if m == [] || c <= Lo(m) then m else if c > Hi(m) then [] else m[c - Lo(m)..])
    ensures Contiguous(KeepFrom(m, c))
    decreases |m|
  {
    if m != [] {
      var tail := m[1..];
      assert Contiguous(tail) by {
        forall i | 0 <= i < |tail| ensures tail[i].0 == tail[0].0 + i {
          assert m[i + 1].0 == m[0].0 + i + 1;
        }
      }
      KeepFromContiguous(tail, c);
      if c <= Lo(m) {
        if tail != [] {
          assert tail[0].0 == Lo(m) + 1;
          assert KeepFrom(tail, c) == tail;
        }
        assert [m[0]] + tail == m;
      } else if c <= Hi(m) {
        assert tail != [] && Lo(tail) == Lo(m) + 1 && Hi(tail) == Hi(m);
        if c == Lo(m) + 1 {
          assert KeepFrom(tail, c) == tail;
        } else {
          assert tail[c - Lo(tail)..] == m[c - Lo(m)..];
        }
      }
    }
  }

  /** `file_to_lines_dict(s)` has the keys 1..k, where k is one more than the number of newlines of `s`. */
  lemma LinesDictKeys(s: string)
    ensures |FileToLinesDict(s)| == CountChar(s, '\n') + 1
    ensures forall i :: 0 <= i < |FileToLinesDict(s)| ==> FileToLinesDict(s)[i].0 == i + 1
    ensures Contiguous(FileToLinesDict(s)) && Lo(FileToLinesDict(s)) == 1
  {
    SplitLength(s, '\n');
  }

  /** Joining the values of `file_to_lines_dict(s)` in key order with newlines gives back `s`. */
  lemma LinesDictRoundTrip(s: string)
    ensures Join(Values(FileToLinesDict(s)), "\n") == s
  {
    assert Values(FileToLinesDict(s)) == Split(s, '\n');
    JoinSplit(s, '\n');
  }

  /** The empty file is one empty line. */
  lemma LinesDictOfEmpty()
    ensures FileToLinesDict("") == [(1, "")]
  {
  }

  /** No line of the map contains a newline. */
  lemma LinesDictNoNewline(s: string)
    ensures forall i :: 0 <= i < |FileToLinesDict(s)| ==> '\n' !in FileToLinesDict(s)[i].1
  {
    SplitPiecesFree(s, '\n');
  }
}
