/**
 * `Problem.starting_code` of espada/benchmark/benchmarks/mbpp/problem.py: the
 * stub handed to the model, which is the reference code cut after its first
 * `def` line, with a placeholder body.
 */
module MbppProblem {
  import opened PyStr

  const Placeholder: string := "pass #  TODO: Implement method\n"
  const DefPrefix: string := "def "
  const Newline: string := "\n"

  /** The index of the first line that starts with `def `; the number of lines when none does. */
  function FirstDef(ls: seq<string>): (k: nat)
    ensures k <= |ls|
    ensures k < |ls| ==> StartsWith(ls[k], DefPrefix)
    ensures forall j :: 0 <= j < k ==> !StartsWith(ls[j], DefPrefix)
    decreases |ls|
  {
    if ls == [] then 0
    else if StartsWith(ls[0], DefPrefix) then 0
    else FirstDef(ls[1..]) + 1
  }

  /** The lines of the stub: every line up to and including the first `def` line, then the placeholder; all lines when there is no `def` line. */
  function StubLines(ls: seq<string>): seq<string>
  {
    var k := FirstDef(ls);
    if k == |ls| then ls else ls[..k + 1] + [Placeholder]
  }

  /** The stub of a piece of code. */
  function Stub(code: string): string
  {
    Join(StubLines(Split(code, '\n')), Newline)
  }

  /** `starting_code`, with its loop that stops at the first `def` line. */
  method StartingCode(code: string) returns (r: string)
    ensures r == Stub(code)
  {
    var source := Split(code, '\n');
    var lines: seq<string> := [];
    var k := 0;
    while k < |source|
      invariant k <= FirstDef(source) && lines == source[..k]
    {
      lines := lines + [source[k]];
      if StartsWith(source[k], DefPrefix) {
        lines := lines + [Placeholder];
        break;
      }
      k := k + 1;
    }
    assert lines == StubLines(source);
    r := Join(lines, Newline);
  }

  /** Joining a sequence cut in two is joining the two parts with one more separator between them. */
  lemma {:induction false} JoinCut(ls: seq<string>, m: nat, sep: string)
    requires 1 <= m < |ls|
    ensures Join(ls, sep) == Join(ls[..m], sep) + sep + Join(ls[m..], sep)
    decreases m
  {
    if m > 1 {
      JoinCut(ls[1..], m - 1, sep);
      assert ls[1..][..m - 1] == ls[..m][1..];
      assert ls[1..][m - 1..] == ls[m..];
    }
  }

  /** Code without a `def` line is its own stub. */
  lemma StubWithoutDef(code: string)
    requires forall j :: 0 <= j < |Split(code, '\n')| ==> !StartsWith(Split(code, '\n')[j], DefPrefix)
    ensures Stub(code) == code
  {
    JoinSplit(code, '\n');
  }

  /** A join starts with the join of any non-empty prefix of its pieces. */
  lemma JoinPrefix(ls: seq<string>, m: nat, sep: string)
    requires 1 <= m <= |ls|
    ensures StartsWith(Join(ls, sep), Join(ls[..m], sep))
  {
    var head := Join(ls[..m], sep);
    if m < |ls| {
      JoinCut(ls, m, sep);
      assert Join(ls, sep) == head + (sep + Join(ls[m..], sep));
    } else {
      assert ls[..m] == ls;
    }
    assert Join(ls, sep)[..|head|] == head;
  }

  /** The stub lines of lines with a `def` line, joined. */
  lemma StubLinesJoin(ls: seq<string>, sep: string)
    requires FirstDef(ls) < |ls|
    ensures Join(StubLines(ls), sep) == Join(ls[..FirstDef(ls) + 1], sep) + sep + Placeholder
  {
    JoinAppend(ls[..FirstDef(ls) + 1], Placeholder, sep);
  }

  /**
   * Code with a `def` line: the stub is the code up to the end of its first
   * `def` line, unchanged, then a newline and the placeholder; the lines after
   * it are dropped, so the placeholder comes once.
   */
  lemma StubWithDef(code: string)
    requires exists j :: 0 <= j < |Split(code, '\n')| && StartsWith(Split(code, '\n')[j], DefPrefix)
    ensures var ls := Split(code, '\n'); var k := FirstDef(ls);
      k < |ls|
      && Stub(code) == Join(ls[..k + 1], Newline) + Newline + Placeholder
      && StartsWith(code, Join(ls[..k + 1], Newline))
  {
    var ls := Split(code, '\n');
    var k := FirstDef(ls);
    var j :| 0 <= j < |ls| && StartsWith(ls[j], DefPrefix);
    assert k <= j;
    StubLinesJoin(ls, Newline);
    JoinSplit(code, '\n');
    JoinPrefix(ls, k + 1, Newline);
  }
}
