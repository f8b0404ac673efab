/**
 * `parse_hunk_header` of espada/core/chat_to_files.py: a line of the form
 * `@@ -a,b +c,d @@` (each field one or more ASCII digits) gives the four
 * numbers; any other line gives (0, 0, 0, 0). The regular expression is
 * anchored with `^` and `$`, and Python's `$` also matches just before a
 * final newline, so the same line followed by one `\n` is accepted too.
 */
module HeaderParse {
  import opened PyStr
  import opened Wrappers
  import opened HunkSpec

  /** The length of the longest prefix of `s` made of ASCII digits. */
  function DigitRun(s: string): (n: nat)
    ensures n <= |s| && AllDigits(s[..n]) && (n < |s| ==> !IsDigit(s[n]))
    decreases |s|
  {
    if s != [] && IsDigit(s[0]) then
      var n := 1 + DigitRun(s[1..]);
      assert s[..n] == [s[0]] + s[1..][..n - 1];
      n
    else 0
  }

  /** One `\d{1,}` field followed by the literal `sep`: the digits and what comes after `sep`. */
  function Field(s: string, sep: string): (r: Option<(string, string)>)
    ensures r.Some? ==> r.value.0 != [] && AllDigits(r.value.0) && s == r.value.0 + sep + r.value.1
  {
    var n := DigitRun(s);
    if n > 0 && StartsWith(s[n..], sep) then
      assert s == s[..n] + s[n..][..|sep|] + s[n + |sep|..];
      Some((s[..n], s[n + |sep|..]))
    else None
  }

  /** The four digit strings of a header line. */
  datatype HeaderDigits = HeaderDigits(a: string, b: string, c: string, d: string)

  predicate WellFormed(h: HeaderDigits)
  {
    h.a != [] && h.b != [] && h.c != [] && h.d != []
    && AllDigits(h.a) && AllDigits(h.b) && AllDigits(h.c) && AllDigits(h.d)
  }

  /**
   * The line `^@@ -\d{1,},\d{1,} \+\d{1,},\d{1,} @@$` matches, written out
   * from its four fields and what follows the closing `@@`, one field at a time.
   */
  function HeaderLine(h: HeaderDigits, tail: string): string
  {
    "@@ -" + FromA(h, tail)
  }

  function FromA(h: HeaderDigits, tail: string): string
  {
    h.a + "," + FromB(h, tail)
  }

  function FromB(h: HeaderDigits, tail: string): string
  {
    h.b + " +" + FromC(h, tail)
  }

  function FromC(h: HeaderDigits, tail: string): string
  {
    h.c + "," + FromD(h, tail)
  }

  function FromD(h: HeaderDigits, tail: string): string
  {
    h.d + " @@" + tail
  }

  /** The regular-expression match, as a scan from left to right. */
  function ScanHeader(l: string): (r: Option<HeaderDigits>)
    ensures r.Some? ==> WellFormed(r.value) && (l == HeaderLine(r.value, "") || l == HeaderLine(r.value, "\n"))
  {
    if !StartsWith(l, "@@ -") then None
    else
      match Field(l[4..], ",")
      case None => None
      case Some((a, r1)) =>
        match Field(r1, " +")
        case None => None
        case Some((b, r2)) =>
          match Field(r2, ",")
          case None => None
          case Some((c, r3)) =>
            match Field(r3, " @@")
            case None => None
            case Some((d, r4)) =>
              if r4 == "" || r4 == "\n" then
                var h := HeaderDigits(a, b, c, d);
                assert r3 == FromD(h, r4) && r2 == FromC(h, r4) && r1 == FromB(h, r4) && l[4..] == FromA(h, r4);
                assert l == "@@ -" + l[4..];
                Some(h)
              else None
  }

  /** `parse_hunk_header`: the four numbers of a matching line, (0, 0, 0, 0) for any other line. */
  function ParseHunkHeader(l: string): (int, int, int, int)
  {
    match ScanHeader(l)
    case None => (0, 0, 0, 0)
    case Some(h) => (DigitsValue(h.a), DigitsValue(h.b), DigitsValue(h.c), DigitsValue(h.d))
  }

  lemma {:induction false} DigitRunStops(p: string, x: string)
    requires AllDigits(p) && (x == [] || !IsDigit(x[0]))
    ensures DigitRun(p + x) == |p|
    decreases |p|
  {
    if p != [] {
      assert (p + x)[1..] == p[1..] + x;
      DigitRunStops(p[1..], x);
    }
  }

  lemma FieldOf(p: string, sep: string, rest: string)
    requires p != [] && AllDigits(p) && sep != [] && !IsDigit(sep[0])
    ensures Field(p + sep + rest, sep) == Some((p, rest))
  {
    var s := p + sep + rest;
    assert s == p + (sep + rest);
    DigitRunStops(p, sep + rest);
    assert s[..|p|] == p && s[|p|..] == sep + rest;
  }

  /** Every well-formed header line, with or without one final newline, is matched and its fields recovered. */
  lemma ScanHeaderComplete(h: HeaderDigits, tail: string)
    requires WellFormed(h) && (tail == "" || tail == "\n")
    ensures ScanHeader(HeaderLine(h, tail)) == Some(h)
  {
    var l := HeaderLine(h, tail);
    assert l[..4] == "@@ -" && l[4..] == FromA(h, tail);
    FieldOf(h.a, ",", FromB(h, tail));
    FieldOf(h.b, " +", FromC(h, tail));
    FieldOf(h.c, ",", FromD(h, tail));
    FieldOf(h.d, " @@", tail);
  }

  /**
   * A line is matched exactly when it is a well-formed header line, possibly
   * followed by one newline; the fields are then read as decimal numbers.
   */
  lemma ParseHunkHeaderMatches(h: HeaderDigits, tail: string)
    requires WellFormed(h) && (tail == "" || tail == "\n")
    ensures ParseHunkHeader(HeaderLine(h, tail)) == (DigitsValue(h.a), DigitsValue(h.b), DigitsValue(h.c), DigitsValue(h.d))
  {
    ScanHeaderComplete(h, tail);
  }

  /** Any line that is not a header line gives (0, 0, 0, 0). */
  lemma ParseHunkHeaderDefault(l: string)
    requires forall h :: WellFormed(h) ==> l != HeaderLine(h, "") && l != HeaderLine(h, "\n")
    ensures ParseHunkHeader(l) == (0, 0, 0, 0)
  {
  }

  /** The four fields `hunk_to_string` writes into a header. */
  function Written(s: HunkState): HeaderDigits
  {
    HeaderDigits(IntToString(s.startPre), IntToString(s.lenPre), IntToString(s.startPost), IntToString(s.lenPost))
  }

  /** `hunk_to_string`'s header line, field by field. */
  lemma HeaderTextFields(s: HunkState)
    ensures HeaderText(s) == HeaderLine(Written(s), "\n")
  {
  }

  /** The header line of a hunk with no negative number reads back as its four numbers. */
  lemma HeaderLineReads(s: HunkState)
    requires s.startPre >= 0 && s.lenPre >= 0 && s.startPost >= 0 && s.lenPost >= 0
    ensures ParseHunkHeader(HeaderLine(Written(s), "")) == (s.startPre, s.lenPre, s.startPost, s.lenPost)
    ensures ParseHunkHeader(HeaderLine(Written(s), "\n")) == (s.startPre, s.lenPre, s.startPost, s.lenPost)
  {
    var h := Written(s);
    ParseHunkHeaderMatches(h, "");
    ParseHunkHeaderMatches(h, "\n");
    DigitsValueOfNatToString(s.startPre);
    DigitsValueOfNatToString(s.lenPre);
    DigitsValueOfNatToString(s.startPost);
    DigitsValueOfNatToString(s.lenPost);
  }

  /** A header line with its newline is the same line without it, followed by `\n`. */
  lemma HeaderLineNewline(h: HeaderDigits)
    ensures HeaderLine(h, "\n") == HeaderLine(h, "") + "\n"
  {
    assert FromD(h, "\n") == FromD(h, "") + "\n";
    assert FromC(h, "\n") == FromC(h, "") + "\n";
    assert FromB(h, "\n") == FromB(h, "") + "\n";
    assert FromA(h, "\n") == FromA(h, "") + "\n";
  }

  /** `parse_hunk_header` reads back the four numbers of the header `hunk_to_string` writes, when none is negative. */
  lemma HeaderRoundTrip(s: HunkState)
    requires s.startPre >= 0 && s.lenPre >= 0 && s.startPost >= 0 && s.lenPost >= 0
    ensures ParseHunkHeader(HeaderText(s)) == (s.startPre, s.lenPre, s.startPost, s.lenPost)
    ensures ParseHunkHeader(HeaderText(s)[..|HeaderText(s)| - 1]) == (s.startPre, s.lenPre, s.startPost, s.lenPost)
  {
    var h := Written(s);
    HeaderTextFields(s);
    HeaderLineNewline(h);
    assert HeaderText(s)[..|HeaderText(s)| - 1] == HeaderLine(h, "");
    HeaderLineReads(s);
  }

  lemma FieldRejects(p: string, sep: string, rest: string)
    requires p != [] && p[0] == '-'
    ensures Field(p + sep + rest, sep) == None
  {
    assert (p + sep + rest)[0] == '-';
  }

  /** A header written with a negative start or length is not read back: the line parses as (0, 0, 0, 0). */
  lemma NegativeHeaderRejected(s: HunkState)
    requires s.startPre < 0 || s.lenPre < 0 || s.startPost < 0 || s.lenPost < 0
    ensures ParseHunkHeader(HeaderText(s)) == (0, 0, 0, 0)
  {
    var h := Written(s);
    HeaderTextFields(s);
    var l := HeaderText(s);
    assert l[..4] == "@@ -" && l[4..] == FromA(h, "\n");
    if s.startPre < 0 {
      FieldRejects(h.a, ",", FromB(h, "\n"));
    } else {
      FieldOf(h.a, ",", FromB(h, "\n"));
      if s.lenPre < 0 {
        FieldRejects(h.b, " +", FromC(h, "\n"));
      } else {
        FieldOf(h.b, " +", FromC(h, "\n"));
        if s.startPost < 0 {
          FieldRejects(h.c, ",", FromD(h, "\n"));
        } else {
          FieldOf(h.c, ",", FromD(h, "\n"));
          FieldRejects(h.d, " @@", "\n");
        }
      }
    }
  }
}
