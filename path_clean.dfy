/**
 * The clean-up `chat_to_files_dict` in espada/core/chat_to_files.py applies to
 * each file name it finds, and to each file's content. The name is what the
 * regular expression `(\S+)` captured, so it holds no white space; that is why
 * `.` in the patterns below matches any of its characters.
 */
module PathClean {
  import opened PyStr

  /** The characters of the class `[\:<>"|?*]`, which the first substitution deletes. */
  predicate Forbidden(c: char)
  {
    c == ':' || c == '<' || c == '>' || c == '"' || c == '|' || c == '?' || c == '*'
  }

  predicate NoForbidden(s: string)
  {
    forall i :: 0 <= i < |s| ==> !Forbidden(s[i])
  }

  predicate NoSpace(s: string)
  {
    forall i :: 0 <= i < |s| ==> !IsSpace(s[i])
  }

  /** `re.sub(r'[\:<>"|?*]', "", s)`: every forbidden character deleted, the rest kept in order. */
  function DeleteForbidden(s: string): (r: string)
    ensures NoForbidden(r) && |r| <= |s|
    ensures NoSpace(s) ==> NoSpace(r)
    decreases |s|
  {
    if s == [] then []
    else (if Forbidden(s[0]) then [] else [s[0]]) + DeleteForbidden(s[1..])
  }

  /** `re.sub(r"^<open>(.*)<close>$", r"\1", s)` on a string without white space: the one pair of outer characters dropped. */
  function Unwrap(s: string, open: char, close: char): (r: string)
  {
    if |s| >= 2 && s[0] == open && s[|s| - 1] == close then s[1..|s| - 1] else s
  }

  /** `re.sub(r"[\]\:]$", "", s)`: one final `]` or `:` dropped. */
  function DropFinal(s: string): (r: string)
  {
    if s != [] && (s[|s| - 1] == ']' || s[|s| - 1] == ':') then s[..|s| - 1] else s
  }

  /** The last three substitutions, then `strip()`. */
  function Tidy(d: string): string
  {
    Strip(DropFinal(Unwrap(Unwrap(d, '[', ']'), '`', '`')))
  }

  /** The four substitutions on a captured name, then `strip()`. */
  function CleanPath(raw: string): string
    requires NoSpace(raw)
  {
    Tidy(DeleteForbidden(raw))
  }

  /** The content is stored stripped. */
  function CleanContent(content: string): string
  {
    Strip(content)
  }

  /** A slice of a string without forbidden characters has none either. */
  lemma SliceNoForbidden(s: string, a: nat, b: nat)
    requires NoForbidden(s) && a <= b <= |s|
    ensures NoForbidden(s[a..b])
  {
    assert forall i :: 0 <= i < b - a ==> s[a..b][i] == s[a + i];
  }

  /** `strip()` only removes characters from the two ends. */
  lemma StripSlice(s: string)
    ensures exists a, b :: 0 <= a <= b <= |s| && Strip(s) == s[a..b]
  {
    var l := StripLeft(s);
    var a := |s| - |l|;
    var r := StripRight(l);
    assert r == l[..|r|] && l == s[a..];
    assert r == s[a..a + |r|];
  }

  /**
   * A cleaned name holds none of `: < > " | ? *`, and neither starts nor
   * ends with white space.
   */
  lemma CleanPathSafe(raw: string)
    requires NoSpace(raw)
    ensures NoForbidden(CleanPath(raw))
    ensures CleanPath(raw) != [] ==> !IsSpace(CleanPath(raw)[0]) && !IsSpace(CleanPath(raw)[|CleanPath(raw)| - 1])
  {
    var d := DeleteForbidden(raw);
    var u1 := Unwrap(d, '[', ']');
    UnwrapNoForbidden(d, '[', ']');
    var u2 := Unwrap(u1, '`', '`');
    UnwrapNoForbidden(u1, '`', '`');
    var f := DropFinal(u2);
    DropFinalNoForbidden(u2);
    StripNoForbidden(f);
    assert CleanPath(raw) == Strip(f);
  }

  lemma UnwrapNoForbidden(s: string, open: char, close: char)
    requires NoForbidden(s)
    ensures NoForbidden(Unwrap(s, open, close))
  {
    if |s| >= 2 && s[0] == open && s[|s| - 1] == close {
      SliceNoForbidden(s, 1, |s| - 1);
    }
  }

  lemma DropFinalNoForbidden(s: string)
    requires NoForbidden(s)
    ensures NoForbidden(DropFinal(s))
  {
    if DropFinal(s) != s {
      SliceNoForbidden(s, 0, |s| - 1);
    }
  }

  /** `strip()` keeps a text free of forbidden characters so, and leaves no white space at either end. */
  lemma StripNoForbidden(f: string)
    requires NoForbidden(f)
    ensures NoForbidden(Strip(f))
    ensures Strip(f) != [] ==> !IsSpace(Strip(f)[0]) && !IsSpace(Strip(f)[|Strip(f)| - 1])
  {
    StripSlice(f);
    var a, b :| 0 <= a <= b <= |f| && Strip(f) == f[a..b];
    SliceNoForbidden(f, a, b);
  }

  /** A name that needs no cleaning, with no brackets, backticks, forbidden characters or white space. */
  predicate Plain(x: string)
  {
    NoForbidden(x) && NoSpace(x) && forall i :: 0 <= i < |x| ==> x[i] != '[' && x[i] != ']' && x[i] != '`'
  }

  lemma DeleteNothing(x: string)
    requires NoForbidden(x)
    ensures DeleteForbidden(x) == x
    decreases |x|
  {
    if x != [] {
      DeleteNothing(x[1..]);
    }
  }

  /** Past the deletion, a plain name goes through every step unchanged. */
  lemma PlainSteps(x: string)
    requires Plain(x)
    ensures Tidy(x) == x
  {
    PlainUnwrapped(x);
    if x != [] {
      assert !Forbidden(x[|x| - 1]) && x[|x| - 1] != ']';
      assert DropFinal(x) == x;
      StripNoSpaceEnds(x);
    }
  }

  /** A plain name is kept as it is. */
  lemma CleanPathPlain(x: string)
    requires Plain(x)
    ensures CleanPath(x) == x
  {
    DeleteNothing(x);
    PlainSteps(x);
  }

  /** A plain name between two characters that are neither forbidden nor white space loses just those two to the deletion and the unwrapping. */
  lemma UnwrapPlain(x: string, w: string, open: char, close: char)
    requires Plain(x) && w == [open] + x + [close]
    requires !Forbidden(open) && !IsSpace(open) && !Forbidden(close) && !IsSpace(close)
    ensures NoSpace(w) && DeleteForbidden(w) == w && Unwrap(w, open, close) == x
  {
    assert w[1..|w| - 1] == x;
    forall i | 1 <= i < |w| - 1
      ensures w[i] == x[i - 1]
    {
      assert w[1..|w| - 1][i - 1] == w[i];
    }
    DeleteNothing(w);
  }

  /** A plain name wrapped in square brackets, or in backticks, is unwrapped to it. */
  lemma CleanPathUnwraps(x: string, open: char, close: char)
    requires Plain(x) && ((open == '[' && close == ']') || (open == '`' && close == '`'))
    ensures NoSpace([open] + x + [close]) && CleanPath([open] + x + [close]) == x
  {
    var w := [open] + x + [close];
    UnwrapPlain(x, w, open, close);
    TidyWrapped(x, w, open);
  }

  lemma TidyWrapped(x: string, w: string, open: char)
    requires Plain(x) && |w| >= 2 && w[1..|w| - 1] == x
    requires (open == '[' && w[0] == '[' && w[|w| - 1] == ']') || (open == '`' && w[0] == '`' && w[|w| - 1] == '`')
    ensures Tidy(w) == x
  {
    var u1 := Unwrap(w, '[', ']');
    PlainUnwrapped(x);
    if open == '[' {
      assert u1 == x;
    } else {
      assert u1 == w;
    }
    assert Unwrap(u1, '`', '`') == x;
    PlainSteps(x);
    assert Tidy(w) == Strip(DropFinal(x)) == Tidy(x);
  }

  /** Neither unwrapping touches a plain name. */
  lemma PlainUnwrapped(x: string)
    requires Plain(x)
    ensures Unwrap(x, '[', ']') == x && Unwrap(x, '`', '`') == x
  {
    if |x| >= 2 {
      assert x[0] != '[' && x[0] != '`';
    }
  }
}
