/**
 * The message helpers of espada/core/ai.py: `_extract_content`, which reads the
 * text of a message's content, `_collapse_text_messages`, which merges each
 * run of consecutive messages of one type into a single message, and
 * `ClipboardAI.serialize_messages`.
 */
module Messages {
  import opened PyStr
  import opened LineMaps

  /** One element of a list content: a dict from key to text. */
  datatype Part = Part(fields: seq<(string, string)>)

  /** A message's content: a `str`, a list of parts, or any other value. */
  datatype Content = TextContent(s: string) | ListContent(parts: seq<Part>) | OtherContent

  /** A message: its `type` (which is fixed by its class) and its content. */
  datatype Message = Message(kind: string, content: Content)

  /**
   * `_extract_content`: a `str` as it is; the `"text"` of the first part of a
   * non-empty list when that part has one; `""` otherwise.
   */
  function ExtractContent(c: Content): (r: string)
    ensures c.TextContent? ==> r == c.s
    ensures c.ListContent? && c.parts != [] && HasKey(c.parts[0].fields, "text") ==> r == Get(c.parts[0].fields, "text")
    ensures !c.TextContent? && !(c.ListContent? && c.parts != [] && HasKey(c.parts[0].fields, "text")) ==> r == ""
  {
    match c
    case TextContent(s) => s
    case ListContent(parts) =>
      if parts != [] && HasKey(parts[0].fields, "text") then Get(parts[0].fields, "text") else ""
    case OtherContent => ""
  }

  const Separator: string := "\n\n"

  /**
   * The messages from `rest` on, when the pending run has type `kind` and
   * text `acc`: each following message of the same type extends the run,
   * and a message of another type closes it and opens the next one.
   */
  function Group(kind: string, acc: string, rest: seq<Message>): (r: seq<Message>)
    ensures |r| >= 1 && r[0].kind == kind
    decreases |rest|
  {
    if rest == [] then [Message(kind, TextContent(acc))]
    else if rest[0].kind == kind then Group(kind, acc + Separator + ExtractContent(rest[0].content), rest[1..])
    else [Message(kind, TextContent(acc))] + Group(rest[0].kind, ExtractContent(rest[0].content), rest[1..])
  }

  /** `_collapse_text_messages`. */
  function Collapse(ms: seq<Message>): seq<Message>
  {
    if ms == [] then [] else Group(ms[0].kind, ExtractContent(ms[0].content), ms[1..])
  }

  /** `_collapse_text_messages`, with its `previous_message` / `combined_content` loop. */
  method CollapseTextMessages(messages: seq<Message>) returns (collapsed: seq<Message>)
    ensures collapsed == Collapse(messages)
  {
    collapsed := [];
    if messages == [] {
      return;
    }
    var previous := messages[0];
    var combined := ExtractContent(previous.content);
    for k := 1 to |messages|
      invariant collapsed + Group(previous.kind, combined, messages[k..]) == Collapse(messages)
    {
      var current := messages[k];
      assert messages[k..][0] == current && messages[k..][1..] == messages[k + 1..];
      if current.kind == previous.kind {
        combined := combined + Separator + ExtractContent(current.content);
      } else {
        collapsed := collapsed + [Message(previous.kind, TextContent(combined))];
        previous := current;
        combined := ExtractContent(current.content);
      }
    }
    assert messages[|messages|..] == [];
    collapsed := collapsed + [Message(previous.kind, TextContent(combined))];
  }

  function Kinds(ms: seq<Message>): (r: seq<string>)
    ensures |r| == |ms| && forall i :: 0 <= i < |ms| ==> r[i] == ms[i].kind
  {
    seq(|ms|, i requires 0 <= i < |ms| => ms[i].kind)
  }

  /** A sequence with each run of equal neighbours kept once. */
  function Dedup(ks: seq<string>): seq<string>
    decreases |ks|
  {
    if |ks| <= 1 then ks
    else if ks[0] == ks[1] then Dedup(ks[1..])
    else [ks[0]] + Dedup(ks[1..])
  }

  lemma {:induction false} DedupShorter(ks: seq<string>)
    ensures |Dedup(ks)| <= |ks|
    decreases |ks|
  {
    if |ks| > 1 {
      DedupShorter(ks[1..]);
    }
  }

  /** The types of a run's output are the deduplicated types of the run's type followed by the rest's. */
  lemma {:induction false} GroupKinds(kind: string, acc: string, rest: seq<Message>)
    ensures Kinds(Group(kind, acc, rest)) == Dedup([kind] + Kinds(rest))
    decreases |rest|
  {
    var ks := [kind] + Kinds(rest);
    if rest != [] {
      var next, more := rest[0], rest[1..];
      var text := ExtractContent(next.content);
      assert Kinds(rest) == [next.kind] + Kinds(more);
      assert ks[1..] == Kinds(rest) && ks[1] == next.kind;
      if next.kind == kind {
        var acc' := acc + Separator + text;
        assert Group(kind, acc, rest) == Group(kind, acc', more);
        GroupKinds(kind, acc', more);
        assert Dedup(ks) == Dedup(ks[1..]);
      } else {
        var tail := Group(next.kind, text, more);
        assert Group(kind, acc, rest) == [Message(kind, TextContent(acc))] + tail;
        GroupKinds(next.kind, text, more);
        assert Kinds([Message(kind, TextContent(acc))] + tail) == [kind] + Kinds(tail);
        assert Dedup(ks) == [kind] + Dedup(ks[1..]);
      }
    }
  }

  /**
   * The output types are the input types with consecutive duplicates
   * collapsed, so the output is no longer than the input, and empty exactly
   * when the input is.
   */
  lemma CollapseKinds(ms: seq<Message>)
    ensures Kinds(Collapse(ms)) == Dedup(Kinds(ms))
    ensures |Collapse(ms)| <= |ms| && (Collapse(ms) == [] <==> ms == [])
  {
    if ms != [] {
      GroupKinds(ms[0].kind, ExtractContent(ms[0].content), ms[1..]);
      assert Kinds(ms) == [ms[0].kind] + Kinds(ms[1..]);
    }
    DedupShorter(Kinds(ms));
  }

  /** No two neighbouring messages share a type. */
  predicate Alternates(ms: seq<Message>)
  {
    forall i :: 0 <= i < |ms| - 1 ==> ms[i].kind != ms[i + 1].kind
  }

  /** No two neighbours of a run's output share a type. */
  lemma {:induction false} GroupAlternates(kind: string, acc: string, rest: seq<Message>)
    ensures Alternates(Group(kind, acc, rest))
    decreases |rest|
  {
    if rest != [] {
      if rest[0].kind == kind {
        GroupAlternates(kind, acc + Separator + ExtractContent(rest[0].content), rest[1..]);
      } else {
        var tail := Group(rest[0].kind, ExtractContent(rest[0].content), rest[1..]);
        GroupAlternates(rest[0].kind, ExtractContent(rest[0].content), rest[1..]);
        var r := [Message(kind, TextContent(acc))] + tail;
        forall i | 0 <= i < |r| - 1
          ensures r[i].kind != r[i + 1].kind
        {
          assert r[i + 1] == tail[i];
          if i > 0 {
            assert r[i] == tail[i - 1];
          }
        }
      }
    }
  }

  /** No two adjacent output messages share a type. */
  lemma CollapseAlternates(ms: seq<Message>)
    ensures Alternates(Collapse(ms))
  {
    if ms != [] {
      GroupAlternates(ms[0].kind, ExtractContent(ms[0].content), ms[1..]);
    }
  }

  function Extracts(ms: seq<Message>): (r: seq<string>)
    ensures |r| == |ms| && forall i :: 0 <= i < |ms| ==> r[i] == ExtractContent(ms[i].content)
  {
    seq(|ms|, i requires 0 <= i < |ms| => ExtractContent(ms[i].content))
  }

  predicate OfKind(ms: seq<Message>, kind: string)
  {
    forall i :: 0 <= i < |ms| ==> ms[i].kind == kind
  }

  /** A pending run extended by messages of its own type: their texts joined to it with blank lines. */
  lemma {:induction false} GroupSameKind(kind: string, acc: string, rest: seq<Message>)
    requires OfKind(rest, kind)
    ensures Group(kind, acc, rest) == [Message(kind, TextContent(Join([acc] + Extracts(rest), Separator)))]
    decreases |rest|
  {
    if rest != [] {
      var acc' := acc + Separator + ExtractContent(rest[0].content);
      GroupSameKind(kind, acc', rest[1..]);
      var es := Extracts(rest[1..]);
      assert Extracts(rest) == [ExtractContent(rest[0].content)] + es;
      JoinFirstTwo(acc, ExtractContent(rest[0].content), es, Separator);
    }
  }

  /** Joining `[a, b] + rest` is joining `[a + sep + b] + rest`. */
  lemma JoinFirstTwo(a: string, b: string, rest: seq<string>, sep: string)
    ensures Join([a] + ([b] + rest), sep) == Join([a + sep + b] + rest, sep)
  {
    assert ([a] + ([b] + rest))[1..] == [b] + rest;
    if rest != [] {
      assert ([b] + rest)[1..] == rest;
      assert ([a + sep + b] + rest)[1..] == rest;
    }
  }

  /** A run of messages of one type collapses into one message whose content is their texts joined with blank lines. */
  lemma CollapseOneRun(ms: seq<Message>, kind: string)
    requires ms != [] && OfKind(ms, kind)
    ensures Collapse(ms) == [Message(kind, TextContent(Join(Extracts(ms), Separator)))]
  {
    GroupSameKind(kind, ExtractContent(ms[0].content), ms[1..]);
    assert Extracts(ms) == [ExtractContent(ms[0].content)] + Extracts(ms[1..]);
  }

  /**
   * Where the type changes, the collapse splits: the output of `a + b` is the
   * output of `a` followed by the output of `b`, when the last message of `a`
   * and the first of `b` differ in type.
   */
  lemma CollapseSplits(a: seq<Message>, b: seq<Message>)
    requires a != [] && b != [] && a[|a| - 1].kind != b[0].kind
    ensures Collapse(a + b) == Collapse(a) + Collapse(b)
  {
    assert (a + b)[1..] == a[1..] + b;
    GroupSplits(a[0].kind, ExtractContent(a[0].content), a[1..], b);
  }

  lemma {:induction false} GroupSplits(kind: string, acc: string, rest: seq<Message>, b: seq<Message>)
    requires b != [] && (if rest == [] then kind else rest[|rest| - 1].kind) != b[0].kind
    ensures Group(kind, acc, rest + b) == Group(kind, acc, rest) + Collapse(b)
    decreases |rest|
  {
    if rest == [] {
      assert rest + b == b;
    } else {
      assert (rest + b)[0] == rest[0] && (rest + b)[1..] == rest[1..] + b;
      if rest[0].kind == kind {
        GroupSplits(kind, acc + Separator + ExtractContent(rest[0].content), rest[1..], b);
      } else {
        GroupSplits(rest[0].kind, ExtractContent(rest[0].content), rest[1..], b);
      }
    }
  }

  /** The text `f"{m.type}:\n{m.content}"` of a message with `str` content. */
  function MessageText(m: Message): string
    requires m.content.TextContent?
  {
    m.kind + ":\n" + m.content.s
  }

  predicate AllText(ms: seq<Message>)
  {
    forall i :: 0 <= i < |ms| ==> ms[i].content.TextContent?
  }

  /** `ClipboardAI.serialize_messages`: the messages' texts joined with blank lines, in order. */
  function SerializeMessages(ms: seq<Message>): (r: string)
    requires AllText(ms)
  {
    Join(seq(|ms|, i requires 0 <= i < |ms| && AllText(ms) => MessageText(ms[i])), Separator)
  }

  /** Serializing one more message adds a blank line and that message's text at the end. */
  lemma SerializeAppend(ms: seq<Message>, m: Message)
    requires AllText(ms) && m.content.TextContent? && ms != []
    ensures AllText(ms + [m]) && SerializeMessages(ms + [m]) == SerializeMessages(ms) + "\n\n" + m.kind + ":\n" + m.content.s
  {
    var ms' := ms + [m];
    var parts := seq(|ms|, i requires 0 <= i < |ms| && AllText(ms) => MessageText(ms[i]));
    assert seq(|ms'|, i requires 0 <= i < |ms'| && AllText(ms') => MessageText(ms'[i])) == parts + [MessageText(m)];
    JoinAppend(parts, MessageText(m), Separator);
  }
}
