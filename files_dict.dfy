/**
 * The `FilesDict` class of espada/core/files_dict.py: a dict from file name
 * to file content, in insertion order, whose item assignment checks the types
 * of what it is given, and its two renderings, `to_chat` (numbered lines in a
 * fenced block) and `to_log` (names and contents one after the other).
 */
module FilesDicts {
  import opened PyStr
  import opened Wrappers
  import opened LineMaps

  type Files = seq<(string, string)>

  /**
   * A Python value handed to `__setitem__`: a `str`, a `Path` (kept as its
   * text), or a value of any other type.
   */
  datatype PyValue = Str(s: string) | PathValue(p: string) | Other

  /** The name a `str` or `Path` key stands for. */
  function KeyText(k: PyValue): string
    requires !k.Other?
  {
    if k.Str? then k.s else k.p
  }

  const KeyTypeError: string := "Keys must be strings or Path's"
  const ValueTypeError: string := "Values must be strings"

  /** What one file contributes to `to_log`. */
  function LogBlock(name: string, content: string): string
  {
    "File: " + name + "\n" + content + "\n"
  }

  /** `to_log`: the blocks of all files, in dict order. */
  function LogText(fs: Files): string
  {
    Concat(seq(|fs|, i requires 0 <= i < |fs| => LogBlock(fs[i].0, fs[i].1)))
  }

  /** One numbered line of `to_chat`. */
  function NumberedLine(e: (int, string)): string
  {
    IntToString(e.0) + " " + e.1 + "\n"
  }

  /** The numbered lines of a file's content, one after the other. */
  function NumberedLines(content: string): string
  {
    var ls := FileToLinesDict(content);
    Concat(seq(|ls|, i requires 0 <= i < |ls| => NumberedLine(ls[i])))
  }

  /** What one file contributes to `to_chat`: its name, its numbered lines, a blank line. */
  function ChatBlock(name: string, content: string): string
  {
    "File: " + name + "\n" + NumberedLines(content) + "\n"
  }

  /** `to_chat`: the blocks of all files, in dict order, inside a fenced block. */
  function ChatText(fs: Files): string
  {
    "```\n" + Concat(seq(|fs|, i requires 0 <= i < |fs| => ChatBlock(fs[i].0, fs[i].1))) + "```"
  }

  /** A prefix of a comprehension is the comprehension over the prefix. */
  lemma ConcatPrefixStep(parts: seq<string>, k: nat)
    requires k < |parts|
    ensures Concat(parts[..k + 1]) == Concat(parts[..k]) + parts[k]
  {
    assert parts[..k + 1] == parts[..k] + [parts[k]];
    ConcatAppend(parts[..k], parts[k]);
  }

  class FilesDict {
    var entries: Files

    /** `FilesDict(d)`: a dict with the entries of `d`, in their order. */
    constructor(init: Files)
      ensures entries == init
    {
      entries := init;
    }

    /**
     * `__setitem__`: a key that is neither a `str` nor a `Path` is refused
     * first, then a value that is not a `str`; the error message is returned
     * and the dict is left as it was. Otherwise the entry is stored as
     * `dict.__setitem__` does it.
     */
    method SetItem(key: PyValue, value: PyValue) returns (err: Option<string>)
      modifies this
      ensures key.Other? ==> err == Some(KeyTypeError) && entries == old(entries)
      ensures !key.Other? && !value.Str? ==> err == Some(ValueTypeError) && entries == old(entries)
      ensures !key.Other? && value.Str? ==> err == None && entries == Put(old(entries), KeyText(key), value.s)
    {
      if key.Other? {
        return Some(KeyTypeError);
      }
      if !value.Str? {
        return Some(ValueTypeError);
      }
      entries := Put(entries, KeyText(key), value.s);
      return None;
    }

    /** `to_chat`, accumulating the text file by file and line by line. */
    method ToChat() returns (r: string)
      ensures r == ChatText(entries)
    {
      var fs := entries;
      ghost var blocks := seq(|fs|, i requires 0 <= i < |fs| => ChatBlock(fs[i].0, fs[i].1));
      var chat := "";
      for k := 0 to |fs|
        invariant chat == Concat(blocks[..k])
      {
        var block := FileChat(fs[k].0, fs[k].1);
        ConcatPrefixStep(blocks, k);
        chat := chat + block;
      }
      assert blocks[..|fs|] == blocks;
      r := "```\n" + chat + "```";
    }

    /** `to_log`, accumulating the text file by file. */
    method ToLog() returns (r: string)
      ensures r == LogText(entries)
    {
      var fs := entries;
      ghost var blocks := seq(|fs|, i requires 0 <= i < |fs| => LogBlock(fs[i].0, fs[i].1));
      var log := "";
      for k := 0 to |fs|
        invariant log == Concat(blocks[..k])
      {
        ConcatPrefixStep(blocks, k);
        log := log + "File: " + fs[k].0 + "\n";
        log := log + fs[k].1;
        log := log + "\n";
      }
      assert blocks[..|fs|] == blocks;
      r := log;
    }
  }

  /** The body of the outer loop of `to_chat` for one file. */
  method FileChat(name: string, content: string) returns (r: string)
    ensures r == ChatBlock(name, content)
  {
    var ls := FileToLinesDict(content);
    ghost var numbered := seq(|ls|, i requires 0 <= i < |ls| => NumberedLine(ls[i]));
    var body := "";
    for j := 0 to |ls|
      invariant body == Concat(numbered[..j])
    {
      ConcatPrefixStep(numbered, j);
      body := body + NumberedLine(ls[j]);
    }
    assert numbered[..|ls|] == numbered;
    r := "File: " + name + "\n" + body + "\n";
  }

  /**
   * The numbered lines of `to_chat` for one file: line `i + 1` of the content,
   * for each of its `k` lines, where `k` is one more than its number of
   * newlines; the texts are the content's lines, in order.
   */
  lemma NumberedLinesOf(content: string)
    ensures var ls := Split(content, '\n');
      |ls| == CountChar(content, '\n') + 1
      && NumberedLines(content) == Concat(seq(|ls|, i requires 0 <= i < |ls| => NatToString(i + 1) + " " + ls[i] + "\n"))
  {
    LinesDictKeys(content);
    var ls := Split(content, '\n');
    var m := FileToLinesDict(content);
    assert seq(|m|, i requires 0 <= i < |m| => NumberedLine(m[i]))
        == seq(|ls|, i requires 0 <= i < |ls| => NatToString(i + 1) + " " + ls[i] + "\n");
  }

  /** The log of one more file is the old log followed by that file's name, content and a newline. */
  lemma LogTextAppend(fs: Files, name: string, content: string)
    ensures LogText(fs + [(name, content)]) == LogText(fs) + "File: " + name + "\n" + content + "\n"
  {
    var blocks := seq(|fs|, i requires 0 <= i < |fs| => LogBlock(fs[i].0, fs[i].1));
    var fs' := fs + [(name, content)];
    assert seq(|fs'|, i requires 0 <= i < |fs'| => LogBlock(fs'[i].0, fs'[i].1)) == blocks + [LogBlock(name, content)];
    ConcatAppend(blocks, LogBlock(name, content));
  }

  /** The chat text of one more file inserts that file's block before the closing fence. */
  lemma ChatTextAppend(fs: Files, name: string, content: string)
    ensures ChatText(fs + [(name, content)]) == ChatText(fs)[..|ChatText(fs)| - 3] + ChatBlock(name, content) + "```"
  {
    var blocks := seq(|fs|, i requires 0 <= i < |fs| => ChatBlock(fs[i].0, fs[i].1));
    var fs' := fs + [(name, content)];
    assert seq(|fs'|, i requires 0 <= i < |fs'| => ChatBlock(fs'[i].0, fs'[i].1)) == blocks + [ChatBlock(name, content)];
    ConcatAppend(blocks, ChatBlock(name, content));
    FenceAppend("```\n", Concat(blocks), ChatBlock(name, content), "```");
  }

  /** Cutting the closing fence off a fenced text, adding `b` and closing again is fencing the body followed by `b`. */
  lemma FenceAppend(open: string, body: string, b: string, close: string)
    ensures var t := open + body + close;
      t[..|t| - |close|] + b + close == open + (body + b) + close
  {
    var t := open + body + close;
    assert t[..|t| - |close|] == open + body;
  }

  /**
   * A successful assignment: the key now reads back the value, every other
   * key keeps its value and place, and a new key goes at the end.
   */
  lemma SetItemReads(fs: Files, key: string, value: string, other: string)
    requires other != key
    ensures HasKey(Put(fs, key, value), key) && Get(Put(fs, key, value), key) == value
    ensures HasKey(Put(fs, key, value), other) <==> HasKey(fs, other)
    ensures HasKey(fs, other) ==> Get(Put(fs, key, value), other) == Get(fs, other)
    ensures !HasKey(fs, key) ==> Put(fs, key, value) == fs + [(key, value)]
  {
    PutOther(fs, key, value, other);
    PutShape(fs, key, value);
  }
}
