/**
 * Token bookkeeping of espada/core/token_usage.py: how many tokens a prompt
 * costs (`Tokenizer.num_tokens_from_messages`), and the `TokenUsageLog` that
 * keeps cumulative counters and one entry per step. The tokenizer itself is a
 * parameter `count`, standing for `Tokenizer.num_tokens`.
 */
module TokenUsage {
  import opened PyStr
  import opened Wrappers

  /** One entry of the log, the `TokenUsage` dataclass. */
  datatype Usage = Usage(
    stepName: string,
    stepPrompt: nat, stepCompletion: nat, stepTotal: nat,
    totalPrompt: nat, totalCompletion: nat, total: nat)

  /**
   * An element of a list content: a `"text"` item, an `"image_url"` item
   * (its `detail`, `"high"` when absent, and what the decoded image would
   * cost at high detail), or an item of any other type.
   */
  datatype Item = TextItem(text: string) | ImageItem(detail: string, highCost: nat) | OtherItem

  datatype Content = StrContent(s: string) | ListContent(items: seq<Item>) | OtherContent

  const LowDetailCost: nat := 85
  const LowDetail: string := "low"

  /** `num_tokens_for_base64_image`: a low-detail image costs a fixed 85 tokens. */
  function ImageTokens(detail: string, highCost: nat): (r: nat)
    ensures detail == LowDetail ==> r == 85
    ensures detail != LowDetail ==> r == highCost
  {
    if detail == LowDetail then LowDetailCost else highCost
  }

  function ItemTokens(count: string -> nat, item: Item): nat
  {
    match item
    case TextItem(text) => count(text)
    case ImageItem(detail, highCost) => ImageTokens(detail, highCost)
    case OtherItem => 0
  }

  /** The tokens of the items of a list content, added up in order. */
  function ItemsTokens(count: string -> nat, items: seq<Item>): nat
    decreases |items|
  {
    if items == [] then 0 else ItemsTokens(count, items[..|items| - 1]) + ItemTokens(count, items[|items| - 1])
  }

  function ContentTokens(count: string -> nat, c: Content): nat
  {
    match c
    case StrContent(s) => count(s)
    case ListContent(items) => ItemsTokens(count, items)
    case OtherContent => 0
  }

  /** Four framing tokens before a message's content and two after it. */
  function MessageTokens(count: string -> nat, c: Content): nat
  {
    4 + ContentTokens(count, c) + 2
  }

  /** The tokens of a prompt: the messages' tokens added up. */
  function MessagesTokens(count: string -> nat, ms: seq<Content>): nat
    decreases |ms|
  {
    if ms == [] then 0 else MessagesTokens(count, ms[..|ms| - 1]) + MessageTokens(count, ms[|ms| - 1])
  }

  /** `num_tokens_from_messages`, with its two counting loops. */
  method NumTokensFromMessages(count: string -> nat, messages: seq<Content>) returns (n: nat)
    ensures n == MessagesTokens(count, messages)
  {
    n := 0;
    for k := 0 to |messages|
      invariant n == MessagesTokens(count, messages[..k])
    {
      assert messages[..k + 1][..k] == messages[..k];
      n := n + 4;
      match messages[k] {
        case StrContent(s) =>
          n := n + count(s);
        case ListContent(items) =>
          for j := 0 to |items|
            invariant n == MessagesTokens(count, messages[..k]) + 4 + ItemsTokens(count, items[..j])
          {
            assert items[..j + 1][..j] == items[..j];
            match items[j] {
              case TextItem(text) =>
                n := n + count(text);
              case ImageItem(detail, highCost) =>
                n := n + ImageTokens(detail, highCost);
              case OtherItem =>
            }
          }
          assert items[..|items|] == items;
        case OtherContent =>
      }
      n := n + 2;
    }
    assert messages[..|messages|] == messages;
  }

  /** The tokens of two prompts one after the other are the sum of their tokens. */
  lemma {:induction false} MessagesTokensAppend(count: string -> nat, a: seq<Content>, b: seq<Content>)
    ensures MessagesTokens(count, a + b) == MessagesTokens(count, a) + MessagesTokens(count, b)
    decreases |b|
  {
    if b == [] {
      assert a + b == a;
    } else {
      var b' := b[..|b| - 1];
      assert (a + b)[..|a + b| - 1] == a + b';
      MessagesTokensAppend(count, a, b');
    }
  }

  function StrTokens(count: string -> nat, ss: seq<string>): nat
    decreases |ss|
  {
    if ss == [] then 0 else StrTokens(count, ss[..|ss| - 1]) + count(ss[|ss| - 1])
  }

  /**
   * A prompt of `str` messages costs the tokens of their texts plus six per
   * message; an empty prompt costs nothing.
   */
  lemma {:induction false} StrMessagesTokens(count: string -> nat, ss: seq<string>)
    ensures MessagesTokens(count, seq(|ss|, i requires 0 <= i < |ss| => StrContent(ss[i]))) == StrTokens(count, ss) + 6 * |ss|
    decreases |ss|
  {
    var ms := seq(|ss|, i requires 0 <= i < |ss| => StrContent(ss[i]));
    if ss != [] {
      var ss' := ss[..|ss| - 1];
      assert ms[..|ms| - 1] == seq(|ss'|, i requires 0 <= i < |ss'| => StrContent(ss'[i]));
      StrMessagesTokens(count, ss');
    }
  }

  /** Every message costs at least its six framing tokens. */
  lemma {:induction false} MessagesTokensAtLeast(count: string -> nat, ms: seq<Content>)
    ensures MessagesTokens(count, ms) >= 6 * |ms|
    decreases |ms|
  {
    if ms != [] {
      MessagesTokensAtLeast(count, ms[..|ms| - 1]);
    }
  }

  /** The three cumulative counters. */
  datatype Counters = Counters(prompt: nat, completion: nat, total: nat)

  /** The counters an entry leaves behind: its running totals, or zeros before the first entry. */
  function LastCounters(es: seq<Usage>): Counters
  {
    if es == [] then Counters(0, 0, 0)
    else Counters(es[|es| - 1].totalPrompt, es[|es| - 1].totalCompletion, es[|es| - 1].total)
  }

  /** An entry recorded on top of the counters `c`: its step total is prompt plus completion, and its running totals add its step to `c`. */
  predicate Follows(c: Counters, u: Usage)
  {
    u.stepTotal == u.stepPrompt + u.stepCompletion
    && u.totalPrompt == c.prompt + u.stepPrompt
    && u.totalCompletion == c.completion + u.stepCompletion
    && u.total == c.total + u.stepTotal
  }

  /** A log every entry of which was recorded on top of the entries before it. */
  predicate Running(es: seq<Usage>)
    decreases |es|
  {
    es == [] || (Running(es[..|es| - 1]) && Follows(LastCounters(es[..|es| - 1]), es[|es| - 1]))
  }

  /** In a running log the running totals never decrease, and each total is its prompt plus its completion. */
  lemma {:induction false} RunningMonotone(es: seq<Usage>, i: nat, j: nat)
    requires Running(es) && i <= j < |es|
    ensures es[i].totalPrompt <= es[j].totalPrompt && es[i].totalCompletion <= es[j].totalCompletion
    ensures es[i].total <= es[j].total
    ensures es[j].total == es[j].totalPrompt + es[j].totalCompletion
    decreases |es|
  {
    var init := es[..|es| - 1];
    if j < |es| - 1 {
      RunningMonotone(init, i, j);
    } else if init != [] {
      RunningMonotone(init, if i < j then i else |init| - 1, |init| - 1);
    }
  }

  /** The step tokens of a log, added up. */
  function StepSums(es: seq<Usage>): Counters
    decreases |es|
  {
    if es == [] then Counters(0, 0, 0)
    else
      var c := StepSums(es[..|es| - 1]);
      var u := es[|es| - 1];
      Counters(c.prompt + u.stepPrompt, c.completion + u.stepCompletion, c.total + u.stepTotal)
  }

  /** The counters of a running log are the sums of its steps, and its total is its prompt plus its completion. */
  lemma {:induction false} RunningSums(es: seq<Usage>)
    requires Running(es)
    ensures LastCounters(es) == StepSums(es)
    ensures LastCounters(es).total == LastCounters(es).prompt + LastCounters(es).completion
    decreases |es|
  {
    if es != [] {
      RunningSums(es[..|es| - 1]);
    }
  }

  const CsvHeader: string := "step_name,prompt_tokens_in_step,completion_tokens_in_step,total_tokens_in_step,total_prompt_tokens,total_completion_tokens,total_tokens\n"

  /** The CSV line of one entry. */
  function CsvRow(u: Usage): string
  {
    u.stepName + "," + NatToString(u.stepPrompt) + "," + NatToString(u.stepCompletion) + ","
    + NatToString(u.stepTotal) + "," + NatToString(u.totalPrompt) + ","
    + NatToString(u.totalCompletion) + "," + NatToString(u.total) + "\n"
  }

  /** `format_log`: the header, then one line per entry in log order. */
  function CsvText(es: seq<Usage>): string
  {
    CsvHeader + Concat(seq(|es|, i requires 0 <= i < |es| => CsvRow(es[i])))
  }

  /** One more entry adds its line at the end of the CSV text. */
  lemma CsvTextAppend(es: seq<Usage>, u: Usage)
    ensures CsvText(es + [u]) == CsvText(es) + CsvRow(u)
  {
    var rows := seq(|es|, i requires 0 <= i < |es| => CsvRow(es[i]));
    var es' := es + [u];
    assert seq(|es'|, i requires 0 <= i < |es'| => CsvRow(es'[i])) == rows + [CsvRow(u)];
    ConcatAppend(rows, CsvRow(u));
  }

  /** The CSV text always starts with the header, and an empty log is the header alone. */
  lemma CsvTextHeader(es: seq<Usage>)
    ensures StartsWith(CsvText(es), CsvHeader)
    ensures es == [] ==> CsvText(es) == CsvHeader
  {
    var t := CsvText(es);
    assert t[..|CsvHeader|] == CsvHeader;
  }

  const Gpt: string := "gpt"

  /** `is_openai_model`: the lower-cased name contains `"gpt"`. */
  predicate IsOpenAiName(name: string)
  {
    Contains(Lower(name), Gpt)
  }

  /** Lower-casing the name first changes nothing. */
  lemma IsOpenAiNameCaseless(name: string)
    ensures IsOpenAiName(Lower(name)) <==> IsOpenAiName(name)
  {
    assert Lower(Lower(name)) == Lower(name);
  }

  /** A name that starts with `gpt`, in any case, is an OpenAI model name. */
  lemma IsOpenAiNamePrefix(name: string, rest: string)
    requires |name| >= 3 && Lower(name[..3]) == Gpt
    ensures IsOpenAiName(name)
  {
    assert Lower(name)[..3] == Lower(name[..3]);
  }

  /**
   * The price of `n` tokens of a model, for prompt (`false`) or completion
   * (`true`) tokens, in a fixed currency unit.
   */
  type Price = (string, nat, bool) -> int

  /** What `usage_cost` adds up, entry by entry: the price of each entry's running totals. */
  function CumulativeCost(price: Price, model: string, es: seq<Usage>): int
    decreases |es|
  {
    if es == [] then 0
    else
      var u := es[|es| - 1];
      CumulativeCost(price, model, es[..|es| - 1]) + price(model, u.totalPrompt, false) + price(model, u.totalCompletion, true)
  }

  /** The price of each entry's step tokens, added up. */
  function StepCost(price: Price, model: string, es: seq<Usage>): int
    decreases |es|
  {
    if es == [] then 0
    else
      var u := es[|es| - 1];
      StepCost(price, model, es[..|es| - 1]) + price(model, u.stepPrompt, false) + price(model, u.stepCompletion, true)
  }

  /** A price that is proportional to the number of tokens. */
  ghost predicate Linear(price: Price, model: string)
  {
    forall n: nat, c: bool {:trigger price(model, n, c)} :: price(model, n, c) == n * price(model, 1, c)
  }

  /**
   * With a proportional price, adding up the prices of the running totals
   * charges the first step of a two-step log twice: ten prompt tokens, then
   * ten more, are charged as thirty.
   */
  lemma CumulativeCostOvercharges(price: Price, model: string, first: string, second: string)
    requires Linear(price, model) && price(model, 1, false) == 1 && price(model, 1, true) == 0
    ensures var es := [Usage(first, 10, 0, 10, 10, 0, 10), Usage(second, 10, 0, 10, 20, 0, 20)];
      Running(es) && CumulativeCost(price, model, es) == 30 && StepCost(price, model, es) == 20
  {
    var u1 := Usage(first, 10, 0, 10, 10, 0, 10);
    var u2 := Usage(second, 10, 0, 10, 20, 0, 20);
    var es := [u1, u2];
    assert es[..1] == [u1] && [u1][..0] == [];
    assert Running([u1]);
    assert price(model, 10, false) == 10 && price(model, 20, false) == 20 && price(model, 0, true) == 0;
    assert CumulativeCost(price, model, [u1]) == 10;
    assert StepCost(price, model, [u1]) == 10;
  }

  /**
   * The prices of the steps of a running log add up to the price of its
   * counters, when the price is proportional to the number of tokens.
   */
  lemma {:induction false} StepCostIsCounterCost(price: Price, model: string, es: seq<Usage>)
    requires Linear(price, model) && Running(es)
    ensures StepCost(price, model, es) == price(model, LastCounters(es).prompt, false) + price(model, LastCounters(es).completion, true)
    decreases |es|
  {
    if es != [] {
      var init := es[..|es| - 1];
      var u := es[|es| - 1];
      var c := LastCounters(init);
      StepCostIsCounterCost(price, model, init);
      assert price(model, u.totalPrompt, false) == (c.prompt + u.stepPrompt) * price(model, 1, false);
      assert price(model, u.totalCompletion, true) == (c.completion + u.stepCompletion) * price(model, 1, true);
      assert price(model, c.prompt, false) == c.prompt * price(model, 1, false);
      assert price(model, u.stepPrompt, false) == u.stepPrompt * price(model, 1, false);
      assert price(model, c.completion, true) == c.completion * price(model, 1, true);
      assert price(model, u.stepCompletion, true) == u.stepCompletion * price(model, 1, true);
    }
  }

  class TokenUsageLog {
    const modelName: string
    /** `Tokenizer(model_name).num_tokens`. */
    const count: string -> nat
    var cumulativePrompt: nat
    var cumulativeCompletion: nat
    var cumulativeTotal: nat
    var entries: seq<Usage>

    /** The counters are what the entries leave behind, and every entry follows the ones before it. */
    predicate Valid()
      reads this
    {
      Running(entries) && LastCounters(entries) == Counters(cumulativePrompt, cumulativeCompletion, cumulativeTotal)
    }

    /** `TokenUsageLog(model_name)`: zero counters and an empty log. */
    constructor(modelName: string, count: string -> nat)
      ensures Valid() && this.modelName == modelName && this.count == count
      ensures cumulativePrompt == 0 && cumulativeCompletion == 0 && cumulativeTotal == 0 && entries == []
    {
      this.modelName := modelName;
      this.count := count;
      cumulativePrompt := 0;
      cumulativeCompletion := 0;
      cumulativeTotal := 0;
      entries := [];
    }

    /**
     * `update_log`: the prompt's and the answer's tokens are added to the
     * counters, and one entry with the step's counts and the new counters is
     * appended.
     */
    method UpdateLog(messages: seq<Content>, answer: string, stepName: string)
      requires Valid()
      modifies this
      ensures Valid()
      ensures var p := MessagesTokens(count, messages); var c := count(answer);
        cumulativePrompt == old(cumulativePrompt) + p
        && cumulativeCompletion == old(cumulativeCompletion) + c
        && cumulativeTotal == old(cumulativeTotal) + p + c
        && entries == old(entries) + [Usage(stepName, p, c, p + c, cumulativePrompt, cumulativeCompletion, cumulativeTotal)]
    {
      var promptTokens := NumTokensFromMessages(count, messages);
      var completionTokens := count(answer);
      var totalTokens := promptTokens + completionTokens;
      cumulativePrompt := cumulativePrompt + promptTokens;
      cumulativeCompletion := cumulativeCompletion + completionTokens;
      cumulativeTotal := cumulativeTotal + totalTokens;
      var entry := Usage(stepName, promptTokens, completionTokens, totalTokens, cumulativePrompt, cumulativeCompletion, cumulativeTotal);
      ghost var before := entries;
      entries := entries + [entry];
      assert entries[..|entries| - 1] == before;
    }

    /** `log`: the entries, in the order they were recorded. */
    method Log() returns (r: seq<Usage>)
      ensures r == entries
      ensures Valid() ==> Running(r) && LastCounters(r) == Counters(cumulativePrompt, cumulativeCompletion, cumulativeTotal)
    {
      r := entries;
    }

    /** `format_log`, accumulating the CSV text entry by entry. */
    method FormatLog() returns (r: string)
      ensures r == CsvText(entries)
    {
      var es := entries;
      ghost var rows := seq(|es|, i requires 0 <= i < |es| => CsvRow(es[i]));
      var lines := "";
      for k := 0 to |es|
        invariant lines == Concat(rows[..k])
      {
        assert rows[..k + 1] == rows[..k] + [rows[k]];
        ConcatAppend(rows[..k], rows[k]);
        lines := lines + CsvRow(es[k]);
      }
      assert rows[..|es|] == rows;
      r := CsvHeader + lines;
    }

    /** `is_openai_model`. */
    predicate IsOpenAiModel()
    {
      IsOpenAiName(modelName)
    }

    /** `total_tokens`: the cumulative total, which is the cumulative prompt plus completion tokens and the sum of the steps' totals. */
    method TotalTokens() returns (r: nat)
      ensures r == cumulativeTotal
      ensures Valid() ==> r == cumulativePrompt + cumulativeCompletion && r == StepSums(entries).total
    {
      r := cumulativeTotal;
      if Valid() {
        RunningSums(entries);
      }
    }

    /**
     * `usage_cost` as written: `None` for a model that is not an OpenAI
     * model; otherwise the prices of every entry's running totals, added up.
     */
    method UsageCost(price: Price) returns (r: Option<int>)
      ensures !IsOpenAiModel() ==> r == None
      ensures IsOpenAiModel() ==> r == Some(CumulativeCost(price, modelName, entries))
    {
      if !IsOpenAiModel() {
        return None;
      }
      var es := entries;
      var result := 0;
      for k := 0 to |es|
        invariant result == CumulativeCost(price, modelName, es[..k])
      {
        assert es[..k + 1][..k] == es[..k];
        result := result + price(modelName, es[k].totalPrompt, false);
        result := result + price(modelName, es[k].totalCompletion, true);
      }
      assert es[..|es|] == es;
      return Some(result);
    }

    /**
     * `usage_cost` as intended: the prices of every entry's own step tokens,
     * which for a proportional price is the price of the counters.
     */
    method StepUsageCost(price: Price) returns (r: Option<int>)
      ensures !IsOpenAiModel() ==> r == None
      ensures IsOpenAiModel() ==> r == Some(StepCost(price, modelName, entries))
      ensures IsOpenAiModel() && Valid() && Linear(price, modelName)
        ==> r == Some(price(modelName, cumulativePrompt, false) + price(modelName, cumulativeCompletion, true))
    {
      if !IsOpenAiModel() {
        return None;
      }
      var es := entries;
      var result := 0;
      for k := 0 to |es|
        invariant result == StepCost(price, modelName, es[..k])
      {
        assert es[..k + 1][..k] == es[..k];
        result := result + price(modelName, es[k].stepPrompt, false);
        result := result + price(modelName, es[k].stepCompletion, true);
      }
      assert es[..|es|] == es;
      if Valid() && Linear(price, modelName) {
        StepCostIsCounterCost(price, modelName, es);
      }
      return Some(result);
    }
  }
}
