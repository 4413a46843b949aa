/** Calling the model: retries with backoff on rate limits, one repair attempt on invalid output, and the cost. */
module LlmClient {
  import opened Wrappers

  // ----- prices

  datatype ModelPrice = ModelPrice(inputPerMtok: real, outputPerMtok: real)

  /** The first longest of the strings. */
  function Longest(keys: seq<string>): (k: string)
    requires keys != []
    ensures k in keys && forall other :: other in keys ==> |other| <= |k|
  {
    if |keys| == 1 then keys[0]
    else
      var rest, last := Longest(keys[..|keys| - 1]), keys[|keys| - 1];
      assert keys == keys[..|keys| - 1] + [last];
      if |last| > |rest| then last else rest
  }

  function Prefixing(keys: seq<string>, model: string): seq<string> {
    Filter<string>(keys, (key: string) => key <= model)
  }

  /** A table is a dictionary: its keys in insertion order, and their values. */
  ghost predicate IsTable<T>(keys: seq<string>, table: map<string, T>) {
    forall k :: k in keys <==> k in table
  }

  predicate LongestPrefix<T>(table: map<string, T>, model: string, k: string) {
    k in table && k <= model && forall other :: other in table && other <= model ==> |other| <= |k|
  }

  predicate SomePrefix<T>(table: map<string, T>, model: string) {
    exists k :: k in table && k <= model
  }

  /** What a lookup means, with no order in it: the value of the longest key the model name starts with. */
  ghost predicate IsPriceOf<T>(table: map<string, T>, model: string, fallback: T, value: T) {
    if SomePrefix(table, model) then exists k :: LongestPrefix(table, model, k) && value == table[k]
    else value == fallback
  }

  /** An exact entry, else the longest key the model name starts with, else the fallback. */
  method Lookup<T>(keys: seq<string>, table: map<string, T>, model: string, fallback: T) returns (value: T)
    requires IsTable(keys, table)
    ensures IsPriceOf(table, model, fallback, value)
  {
    if model in table {
      assert LongestPrefix(table, model, model);
      return table[model];
    }
    var matches: seq<string> := [];
    for i := 0 to |keys|
      invariant matches == Prefixing(keys[..i], model)
    {
      assert keys[..i + 1][..i] == keys[..i];
      if keys[i] <= model {
        matches := matches + [keys[i]];
      }
    }
    assert keys[..|keys|] == keys;
    forall k
      ensures k in matches <==> k in table && k <= model
    {
      FilterMember(keys, (key: string) => key <= model, k);
    }
    if |matches| == 0 {
      return fallback;
    }
    assert LongestPrefix(table, model, Longest(matches));
    value := table[Longest(matches)];
  }

  /** Two prefixes of one name with equal lengths are one key, so the order of the table cannot matter. */
  lemma {:induction false} LookupIsDetermined<T>(table: map<string, T>, model: string, fallback: T, one: T, other: T)
    requires IsPriceOf(table, model, fallback, one) && IsPriceOf(table, model, fallback, other)
    ensures one == other
  {
    if SomePrefix(table, model) {
      var k :| LongestPrefix(table, model, k) && one == table[k];
      var l :| LongestPrefix(table, model, l) && other == table[l];
      assert k == model[..|k|] && l == model[..|l|];
    }
  }

  // ----- one exchange with retries

  datatype Usage = Usage(input: int, output: int)

  /** What the provider does with a call: a usable answer, or an exception, a rate limit or not. */
  datatype Reply = Answer(text: string, usage: Usage) | Raises(rateLimit: bool)

  /** The replies by call number; nothing is assumed of them. */
  type Provider = nat -> Reply

  datatype Exchange = Exchange(reply: Option<Reply>, calls: nat, slept: nat)

  function Pow2(n: nat): (p: nat)
    ensures p >= 1
  {
    if n == 0 then 1 else 2 * Pow2(n - 1)
  }

  predicate IsRateLimit(reply: Reply) { reply.Raises? && reply.rateLimit }

  predicate GivesUp(reply: Reply, attempt: nat, attempts: int) {
    reply.Raises? && !(IsRateLimit(reply) && attempt < attempts - 1)
  }

  /** What an exchange starting at call `first` did: the first reply that is not a retried rate limit ended it, and
      the sleeps doubled from one second. No reply means the client was configured to make no attempt at all. */
  ghost predicate Exchanged(provider: Provider, first: nat, maxRetries: int, e: Exchange) {
    if maxRetries + 1 <= 0 then e == Exchange(None, 0, 0)
    else
      && 1 <= e.calls <= maxRetries + 1
      && e.reply == Some(provider(first + e.calls - 1))
      && (e.reply.value.Answer? || GivesUp(e.reply.value, e.calls - 1, maxRetries + 1))
      && (forall n: nat :: first <= n < first + e.calls - 1 ==> IsRateLimit(provider(n)))
      && e.slept == Pow2(e.calls - 1) - 1
  }

  method ChatWithRetries(provider: Provider, first: nat, maxRetries: int) returns (e: Exchange)
    ensures Exchanged(provider, first, maxRetries, e)
  {
    var attempts := maxRetries + 1;
    if attempts <= 0 {
      return Exchange(None, 0, 0);
    }
    var slept, attempt := 0, 0;
    while true
      invariant 0 <= attempt < attempts
      invariant slept == Pow2(attempt) - 1
      invariant forall n: nat :: first <= n < first + attempt ==> IsRateLimit(provider(n))
      decreases attempts - attempt
    {
      var reply := provider(first + attempt);
      if reply.Answer? {
        return Exchange(Some(reply), attempt + 1, slept);
      }
      if reply.rateLimit && attempt < attempts - 1 {
        slept := slept + Pow2(attempt);
        attempt := attempt + 1;
        continue;
      }
      return Exchange(Some(reply), attempt + 1, slept);
    }
  }

  lemma {:induction false} Pow2Monotone(m: nat, n: nat)
    requires m <= n
    ensures Pow2(m) <= Pow2(n)
    decreases n - m
  {
    if m < n {
      Pow2Monotone(m, n - 1);
    }
  }

  /** The replies and the configuration fix the exchange. */
  lemma {:induction false} ExchangeIsDetermined(provider: Provider, first: nat, maxRetries: int, a: Exchange, b: Exchange)
    requires Exchanged(provider, first, maxRetries, a) && Exchanged(provider, first, maxRetries, b)
    ensures a == b
  {
    if maxRetries + 1 > 0 {
      var endA, endB := first + a.calls - 1, first + b.calls - 1;
      assert a.reply == Some(provider(endA)) && b.reply == Some(provider(endB));
    }
  }

  // ----- a completion

  class ReviewContext {
    var costRub: real

    constructor ()
      ensures costRub == 0.0
    {
      costRub := 0.0;
    }

    method AddCost(amountRub: real)
      modifies this
      ensures costRub == old(costRub) + MaxReal(0.0, amountRub)
    {
      costRub := costRub + MaxReal(0.0, amountRub);
    }
  }

  function CostRub(price: ModelPrice, usage: Usage): real {
    (MaxInt(0, usage.input) as real * price.inputPerMtok + MaxInt(0, usage.output) as real * price.outputPerMtok) / 1000000.0
  }

  /** Prices are never negative, so neither is a cost. */
  lemma {:induction false} CostNonNegative(price: ModelPrice, usage: Usage)
    requires price.inputPerMtok >= 0.0 && price.outputPerMtok >= 0.0
    ensures CostRub(price, usage) >= 0.0
  {
    assert MaxInt(0, usage.input) as real * price.inputPerMtok >= 0.0;
    assert MaxInt(0, usage.output) as real * price.outputPerMtok >= 0.0;
  }

  /** A million input tokens cost the input rate, a million output tokens the output rate. */
  lemma {:induction false} CostPerMillion(price: ModelPrice)
    ensures CostRub(price, Usage(1000000, 0)) == price.inputPerMtok
    ensures CostRub(price, Usage(0, 1000000)) == price.outputPerMtok
  {
  }

  /** The amount, in roubles, is the input tokens at the input rate and the output tokens at the output rate, both per
      million; a negative count is none. */
  predicate IsCharge(price: ModelPrice, usage: Usage, amount: real) {
    amount * 1000000.0 ==
      (if usage.input < 0 then 0.0 else usage.input as real * price.inputPerMtok)
        + (if usage.output < 0 then 0.0 else usage.output as real * price.outputPerMtok)
  }

  lemma {:induction false} CostIsCharge(price: ModelPrice, usage: Usage)
    ensures IsCharge(price, usage, CostRub(price, usage))
  {
  }

  /** Two answers cost what each would: a repaired completion pays for both, each of its tokens at its own rate. */
  lemma {:induction false} CostAdds(price: ModelPrice, a: Usage, b: Usage)
    requires a.input >= 0 && a.output >= 0 && b.input >= 0 && b.output >= 0
    ensures CostRub(price, Added(a, b)) == CostRub(price, a) + CostRub(price, b)
    ensures CostRub(price, Added(a, b)) * 1000000.0 ==
            (a.input + b.input) as real * price.inputPerMtok + (a.output + b.output) as real * price.outputPerMtok
  {
    TokensAdd(a.input, b.input, price.inputPerMtok);
    TokensAdd(a.output, b.output, price.outputPerMtok);
  }

  lemma {:induction false} TokensAdd(a: int, b: int, rate: real)
    ensures (a + b) as real * rate == a as real * rate + b as real * rate
  {
  }

  function Added(a: Usage, b: Usage): Usage { Usage(a.input + b.input, a.output + b.output) }

  /** A completion: its text when it did not raise, and what it used in all. */
  datatype Completion = Completion(text: Option<string>, calls: nat, slept: nat)

  /** The parser of structured output; None for plain text. */
  type Validator = Option<string -> bool>

  predicate Accepts(validator: Validator, text: string) {
    validator.None? || validator.value(text)
  }

  /** Answers: the first one when it is accepted, else the sum with the repair answer when that one is. */
  ghost predicate Completed(provider: Provider, maxRetries: int, validator: Validator, c: Completion, usage: Usage) {
    exists first: Exchange :: Exchanged(provider, 0, maxRetries, first) && CompletedAfter(provider, maxRetries, validator, first, c, usage)
  }

  ghost predicate CompletedAfter(provider: Provider, maxRetries: int, validator: Validator, first: Exchange,
                                 c: Completion, usage: Usage)
  {
    if first.reply.None? || first.reply.value.Raises? then c == Completion(None, first.calls, first.slept)
    else if Accepts(validator, first.reply.value.text) then
      c == Completion(Some(first.reply.value.text), first.calls, first.slept) && usage == first.reply.value.usage
    else
      exists second: Exchange :: Exchanged(provider, first.calls, maxRetries, second)
        && RepairedBy(validator, first, second, c, usage)
  }

  ghost predicate RepairedBy(validator: Validator, first: Exchange, second: Exchange, c: Completion, usage: Usage)
    requires first.reply.Some? && first.reply.value.Answer?
  {
    && c.calls == first.calls + second.calls && c.slept == first.slept + second.slept
    && if second.reply.None? || second.reply.value.Raises? || !Accepts(validator, second.reply.value.text)
       then c.text.None?
       else c.text == Some(second.reply.value.text) && usage == Added(first.reply.value.usage, second.reply.value.usage)
  }

  /** The context pays exactly the price of the summed usage on success, and nothing when the completion raises. */
  method Complete(provider: Provider, maxRetries: int, validator: Validator, price: ModelPrice, ctx: ReviewContext?)
    returns (c: Completion, usage: Usage)
    requires price.inputPerMtok >= 0.0 && price.outputPerMtok >= 0.0
    modifies if ctx == null then {} else {ctx}
    ensures Completed(provider, maxRetries, validator, c, usage)
    ensures ctx != null ==>
      ctx.costRub == old(ctx.costRub) + (if c.text.Some? then CostRub(price, usage) else 0.0)
    ensures ctx != null && c.text.Some? ==> IsCharge(price, usage, ctx.costRub - old(ctx.costRub))
  {
    usage := Usage(0, 0);
    var first := ChatWithRetries(provider, 0, maxRetries);
    if first.reply.None? || first.reply.value.Raises? {
      c := Completion(None, first.calls, first.slept);
      assert CompletedAfter(provider, maxRetries, validator, first, c, usage);
      return;
    }
    var text, used := first.reply.value.text, first.reply.value.usage;
    c := Completion(Some(text), first.calls, first.slept);
    if !Accepts(validator, text) {
      var second := ChatWithRetries(provider, first.calls, maxRetries);
      c := Completion(None, first.calls + second.calls, first.slept + second.slept);
      if second.reply.None? || second.reply.value.Raises? || !Accepts(validator, second.reply.value.text) {
        assert RepairedBy(validator, first, second, c, usage);
        assert CompletedAfter(provider, maxRetries, validator, first, c, usage);
        return;
      }
      used := Added(used, second.reply.value.usage);
      c := c.(text := Some(second.reply.value.text));
      assert RepairedBy(validator, first, second, c, used);
    }
    usage := used;
    assert CompletedAfter(provider, maxRetries, validator, first, c, usage);
    if ctx != null {
      CostNonNegative(price, used);
      CostIsCharge(price, used);
      ctx.AddCost(CostRub(price, used));
    }
  }

  /** However the provider behaves, a completion makes at most twice the configured attempts and sleeps at most
      twice the full backoff. */
  lemma {:induction false} CompletionIsBounded(provider: Provider, maxRetries: nat, validator: Validator, c: Completion, usage: Usage)
    requires Completed(provider, maxRetries, validator, c, usage)
    ensures 1 <= c.calls <= 2 * (maxRetries + 1)
    ensures c.slept <= 2 * (Pow2(maxRetries) - 1)
  {
    var first :| Exchanged(provider, 0, maxRetries, first) && CompletedAfter(provider, maxRetries, validator, first, c, usage);
    Pow2Monotone(first.calls - 1, maxRetries);
    if first.reply.value.Answer? && !Accepts(validator, first.reply.value.text) {
      var second :| Exchanged(provider, first.calls, maxRetries, second) && RepairedBy(validator, first, second, c, usage);
      Pow2Monotone(second.calls - 1, maxRetries);
    }
  }

  /** What each answer among the calls from `from` up to `end` used, in order. */
  function Answers(provider: Provider, from: nat, end: nat): seq<Usage>
    decreases end
  {
    if end <= from then []
    else
      Answers(provider, from, end - 1) +
      match provider(end - 1)
      case Answer(_, usage) => [usage]
      case Raises(_) => []
  }

  lemma {:induction false} AnswersJoin(provider: Provider, middle: nat, end: nat)
    requires middle <= end
    ensures Answers(provider, 0, end) == Answers(provider, 0, middle) + Answers(provider, middle, end)
    decreases end
  {
    if middle < end {
      AnswersJoin(provider, middle, end - 1);
    }
  }

  lemma {:induction false} NoAnswers(provider: Provider, from: nat, end: nat)
    requires forall n: nat :: from <= n < end ==> IsRateLimit(provider(n))
    ensures Answers(provider, from, end) == []
    decreases end
  {
    if from < end {
      NoAnswers(provider, from, end - 1);
    }
  }

  /** Only the last call of an exchange can have been answered. */
  lemma {:induction false} ExchangeAnswers(provider: Provider, first: nat, maxRetries: int, e: Exchange)
    requires Exchanged(provider, first, maxRetries, e)
    ensures Answers(provider, first, first + e.calls) ==
            if e.reply.Some? && e.reply.value.Answer? then [e.reply.value.usage] else []
  {
    if e.calls > 0 {
      NoAnswers(provider, first, first + e.calls - 1);
    }
  }

  lemma {:induction false} RepairAnswers(provider: Provider, maxRetries: int, first: Exchange, second: Exchange)
    requires Exchanged(provider, 0, maxRetries, first) && Exchanged(provider, first.calls, maxRetries, second)
    requires first.reply.Some? && first.reply.value.Answer?
    ensures Answers(provider, 0, first.calls + second.calls) ==
            [first.reply.value.usage] +
            if second.reply.Some? && second.reply.value.Answer? then [second.reply.value.usage] else []
  {
    ExchangeAnswers(provider, 0, maxRetries, first);
    ExchangeAnswers(provider, first.calls, maxRetries, second);
    AnswersJoin(provider, first.calls, first.calls + second.calls);
  }

  /** The usage of one answer, or of two together. */
  predicate UsesAll(usage: Usage, answers: seq<Usage>) {
    || (|answers| == 1 && usage == answers[0])
    || (|answers| == 2 && usage.input == answers[0].input + answers[1].input && usage.output == answers[0].output + answers[1].output)
  }

  /** What a completion with a text is: the last of its calls, answered and accepted, and the usage of all answers. */
  ghost predicate Counted(provider: Provider, validator: Validator, c: Completion, usage: Usage) {
    && c.text.Some? && c.calls > 0 && provider(c.calls - 1).Answer? && provider(c.calls - 1).text == c.text.value
    && (validator.Some? ==> validator.value(c.text.value))
    && UsesAll(usage, Answers(provider, 0, c.calls))
  }

  lemma {:induction false} RepairIsCounted(provider: Provider, maxRetries: int, validator: Validator, first: Exchange, second: Exchange,
                                           c: Completion, usage: Usage)
    requires Exchanged(provider, 0, maxRetries, first) && Exchanged(provider, first.calls, maxRetries, second)
    requires first.reply.Some? && first.reply.value.Answer? && c.text.Some?
    requires RepairedBy(validator, first, second, c, usage)
    ensures Counted(provider, validator, c, usage)
  {
    RepairAnswers(provider, maxRetries, first, second);
  }

  /** A completion's text is its last call's answer, and accepted, and its usage that of every answer it had. */
  lemma {:induction false} CompletionUsesEveryAnswer(provider: Provider, maxRetries: int, validator: Validator, c: Completion,
                                                     usage: Usage)
    requires Completed(provider, maxRetries, validator, c, usage) && c.text.Some?
    ensures Counted(provider, validator, c, usage)
  {
    var first :| Exchanged(provider, 0, maxRetries, first) && CompletedAfter(provider, maxRetries, validator, first, c, usage);
    if Accepts(validator, first.reply.value.text) {
      ExchangeAnswers(provider, 0, maxRetries, first);
    } else {
      var second :| Exchanged(provider, first.calls, maxRetries, second) && RepairedBy(validator, first, second, c, usage);
      RepairIsCounted(provider, maxRetries, validator, first, second, c, usage);
    }
  }

  /** A second answer that ended the calls, and was not accepted either. */
  ghost predicate RefusedTwice(provider: Provider, validator: Validator, calls: nat) {
    calls > 0 && |Answers(provider, 0, calls)| == 2
    && validator.Some? && provider(calls - 1).Answer? && !validator.value(provider(calls - 1).text)
  }

  lemma {:induction false} RepairIsRefused(provider: Provider, maxRetries: int, validator: Validator, first: Exchange, second: Exchange,
                                           c: Completion, usage: Usage)
    requires Exchanged(provider, 0, maxRetries, first) && Exchanged(provider, first.calls, maxRetries, second)
    requires first.reply.Some? && first.reply.value.Answer? && c.text.None?
    requires RepairedBy(validator, first, second, c, usage)
    ensures c.calls > 0 && (provider(c.calls - 1).Raises? || RefusedTwice(provider, validator, c.calls))
  {
    RepairAnswers(provider, maxRetries, first, second);
  }

  /** One that raises was configured to make no call, or its last call raised, or that call was its second answer and
      again not accepted. */
  lemma {:induction false} RaisesOnlyAfterRepair(provider: Provider, maxRetries: int, validator: Validator, c: Completion,
                                                 usage: Usage)
    requires Completed(provider, maxRetries, validator, c, usage) && c.text.None?
    ensures if maxRetries < 0 then c.calls == 0
            else c.calls > 0 && (provider(c.calls - 1).Raises? || RefusedTwice(provider, validator, c.calls))
  {
    var first :| Exchanged(provider, 0, maxRetries, first) && CompletedAfter(provider, maxRetries, validator, first, c, usage);
    if first.reply.Some? && first.reply.value.Answer? {
      var second :| Exchanged(provider, first.calls, maxRetries, second) && RepairedBy(validator, first, second, c, usage);
      RepairIsRefused(provider, maxRetries, validator, first, second, c, usage);
    }
  }

  /** The provider and the configuration fix the completion, and its usage when it succeeds. */
  lemma {:induction false} CompletionIsDetermined(provider: Provider, maxRetries: int, validator: Validator,
                               a: Completion, aUsage: Usage, b: Completion, bUsage: Usage)
    requires Completed(provider, maxRetries, validator, a, aUsage) && Completed(provider, maxRetries, validator, b, bUsage)
    ensures a == b && (a.text.Some? ==> aUsage == bUsage)
  {
    var fa :| Exchanged(provider, 0, maxRetries, fa) && CompletedAfter(provider, maxRetries, validator, fa, a, aUsage);
    var fb :| Exchanged(provider, 0, maxRetries, fb) && CompletedAfter(provider, maxRetries, validator, fb, b, bUsage);
    ExchangeIsDetermined(provider, 0, maxRetries, fa, fb);
    if fa.reply.Some? && fa.reply.value.Answer? && !Accepts(validator, fa.reply.value.text) {
      var sa :| Exchanged(provider, fa.calls, maxRetries, sa) && RepairedBy(validator, fa, sa, a, aUsage);
      var sb :| Exchanged(provider, fa.calls, maxRetries, sb) && RepairedBy(validator, fa, sb, b, bUsage);
      ExchangeIsDetermined(provider, fa.calls, maxRetries, sa, sb);
    }
  }
}
