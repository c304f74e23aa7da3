/**
 * Compacting tool results to a budget of characters, the newest ones in most detail.
 *
 * JSON is left abstract: `encode` is the encoding of a preview object as a function of its
 * preview text, `summary` the encoded summary of a result that parses as JSON.  Nothing is
 * assumed of either.
 */
module ToolResultCompaction {
  import opened Basics

  datatype Role = Tool | OtherRole(name: string)

  /** A slot may be empty; `rest` stands for everything else a message carries. */
  datatype Message = NoMessage | Message(role: Role, content: string, rest: nat)

  /** How tool results are rewritten: see above. */
  datatype Codec = Codec(encode: (nat, string) -> string, summary: string -> Option<string>)

  const MINIMUM_TOOL_BUDGET := 160
  const TURN_SOFT_BUDGET := 24000
  const TURN_PER_TOOL := 8000
  const ELLIPSIS := "\U{2026}"
  const MINIMAL := "{\"_retry_compacted\":true}"

  // ---------------------------------------------------------------- one result

  /** What fits is left alone; otherwise a prefix and an ellipsis take exactly the limit. */
  function Truncate(value: string, limit: int): (r: string)
    ensures |r| == Max(0, Min(limit, |value|))
    ensures |value| <= limit ==> r == value
    ensures 1 <= limit < |value| ==> r[|r| - 1..] == ELLIPSIS && r[..|r| - 1] == value[..limit - 1]
  {
    if limit <= 0 then ""
    else if |value| <= limit then value
    else if limit == 1 then ELLIPSIS
    else value[..limit - 1] + ELLIPSIS
  }

  /** How many characters of the content the preview shows, if it starts from `available`: as many
      as are left when the excess has been taken off often enough. */
  function Shown(encode: (nat, string) -> string, content: string, budget: nat, available: nat): (k: nat)
    ensures k <= available
    decreases available
  {
    var excess := |encode(|content|, Truncate(content, available))| - budget;
    if excess <= 0 || available == 0 then available
    else Shown(encode, content, budget, Max(0, available - excess))
  }

  /** A preview of a prefix that fits, or a minimal marker if not even the empty preview does. */
  ghost predicate Preview(encode: (nat, string) -> string, content: string, budget: nat, r: string) {
    && |r| <= budget
    && var empty := |encode(|content|, "")|;
       if empty <= budget then r == encode(|content|, Truncate(content, Shown(encode, content, budget, budget - empty)))
       else r == Truncate(MINIMAL, budget)
  }

  /** Where the encoding adds nothing to the text, the preview uses up the whole budget. */
  lemma PlainPreviewFills(encode: (nat, string) -> string, content: string, budget: nat, r: string)
    requires forall n: nat, text: string :: |encode(n, text)| == |encode(n, "")| + |text|
    requires Preview(encode, content, budget, r) && |encode(|content|, "")| <= budget
    ensures r == encode(|content|, Truncate(content, budget - |encode(|content|, "")|))
    ensures |r| == Min(budget, |encode(|content|, "")| + |content|)
  {
  }

  /** It stops where the preview fits or is empty, and nothing that fits is shortened. */
  lemma {:induction false} ShownFits(encode: (nat, string) -> string, content: string, budget: nat, available: nat)
    ensures var k := Shown(encode, content, budget, available);
      |encode(|content|, Truncate(content, k))| <= budget || k == 0
    ensures |encode(|content|, Truncate(content, available))| <= budget ==> Shown(encode, content, budget, available) == available
    decreases available
  {
    var excess := |encode(|content|, Truncate(content, available))| - budget;
    if !(excess <= 0 || available == 0) {
      ShownFits(encode, content, budget, Max(0, available - excess));
    }
  }

  /** Shrinks the preview until the encoding fits. */
  method BoundedPreview(content: string, encode: (nat, string) -> string, budget: nat) returns (r: string)
    ensures Preview(encode, content, budget, r)
  {
    var encoded := encode(|content|, "");
    var available := budget - |encoded|;
    if available < 0 {
      return Truncate(MINIMAL, budget);
    }
    encoded := encode(|content|, Truncate(content, available));
    ghost var all := available;
    while |encoded| > budget && available > 0
      invariant 0 <= available <= all && encoded == encode(|content|, Truncate(content, available))
      invariant Shown(encode, content, budget, available) == Shown(encode, content, budget, all)
      decreases available
    {
      available := available - (|encoded| - budget);
      if available < 0 {
        available := 0;
      }
      encoded := encode(|content|, Truncate(content, available));
    }
    r := encoded;
  }

  /** `r` is an acceptable rendering of a result within a budget. */
  ghost predicate Renders(c: Codec, content: string, budget: nat, r: string) {
    if |content| <= budget then r == content
    else if c.summary(content).Some? && |c.summary(content).value| <= budget then r == c.summary(content).value
    else Preview(c.encode, content, budget, r)
  }

  method CompactResult(c: Codec, content: string, budget: int) returns (r: string)
    ensures if budget <= 0 then r == "" else Renders(c, content, budget, r)
    ensures |r| <= Max(0, budget) && (|content| <= budget ==> r == content)
    ensures 0 < budget < |content| && c.summary(content).Some? && |c.summary(content).value| <= budget ==>
      r == c.summary(content).value
  {
    if budget <= 0 {
      return "";
    }
    if |content| <= budget {
      return content;
    }
    var summary := c.summary(content);
    if summary.Some? && |summary.value| <= budget {
      return summary.value;
    }
    r := BoundedPreview(content, c.encode, budget);
  }

  // ---------------------------------------------------------------- all results

  predicate IsTool(m: Message) { m.Message? && m.role.Tool? }

  function Tools(ms: seq<Message>): nat {
    if ms == [] then 0 else (if IsTool(ms[0]) then 1 else 0) + Tools(ms[1..])
  }

  /** The characters that tool results take up. */
  function Runes(ms: seq<Message>): nat {
    if ms == [] then 0 else (if IsTool(ms[0]) then |ms[0].content| else 0) + Runes(ms[1..])
  }

  lemma {:induction false} ToolsAppend(a: seq<Message>, b: seq<Message>)
    ensures Tools(a + b) == Tools(a) + Tools(b)
  {
    if a == [] {
      assert a + b == b;
    } else {
      assert (a + b)[1..] == a[1..] + b;
      ToolsAppend(a[1..], b);
    }
  }

  lemma {:induction false} NoTools(ms: seq<Message>)
    requires Tools(ms) == 0
    ensures Runes(ms) == 0 && forall i :: 0 <= i < |ms| ==> !IsTool(ms[i])
  {
    if ms != [] {
      NoTools(ms[1..]);
      assert forall i :: 0 < i < |ms| ==> ms[i] == ms[1..][i - 1];
    }
  }

  lemma {:induction false} RunesAppend(a: seq<Message>, b: seq<Message>)
    ensures Runes(a + b) == Runes(a) + Runes(b)
  {
    if a == [] {
      assert a + b == b;
    } else {
      assert (a + b)[1..] == a[1..] + b;
      RunesAppend(a[1..], b);
    }
  }

  /** One message more counts with its content if it is a tool result, and not at all otherwise. */
  lemma RunesOfOneMore(ms: seq<Message>, m: Message)
    ensures Runes(ms + [m]) == Runes(ms) + if m.Message? && m.role == Tool then |m.content| else 0
    ensures Tools(ms + [m]) == Tools(ms) + if m.Message? && m.role == Tool then 1 else 0
  {
    RunesAppend(ms, [m]);
    ToolsAppend(ms, [m]);
  }

  /** What a result may take up when the newer ones took `used` characters and `older` ones
      are still to come: what the budget leaves after a minimum for each of those. */
  function Allowance(total: int, perTool: int, used: nat, older: nat): (b: nat)
    ensures MINIMUM_TOOL_BUDGET <= b <= Max(MINIMUM_TOOL_BUDGET, perTool)
  {
    Max(MINIMUM_TOOL_BUDGET, Min(perTool, total - used - older * MINIMUM_TOOL_BUDGET))
  }

  /** Message `i` is compacted to what the newer results leave it; all else is unchanged. */
  ghost predicate Compacted(c: Codec, input: seq<Message>, result: seq<Message>, total: int, perTool: int, i: nat)
    requires i < |input| == |result|
  {
    if IsTool(input[i]) then
      && result[i].Message? && result[i] == input[i].(content := result[i].content)
      && Renders(c, input[i].content, Allowance(total, perTool, Runes(result[i + 1..]), Tools(input[..i])), result[i].content)
    else result[i] == input[i]
  }

  /** The positions of the tool results, in order. */
  ghost predicate ToolPositions(indexes: seq<nat>, ms: seq<Message>) {
    && |indexes| == Tools(ms)
    && forall p :: 0 <= p < |indexes| ==> indexes[p] < |ms| && IsTool(ms[indexes[p]]) && Tools(ms[..indexes[p]]) == p
  }

  method CollectTools(input: seq<Message>) returns (indexes: seq<nat>)
    ensures ToolPositions(indexes, input)
  {
    indexes := [];
    for i := 0 to |input|
      invariant |indexes| == Tools(input[..i])
      invariant forall p :: 0 <= p < |indexes| ==>
        indexes[p] < i && IsTool(input[indexes[p]]) && Tools(input[..indexes[p]]) == p
    {
      assert input[..i + 1] == input[..i] + [input[i]];
      ToolsAppend(input[..i], [input[i]]);
      if IsTool(input[i]) {
        indexes := indexes + [i];
      }
    }
    assert input[..|input|] == input;
  }

  /** Everything from `cut` on is done; `position` tool results are left. */
  ghost predicate Done(c: Codec, input: seq<Message>, result: seq<Message>, total: int, perTool: int,
                       position: nat, cut: nat, remaining: int) {
    && |input| == |result| && cut <= |input| && Tools(input[..cut]) == position
    && (forall i :: 0 <= i < cut ==> result[i] == input[i])
    && (forall i :: cut <= i < |input| ==> Compacted(c, input, result, total, perTool, i))
    && (var used := Runes(result[cut..]);
        && (remaining == total - used || (remaining == 0 && total <= used))
        && used + position * MINIMUM_TOOL_BUDGET <= Max(total, MINIMUM_TOOL_BUDGET * Tools(input)))
  }

  lemma SameBetween(input: seq<Message>, result: seq<Message>, a: nat, b: nat)
    requires a <= b <= |input| == |result| && forall i :: 0 <= i < b ==> result[i] == input[i]
    ensures result[a..] == input[a..b] + result[b..]
  {
    assert forall i :: a <= i < b ==> result[i] == input[a..b][i - a];
  }

  /** Between the tool result at `index` and `cut` there is no other one. */
  lemma SkipToTool(c: Codec, input: seq<Message>, result: seq<Message>, total: int, perTool: int,
                   position: nat, cut: nat, remaining: int, index: nat)
    requires Done(c, input, result, total, perTool, position + 1, cut, remaining)
    requires index < |input| && IsTool(input[index]) && Tools(input[..index]) == position
    ensures index < cut && Done(c, input, result, total, perTool, position + 1, index + 1, remaining)
  {
    if index >= cut {
      assert input[..index] == input[..cut] + input[cut..index];
      ToolsAppend(input[..cut], input[cut..index]);
      assert false;
    }
    var upTo := input[..index + 1];
    assert upTo == input[..index] + [input[index]];
    ToolsAppend(input[..index], [input[index]]);
    var between := input[index + 1..cut];
    assert input[..cut] == upTo + between;
    ToolsAppend(upTo, between);
    NoTools(between);
    SameBetween(input, result, index + 1, cut);
    RunesAppend(between, result[cut..]);
    forall i | index + 1 <= i < cut ensures !IsTool(input[i]) {
      assert input[i] == between[i - index - 1];
    }
  }

  /** Whatever the next older result takes of its allowance, the total stays within bounds. */
  lemma TakeTool(c: Codec, input: seq<Message>, result: seq<Message>, total: int, perTool: int,
                 position: nat, index: nat, remaining: int, content: string)
    requires index < |input| && IsTool(input[index]) && Tools(input[..index]) == position
    requires Done(c, input, result, total, perTool, position + 1, index + 1, remaining)
    requires Renders(c, input[index].content, Budget(remaining, position, perTool), content)
    ensures Done(c, input, result[index := input[index].(content := content)], total, perTool,
                 position, index, Max(0, remaining - |content|))
  {
    var result' := result[index := input[index].(content := content)];
    var used := Runes(result[index + 1..]);
    assert result'[index + 1..] == result[index + 1..];
    assert result'[index..][1..] == result'[index + 1..];
    assert Runes(result'[index..]) == |content| + used;
    assert Budget(remaining, position, perTool) == Allowance(total, perTool, used, position);
    forall i | index <= i < |input| ensures Compacted(c, input, result', total, perTool, i) {
      assert result'[i + 1..] == result[i + 1..];
      if i > index { assert Compacted(c, input, result, total, perTool, i); }
    }
  }

  function Budget(remaining: int, older: nat, perTool: int): (b: int)
    ensures b >= MINIMUM_TOOL_BUDGET
  {
    Max(MINIMUM_TOOL_BUDGET, Min(perTool, remaining - older * MINIMUM_TOOL_BUDGET))
  }

  method BudgetFor(remaining: int, older: nat, perTool: int) returns (budget: int)
    ensures budget == Budget(remaining, older, perTool) >= MINIMUM_TOOL_BUDGET
  {
    budget := remaining - older * MINIMUM_TOOL_BUDGET;
    if budget > perTool {
      budget := perTool;
    }
    if budget < MINIMUM_TOOL_BUDGET {
      budget := MINIMUM_TOOL_BUDGET;
    }
  }

  /** Order, number and all other messages are unchanged; every tool result fits what the newer
      ones leave it, never less than the minimum; together they fit the larger of the total
      budget and the minimum for each of them. */
  method CompactMessages(c: Codec, input: seq<Message>, total: int, perTool: int)
    returns (result: seq<Message>, changed: bool)
    ensures |result| == |input| && (changed <==> result != input)
    ensures forall i :: 0 <= i < |input| ==> Compacted(c, input, result, total, perTool, i)
    ensures Runes(result) <= Max(total, MINIMUM_TOOL_BUDGET * Tools(input))
  {
    result, changed := input, false;
    var indexes := CollectTools(input);
    if indexes == [] {
      NoTools(input);
      return;
    }
    assert input[..|input|] == input && result[|input|..] == [];
    var remaining := total;
    ghost var cut: nat := |input|;
    var position: nat := |indexes|;
    while position > 0
      invariant position <= |indexes| && Done(c, input, result, total, perTool, position, cut, remaining)
      invariant changed <==> result != input
    {
      position := position - 1;
      var index := indexes[position];
      SkipToTool(c, input, result, total, perTool, position, cut, remaining, index);
      var budget := BudgetFor(remaining, position, perTool);
      var content := CompactResult(c, input[index].content, budget);
      TakeTool(c, input, result, total, perTool, position, index, remaining, content);
      if content != input[index].content {
        changed := true;
      }
      assert result[index] == input[index];
      result := result[index := input[index].(content := content)];
      cut := index;
      remaining := remaining - |content|;
      if remaining < 0 {
        remaining := 0;
      }
    }
    NothingBefore(input, result, cut);
  }

  lemma NothingBefore(input: seq<Message>, result: seq<Message>, cut: nat)
    requires cut <= |input| == |result| && Tools(input[..cut]) == 0
    requires forall i :: 0 <= i < cut ==> result[i] == input[i]
    ensures Runes(result) == Runes(result[cut..])
    ensures forall i :: 0 <= i < cut ==> !IsTool(input[i])
  {
    NoTools(input[..cut]);
    assert result == input[..cut] + result[cut..];
    RunesAppend(input[..cut], result[cut..]);
    forall i | 0 <= i < cut ensures !IsTool(input[i]) {
      assert input[i] == input[..cut][i];
    }
  }

  /** A tool result is kept exactly if there is room for it: it is short, or it is within the limit
      for one result and, beside the newer ones and a minimum for each older one, within the total. */
  lemma KeptIfRoom(c: Codec, input: seq<Message>, result: seq<Message>, total: int, perTool: int, i: nat)
    requires i < |input| == |result| && Compacted(c, input, result, total, perTool, i) && IsTool(input[i])
    ensures var length := |input[i].content|;
      result[i] == input[i] <==>
        || length <= MINIMUM_TOOL_BUDGET
        || (length <= perTool
            && length + Runes(result[i + 1..]) + Tools(input[..i]) * MINIMUM_TOOL_BUDGET <= total)
  {
    var budget := Allowance(total, perTool, Runes(result[i + 1..]), Tools(input[..i]));
    assert |input[i].content| > budget ==> |result[i].content| <= budget;
  }

  /** The check between model calls of one turn. */
  method CompactTurn(c: Codec, messages: seq<Message>) returns (result: seq<Message>, changed: bool)
    ensures Runes(messages) <= TURN_SOFT_BUDGET ==> result == messages
    ensures Runes(result) <= Max(TURN_SOFT_BUDGET, MINIMUM_TOOL_BUDGET * Tools(messages))
    ensures |result| == |messages| && (changed <==> result != messages)
    ensures Runes(messages) > TURN_SOFT_BUDGET ==>
      forall i :: 0 <= i < |messages| ==> Compacted(c, messages, result, TURN_SOFT_BUDGET, TURN_PER_TOOL, i)
  {
    var cumulative := 0;
    for i := 0 to |messages|
      invariant cumulative == Runes(messages[..i])
    {
      assert messages[..i + 1] == messages[..i] + [messages[i]];
      RunesAppend(messages[..i], [messages[i]]);
      if IsTool(messages[i]) {
        cumulative := cumulative + |messages[i].content|;
      }
    }
    assert messages[..|messages|] == messages;
    if cumulative <= TURN_SOFT_BUDGET {
      return messages, false;
    }
    result, changed := CompactMessages(c, messages, TURN_SOFT_BUDGET, TURN_PER_TOOL);
  }

  // ---------------------------------------------------------------- sampling

  lemma Steps(a: nat, s: nat, d: nat)
    requires d > 0
    ensures a / d + s / d <= (a + s) / d <= a / d + s / d + 1
  {
    var p, q, r := a / d, s / d, (a + s) / d;
    assert a == d * p + a % d && s == d * q + s % d && a + s == d * r + (a + s) % d;
    assert d * r + (a + s) % d == d * (p + q) + a % d + s % d;
    if r < p + q { Product(d, r + 1, p + q); }
    if r > p + q + 1 { Product(d, p + q + 2, r); }
  }

  lemma Product(d: nat, x: int, y: int)
    requires x <= y
    ensures d * x <= d * y
  {
  }

  /** Strictly increasing indexes at even distances; from two on, both ends are among them. */
  method UniformSampleIndexes(total: int, limit: int) returns (indexes: seq<int>)
    ensures total <= 0 || limit <= 0 ==> indexes == []
    ensures total > 0 && limit > 0 ==> |indexes| == Min(total, limit)
    ensures forall i :: 0 <= i < |indexes| ==> 0 <= indexes[i] < total
    ensures forall i :: 0 < i < |indexes| ==> indexes[i - 1] < indexes[i]
    ensures total > 0 && limit >= 2 ==> indexes[0] == 0 && indexes[|indexes| - 1] == total - 1
    ensures total > 0 && limit == 1 ==> indexes == [total - 1]
    ensures total > limit >= 2 ==> forall i :: 0 < i < |indexes| ==>
      0 <= indexes[i] - indexes[i - 1] - (total - 1) / (limit - 1) <= 1
  {
    indexes := [];
    if total <= 0 || limit <= 0 {
      return;
    }
    if total <= limit {
      for i := 0 to total
        invariant |indexes| == i && forall j :: 0 <= j < i ==> indexes[j] == j
      {
        indexes := indexes + [i];
      }
      return;
    }
    if limit == 1 {
      return [total - 1];
    }
    for i := 0 to limit
      invariant |indexes| == i && forall j :: 0 <= j < i ==> indexes[j] == Sample(j, total, limit)
    {
      indexes := indexes + [i * (total - 1) / (limit - 1)];
    }
    Samples(total, limit);
  }

  function Sample(i: int, total: int, limit: int): int
    requires limit >= 2
  {
    i * (total - 1) / (limit - 1)
  }

  lemma Exact(d: nat, k: nat)
    requires d > 0
    ensures d * k / d == k
  {
    var r := d * k / d;
    assert d * k == d * r + d * k % d;
    if r < k { Product(d, r + 1, k); }
    if r > k { Product(d, k + 1, r); }
  }

  lemma Distribute(i: nat, k: nat)
    requires i > 0
    ensures i * k == (i - 1) * k + k && (i - 1) * k >= 0
  {
  }

  lemma SampleStep(i: nat, total: nat, limit: nat)
    requires total > limit >= 2 && i > 0
    ensures 0 <= Sample(i, total, limit) - Sample(i - 1, total, limit) - (total - 1) / (limit - 1) <= 1
    ensures (total - 1) / (limit - 1) >= 1
  {
    var d := limit - 1;
    Distribute(i, total - 1);
    Steps((i - 1) * (total - 1), total - 1, d);
    WideEnough(total - 1, d);
  }

  lemma WideEnough(s: nat, d: nat)
    requires 0 < d <= s
    ensures s / d >= 1
  {
    Exact(d, 1);
    Steps(s - d, d, d);
  }

  lemma Samples(total: nat, limit: nat)
    requires total > limit >= 2
    ensures forall i :: 0 < i < limit ==>
      0 <= Sample(i, total, limit) - Sample(i - 1, total, limit) - (total - 1) / (limit - 1) <= 1
    ensures forall i :: 0 < i < limit ==> Sample(i - 1, total, limit) < Sample(i, total, limit)
    ensures Sample(0, total, limit) == 0 && Sample(limit - 1, total, limit) == total - 1
    ensures forall i :: 0 <= i < limit ==> 0 <= Sample(i, total, limit) < total
  {
    forall i | 0 < i < limit
      ensures 0 <= Sample(i, total, limit) - Sample(i - 1, total, limit) - (total - 1) / (limit - 1) <= 1
      ensures Sample(i - 1, total, limit) < Sample(i, total, limit)
    {
      SampleStep(i, total, limit);
    }
    LastSample(total, limit);
    forall i | 0 <= i < limit ensures 0 <= Sample(i, total, limit) < total {
      SamplesBelow(i, total, limit);
    }
  }

  lemma LastSample(total: nat, limit: nat)
    requires limit >= 2 && total > 0
    ensures Sample(limit - 1, total, limit) == total - 1
  {
    Exact(limit - 1, total - 1);
  }

  lemma {:induction false} SamplesBelow(i: nat, total: nat, limit: nat)
    requires total > limit >= 2 && i < limit
    ensures 0 <= Sample(i, total, limit) < total
    decreases limit - i
  {
    NotNegative(i, total - 1, limit - 1);
    if i == limit - 1 {
      LastSample(total, limit);
    } else {
      SamplesBelow(i + 1, total, limit);
      SampleStep(i + 1, total, limit);
    }
  }

  lemma NotNegative(i: nat, k: nat, d: nat)
    requires d > 0
    ensures i * k / d >= 0
  {
    assert i * k >= 0;
  }
}
