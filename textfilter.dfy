/** The `TextFilter` of text_filter.py: six built-in deletion passes, the
    configured rules, and `_final_cleanup`. Matching is left to Python's `re`
    engine, which is not modelled: a filter is given the engine's `finditer`
    as a function from a compiled pattern and a text to the match spans, and
    its `re.compile` as a predicate saying which regex sources compile. */
module Filter {
  import opened Base
  import opened Strings
  import opened Subsequences
  import opened Cleanup

  /** `match.span()`. */
  datatype Span = Span(start: nat, end: nat)

  /** A compiled pattern: its source and the `re.DOTALL` / `re.MULTILINE`
      flags. */
  datatype Regex = Regex(source: string, dotAll: bool, multiLine: bool)

  /** An entry of `self.rules`. */
  datatype Rule = Rule(pattern: Regex, name: string, description: string, isRegex: bool)

  /** An entry of the filtered-items list: `rule_name`, `content`,
      `position`. */
  datatype Item = Item(ruleName: string, content: string, position: Span)

  /** A custom rule as `json.loads` hands it over: something that is not an
      object, or an object with whichever of the four keys it has. */
  datatype RuleEntry =
    | NotAnObject
    | Entry(pattern: Option<string>, name: Option<string>, description: Option<string>, isRegex: Option<bool>)

  // ---------------------------------------------------------------------
  // Spans

  /** What `finditer` yields: spans within the text, in ascending order and
      not overlapping, the first starting at or after `lo`. */
  predicate Chain(spans: seq<Span>, lo: nat, n: nat)
    decreases |spans|
  {
    spans == [] || (lo <= spans[0].start <= spans[0].end <= n && Chain(spans[1..], spans[0].end, n))
  }

  ghost predicate Matcher(finditer: (Regex, string) -> seq<Span>)
  {
    forall re, text :: Chain(finditer(re, text), 0, |text|)
  }

  /** The text from `lo` on with the spans cut out: the pieces between the
      spans, read front to back. */
  function Kept(text: string, spans: seq<Span>, lo: nat): string
    requires lo <= |text| && Chain(spans, lo, |text|)
    decreases |spans|
  {
    if spans == [] then text[lo..]
    else text[lo..spans[0].start] + Kept(text, spans[1..], spans[0].end)
  }

  /** The total length of the spans. */
  function Covered(spans: seq<Span>, lo: nat, n: nat): nat
    requires Chain(spans, lo, n)
    decreases |spans|
  {
    if spans == [] then 0 else spans[0].end - spans[0].start + Covered(spans[1..], spans[0].end, n)
  }

  /** Cutting the spans out shortens the text by exactly their total length
      and only deletes characters. */
  lemma {:induction false} KeptDeletes(text: string, spans: seq<Span>, lo: nat)
    requires lo <= |text| && Chain(spans, lo, |text|)
    ensures |Kept(text, spans, lo)| == |text| - lo - Covered(spans, lo, |text|)
    ensures Sub(Kept(text, spans, lo), text[lo..])
    decreases |spans|
  {
    if spans == [] {
      SubRefl(text[lo..]);
    } else {
      var s := spans[0];
      KeptDeletes(text, spans[1..], s.end);
      var rest := Kept(text, spans[1..], s.end);
      SubRefl(text[lo..s.start]);
      SubPrefixRight(rest, text[s.start..s.end], text[s.end..]);
      SubAppend(text[lo..s.start], text[lo..s.start], rest, text[s.start..s.end] + text[s.end..]);
      assert text[lo..s.start] + (text[s.start..s.end] + text[s.end..]) == text[lo..];
    }
  }

  /** The text between `lo` and `e`, before every span, is kept as is. */
  lemma {:induction false} KeptShift(text: string, spans: seq<Span>, lo: nat, e: nat)
    requires lo <= e <= |text| && Chain(spans, e, |text|)
    ensures Kept(text, spans, lo) == text[lo..e] + Kept(text, spans, e)
  {
    if spans == [] {
      assert text[lo..] == text[lo..e] + text[e..];
    } else {
      var k := Kept(text, spans[1..], spans[0].end);
      assert Kept(text, spans, lo) == text[lo..spans[0].start] + k;
      assert Kept(text, spans, e) == text[e..spans[0].start] + k;
      assert text[lo..spans[0].start] == text[lo..e] + text[e..spans[0].start];
    }
  }

  /** A line of pass 6 is deleted only when it holds an angle bracket. */
  predicate Bracketed(s: string)
  {
    '<' in s || '>' in s
  }

  /** The spans a pass deletes: all of them, or with `bracketOnly` those
      whose text holds '<' or '>'. */
  function Select(text: string, spans: seq<Span>, lo: nat, bracketOnly: bool): (r: seq<Span>)
    requires Chain(spans, lo, |text|)
    ensures Chain(r, lo, |text|)
    decreases |spans|
  {
    if spans == [] then []
    else
      var s := spans[0];
      var rest := Select(text, spans[1..], s.end, bracketOnly);
      if !bracketOnly || Bracketed(text[s.start..s.end]) then [s] + rest else rest
  }

  /** A plain pass deletes every match; pass 6 deletes exactly the matched
      lines that hold an angle bracket, and keeps the others. */
  lemma {:induction false} SelectMembers(text: string, spans: seq<Span>, lo: nat, bracketOnly: bool)
    requires Chain(spans, lo, |text|)
    ensures !bracketOnly ==> Select(text, spans, lo, bracketOnly) == spans
    ensures forall s :: s in Select(text, spans, lo, bracketOnly) <==>
      s in spans && s.start <= s.end <= |text| && (!bracketOnly || Bracketed(text[s.start..s.end]))
    decreases |spans|
  {
    if spans != [] {
      SelectMembers(text, spans[1..], spans[0].end, bracketOnly);
      assert forall s :: s in spans <==> s == spans[0] || s in spans[1..];
      ChainBounds(spans, lo, |text|);
    }
  }

  lemma {:induction false} ChainBounds(spans: seq<Span>, lo: nat, n: nat)
    requires Chain(spans, lo, n)
    ensures forall s :: s in spans ==> lo <= s.start <= s.end <= n
    decreases |spans|
  {
    if spans != [] {
      ChainBounds(spans[1..], spans[0].end, n);
      assert forall s :: s in spans ==> s == spans[0] || s in spans[1..];
    }
  }

  /** The items a pass records: one per deleted span, from the last span to
      the first, each with the text it covered in the pass's input. */
  function Removed(text: string, spans: seq<Span>, lo: nat, ruleName: string): (r: seq<Item>)
    requires Chain(spans, lo, |text|)
    ensures |r| == |spans|
    decreases |spans|
  {
    if spans == [] then []
    else
      var s := spans[0];
      Removed(text, spans[1..], s.end, ruleName) + [Item(ruleName, text[s.start..s.end], s)]
  }

  /** Items run from the last deleted span to the first, and each records
      the span and the text it held before the pass. */
  lemma {:induction false} RemovedOrder(text: string, spans: seq<Span>, lo: nat, ruleName: string)
    requires Chain(spans, lo, |text|)
    ensures forall i :: 0 <= i < |spans| ==> lo <= spans[i].start <= spans[i].end <= |text|
    ensures forall i :: 0 <= i < |spans| ==>
      Removed(text, spans, lo, ruleName)[|spans| - 1 - i] == Item(ruleName, text[spans[i].start..spans[i].end], spans[i])
    decreases |spans|
  {
    ChainBounds(spans, lo, |text|);
    assert forall i :: 0 <= i < |spans| ==> spans[i] in spans;
    if spans != [] {
      RemovedOrder(text, spans[1..], spans[0].end, ruleName);
      var tail := Removed(text, spans[1..], spans[0].end, ruleName);
      var r := Removed(text, spans, lo, ruleName);
      assert r == tail + [Item(ruleName, text[spans[0].start..spans[0].end], spans[0])];
      forall i | 1 <= i < |spans|
        ensures r[|spans| - 1 - i] == Item(ruleName, text[spans[i].start..spans[i].end], spans[i])
      {
        assert spans[i] == spans[1..][i - 1];
        assert r[|spans| - 1 - i] == tail[|spans[1..]| - 1 - (i - 1)];
      }
    }
  }

  /** The spans after the `i`-th still form a chain from where the `i`-th
      ends. */
  lemma {:induction false} ChainSuffix(spans: seq<Span>, lo: nat, n: nat, i: nat)
    requires Chain(spans, lo, n) && i <= |spans|
    ensures Chain(spans[i..], if i == 0 then lo else spans[i - 1].end, n)
    decreases i
  {
    if i > 0 {
      ChainSuffix(spans[1..], spans[0].end, n, i - 1);
      assert spans[1..][i - 1..] == spans[i..];
      if i > 1 {
        assert spans[1..][i - 2] == spans[i - 1];
      }
    }
  }

  /** Select on a non-empty chain: the head span, if chosen, then the
      selection from the rest. */
  lemma SelectStep(text: string, spans: seq<Span>, q: nat, bracketOnly: bool)
    requires spans != [] && Chain(spans, q, |text|)
    ensures q <= spans[0].start <= spans[0].end <= |text|
    ensures Chain(spans[1..], spans[0].end, |text|)
    ensures Select(text, spans, q, bracketOnly)
      == (if !bracketOnly || Bracketed(text[spans[0].start..spans[0].end]) then [spans[0]] else [])
         + Select(text, spans[1..], spans[0].end, bracketOnly)
  {
    var rest := Select(text, spans[1..], spans[0].end, bracketOnly);
    assert [] + rest == rest;
  }

  /** One step of the backward loop, at span `s` with the later spans
      `chosen` already cut: the span's text is still in place, cutting it
      gives the text with `[s] + chosen` cut, and keeping it gives the text
      with `chosen` cut. */
  lemma CutStep(text: string, chosen: seq<Span>, q: nat, s: Span)
    requires q <= s.start <= s.end <= |text| && Chain(chosen, s.end, |text|)
    ensures var f := text[..s.end] + Kept(text, chosen, s.end);
      f[s.start..s.end] == text[s.start..s.end]
      && f[..s.start] + f[s.end..] == text[..q] + Kept(text, [s] + chosen, q)
      && f == text[..q] + Kept(text, chosen, q)
  {
    var k := Kept(text, chosen, s.end);
    var f := text[..s.end] + k;
    assert f[..s.end] == text[..s.end];
    assert f[s.start..s.end] == text[s.start..s.end];
    assert f[..s.start] == text[..s.start];
    assert f[s.end..] == k;
    CutHead(text, chosen, q, s);
    KeptShift(text, chosen, q, s.end);
    assert text[..s.end] == text[..q] + text[q..s.end];
  }

  /** Cutting the span `s` at the head of the chain. */
  lemma CutHead(text: string, chosen: seq<Span>, q: nat, s: Span)
    requires q <= s.start <= s.end <= |text| && Chain(chosen, s.end, |text|)
    ensures text[..s.start] + Kept(text, chosen, s.end) == text[..q] + Kept(text, [s] + chosen, q)
  {
    var t := [s] + chosen;
    var k := Kept(text, chosen, s.end);
    assert t[0] == s && t[1..] == chosen;
    assert Chain(t, q, |text|);
    assert Kept(text, t, q) == text[q..s.start] + k;
    var a, b := text[..q], text[q..s.start];
    assert text[..s.start] == a + b;
    assert (a + b) + k == a + (b + k);
  }

  /** Recording span `s` in front of the later spans `chosen`. */
  lemma RemovedStep(text: string, chosen: seq<Span>, q: nat, s: Span, ruleName: string)
    requires q <= s.start <= s.end <= |text| && Chain(chosen, s.end, |text|)
    ensures Removed(text, [s] + chosen, q, ruleName)
      == Removed(text, chosen, s.end, ruleName) + [Item(ruleName, text[s.start..s.end], s)]
  {
    assert ([s] + chosen)[1..] == chosen;
  }

  /** The state of `DeletePass` once the spans from `i` on are handled:
      `p` is where the untouched prefix ends, `chosen` the spans cut so far. */
  ghost predicate Pass(text: string, spans: seq<Span>, i: nat, bracketOnly: bool, ruleName: string,
                       chosen: seq<Span>, filtered: string, added: seq<Item>)
  {
    Chain(spans, 0, |text|) && i <= |spans|
    && var p := if i == 0 then 0 else spans[i - 1].end;
    p <= |text| && Chain(spans[i..], p, |text|)
    && chosen == Select(text, spans[i..], p, bracketOnly)
    && filtered == text[..p] + Kept(text, chosen, p)
    && added == Removed(text, chosen, p, ruleName)
  }

  /** The loop body of `DeletePass` at span `i`: the span's text is still
      in place, and cutting it when it is selected, or keeping it
      otherwise, gives the state for the spans from `i` on. */
  lemma DeleteStep(text: string, spans: seq<Span>, i: nat, bracketOnly: bool, ruleName: string,
                   chosen: seq<Span>, filtered: string, added: seq<Item>)
    requires i < |spans| && Pass(text, spans, i + 1, bracketOnly, ruleName, chosen, filtered, added)
    ensures var s := spans[i];
      s.start <= s.end <= |filtered|
      && var content := filtered[s.start..s.end];
      if !bracketOnly || '<' in content || '>' in content then
        Pass(text, spans, i, bracketOnly, ruleName, [s] + chosen, filtered[..s.start] + filtered[s.end..],
             added + [Item(ruleName, content, s)])
      else
        Pass(text, spans, i, bracketOnly, ruleName, chosen, filtered, added)
  {
    var s := spans[i];
    var q: nat := if i == 0 then 0 else spans[i - 1].end;
    ChainSuffix(spans, 0, |text|, i);
    assert spans[i..][0] == s && spans[i..][1..] == spans[i + 1..];
    SelectStep(text, spans[i..], q, bracketOnly);
    CutStep(text, chosen, q, s);
    RemovedStep(text, chosen, q, s, ruleName);
  }

  /** One deletion pass: the loop `for match in reversed(matches)` of
      `filter_text` and `_apply_rules`. Cutting from the back leaves the
      earlier spans' positions valid, so the result is the text with the
      selected spans cut out, and one item is recorded per deleted span. */
  method DeletePass(text: string, spans: seq<Span>, ruleName: string, bracketOnly: bool)
    returns (filtered: string, added: seq<Item>)
    requires Chain(spans, 0, |text|)
    ensures filtered == Kept(text, Select(text, spans, 0, bracketOnly), 0)
    ensures added == Removed(text, Select(text, spans, 0, bracketOnly), 0, ruleName)
    ensures !bracketOnly ==> filtered == Kept(text, spans, 0) && added == Removed(text, spans, 0, ruleName)
    ensures !bracketOnly ==> |filtered| == |text| - Covered(spans, 0, |text|) && |added| == |spans|
  {
    filtered, added := text, [];
    ghost var chosen: seq<Span> := [];
    var i := |spans|;
    DeleteStart(text, spans, bracketOnly, ruleName);
    while i > 0
      invariant 0 <= i <= |spans|
      invariant Pass(text, spans, i, bracketOnly, ruleName, chosen, filtered, added)
    {
      i := i - 1;
      var s := spans[i];
      DeleteStep(text, spans, i, bracketOnly, ruleName, chosen, filtered, added);
      var content := filtered[s.start..s.end];
      if !bracketOnly || '<' in content || '>' in content {
        added := added + [Item(ruleName, content, s)];
        filtered := filtered[..s.start] + filtered[s.end..];
        chosen := [s] + chosen;
      }
    }
    assert spans[0..] == spans && text[..0] == [];
    DeleteAll(text, spans, ruleName);
  }

  /** Before the loop: nothing after the last span is cut. */
  lemma DeleteStart(text: string, spans: seq<Span>, bracketOnly: bool, ruleName: string)
    requires Chain(spans, 0, |text|)
    ensures Pass(text, spans, |spans|, bracketOnly, ruleName, [], text, [])
  {
    var p: nat := if spans == [] then 0 else spans[|spans| - 1].end;
    if spans != [] {
      ChainBounds(spans, 0, |text|);
      assert spans[|spans| - 1] in spans;
    }
    assert spans[|spans|..] == [];
    KeptNone(text, p);
  }

  lemma KeptNone(text: string, p: nat)
    requires p <= |text|
    ensures text == text[..p] + Kept(text, [], p)
  {
    assert text == text[..p] + text[p..];
  }

  /** A plain pass cuts every span: the text shrinks by their total length
      and one item is recorded per span. */
  lemma DeleteAll(text: string, spans: seq<Span>, ruleName: string)
    requires Chain(spans, 0, |text|)
    ensures Select(text, spans, 0, false) == spans
    ensures |Kept(text, spans, 0)| == |text| - Covered(spans, 0, |text|)
    ensures |Removed(text, spans, 0, ruleName)| == |spans|
  {
    SelectMembers(text, spans, 0, false);
    KeptDeletes(text, spans, 0);
  }

  /** Each rule in turn, on the text the previous rules left: the text and
      the items recorded. */
  function Applied(finditer: (Regex, string) -> seq<Span>, rules: seq<Rule>, text: string): (string, seq<Item>)
    requires Matcher(finditer)
    decreases |rules|
  {
    if rules == [] then (text, [])
    else
      var spans := finditer(rules[0].pattern, text);
      var rest := Applied(finditer, rules[1..], Kept(text, spans, 0));
      (rest.0, Removed(text, spans, 0, rules[0].name) + rest.1)
  }

  /** Applying the rules from `k` on is rule `k`'s pass followed by the
      rules after it. */
  lemma AppliedFrom(finditer: (Regex, string) -> seq<Span>, rules: seq<Rule>, k: nat, text: string)
    requires Matcher(finditer) && k < |rules|
    ensures var t := Kept(text, finditer(rules[k].pattern, text), 0);
      Applied(finditer, rules[k..], text)
        == (Applied(finditer, rules[k + 1..], t).0,
            Removed(text, finditer(rules[k].pattern, text), 0, rules[k].name) + Applied(finditer, rules[k + 1..], t).1)
  {
    assert rules[k..][0] == rules[k] && rules[k..][1..] == rules[k + 1..];
  }

  /** The rules only delete characters, and they delete exactly as many as
      the items they record cover. */
  lemma {:induction false} AppliedDeletes(finditer: (Regex, string) -> seq<Span>, rules: seq<Rule>, text: string)
    requires Matcher(finditer)
    ensures Sub(Applied(finditer, rules, text).0, text)
    ensures |Applied(finditer, rules, text).0| + ItemsLength(Applied(finditer, rules, text).1) == |text|
    decreases |rules|
  {
    if rules == [] {
      SubRefl(text);
    } else {
      var spans := finditer(rules[0].pattern, text);
      var t := Kept(text, spans, 0);
      KeptDeletes(text, spans, 0);
      AppliedDeletes(finditer, rules[1..], t);
      SubTrans(Applied(finditer, rules[1..], t).0, t, text);
      RemovedLength(text, spans, 0, rules[0].name);
      ItemsLengthAppend(Removed(text, spans, 0, rules[0].name), Applied(finditer, rules[1..], t).1);
    }
  }

  /** The total length of the items' contents. */
  function ItemsLength(items: seq<Item>): nat
  {
    if items == [] then 0 else |items[0].content| + ItemsLength(items[1..])
  }

  lemma {:induction false} ItemsLengthAppend(a: seq<Item>, b: seq<Item>)
    ensures ItemsLength(a + b) == ItemsLength(a) + ItemsLength(b)
  {
    if a == [] {
      assert a + b == b;
    } else {
      assert (a + b)[0] == a[0];
      assert (a + b)[1..] == a[1..] + b;
      ItemsLengthAppend(a[1..], b);
    }
  }

  lemma {:induction false} RemovedLength(text: string, spans: seq<Span>, lo: nat, ruleName: string)
    requires Chain(spans, lo, |text|)
    ensures ItemsLength(Removed(text, spans, lo, ruleName)) == Covered(spans, lo, |text|)
    decreases |spans|
  {
    if spans != [] {
      var s := spans[0];
      RemovedLength(text, spans[1..], s.end, ruleName);
      ItemsLengthAppend(Removed(text, spans[1..], s.end, ruleName), [Item(ruleName, text[s.start..s.end], s)]);
    }
  }

  /** The text one deletion pass leaves. */
  function PassResult(finditer: (Regex, string) -> seq<Span>, re: Regex, bracketOnly: bool, text: string): string
    requires Matcher(finditer)
  {
    Kept(text, Select(text, finditer(re, text), 0, bracketOnly), 0)
  }

  /** The text the six built-in passes of `filter_text` leave, in order:
      complete details blocks, details blocks with a summary, an unclosed
      details to the end, everything up to a stray closing details, summary
      blocks, and finally lines mentioning details or summary that hold an
      angle bracket. */
  function BuiltIn(finditer: (Regex, string) -> seq<Span>, text: string): string
    requires Matcher(finditer)
  {
    var t1 := PassResult(finditer, DetailsBlock, false, text);
    var t2 := PassResult(finditer, SummaryDetailsBlock, false, t1);
    var t3 := PassResult(finditer, OpenDetails, false, t2);
    var t4 := PassResult(finditer, CloseDetails, false, t3);
    var t5 := PassResult(finditer, SummaryBlock, false, t4);
    PassResult(finditer, DetailsLine, true, t5)
  }

  /** The names under which the six built-in passes record what they
      removed. */
  const DetailsBlockName: string := "完整details标签"
  const SummaryDetailsBlockName: string := "带summary的details标签"
  const OpenDetailsName: string := "不完整details开始标签"
  const CloseDetailsName: string := "不完整details结束标签"
  const SummaryBlockName: string := "单独summary标签"
  const DetailsLineName: string := "包含details或summary的行"

  /** What one built-in pass records: an item per removed match. */
  function PassItems(finditer: (Regex, string) -> seq<Span>, re: Regex, bracketOnly: bool, text: string,
                     ruleName: string): seq<Item>
    requires Matcher(finditer)
  {
    Removed(text, Select(text, finditer(re, text), 0, bracketOnly), 0, ruleName)
  }

  /** The items of the six built-in passes, in pass order, each pass
      matching on the text the previous one left. */
  function BuiltInItems(finditer: (Regex, string) -> seq<Span>, text: string): seq<Item>
    requires Matcher(finditer)
  {
    var t1 := PassResult(finditer, DetailsBlock, false, text);
    var t2 := PassResult(finditer, SummaryDetailsBlock, false, t1);
    var t3 := PassResult(finditer, OpenDetails, false, t2);
    var t4 := PassResult(finditer, CloseDetails, false, t3);
    var t5 := PassResult(finditer, SummaryBlock, false, t4);
    PassItems(finditer, DetailsBlock, false, text, DetailsBlockName)
    + PassItems(finditer, SummaryDetailsBlock, false, t1, SummaryDetailsBlockName)
    + PassItems(finditer, OpenDetails, false, t2, OpenDetailsName)
    + PassItems(finditer, CloseDetails, false, t3, CloseDetailsName)
    + PassItems(finditer, SummaryBlock, false, t4, SummaryBlockName)
    + PassItems(finditer, DetailsLine, true, t5, DetailsLineName)
  }

  /** One built-in pass only deletes characters, and its items cover
      exactly what it deleted. */
  lemma PassAccounts(finditer: (Regex, string) -> seq<Span>, re: Regex, bracketOnly: bool, text: string,
                     ruleName: string)
    requires Matcher(finditer)
    ensures Sub(PassResult(finditer, re, bracketOnly, text), text)
    ensures |PassResult(finditer, re, bracketOnly, text)| + ItemsLength(PassItems(finditer, re, bracketOnly, text, ruleName))
            == |text|
  {
    var chosen := Select(text, finditer(re, text), 0, bracketOnly);
    KeptDeletes(text, chosen, 0);
    RemovedLength(text, chosen, 0, ruleName);
    assert text[0..] == text;
  }

  /** The six built-in passes only delete characters, and the items they
      record cover exactly what they deleted. */
  lemma BuiltInItemsAccount(finditer: (Regex, string) -> seq<Span>, text: string)
    requires Matcher(finditer)
    ensures Sub(BuiltIn(finditer, text), text)
    ensures |BuiltIn(finditer, text)| + ItemsLength(BuiltInItems(finditer, text)) == |text|
  {
    var t1 := PassResult(finditer, DetailsBlock, false, text);
    var t2 := PassResult(finditer, SummaryDetailsBlock, false, t1);
    var t3 := PassResult(finditer, OpenDetails, false, t2);
    var t4 := PassResult(finditer, CloseDetails, false, t3);
    var t5 := PassResult(finditer, SummaryBlock, false, t4);
    var t6 := PassResult(finditer, DetailsLine, true, t5);
    var i1 := PassItems(finditer, DetailsBlock, false, text, DetailsBlockName);
    var i2 := PassItems(finditer, SummaryDetailsBlock, false, t1, SummaryDetailsBlockName);
    var i3 := PassItems(finditer, OpenDetails, false, t2, OpenDetailsName);
    var i4 := PassItems(finditer, CloseDetails, false, t3, CloseDetailsName);
    var i5 := PassItems(finditer, SummaryBlock, false, t4, SummaryBlockName);
    var i6 := PassItems(finditer, DetailsLine, true, t5, DetailsLineName);
    PassAccounts(finditer, DetailsBlock, false, text, DetailsBlockName);
    PassAccounts(finditer, SummaryDetailsBlock, false, t1, SummaryDetailsBlockName);
    PassAccounts(finditer, OpenDetails, false, t2, OpenDetailsName);
    PassAccounts(finditer, CloseDetails, false, t3, CloseDetailsName);
    PassAccounts(finditer, SummaryBlock, false, t4, SummaryBlockName);
    PassAccounts(finditer, DetailsLine, true, t5, DetailsLineName);
    SubTrans(t2, t1, text);
    SubTrans(t3, t2, text);
    SubTrans(t4, t3, text);
    SubTrans(t5, t4, text);
    SubTrans(t6, t5, text);
    ItemsLengthAppend(i1 + i2 + i3 + i4 + i5, i6);
    ItemsLengthAppend(i1 + i2 + i3 + i4, i5);
    ItemsLengthAppend(i1 + i2 + i3, i4);
    ItemsLengthAppend(i1 + i2, i3);
    ItemsLengthAppend(i1, i2);
  }

  // ---------------------------------------------------------------------
  // Configuration

  /** ASCII upper case to lower case; every other character is kept. */
  function Lower(s: string): (r: string)
    ensures |r| == |s|
    ensures forall i :: 0 <= i < |s| ==> r[i] == if 'A' <= s[i] <= 'Z' then (s[i] as int + 32) as char else s[i]
  {
    if s == [] then []
    else [if 'A' <= s[0] <= 'Z' then (s[0] as int + 32) as char else s[0]] + Lower(s[1..])
  }

  const TrueWords: set<string> := {"true", "1", "yes", "y", "on"}
  const FalseWords: set<string> := {"false", "0", "no", "n", "off", ""}

  /** `str(default)`. */
  function BoolText(b: bool): string
  {
    if b then "True" else "False"
  }

  /** `_parse_bool_env`: the variable's value, or `str(default)` when it is
      unset, lower-cased, is one of the true words. */
  function ParseBoolEnv(env: map<string, string>, name: string, default: bool): bool
  {
    Lower(if name in env then env[name] else BoolText(default)) in TrueWords
  }

  /** An unset variable gives the default; a set one is read without regard
      to case, and only the five true words give true. */
  lemma ParseBoolEnvMeaning(env: map<string, string>, name: string, default: bool)
    ensures name !in env ==> ParseBoolEnv(env, name, default) == default
    ensures name in env ==>
      (ParseBoolEnv(env, name, default) <==> Lower(env[name]) in TrueWords)
    ensures name in env && Lower(env[name]) in FalseWords ==> !ParseBoolEnv(env, name, default)
  {
    if name !in env {
      assert Lower(BoolText(true)) == "true";
      assert Lower(BoolText(false)) == "false";
    }
  }

  /** The characters `re.escape` puts a backslash before. */
  const Special: set<char> :=
    {'(', ')', '[', ']', '{', '}', '?', '*', '+', '-', '|', '^', '$', '\\', '.', '&', '~', '#',
     ' ', '\t', '\n', '\r', '\U{0B}', '\U{0C}'}

  /** `re.escape`. */
  function Escape(s: string): string
  {
    if s == [] then []
    else (if s[0] in Special then ['\\', s[0]] else [s[0]]) + Escape(s[1..])
  }

  /** A pattern in which every special character is escaped, so it matches
      only its own text. */
  predicate Literal(e: string)
    decreases |e|
  {
    e == []
    || (e[0] == '\\' && |e| >= 2 && e[1] in Special && Literal(e[2..]))
    || (e[0] !in Special && Literal(e[1..]))
  }

  /** The text a literal pattern matches. */
  function Unescape(e: string): string
    decreases |e|
  {
    if e == [] then []
    else if e[0] == '\\' && |e| >= 2 then [e[1]] + Unescape(e[2..])
    else [e[0]] + Unescape(e[1..])
  }

  /** `re.escape` yields a literal pattern that matches exactly the text it
      was given. */
  lemma {:induction false} EscapeIsLiteral(s: string)
    ensures Literal(Escape(s))
    ensures Unescape(Escape(s)) == s
  {
    if s != [] {
      EscapeIsLiteral(s[1..]);
      var e := Escape(s);
      if s[0] in Special {
        assert e[2..] == Escape(s[1..]);
      } else {
        assert e[1..] == Escape(s[1..]);
      }
    }
  }

  /** What `_add_rule` appends: a regex is compiled with `re.DOTALL` and
      dropped when it does not compile; a plain pattern is escaped, which
      always compiles. */
  function NewRule(compiles: Regex -> bool, pattern: string, name: string, description: string, isRegex: bool): seq<Rule>
  {
    if isRegex then RegexRule(compiles, pattern, name, description)
    else [Rule(Regex(Escape(pattern), false, false), name, description, false)]
  }

  function RegexRule(compiles: Regex -> bool, pattern: string, name: string, description: string): seq<Rule>
  {
    if compiles(Regex(pattern, true, false)) then [Rule(Regex(pattern, true, false), name, description, true)] else []
  }

  /** The rules a list of custom entries adds: objects with a "pattern" key,
      with the missing keys defaulted. */
  function EntryRules(compiles: Regex -> bool, entries: seq<RuleEntry>, defaultName: string): seq<Rule>
  {
    if entries == [] then []
    else
      EntryRule(compiles, entries[0], defaultName) + EntryRules(compiles, entries[1..], defaultName)
  }

  /** Entries are processed in order: one more entry adds its rule at the
      end. */
  lemma {:induction false} EntryRulesSnoc(compiles: Regex -> bool, entries: seq<RuleEntry>, e: RuleEntry, defaultName: string)
    ensures EntryRules(compiles, entries + [e], defaultName)
      == EntryRules(compiles, entries, defaultName) + EntryRule(compiles, e, defaultName)
    decreases |entries|
  {
    if entries == [] {
      assert [] + [e] == [e];
      assert [e][1..] == [];
    } else {
      assert (entries + [e])[0] == entries[0];
      assert (entries + [e])[1..] == entries[1..] + [e];
      EntryRulesSnoc(compiles, entries[1..], e, defaultName);
    }
  }

  const NoDescription: string := ""

  /** The rule one custom entry adds, if any. */
  function EntryRule(compiles: Regex -> bool, e: RuleEntry, defaultName: string): seq<Rule>
  {
    if e.Entry? && e.pattern.Some? then
      NewRule(compiles, e.pattern.value, EntryName(e, defaultName), EntryDescription(e), EntryIsRegex(e))
    else []
  }

  /** `rule.get('name', defaultName)`. */
  function EntryName(e: RuleEntry, defaultName: string): string
    requires e.Entry?
  {
    if e.name.Some? then e.name.value else defaultName
  }

  /** `rule.get('description', '')`. */
  function EntryDescription(e: RuleEntry): string
    requires e.Entry?
  {
    if e.description.Some? then e.description.value else NoDescription
  }

  /** `rule.get('is_regex', False)`. */
  function EntryIsRegex(e: RuleEntry): bool
    requires e.Entry?
  {
    e.isRegex.Some? && e.isRegex.value
  }

  const DetailsRefsRule := Regex("<details><summary>资料\\[\\d+\\]:.+?</summary>.*?</details>", true, false)
  const ThinkingRule := Regex("思考过程：.*?(?=\\n\\n|$)", true, false)
  const LinkRule := Regex("Link\\s*\\n", true, false)

  /** The rules `_add_default_rules` adds. */
  function DefaultRules(compiles: Regex -> bool): seq<Rule>
  {
    RegexRule(compiles, DetailsRefsRule.source, "详情标签", "过滤<details>标签包含的引用资料")
    + RegexRule(compiles, ThinkingRule.source, "思考过程", "过滤标记为思考过程的内容")
    + RegexRule(compiles, LinkRule.source, "链接标记", "过滤单独的Link标记行")
  }

  // The six built-in passes of `filter_text`.
  const DetailsBlock := Regex("<details>.*?</details>", true, false)
  const SummaryDetailsBlock := Regex("<details><summary>.*?</summary>.*?</details>", true, false)
  const OpenDetails := Regex("<details>.*?$", true, false)
  const CloseDetails := Regex("^.*?</details>", true, false)
  const SummaryBlock := Regex("<summary>.*?</summary>", true, false)
  const DetailsLine := Regex(".*?(?:details|summary).*?$", false, true)

  const EnabledVariable := "TEXT_FILTER_ENABLED"
  const DefaultRulesVariable := "TEXT_FILTER_USE_DEFAULT_RULES"
  const CustomRuleName := "自定义规则"
  const FileRuleName := "文件规则"

  class TextFilter {
    /** `re.finditer` of the Python engine. */
    const finditer: (Regex, string) -> seq<Span>
    /** Whether `re.compile` accepts a source with the given flags. */
    const compiles: Regex -> bool
    var enabled: bool
    var rules: seq<Rule>

    ghost predicate Valid()
      reads this
    {
      Matcher(finditer)
    }

    /** `TextFilter()`: the switches come from the environment; the custom
        rules from TEXT_FILTER_CUSTOM_RULES and from the rules file arrive
        already parsed (`None` when unset, unreadable or not JSON). */
    constructor (env: map<string, string>, finditer: (Regex, string) -> seq<Span>, compiles: Regex -> bool,
                 customRules: Option<seq<RuleEntry>>, fileRules: Option<seq<RuleEntry>>)
      requires Matcher(finditer)
      ensures Valid()
      ensures this.finditer == finditer && this.compiles == compiles
      ensures enabled == ParseBoolEnv(env, EnabledVariable, false)
      ensures rules ==
        (if ParseBoolEnv(env, DefaultRulesVariable, true) then DefaultRules(compiles) else [])
        + (if customRules.Some? then EntryRules(compiles, customRules.value, CustomRuleName) else [])
        + (if fileRules.Some? then EntryRules(compiles, fileRules.value, FileRuleName) else [])
    {
      this.finditer := finditer;
      this.compiles := compiles;
      enabled := ParseBoolEnv(env, EnabledVariable, false);
      rules := [];
      new;
      ghost var defaults := if ParseBoolEnv(env, DefaultRulesVariable, true) then DefaultRules(compiles) else [];
      ghost var custom := if customRules.Some? then EntryRules(compiles, customRules.value, CustomRuleName) else [];
      ghost var fromFile := if fileRules.Some? then EntryRules(compiles, fileRules.value, FileRuleName) else [];
      if ParseBoolEnv(env, DefaultRulesVariable, true) {
        AddDefaultRules();
      }
      assert rules == defaults;
      if customRules.Some? {
        AddEntries(customRules.value, CustomRuleName);
      }
      assert rules == defaults + custom;
      if fileRules.Some? {
        AddEntries(fileRules.value, FileRuleName);
      }
      assert rules == defaults + custom + fromFile;
    }

    /** `_add_rule`: one rule more when the pattern compiles, none otherwise. */
    method AddRule(pattern: string, name: string, description: string, isRegex: bool)
      modifies this
      ensures rules == old(rules) + NewRule(compiles, pattern, name, description, isRegex)
      ensures enabled == old(enabled)
    {
      if isRegex {
        var re := Regex(pattern, true, false);
        if compiles(re) {
          rules := rules + [Rule(re, name, description, true)];
        }
      } else {
        rules := rules + [Rule(Regex(Escape(pattern), false, false), name, description, false)];
      }
    }

    /** `_add_default_rules`. */
    method AddDefaultRules()
      modifies this
      ensures rules == old(rules) + DefaultRules(compiles)
      ensures enabled == old(enabled)
    {
      AddRule(DetailsRefsRule.source, "详情标签", "过滤<details>标签包含的引用资料", true);
      AddRule(ThinkingRule.source, "思考过程", "过滤标记为思考过程的内容", true);
      AddRule(LinkRule.source, "链接标记", "过滤单独的Link标记行", true);
    }

    /** The loop of `_load_rules` over one list of custom rules. */
    method AddEntries(entries: seq<RuleEntry>, defaultName: string)
      modifies this
      ensures rules == old(rules) + EntryRules(compiles, entries, defaultName)
      ensures enabled == old(enabled)
    {
      ghost var start := rules;
      var k := 0;
      while k < |entries|
        invariant 0 <= k <= |entries|
        invariant enabled == old(enabled)
        invariant rules == start + EntryRules(compiles, entries[..k], defaultName)
      {
        var e := entries[k];
        assert entries[..k + 1] == entries[..k] + [e];
        EntryRulesSnoc(compiles, entries[..k], e, defaultName);
        ghost var done := EntryRules(compiles, entries[..k], defaultName);
        if e.Entry? && e.pattern.Some? {
          AddRule(e.pattern.value, EntryName(e, defaultName), EntryDescription(e), EntryIsRegex(e));
        }
        assert rules == (start + done) + EntryRule(compiles, e, defaultName);
        assert (start + done) + EntryRule(compiles, e, defaultName) == start + (done + EntryRule(compiles, e, defaultName));
        k := k + 1;
      }
      assert entries[..k] == entries;
    }

    /** `_apply_rules`: every rule's pass in turn. */
    method ApplyRules(text: string) returns (filtered: string, items: seq<Item>)
      requires Valid()
      ensures (filtered, items) == Applied(finditer, rules, text)
    {
      filtered, items := text, [];
      var k := 0;
      while k < |rules|
        invariant 0 <= k <= |rules|
        invariant Applied(finditer, rules[k..], filtered).0 == Applied(finditer, rules, text).0
        invariant items + Applied(finditer, rules[k..], filtered).1 == Applied(finditer, rules, text).1
      {
        var rule := rules[k];
        var spans := finditer(rule.pattern, filtered);
        var t, added := DeletePass(filtered, spans, rule.name, false);
        AppliedFrom(finditer, rules, k, filtered);
        ghost var rest := Applied(finditer, rules[k + 1..], t).1;
        assert items + (added + rest) == (items + added) + rest;
        items := items + added;
        filtered := t;
        k := k + 1;
      }
      assert rules[k..] == [];
      assert Applied(finditer, rules[k..], filtered) == (filtered, []);
      assert items + [] == items;
    }

    /** One built-in pass of `filter_text` with the pattern `re`. */
    method BuiltInPass(text: string, re: Regex, ruleName: string, bracketOnly: bool)
      returns (filtered: string, added: seq<Item>)
      requires Valid()
      ensures filtered == PassResult(finditer, re, bracketOnly, text)
      ensures Sub(filtered, text)
      ensures added == PassItems(finditer, re, bracketOnly, text, ruleName)
    {
      var spans := finditer(re, text);
      filtered, added := DeletePass(text, spans, ruleName, bracketOnly);
      KeptDeletes(text, Select(text, spans, 0, bracketOnly), 0);
      assert text[0..] == text;
    }

    /** The text `filter_text` returns. */
    function Output(text: string): string
      reads this
      requires Valid()
    {
      if !enabled || text == [] then text
      else FinalCleanup(Applied(finditer, rules, BuiltIn(finditer, text)).0)
    }

    /** `filter_text`: off or on empty text the input comes back untouched.
        Otherwise the six built-in passes, the rules and `_final_cleanup` run
        in that order; the result only ever loses characters, and is free of
        tags, "DOI:" markers, runs of three newlines and surrounding
        whitespace. */
    method FilterText(text: string) returns (result: string, items: seq<Item>)
      requires Valid()
      ensures result == Output(text)
      ensures !enabled || text == [] ==> result == text && items == []
      ensures enabled && text != [] ==>
        result == FinalCleanup(Applied(finditer, rules, BuiltIn(finditer, text)).0)
      ensures enabled && text != [] ==>
        items == BuiltInItems(finditer, text) + Applied(finditer, rules, BuiltIn(finditer, text)).1
      ensures enabled && text != [] ==>
        Sub(result, text)
        && NoTagPair(result)
        && !Contains(result, DoiMark)
        && !Contains(result, TripleBreak)
        && (result == [] || (!IsSpace(result[0]) && !IsSpace(result[|result| - 1])))
    {
      if !enabled || text == [] {
        return text, [];
      }
      var t1, i1 := BuiltInPass(text, DetailsBlock, DetailsBlockName, false);
      var t2, i2 := BuiltInPass(t1, SummaryDetailsBlock, SummaryDetailsBlockName, false);
      var t3, i3 := BuiltInPass(t2, OpenDetails, OpenDetailsName, false);
      var t4, i4 := BuiltInPass(t3, CloseDetails, CloseDetailsName, false);
      var t5, i5 := BuiltInPass(t4, SummaryBlock, SummaryBlockName, false);
      var t6, i6 := BuiltInPass(t5, DetailsLine, DetailsLineName, true);
      SubTrans(t2, t1, text);
      SubTrans(t3, t2, text);
      SubTrans(t4, t3, text);
      SubTrans(t5, t4, text);
      SubTrans(t6, t5, text);
      var ruled, more := ApplyRules(t6);
      AppliedDeletes(finditer, rules, t6);
      SubTrans(ruled, t6, text);
      items := i1 + i2 + i3 + i4 + i5 + i6 + more;
      result := FinalCleanup(ruled);
      FinalCleanupCleans(ruled);
      SubTrans(result, ruled, text);
    }
  }
}
