/** What the texts of CPU ranges mean, said in numbers rather than by either parser. */
module RangeTexts {
  import Arithmetic
  import opened CpuRange
  import opened JsRange
  import opened Options
  import opened Text

  // ---- Numbers ----

  /** Decimal notation: a digit is written as itself, and appending a digit is multiplying by ten. */
  lemma DecimalNotation(n: nat, d: nat)
    requires d < 10
    ensures Decimal(d) == ["0123456789"[d]]
    ensures n > 0 ==> Decimal(10 * n + d) == Decimal(n) + ["0123456789"[d]]
  {
    assert n > 0 ==> (10 * n + d) / 10 == n && (10 * n + d) % 10 == d;
  }

  lemma {:induction false} ReadDigitsOn(s: string, t: string, acc: nat, afterDigit: bool)
    requires AllDigits(s) && s != ""
    ensures ReadDigits(s, acc, afterDigit).Some?
    ensures ReadDigits(s + t, acc, afterDigit) == ReadDigits(t, ReadDigits(s, acc, afterDigit).value, true)
  {
    assert (s + t)[1..] == s[1..] + t;
    if |s| == 1 {
      assert s[1..] == "" && "" + t == t;
    } else {
      ReadDigitsOn(s[1..], t, 10 * acc + DigitValue(s[0]), true);
    }
  }

  /** A number may carry a sign, leading zeros, and single underscores between digits. */
  lemma NumberForms(n: nat, s: string, t: string)
    requires IsNumber(s) && IsNumber(t)
    ensures ReadInt("+" + Decimal(n)) == Some(n) && ReadInt("-" + Decimal(n)) == Some(-(n as int))
    ensures ReadInt("0" + Decimal(n)) == Some(n)
    ensures ReadInt(s + "_" + t) == ReadInt(s + t) && ReadInt(s + t).Some?
    ensures ReadInt(s + "__" + t).None? && ReadInt(s + "_").None? && ReadInt("_" + s).None?
  {
    SignedForms(n);
    Underscores(s, t);
  }

  lemma SignedForms(n: nat)
    ensures ReadInt("+" + Decimal(n)) == Some(n) && ReadInt("-" + Decimal(n)) == Some(-(n as int))
    ensures ReadInt("0" + Decimal(n)) == Some(n)
  {
    var digits := Decimal(n);
    ReadDigitsDecimal(n);
    StripSolid("+" + digits);
    StripSolid("-" + digits);
    StripSolid("0" + digits);
    assert ("+" + digits)[1..] == digits && ("-" + digits)[1..] == digits && ("0" + digits)[1..] == digits;
    ZeroCarries(digits);
  }

  lemma ZeroCarries(digits: string)
    requires AllDigits(digits) && digits != ""
    ensures ReadDigits("0" + digits, 0, false) == ReadDigits(digits, 0, false)
  {
    assert ("0" + digits)[1..] == digits;
    assert ReadDigits(digits, 0, true) == ReadDigits(digits, 0, false);
  }

  lemma Underscores(s: string, t: string)
    requires IsNumber(s) && IsNumber(t)
    ensures ReadInt(s + "_" + t) == ReadInt(s + t) && ReadInt(s + t).Some?
    ensures ReadInt(s + "__" + t).None? && ReadInt(s + "_").None? && ReadInt("_" + s).None?
  {
    hide ReadInt, ReadDigits, IsNumber, DigitsAndUnderscores;
    UnderscoreTexts(t);
    ReadAfterDigits(s, "_" + t);
    ReadAfterDigits(s, t);
    ReadAfterDigits(s, "__" + t);
    ReadAfterDigits(s, "_");
    assert s + "_" + t == s + ("_" + t) && s + "__" + t == s + ("__" + t);
    var n := ReadDigits(s, 0, false).value;
    AfterUnderscore(t, n);
    LeadingUnderscore(s);
  }

  predicate DigitsAndUnderscores(s: string) {
    forall i :: 0 <= i < |s| ==> IsDigit(s[i]) || s[i] == '_'
  }

  /** What follows a number is read on from it. */
  lemma ReadAfterDigits(s: string, t: string)
    requires IsNumber(s) && DigitsAndUnderscores(t)
    ensures ReadDigits(s, 0, false).Some?
    ensures ReadInt(s + t) == ReadDigits(t, ReadDigits(s, 0, false).value, true)
  {
    StripSolid(s + t);
    hide Strip;
    ReadDigitsOn(s, t, 0, false);
    hide ReadDigits;
    assert (s + t)[0] == s[0] && IsDigit(s[0]);
  }

  lemma UnderscoreTexts(t: string)
    requires IsNumber(t)
    ensures DigitsAndUnderscores(t) && DigitsAndUnderscores("_" + t) && DigitsAndUnderscores("__" + t)
    ensures DigitsAndUnderscores("_")
  {
  }

  lemma AfterUnderscore(t: string, n: nat)
    requires IsNumber(t)
    ensures ReadDigits("_" + t, n, true) == ReadDigits(t, n, true) && ReadDigits(t, n, true).Some?
    ensures ReadDigits("__" + t, n, true).None? && ReadDigits("_", n, true).None?
  {
    assert ("_" + t)[1..] == t && ("__" + t)[1..] == "_" + t && "_"[1..] == "";
    assert ReadDigits(t, n, true) == ReadDigits(t, n, false);
    DigitsRead(t, n, true);
  }

  lemma LeadingUnderscore(s: string)
    requires IsNumber(s)
    ensures ReadInt("_" + s).None?
  {
    StripSolid("_" + s);
  }

  /** No blank in it, so nothing to strip. */
  lemma StripSolid(s: string)
    requires forall i :: 0 <= i < |s| ==> !IsSpace(s[i])
    ensures Strip(s) == s
  {
  }

  // ---- Ranges ----

  /**
   The text stands for the CPUs first, first + step, ... up to last: the validator's set holds exactly
   these, the worker's parser gives these bounds, and the column it writes lists them in this order.
   */
  ghost predicate StandsFor(text: string, first: nat, last: nat, step: nat)
    requires step > 0
  {
    var ids, column := CpuIdsForRange(text), ToCpuSet(text);
    && ids.Ok? && (forall x :: x in ids.value <==> first <= x <= last && (x - first) % step == 0)
    && ParseCpuRange(text) == Ok(Bounds(first, last, step))
    && column.Ok?
    && var numbers := ReadCpuSet(column.value);
    && |numbers| == (last - first) / step + 1
    && forall i :: 0 <= i < |numbers| ==> numbers[i] == Some(first + i * step)
  }

  predicate BothRefuse(text: string, error: RangeError) {
    CpuIdsForRange(text) == Err(error) && ParseCpuRange(text) == Err(error)
  }

  lemma {:induction false} RangeListAt(start: int, end: int, step: int, i: nat)
    requires step > 0 && i < |RangeList(start, end, step)|
    ensures RangeList(start, end, step)[i] == start + i * step
    decreases i
  {
    if i > 0 {
      RangeListAt(start + step, end, step, i - 1);
      assert (i - 1) * step == i * step - step;
    }
  }

  lemma ParsedStandsFor(text: string, first: nat, last: nat, step: nat)
    requires step > 0 && first <= last && ParseCpuRange(text) == Ok(Bounds(first, last, step))
    ensures StandsFor(text, first, last, step)
  {
    hide CpuIdsForRange, ParseCpuRange, RangeList, Split, ReadInt, CpuSetText, ReadCpuSet;
    ParsersAgree(text);
    var b, ids := ParsedIds(text);
    CpuSetTextReadsBack(ids);
    forall i | 0 <= i < |ids| ensures ids[i] == first + i * step {
      RangeListAt(first, last, step, i);
    }
  }

  lemma FoundAfter(s: string, c: char, rest: string)
    requires c !in s
    ensures var text := s + [c] + rest; Find(text, c) == |s| && text[..|s|] == s && text[|s| + 1..] == rest
  {
    var text := s + [c] + rest;
    assert text[|s|] == c && forall j :: 0 <= j < |s| ==> text[j] == s[j];
  }

  /** A step written after a text without one replaces the step 1 of that text. */
  lemma StepAppended(body: string, step: nat)
    requires body != "" && DigitsAndDashes(body)
    ensures var plain := ParseCpuRange(body);
            ParseCpuRange(body + ":" + Decimal(step)) ==
            if step == 0 then Err(StepNotPositive)
            else if plain.Err? then plain
            else Ok(plain.value.(step := step))
  {
    var text := body + ":" + Decimal(step);
    StripSolid(text);
    DigitsUntouched(body);
    ReadIntDecimal(step);
    FoundAfter(body, ':', Decimal(step));
    hide Strip, ReadInt, DigitsAndDashes, Decimal, AllDigits, Find;
    assert Find(body, ':') == |body| && body[..|body|] == body;
    WithStep(text, body, Decimal(step));
  }

  lemma WithStep(text: string, body: string, step: string)
    requires Strip(text) == text && Strip(body) == body && body != "" && text != ""
    requires Find(body, ':') == |body| && Find(text, ':') == |body| < |text|
    requires text[..|body|] == body && text[|body| + 1..] == step && ReadInt(step).Some?
    ensures var plain, n := ParseCpuRange(body), ReadInt(step).value;
            ParseCpuRange(text) ==
            if n <= 0 then Err(StepNotPositive)
            else if plain.Err? then plain
            else Ok(plain.value.(step := n))
  {
    hide Strip, ReadInt;
    assert body[..|body|] == body;
  }

  lemma DecimalIsNumber(n: nat)
    ensures IsNumber(Decimal(n)) && NumberOf(Decimal(n)) == n && DigitsAndDashes(Decimal(n))
  {
    ReadDigitsDecimal(n);
  }

  lemma RangeParsed(first: nat, last: nat, step: nat)
    ensures var plain := if last < first then Err(BadBounds) else Ok(Bounds(first, last, 1));
            && ParseCpuRange(Decimal(first) + "-" + Decimal(last)) == plain
            && ParseCpuRange(Decimal(first) + "-" + Decimal(last) + ":" + Decimal(step)) ==
               if step == 0 then Err(StepNotPositive) else if plain.Err? then plain else Ok(Bounds(first, last, step))
  {
    hide ParseCpuRange, NumberOf, Decimal;
    DecimalIsNumber(first);
    DecimalIsNumber(last);
    PlainRange(Decimal(first), Decimal(last));
    StepAppended(Decimal(first) + "-" + Decimal(last), step);
  }

  /** "a-b:s" and "a-b": every s-th CPU from a up to b, or an error if the bounds or the step are wrong. */
  lemma SteppedRange(first: nat, last: nat, step: nat)
    ensures var text := Decimal(first) + "-" + Decimal(last) + ":" + Decimal(step);
            if step == 0 then BothRefuse(text, StepNotPositive)
            else if last < first then BothRefuse(text, BadBounds)
            else StandsFor(text, first, last, step)
    ensures var text := Decimal(first) + "-" + Decimal(last);
            if last < first then BothRefuse(text, BadBounds)
            else StandsFor(text, first, last, 1)
  {
    hide ParseCpuRange, CpuIdsForRange, StandsFor, Decimal;
    RangeParsed(first, last, step);
    var body := Decimal(first) + "-" + Decimal(last);
    var text := body + ":" + Decimal(step);
    ParsersAgree(body);
    ParsersAgree(text);
    if first <= last {
      ParsedStandsFor(body, first, last, 1);
      if step > 0 {
        ParsedStandsFor(text, first, last, step);
      }
    }
  }

  lemma OnlyOne(ids: set<int>, cpu: int, step: int)
    requires step > 0 && forall x :: x in ids <==> cpu <= x <= cpu && (x - cpu) % step == 0
    ensures ids == {cpu}
  {
    Arithmetic.DivisionIsUnique(0, step, 0, 0);
    assert (cpu - cpu) % step == 0 && cpu in ids;
    assert forall x :: x in ids ==> x == cpu;
  }

  /** "a" and "a:s": the one CPU a, whatever the step. */
  lemma SingleCpu(cpu: nat, step: nat)
    ensures StandsFor(Decimal(cpu), cpu, cpu, 1)
    ensures var text := Decimal(cpu) + ":" + Decimal(step);
            if step == 0 then BothRefuse(text, StepNotPositive)
            else StandsFor(text, cpu, cpu, step) && CpuIdsForRange(text) == Ok({cpu as int})
  {
    hide ParseCpuRange, CpuIdsForRange, NumberOf, ToCpuSet, ReadCpuSet;
    DecimalIsNumber(cpu);
    PlainRange(Decimal(cpu), Decimal(cpu));
    var text := Decimal(cpu) + ":" + Decimal(step);
    StepAppended(Decimal(cpu), step);
    ParsersAgree(text);
    ParsedStandsFor(Decimal(cpu), cpu, cpu, 1);
    if step > 0 {
      ParsedStandsFor(text, cpu, cpu, step);
      OnlyOne(CpuIdsForRange(text).value, cpu, step);
    }
  }

  /** Blanks around a range do not count, and a range of nothing but blanks is refused as empty. */
  lemma BlanksDoNotCount(before: string, text: string, after: string)
    requires AllSpace(before) && AllSpace(after)
    ensures CpuIdsForRange(before + text + after) == CpuIdsForRange(text)
    ensures ParseCpuRange(before + text + after) == ParseCpuRange(text)
    ensures AllSpace(text) <==> ParseCpuRange(text) == Err(EmptyRange)
  {
    hide CpuIdsForRange, ParseCpuRange, StripLeft, StripRight;
    StripLeftDrops(before, text + after);
    assert before + text + after == before + (text + after);
    StripLeftInside(text, after);
    StripEmpty(text);
    SameWhenStripped(before + text + after, text);
  }

  lemma SameWhenStripped(x: string, y: string)
    requires Strip(x) == Strip(y)
    ensures CpuIdsForRange(x) == CpuIdsForRange(y) && ParseCpuRange(x) == ParseCpuRange(y)
    ensures Strip(x) == "" <==> ParseCpuRange(x) == Err(EmptyRange)
  {
    hide Strip, ReadInt, Find, RangeList;
  }

  lemma {:induction false} StripLeftDrops(before: string, s: string)
    requires AllSpace(before)
    ensures StripLeft(before + s) == StripLeft(s)
  {
    if before == "" {
      assert before + s == s;
    } else {
      assert (before + s)[1..] == before[1..] + s;
      StripLeftDrops(before[1..], s);
    }
  }

  lemma {:induction false} StripRightDrops(s: string, after: string)
    requires AllSpace(after)
    ensures StripRight(s + after) == StripRight(s)
  {
    if after == "" {
      assert s + after == s;
    } else {
      assert (s + after)[..|s + after| - 1] == s + after[..|after| - 1];
      StripRightDrops(s, after[..|after| - 1]);
    }
  }

  lemma {:induction false} StripLeftInside(text: string, after: string)
    requires AllSpace(after)
    ensures StripRight(StripLeft(text + after)) == Strip(text)
  {
    if text == "" {
      assert text + after == after;
      StripLeftEnds(after);
    } else if IsSpace(text[0]) {
      assert (text + after)[1..] == text[1..] + after;
      StripLeftInside(text[1..], after);
    } else {
      StripRightDrops(text, after);
    }
  }

  /** The two examples the worker's own documentation gives. */
  lemma DocumentedExamples()
    ensures ToCpuSet("0-3") == Ok("0,1,2,3") && ToCpuSet("0-7:2") == Ok("0,2,4,6")
  {
    hide ToCpuSet, ParseCpuRange;
    ExamplesParsed();
    ColumnText("0-3", 0, 3, 1);
    ColumnText("0-7:2", 0, 7, 2);
    hide RangeList, CpuSetText;
    CountsByOne();
    CountsByTwo();
  }

  lemma ExamplesParsed()
    ensures ParseCpuRange("0-3") == Ok(Bounds(0, 3, 1)) && ParseCpuRange("0-7:2") == Ok(Bounds(0, 7, 2))
  {
    DecimalNotation(0, 0);
    DecimalNotation(0, 2);
    DecimalNotation(0, 3);
    DecimalNotation(0, 7);
    hide ParseCpuRange, Decimal;
    assert "0" + "-" + "3" == "0-3" && "0" + "-" + "7" + ":" + "2" == "0-7:2";
    Spelled("0", 0, "3", 3, "", 1);
    Spelled("0", 0, "7", 7, "2", 2);
  }

  lemma Spelled(a: string, first: nat, b: string, last: nat, s: string, step: nat)
    requires a == Decimal(first) && b == Decimal(last) && first <= last && step > 0
    ensures ParseCpuRange(a + "-" + b) == Ok(Bounds(first, last, 1))
    ensures s == Decimal(step) ==> ParseCpuRange(a + "-" + b + ":" + s) == Ok(Bounds(first, last, step))
  {
    hide ParseCpuRange, CpuIdsForRange, ToCpuSet, ReadCpuSet, Decimal;
    SteppedRange(first, last, step);
  }

  lemma ColumnText(text: string, first: nat, last: nat, step: nat)
    requires step > 0 && ParseCpuRange(text) == Ok(Bounds(first, last, step))
    ensures var ids := RangeList(first, last, step); forall i :: 0 <= i < |ids| ==> ids[i] >= 0
    ensures ToCpuSet(text) == Ok(CpuSetText(RangeList(first, last, step)))
  {
    hide ParseCpuRange, CpuSetText;
    RangeListFacts(Bounds(first, last, step));
  }

  lemma CountsByOne()
    ensures RangeList(0, 3, 1) == [0, 1, 2, 3] && CpuSetText([0, 1, 2, 3]) == "0,1,2,3"
  {
    assert RangeList(4, 3, 1) == [] && RangeList(3, 3, 1) == [3] && RangeList(2, 3, 1) == [2, 3];
    hide RangeList;
    assert Printed([0, 1, 2, 3]) == ["0", "1", "2", "3"];
    JoinFour("0", "1", "2", "3");
  }

  lemma CountsByTwo()
    ensures RangeList(0, 7, 2) == [0, 2, 4, 6] && CpuSetText([0, 2, 4, 6]) == "0,2,4,6"
  {
    assert RangeList(8, 7, 2) == [] && RangeList(6, 7, 2) == [6] && RangeList(4, 7, 2) == [4, 6];
    hide RangeList;
    assert Printed([0, 2, 4, 6]) == ["0", "2", "4", "6"];
    JoinFour("0", "2", "4", "6");
  }

  lemma JoinFour(a: string, b: string, c: string, d: string)
    ensures Join([a, b, c, d]) == a + "," + b + "," + c + "," + d
  {
    assert [a, b, c, d][1..] == [b, c, d] && [b, c, d][1..] == [c, d] && [c, d][1..] == [d];
    assert Join([c, d]) == c + "," + d;
    assert Join([b, c, d]) == b + "," + (c + "," + d);
  }
}
