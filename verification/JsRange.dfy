/**
 The third parser of CPU ranges and the printer that feeds the other two: the web client's
 (kloigos/webapp/extension.js).
 */
module JsRange {
  import opened Collections
  import opened CpuRange
  import opened Options
  import opened Text

  const BYTE_ORDER_MARK := '\U{feff}'

  /** The characters JavaScript's `trim()` removes: of these only the byte order mark stays in Python. */
  predicate IsJsSpace(c: char) {
    || '\t' <= c <= '\r' || c == ' '
    || c == '\U{a0}' || c == '\U{1680}' || '\U{2000}' <= c <= '\U{200a}'
    || c == '\U{2028}' || c == '\U{2029}' || c == '\U{202f}' || c == '\U{205f}' || c == '\U{3000}'
    || c == BYTE_ORDER_MARK
  }

  function TrimLeft(s: string): string {
    if s != "" && IsJsSpace(s[0]) then TrimLeft(s[1..]) else s
  }

  function TrimRight(s: string): string {
    if s != "" && IsJsSpace(s[|s| - 1]) then TrimRight(s[..|s| - 1]) else s
  }

  function Trim(s: string): string {
    TrimRight(TrimLeft(s))
  }

  function Consecutive(start: nat, end: nat): (cpus: seq<nat>)
    ensures |cpus| == if end < start then 0 else end - start + 1
    ensures forall i :: 0 <= i < |cpus| ==> cpus[i] == start + i
  {
    if end < start then [] else seq(end - start + 1, i => start + i)
  }

  /** `\d+` in full. */
  predicate IsNumber(s: string) {
    s != "" && AllDigits(s)
  }

  function NumberOf(s: string): (n: nat)
    requires IsNumber(s)
    ensures ReadDigits(s, 0, false) == Some(n)
  {
    DigitsRead(s, 0, false);
    ReadDigits(s, 0, false).value
  }

  /** `parseServerInitCpuRange`: a number or two numbers with a dash; anything else gives no CPUs. */
  function JsCpus(cpuRange: string): seq<nat> {
    var text := Trim(cpuRange);
    var dash := Find(text, '-');
    if !IsNumber(text[..dash]) then []
    else if dash == |text| then Consecutive(NumberOf(text), NumberOf(text))
    else if !IsNumber(text[dash + 1..]) then []
    else Consecutive(NumberOf(text[..dash]), NumberOf(text[dash + 1..]))
  }

  /** The text that `serverInitCpuRange` prints for contiguous CPUs. */
  function RangeText(start: nat, end: nat): string {
    if start == end then Decimal(start) else Decimal(start) + "-" + Decimal(end)
  }

  lemma {:induction false} DigitsRead(s: string, acc: nat, afterDigit: bool)
    requires AllDigits(s) && (s != "" || afterDigit)
    ensures ReadDigits(s, acc, afterDigit).Some?
  {
    if s != "" {
      DigitsRead(s[1..], 10 * acc + DigitValue(s[0]), true);
    }
  }

  predicate DigitsAndDashes(s: string) {
    forall i :: 0 <= i < |s| ==> IsDigit(s[i]) || s[i] == '-'
  }

  lemma DigitsUntouched(s: string)
    requires DigitsAndDashes(s)
    ensures Strip(s) == s && Trim(s) == s && ':' !in s && BYTE_ORDER_MARK !in s
  {
  }

  /** A range of plain numbers means the same to all three parsers. */
  lemma PlainRange(first: string, last: string)
    requires IsNumber(first) && IsNumber(last)
    ensures var start := NumberOf(first);
            ParseCpuRange(first) == Ok(Bounds(start, start, 1)) && JsCpus(first) == Consecutive(start, start)
    ensures var text := first + "-" + last;
            var start, end := NumberOf(first), NumberOf(last);
            && JsCpus(text) == Consecutive(start, end)
            && ParseCpuRange(text) == if end < start then Err(BadBounds) else Ok(Bounds(start, end, 1))
  {
    NumberUntouched(first);
    NumberUntouched(last);
    NumberAlone(first);
    NumbersWithDash(first, last);
  }

  lemma NumberUntouched(s: string)
    requires IsNumber(s)
    ensures Strip(s) == s && ReadInt(s) == Some(NumberOf(s)) && DigitsAndDashes(s) && '-' !in s
  {
    StripDigits(s);
    assert !IsDigit('-') && !IsDigit('+');
  }

  lemma NumberAlone(s: string)
    requires IsNumber(s)
    ensures ParseCpuRange(s) == Ok(Bounds(NumberOf(s), NumberOf(s), 1))
    ensures JsCpus(s) == Consecutive(NumberOf(s), NumberOf(s))
  {
    assert s != "";
    hide Strip, Trim, ReadInt, ReadDigits, IsNumber, AllDigits, DigitsAndDashes;
    NumberUntouched(s);
    DigitsUntouched(s);
    assert Find(s, ':') == |s| && Find(s, '-') == |s|;
    assert s[..|s|] == s;
  }

  lemma NumbersWithDash(first: string, last: string)
    requires IsNumber(first) && IsNumber(last)
    ensures var text := first + "-" + last;
            var start, end := NumberOf(first), NumberOf(last);
            && JsCpus(text) == Consecutive(start, end)
            && ParseCpuRange(text) == if end < start then Err(BadBounds) else Ok(Bounds(start, end, 1))
  {
    hide Strip, Trim, ReadInt, ReadDigits, IsNumber;
    NumberUntouched(first);
    NumberUntouched(last);
    var text := first + "-" + last;
    DigitsUntouched(text);
    assert Find(text, ':') == |text|;
    assert text[..|text|] == text;
    assert text[|first|] == '-';
    assert forall j :: 0 <= j < |first| ==> text[j] == first[j];
    assert Find(text, '-') == |first|;
    assert text[..|first|] == first && text[|first| + 1..] == last;
  }

  /** Printing a contiguous unit and parsing it again, in JavaScript or in Python, gives its CPUs back. */
  lemma RangeTextReadsBack(start: nat, end: nat)
    requires start <= end
    ensures var text := RangeText(start, end);
            && JsCpus(text) == Consecutive(start, end)
            && ParseCpuRange(text) == Ok(Bounds(start, end, 1))
            && CpuIdsForRange(text) == Ok(ToSet<int>(Consecutive(start, end)))
  {
    ReadDigitsDecimal(start);
    ReadDigitsDecimal(end);
    PlainRange(Decimal(start), Decimal(end));
    ValidatorReadsPlain(RangeText(start, end), start, end);
  }

  lemma ValidatorReadsPlain(text: string, start: nat, end: nat)
    requires ParseCpuRange(text) == Ok(Bounds(start, end, 1)) && start <= end
    ensures CpuIdsForRange(text) == Ok(ToSet<int>(Consecutive(start, end)))
  {
    hide CpuIdsForRange, ParseCpuRange;
    ParsersAgree(text);
    var ids := CpuIdsForRange(text).value;
    var cpus: seq<int> := Consecutive(start, end);
    forall x ensures x in ids <==> x in ToSet(cpus) {
      if start <= x <= end {
        assert cpus[x - start] == x;
      }
    }
    assert ids == ToSet(cpus);
  }

  // ---- Agreement with the two Python parsers ----

  predicate AllJsSpace(s: string) {
    forall i :: 0 <= i < |s| ==> IsJsSpace(s[i])
  }

  lemma {:induction false} TrimLeftSplits(s: string) returns (k: nat)
    ensures k <= |s| && TrimLeft(s) == s[k..] && AllJsSpace(s[..k])
  {
    if s != "" && IsJsSpace(s[0]) {
      var rest := TrimLeftSplits(s[1..]);
      k := rest + 1;
      assert s[..k] == [s[0]] + s[1..][..rest];
      assert s[1..][rest..] == s[k..];
    } else {
      k := 0;
    }
  }

  lemma {:induction false} TrimRightSplits(s: string) returns (k: nat)
    ensures k <= |s| && TrimRight(s) == s[..k] && AllJsSpace(s[k..])
  {
    if s != "" && IsJsSpace(s[|s| - 1]) {
      k := TrimRightSplits(s[..|s| - 1]);
      assert s[k..] == s[..|s| - 1][k..] + [s[|s| - 1]];
      assert s[..|s| - 1][..k] == s[..k];
    } else {
      k := |s|;
    }
  }

  lemma TrimSplits(s: string) returns (before: string, after: string)
    ensures s == before + Trim(s) + after && AllJsSpace(before) && AllJsSpace(after)
  {
    var i := TrimLeftSplits(s);
    var k := TrimRightSplits(s[i..]);
    before, after := s[..i], s[i..][k..];
  }

  lemma {:induction false} StripLeftOf(before: string, s: string)
    requires forall i :: 0 <= i < |before| ==> IsSpace(before[i])
    requires s != "" && !IsSpace(s[0])
    ensures StripLeft(before + s) == s
  {
    if before == "" {
      assert before + s == s;
    } else {
      assert (before + s)[1..] == before[1..] + s;
      StripLeftOf(before[1..], s);
    }
  }

  lemma {:induction false} StripRightOf(s: string, after: string)
    requires forall i :: 0 <= i < |after| ==> IsSpace(after[i])
    requires s != "" && !IsSpace(s[|s| - 1])
    ensures StripRight(s + after) == s
  {
    if after == "" {
      assert s + after == s;
    } else {
      assert (s + after)[..|s + after| - 1] == s + after[..|after| - 1];
      StripRightOf(s, after[..|after| - 1]);
    }
  }

  /** Stripping never removes a character that is no blank. */
  lemma StripKeeps(s: string, c: char)
    requires c in s && !IsSpace(c)
    ensures c in Strip(s)
  {
    StripLeftKeepsChar(s, c);
    StripRightKeepsChar(StripLeft(s), c);
  }

  lemma {:induction false} StripLeftKeepsChar(s: string, c: char)
    requires c in s && !IsSpace(c)
    ensures c in StripLeft(s)
  {
    if IsSpace(s[0]) {
      assert c in s[1..];
      StripLeftKeepsChar(s[1..], c);
    }
  }

  lemma {:induction false} StripRightKeepsChar(s: string, c: char)
    requires c in s && !IsSpace(c)
    ensures c in StripRight(s)
  {
    if IsSpace(s[|s| - 1]) {
      assert c in s[..|s| - 1];
      StripRightKeepsChar(s[..|s| - 1], c);
    }
  }

  lemma {:induction false} MarkIsNoDigit(s: string, acc: nat, afterDigit: bool)
    requires BYTE_ORDER_MARK in s
    ensures ReadDigits(s, acc, afterDigit).None?
  {
    if IsDigit(s[0]) {
      MarkIsNoDigit(s[1..], 10 * acc + DigitValue(s[0]), true);
    } else if s[0] == '_' && afterDigit {
      MarkIsNoDigit(s[1..], acc, false);
    }
  }

  lemma MarkIsNoNumber(s: string)
    requires BYTE_ORDER_MARK in s
    ensures ReadInt(s).None?
  {
    StripKeeps(s, BYTE_ORDER_MARK);
    var t := Strip(s);
    if t[0] == '+' || t[0] == '-' {
      assert BYTE_ORDER_MARK in t[1..];
      MarkIsNoDigit(t[1..], 0, false);
    } else {
      MarkIsNoDigit(t, 0, false);
    }
  }

  lemma StripAddsNone(s: string, c: char)
    requires c !in s
    ensures c !in Strip(s)
  {
    StripLeftKeeps(s);
    StripRightKeeps(StripLeft(s));
  }

  lemma MarkOnOneSide(raw: string)
    requires BYTE_ORDER_MARK in raw
    ensures var dash := Find(raw, '-');
            ReadInt(raw[..dash]).None? || (dash < |raw| && ReadInt(raw[dash + 1..]).None?)
  {
    hide ReadInt, Find;
    var dash := Find(raw, '-');
    var i :| 0 <= i < |raw| && raw[i] == BYTE_ORDER_MARK;
    if i < dash {
      assert raw[..dash][i] == BYTE_ORDER_MARK;
      MarkIsNoNumber(raw[..dash]);
    } else {
      FoundIsNotMark(raw, i);
      assert raw[dash + 1..][i - dash - 1] == BYTE_ORDER_MARK;
      MarkIsNoNumber(raw[dash + 1..]);
    }
  }

  lemma FoundIsNotMark(raw: string, i: nat)
    requires i < |raw| && raw[i] == BYTE_ORDER_MARK
    ensures Find(raw, '-') != i && Find(raw, '-') <= |raw|
  {
  }

  /** Python reads no number on that side of the range where the mark is. */
  lemma MarkIsRefused(cpuRange: string)
    requires BYTE_ORDER_MARK in cpuRange && ':' !in cpuRange
    ensures CpuIdsForRange(cpuRange).Err?
  {
    hide ReadInt, Strip;
    StripKeeps(cpuRange, BYTE_ORDER_MARK);
    StripAddsNone(cpuRange, ':');
    var raw := Strip(cpuRange);
    assert Find(raw, ':') == |raw| && raw[..|raw|] == raw;
    MarkOnOneSide(raw);
  }

  lemma JsCpusParts(cpuRange: string) returns (first: string, last: string)
    requires JsCpus(cpuRange) != []
    ensures IsNumber(first) && IsNumber(last)
    ensures JsCpus(cpuRange) == Consecutive(NumberOf(first), NumberOf(last))
    ensures Trim(cpuRange) == (if '-' in Trim(cpuRange) then first + "-" + last else first)
    ensures '-' !in Trim(cpuRange) ==> last == first
  {
    hide Trim, ReadDigits, IsNumber, AllDigits;
    var text := Trim(cpuRange);
    var dash := Find(text, '-');
    if dash == |text| {
      assert text[..dash] == text;
      first, last := text, text;
    } else {
      first, last := text[..dash], text[dash + 1..];
      assert text == first + "-" + last;
    }
  }

  /** What the client reads is a plain range between blanks. */
  lemma JsCpusShape(cpuRange: string) returns (start: nat, end: nat)
    requires JsCpus(cpuRange) != []
    ensures DigitsAndDashes(Trim(cpuRange)) && Trim(cpuRange) != ""
    ensures IsDigit(Trim(cpuRange)[0]) && IsDigit(Trim(cpuRange)[|Trim(cpuRange)| - 1])
    ensures start <= end && JsCpus(cpuRange) == Consecutive(start, end)
    ensures ParseCpuRange(Trim(cpuRange)) == Ok(Bounds(start, end, 1))
  {
    hide Trim, ParseCpuRange, JsCpus, ReadDigits;
    var first, last := JsCpusParts(cpuRange);
    PlainRange(first, last);
    start, end := NumberOf(first), NumberOf(last);
  }

  lemma ParsedFromStripped(x: string, y: string)
    requires Strip(x) == Strip(y)
    ensures ParseCpuRange(x) == ParseCpuRange(y)
  {
    hide Strip, ReadInt, Find;
  }

  /**
   Whatever range the client reads, the validator reads as the same CPUs, exactly when no byte order
   mark surrounds it: JavaScript trims that mark and Python does not.
   */
  lemma ClientAgreesWithValidator(cpuRange: string)
    requires JsCpus(cpuRange) != []
    ensures CpuIdsForRange(cpuRange) == Ok(ToSet<int>(JsCpus(cpuRange))) <==> BYTE_ORDER_MARK !in cpuRange
    ensures BYTE_ORDER_MARK in cpuRange ==> CpuIdsForRange(cpuRange).Err?
  {
    hide JsCpus, CpuIdsForRange, ParseCpuRange, Trim, StripLeft, StripRight, Consecutive;
    var start, end := JsCpusShape(cpuRange);
    var text := Trim(cpuRange);
    var before, after := TrimSplits(cpuRange);
    DigitsUntouched(text);
    if BYTE_ORDER_MARK in cpuRange {
      MarkIsRefused(cpuRange);
    } else {
      SpacesOf(before, text, after, cpuRange);
      StripLeftOf(before, text + after);
      StripRightOf(text, after);
      assert cpuRange == before + (text + after);
      ParsedFromStripped(cpuRange, text);
      ValidatorReadsPlain(cpuRange, start, end);
    }
  }

  lemma SpacesOf(before: string, text: string, after: string, cpuRange: string)
    requires cpuRange == before + text + after && AllJsSpace(before) && AllJsSpace(after)
    requires BYTE_ORDER_MARK !in cpuRange
    ensures forall i :: 0 <= i < |before| ==> IsSpace(before[i])
    ensures forall i :: 0 <= i < |after| ==> IsSpace(after[i])
  {
    forall i | 0 <= i < |before| ensures IsSpace(before[i]) {
      assert cpuRange[i] == before[i];
    }
    forall i | 0 <= i < |after| ensures IsSpace(after[i]) {
      assert cpuRange[|before| + |text| + i] == after[i];
    }
  }

  /** The smallest example: the client reads CPU 0 where the validator refuses the request. */
  lemma MarkedZeroIsRefused()
    ensures JsCpus([BYTE_ORDER_MARK] + "0") == [0] && CpuIdsForRange([BYTE_ORDER_MARK] + "0").Err?
  {
    var text := [BYTE_ORDER_MARK] + "0";
    assert text[1..] == "0" && Trim(text) == Trim("0");
    assert IsNumber("0") && NumberOf("0") == 0 by {
      ReadDigitsDecimal(0);
      assert Decimal(0) == "0";
    }
    DigitsUntouched("0");
    NumberAlone("0");
    assert JsCpus(text) == JsCpus("0");
    MarkIsRefused(text);
  }
}
