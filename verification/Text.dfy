/**
 The text operations the parsers and printers rely on: Python's `str.strip`, `split(sep, 1)`
 and `int()`, decimal printing, and joining and splitting on commas.
 */
module Text {
  import opened Options

  /** The characters Python's `str.strip()` removes. */
  predicate IsSpace(c: char) {
    || '\t' <= c <= '\r'
    || '\U{1c}' <= c <= ' '
    || c == '\U{85}' || c == '\U{a0}' || c == '\U{1680}'
    || '\U{2000}' <= c <= '\U{200a}'
    || c == '\U{2028}' || c == '\U{2029}' || c == '\U{202f}' || c == '\U{205f}' || c == '\U{3000}'
  }

  predicate IsDigit(c: char) {
    '0' <= c <= '9'
  }

  predicate AllDigits(s: string) {
    forall i :: 0 <= i < |s| ==> IsDigit(s[i])
  }

  function StripLeft(s: string): (r: string) {
    if s != "" && IsSpace(s[0]) then StripLeft(s[1..]) else s
  }

  function StripRight(s: string): (r: string) {
    if s != "" && IsSpace(s[|s| - 1]) then StripRight(s[..|s| - 1]) else s
  }

  function Strip(s: string): string {
    StripRight(StripLeft(s))
  }

  /** The position of the first `c`, or the length when there is none. */
  function Find(s: string, c: char): (i: nat)
    ensures i <= |s|
    ensures forall j :: 0 <= j < i ==> s[j] != c
    ensures i < |s| ==> s[i] == c
    ensures c in s <==> i < |s|
  {
    if s == "" || s[0] == c then 0 else
      1 + Find(s[1..], c)
  }

  function DigitValue(c: char): int {
    c as int - '0' as int
  }

  /** Digits in groups that single underscores may separate, as `int()` reads them. */
  function ReadDigits(s: string, acc: nat, afterDigit: bool): (r: Option<nat>) {
    if s == "" then if afterDigit then Some(acc) else None
    else if IsDigit(s[0]) then ReadDigits(s[1..], 10 * acc + DigitValue(s[0]), true)
    else if s[0] == '_' && afterDigit then ReadDigits(s[1..], acc, false)
    else None
  }

  /** Python's `int(s)` on ASCII digits: surrounding blanks, one sign, underscores between digits. */
  function ReadInt(s: string): (r: Option<int>) {
    var t := Strip(s);
    if t == "" then None
    else if t[0] == '+' then ReadDigits(t[1..], 0, false)
    else if t[0] == '-' then
      var n: Option<int> := ReadDigits(t[1..], 0, false);
      if n.Some? then Some(-n.value) else None
    else ReadDigits(t, 0, false)
  }

  function Digit(n: nat): char
    requires n < 10
  {
    '0' + n as char
  }

  /** `str(n)` for a non-negative number. */
  function Decimal(n: nat): (s: string)
    ensures s != "" && AllDigits(s)
  {
    if n < 10 then [Digit(n)] else Decimal(n / 10) + [Digit(n % 10)]
  }

  lemma {:induction false} ReadDigitsSnoc(s: string, d: char, acc: nat, afterDigit: bool)
    requires AllDigits(s) && s != "" && IsDigit(d)
    ensures ReadDigits(s, acc, afterDigit).Some?
    ensures ReadDigits(s + [d], acc, afterDigit) ==
            Some(10 * ReadDigits(s, acc, afterDigit).value + DigitValue(d))
  {
    assert (s + [d])[1..] == s[1..] + [d];
    if |s| == 1 {
      var acc' := 10 * acc + DigitValue(s[0]);
      assert ReadDigits(s[1..], acc', true) == Some(acc');
      assert ([d])[1..] == "";
      assert ReadDigits(s[1..] + [d], acc', true) == ReadDigits([d], acc', true);
    } else {
      ReadDigitsSnoc(s[1..], d, 10 * acc + DigitValue(s[0]), true);
    }
  }

  /** Reading a printed number gives the number back. */
  lemma {:induction false} ReadDigitsDecimal(n: nat)
    ensures ReadDigits(Decimal(n), 0, false) == Some(n)
  {
    if n < 10 {
      assert Decimal(n)[1..] == "";
    } else {
      ReadDigitsDecimal(n / 10);
      ReadDigitsSnoc(Decimal(n / 10), Digit(n % 10), 0, false);
    }
  }

  lemma StripDigits(s: string)
    requires AllDigits(s)
    ensures Strip(s) == s
  {
  }

  lemma ReadIntDecimal(n: nat)
    ensures ReadInt(Decimal(n)) == Some(n)
  {
    StripDigits(Decimal(n));
    ReadDigitsDecimal(n);
  }

  lemma {:induction false} StripLeftKeeps(s: string)
    ensures exists i :: 0 <= i <= |s| && StripLeft(s) == s[i..]
  {
    if s != "" && IsSpace(s[0]) {
      StripLeftKeeps(s[1..]);
      var i :| 0 <= i <= |s[1..]| && StripLeft(s[1..]) == s[1..][i..];
      assert s[1..][i..] == s[i + 1..];
    } else {
      assert s == s[0..];
    }
  }

  lemma {:induction false} StripRightKeeps(s: string)
    ensures exists i :: 0 <= i <= |s| && StripRight(s) == s[..i]
  {
    if s != "" && IsSpace(s[|s| - 1]) {
      StripRightKeeps(s[..|s| - 1]);
      var i :| 0 <= i <= |s| - 1 && StripRight(s[..|s| - 1]) == s[..|s| - 1][..i];
      assert s[..|s| - 1][..i] == s[..i];
    } else {
      assert s == s[..|s|];
    }
  }

  predicate AllSpace(s: string) {
    forall i :: 0 <= i < |s| ==> IsSpace(s[i])
  }

  lemma {:induction false} StripLeftEnds(s: string)
    ensures StripLeft(s) != "" ==> !IsSpace(StripLeft(s)[0])
    ensures StripLeft(s) == "" <==> AllSpace(s)
  {
    if s != "" && IsSpace(s[0]) {
      StripLeftEnds(s[1..]);
      assert AllSpace(s[1..]) ==> forall i :: 1 <= i < |s| ==> s[i] == s[1..][i - 1];
    }
  }

  lemma {:induction false} StripRightEnds(s: string)
    ensures StripRight(s) != "" ==> !IsSpace(StripRight(s)[|StripRight(s)| - 1]) && StripRight(s)[0] == s[0]
    ensures StripRight(s) == "" <==> AllSpace(s)
  {
    if s != "" && IsSpace(s[|s| - 1]) {
      StripRightEnds(s[..|s| - 1]);
    }
  }

  lemma StripIdempotent(s: string)
    ensures Strip(Strip(s)) == Strip(s)
  {
    StripLeftEnds(s);
    StripRightEnds(StripLeft(s));
  }

  lemma StripEmpty(s: string)
    ensures Strip(s) == "" <==> AllSpace(s)
  {
    StripLeftEnds(s);
    StripRightEnds(StripLeft(s));
  }

  /** Without a minus sign `int()` can only give a non-negative number. */
  lemma ReadIntUnsigned(s: string)
    requires '-' !in s
    ensures ReadInt(s).Some? ==> ReadInt(s).value >= 0
  {
    StripLeftKeeps(s);
    StripRightKeeps(StripLeft(s));
    assert '-' !in StripLeft(s);
    assert '-' !in Strip(s);
  }

  /** Python's `",".join(items)`. */
  function Join(items: seq<string>): string {
    if items == [] then ""
    else if |items| == 1 then items[0]
    else items[0] + "," + Join(items[1..])
  }

  /** Python's `s.split(",")`: never empty. */
  function Split(s: string): (items: seq<string>)
    ensures items != []
    decreases |s|
  {
    var i := Find(s, ',');
    if i == |s| then [s] else [s[..i]] + Split(s[i + 1..])
  }

  lemma {:induction false} SplitJoin(items: seq<string>)
    requires items != []
    requires forall i :: 0 <= i < |items| ==> ',' !in items[i]
    ensures Split(Join(items)) == items
  {
    var s := Join(items);
    if |items| > 1 {
      var rest := Join(items[1..]);
      assert s == items[0] + "," + rest;
      var k := |items[0]|;
      assert s[k] == ',';
      var i := Find(s, ',');
      assert i < |s|;
      assert forall j :: 0 <= j < k ==> s[j] == items[0][j];
      assert i == k;
      assert s[..k] == items[0] && s[k + 1..] == rest;
      SplitJoin(items[1..]);
    } else {
      assert Find(s, ',') == |s|;
    }
  }
}
