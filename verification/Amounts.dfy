/** Amounts of a billing export: thousands separators, decimal commas and signs. */
module Amounts {
  import opened Basics
  import A = Accounting

  // ------------------------------------------------------------ the patterns

  function FirstAt(s: string, c: char): (k: nat)
    ensures k <= |s| && (k < |s| ==> s[k] == c)
    ensures forall i | 0 <= i < k :: s[i] != c
  {
    if s == "" || s[0] == c then 0 else 1 + FirstAt(s[1..], c)
  }

  /** One to three digits, then groups of a separator and three digits. */
  predicate Groups(s: string, sep: char) {
    |s| >= 5 && s[|s| - 4] == sep && Digits(s[|s| - 3..])
    && ((Numeral(s[..|s| - 4]) && |s| <= 7) || Groups(s[..|s| - 4], sep))
  }

  predicate Grouped(s: string, sep: char, point: char) {
    var k := FirstAt(s, point);
    if k == |s| then Groups(s, sep) else Groups(s[..k], sep) && Numeral(s[k + 1..])
  }

  predicate DecimalComma(s: string) {
    var k := FirstAt(s, ',');
    k < |s| && Numeral(s[..k]) && Numeral(s[k + 1..]) && |s| - k - 1 <= 2
  }

  predicate Plain(s: string) {
    var k := FirstAt(s, '.');
    if k == |s| then Numeral(s) else Numeral(s[..k]) && Numeral(s[k + 1..])
  }

  // ------------------------------------------------------------ reading

  function Remove(s: string, c: char): string {
    if s == "" then "" else Remove(s[..|s| - 1], c) + if s[|s| - 1] == c then "" else [s[|s| - 1]]
  }

  function ReplaceFirst(s: string, c: char, d: char): string {
    var k := FirstAt(s, c);
    if k == |s| then s else s[..k] + [d] + s[k + 1..]
  }

  function Normalised(v: string): string {
    if Grouped(v, ',', '.') then Remove(v, ',')
    else if Grouped(v, '.', ',') then ReplaceFirst(Remove(v, '.'), ',', '.')
    else if DecimalComma(v) then ReplaceFirst(v, ',', '.')
    else v
  }

  function Power(n: nat): (r: real)
    ensures r >= 1.0
  {
    if n == 0 then 1.0 else 10.0 * Power(n - 1)
  }

  /** The number written with these digits before and after the point. */
  function Value(whole: string, fraction: string): real
    requires Digits(whole) && Digits(fraction)
  {
    A.Number(whole) as real + A.Number(fraction) as real / Power(|fraction|)
  }

  function PlainValue(s: string): real
    requires Plain(s)
  {
    var k := FirstAt(s, '.');
    if k == |s| then Value(s, "") else Value(s[..k], s[k + 1..])
  }

  /** The unsigned number of a cell, or nothing when it cannot be read. */
  function Read(v: string): Option<real> {
    if Plain(Normalised(v)) then Some(PlainValue(Normalised(v))) else None
  }

  function Negated(negative: bool, amount: Option<real>): Option<real> {
    if negative && amount.Some? then Some(-amount.value) else amount
  }

  predicate InParentheses(v: string) {
    |v| >= 2 && v[0] == '(' && v[|v| - 1] == ')' && forall c | c in v :: c !in {'\n', '\r', '\U{2028}', '\U{2029}'}
  }

  /** A trimmed cell; `strip` takes currency letters, symbols and white space out. */
  function ReadAmount(cell: string, strip: string -> string): Option<real> {
    if cell == "" then None
    else
      var bracketed := InParentheses(cell);
      var bare := strip(if bracketed then cell[1..|cell| - 1] else cell);
      var minus := "-" <= bare;
      var unsigned := if minus then bare[1..] else bare;
      Negated(bracketed != minus, Read(if "+" <= unsigned then unsigned[1..] else unsigned))
  }

  // ------------------------------------------------------------ small facts

  lemma FirstOf(head: string, c: char, tail: string)
    requires c !in head
    ensures FirstAt(head + [c] + tail, c) == |head|
  {
    var s := head + [c] + tail;
    assert s[|head|] == c && forall i | 0 <= i < |head| :: s[i] == head[i];
  }

  lemma NoneOf(s: string, c: char)
    requires c !in s
    ensures FirstAt(s, c) == |s|
  {
  }

  lemma DigitsHaveNo(s: string, c: char)
    requires Digits(s) && !('0' <= c <= '9')
    ensures c !in s
  {
  }

  /** Without its separator a text is not grouped. */
  lemma GroupsNeedSeparator(s: string, sep: char)
    requires sep !in s
    ensures !Groups(s, sep)
  {
  }

  lemma {:induction false} RemoveAppend(s: string, t: string, c: char)
    ensures Remove(s + t, c) == Remove(s, c) + Remove(t, c)
  {
    if t == "" {
      assert s + t == s;
    } else {
      var front, last := t[..|t| - 1], t[|t| - 1];
      RemoveAppend(s, front, c);
      assert (s + t)[..|s + t| - 1] == s + front && (s + t)[|s + t| - 1] == last;
      var end := if last == c then "" else [last];
      assert Remove(s, c) + Remove(front, c) + end == Remove(s, c) + (Remove(front, c) + end);
    }
  }

  lemma {:induction false} RemoveNothing(s: string, c: char)
    requires c !in s
    ensures Remove(s, c) == s
  {
    if s != "" {
      RemoveNothing(s[..|s| - 1], c);
    }
  }

  lemma NumberPush(s: string, d: char)
    requires Digits(s) && '0' <= d <= '9'
    ensures Digits(s + [d]) && A.Number(s + [d]) == 10 * A.Number(s) + (d as int - '0' as int)
  {
    assert (s + [d])[..|s|] == s;
  }

  function DigitValue(c: char): int {
    c as int - '0' as int
  }

  lemma RemoveSeparator(c: char)
    ensures Remove([c], c) == ""
  {
    assert [c][..0] == "";
    assert Remove([c][..0], c) == "";
  }

  /** A separator between two texts goes, with whatever else goes of the first. */
  lemma RemoveOne(s: string, t: string, c: char)
    requires c !in t
    ensures Remove(s + [c] + t, c) == Remove(s, c) + t
  {
    RemoveAppend(s + [c], t, c);
    RemoveAppend(s, [c], c);
    RemoveSeparator(c);
    RemoveNothing(t, c);
    assert Remove(s, c) + "" == Remove(s, c);
  }

  lemma PushThree(s: string, a: char, b: char, c: char)
    requires Digits(s) && '0' <= a <= '9' && '0' <= b <= '9' && '0' <= c <= '9'
    ensures Digits(s + [a] + [b] + [c])
    ensures A.Number(s + [a] + [b] + [c]) ==
      1000 * A.Number(s) + 100 * DigitValue(a) + 10 * DigitValue(b) + DigitValue(c)
  {
    NumberPush(s, a);
    NumberPush(s + [a], b);
    NumberPush(s + [a] + [b], c);
  }

  lemma ThreeDigits(a: char, b: char, c: char)
    requires '0' <= a <= '9' && '0' <= b <= '9' && '0' <= c <= '9'
    ensures A.Number([a, b, c]) == 100 * DigitValue(a) + 10 * DigitValue(b) + DigitValue(c)
  {
    PushThree("", a, b, c);
    assert "" + [a] + [b] + [c] == [a, b, c];
    assert A.Number("") == 0;
  }

  lemma NumberThreeMore(s: string, t: string)
    requires Digits(s) && Digits(t) && |t| == 3
    ensures Digits(s + t) && A.Number(s + t) == 1000 * A.Number(s) + A.Number(t)
  {
    var a, b, c := t[0], t[1], t[2];
    PushThree(s, a, b, c);
    ThreeDigits(a, b, c);
    assert t == [a, b, c];
    assert s + [a, b, c] == s + [a] + [b] + [c];
  }

  lemma WholeReads(whole: string)
    requires Numeral(whole)
    ensures Plain(whole) && PlainValue(whole) == A.Number(whole) as real
  {
    DigitsHaveNo(whole, '.');
    NoneOf(whole, '.');
    assert A.Number("") == 0;
  }

  lemma PlainReads(whole: string, fraction: string)
    requires Numeral(whole) && Numeral(fraction)
    ensures Plain(whole + "." + fraction) && PlainValue(whole + "." + fraction) == Value(whole, fraction)
  {
    DigitsHaveNo(whole, '.');
    FirstOf(whole, '.', fraction);
    var s := whole + "." + fraction;
    assert s[..|whole|] == whole && s[|whole| + 1..] == fraction;
  }

  // ------------------------------------------------------------ grouped numbers round-trip

  /** Digits with a separator between groups of three. */
  function Group(digits: string, sep: char): string {
    if |digits| <= 3 then digits else Group(digits[..|digits| - 3], sep) + [sep] + digits[|digits| - 3..]
  }

  lemma {:induction false} GroupIsGroups(digits: string, sep: char)
    requires Digits(digits) && |digits| > 3 && !('0' <= sep <= '9')
    ensures Groups(Group(digits, sep), sep)
    decreases |digits|
  {
    var head, last := digits[..|digits| - 3], digits[|digits| - 3..];
    var s := Group(digits, sep);
    assert s[..|s| - 4] == Group(head, sep) && s[|s| - 3..] == last;
    if |head| > 3 {
      GroupIsGroups(head, sep);
    } else {
      assert Group(head, sep) == head;
    }
  }

  lemma {:induction false} GroupHasOnly(digits: string, sep: char, c: char)
    requires Digits(digits) && !('0' <= c <= '9') && c != sep
    ensures c !in Group(digits, sep)
    decreases |digits|
  {
    if |digits| > 3 {
      GroupHasOnly(digits[..|digits| - 3], sep, c);
    }
  }

  lemma {:induction false} UngroupGroup(digits: string, sep: char)
    requires Digits(digits) && !('0' <= sep <= '9')
    ensures Remove(Group(digits, sep), sep) == digits
    decreases |digits|
  {
    if |digits| > 3 {
      var head, last := digits[..|digits| - 3], digits[|digits| - 3..];
      UngroupGroup(head, sep);
      RemoveOne(Group(head, sep), last, sep);
      DigitsHaveNo(last, sep);
      assert head + last == digits;
    } else {
      DigitsHaveNo(digits, sep);
      RemoveNothing(digits, sep);
    }
  }

  lemma GroupedText(whole: string, fraction: string, sep: char, point: char)
    requires Numeral(whole) && |whole| > 3 && Numeral(fraction) && !('0' <= sep <= '9') && !('0' <= point <= '9')
    requires sep != point
    ensures Grouped(Group(whole, sep) + [point] + fraction, sep, point)
    ensures Remove(Group(whole, sep) + [point] + fraction, sep) == whole + [point] + fraction
  {
    var g := Group(whole, sep);
    GroupIsGroups(whole, sep);
    GroupHasOnly(whole, sep, point);
    FirstOf(g, point, fraction);
    var s := g + [point] + fraction;
    assert s[..|g|] == g && s[|g| + 1..] == fraction;
    RemoveAppend(g, [point], sep);
    RemoveAppend(g + [point], fraction, sep);
    UngroupGroup(whole, sep);
    RemoveNothing([point], sep);
    DigitsHaveNo(fraction, sep);
    RemoveNothing(fraction, sep);
  }

  lemma AmericanReadsBack(whole: string, fraction: string)
    requires Numeral(whole) && |whole| > 3 && Numeral(fraction)
    ensures Read(Group(whole, ',') + "." + fraction) == Some(Value(whole, fraction))
  {
    GroupedText(whole, fraction, ',', '.');
    PlainReads(whole, fraction);
  }

  lemma EuropeanNormalised(whole: string, fraction: string)
    requires Numeral(whole) && |whole| > 3 && Numeral(fraction)
    ensures Normalised(Group(whole, '.') + "," + fraction) == whole + "." + fraction
  {
    GroupedText(whole, fraction, '.', ',');
    NotBothStyles(whole, fraction);
    DigitsHaveNo(whole, ',');
    FirstOf(whole, ',', fraction);
    var t := whole + "," + fraction;
    assert t[..|whole|] == whole && t[|whole| + 1..] == fraction;
  }

  /** A number with grouped thousands is read as itself in both styles, whatever its decimals. */
  lemma GroupedReadsBack(whole: string, fraction: string)
    requires Numeral(whole) && |whole| > 3 && Numeral(fraction)
    ensures Read(Group(whole, ',') + "." + fraction) == Some(Value(whole, fraction))
    ensures Read(Group(whole, '.') + "," + fraction) == Some(Value(whole, fraction))
  {
    AmericanReadsBack(whole, fraction);
    EuropeanNormalised(whole, fraction);
    PlainReads(whole, fraction);
  }

  lemma NotBothStyles(whole: string, fraction: string)
    requires Numeral(whole) && |whole| > 3 && Numeral(fraction)
    ensures !Grouped(Group(whole, '.') + "," + fraction, ',', '.')
  {
    var head := whole[..|whole| - 3];
    var front, rest := Group(head, '.'), whole[|whole| - 3..] + "," + fraction;
    GroupHasOnly(head, '.', ',');
    assert Group(whole, '.') + "," + fraction == front + "." + rest;
    PointBeforeComma(front, rest);
  }

  /** With a point before any comma a text is not grouped by commas. */
  lemma PointBeforeComma(front: string, rest: string)
    requires ',' !in front
    ensures !Grouped(front + "." + rest, ',', '.')
  {
    var s := front + "." + rest;
    var k := FirstAt(s, '.');
    assert s[|front|] == '.' && forall i | 0 <= i < |front| :: s[i] == front[i];
    assert forall i | 0 <= i < k :: s[i] in front;
    GroupsNeedSeparator(s[..k], ',');
  }

  // ------------------------------------------------------------ plain decimals

  lemma PlainIsNotAmerican(whole: string, fraction: string)
    requires Numeral(whole) && Numeral(fraction)
    ensures !Grouped(whole + "." + fraction, ',', '.')
  {
    var s := whole + "." + fraction;
    DigitsHaveNo(whole, '.');
    FirstOf(whole, '.', fraction);
    assert s[..|whole|] == whole;
    DigitsHaveNo(whole, ',');
    GroupsNeedSeparator(whole, ',');
  }

  lemma OneSeparator(whole: string, fraction: string, sep: char)
    requires Numeral(whole) && Numeral(fraction) && !('0' <= sep <= '9')
    ensures Groups(whole + [sep] + fraction, sep) <==> |whole| <= 3 && |fraction| == 3
  {
    var s := whole + [sep] + fraction;
    if |fraction| == 3 {
      DigitsHaveNo(whole, sep);
      GroupsNeedSeparator(whole, sep);
      OneGroup(s, whole, fraction, sep);
    } else if |s| >= 5 {
      OnlyThere(whole, fraction, sep);
      assert s[|s| - 4] != sep;
    }
  }

  lemma OneGroup(s: string, head: string, last: string, sep: char)
    requires |last| == 3 && Digits(last) && Numeral(head) && s == head + [sep] + last && !Groups(head, sep)
    ensures Groups(s, sep) <==> |head| <= 3
  {
    assert s[..|s| - 4] == head && s[|s| - 3..] == last && s[|s| - 4] == sep;
  }

  lemma OnlyThere(whole: string, fraction: string, sep: char)
    requires Digits(whole) && Digits(fraction) && !('0' <= sep <= '9')
    ensures forall i | 0 <= i < |whole| + 1 + |fraction| && i != |whole| :: (whole + [sep] + fraction)[i] != sep
  {
  }

  lemma RemovedBetween(whole: string, fraction: string, sep: char)
    requires Numeral(whole) && Numeral(fraction) && !('0' <= sep <= '9')
    ensures Remove(whole + [sep] + fraction, sep) == whole + fraction
  {
    DigitsHaveNo(whole, sep);
    DigitsHaveNo(fraction, sep);
    RemoveOne(whole, fraction, sep);
    RemoveNothing(whole, sep);
  }

  lemma ThousandsNormalised(whole: string, fraction: string, sep: char)
    requires Numeral(whole) && Numeral(fraction) && |whole| <= 3 && |fraction| == 3 && (sep == ',' || sep == '.')
    ensures Normalised(whole + [sep] + fraction) == whole + fraction
  {
    var s := whole + [sep] + fraction;
    OneSeparator(whole, fraction, sep);
    RemovedBetween(whole, fraction, sep);
    DigitsHaveNo(whole + fraction, '.');
    DigitsHaveNo(whole + fraction, ',');
    NoneOf(whole + fraction, ',');
    assert forall i | 0 <= i < |s| && i != |whole| :: s[i] in whole + fraction;
    if sep == ',' {
      NoneOf(s, '.');
    } else {
      PlainIsNotAmerican(whole, fraction);
      NoneOf(s, ',');
    }
  }

  lemma JoinedReads(whole: string, fraction: string)
    requires Numeral(whole) && Numeral(fraction) && |fraction| == 3
    ensures Plain(whole + fraction)
    ensures PlainValue(whole + fraction) == (1000 * A.Number(whole) + A.Number(fraction)) as real
  {
    NumberThreeMore(whole, fraction);
    WholeReads(whole + fraction);
  }

  lemma ReadNormal(v: string, n: string)
    requires Normalised(v) == n && Plain(n)
    ensures Read(v) == Some(PlainValue(n))
  {
  }

  /** One separator, a short whole part and three decimals: the text is read as thousands. */
  lemma ReadsAsThousands(whole: string, fraction: string, sep: char)
    requires Numeral(whole) && Numeral(fraction) && |whole| <= 3 && |fraction| == 3 && (sep == ',' || sep == '.')
    ensures Read(whole + [sep] + fraction) == Some((1000 * A.Number(whole) + A.Number(fraction)) as real)
  {
    ThousandsNormalised(whole, fraction, sep);
    JoinedReads(whole, fraction);
    ReadNormal(whole + [sep] + fraction, whole + fraction);
  }

  lemma ThousandsDiffer(whole: string, fraction: string)
    requires Numeral(whole) && Numeral(fraction) && |fraction| == 3
    ensures (1000 * A.Number(whole) + A.Number(fraction)) as real == Value(whole, fraction)
      <==> A.Number(whole) == 0 && A.Number(fraction) == 0
  {
    assert Power(0) == 1.0 && Power(1) == 10.0 && Power(2) == 100.0 && Power(3) == 1000.0;
    var w, f := A.Number(whole) as real, A.Number(fraction) as real;
    assert Value(whole, fraction) == w + f / 1000.0;
  }

  /** A plain decimal is read as its own value exactly unless three decimals follow at most three digits: then the
      point counts as a thousands separator, as the code documents. */
  lemma PlainReadsBackExactly(whole: string, fraction: string)
    requires Numeral(whole) && Numeral(fraction)
    ensures Read(whole + "." + fraction) == Some(Value(whole, fraction))
      <==> |whole| > 3 || |fraction| != 3 || (A.Number(whole) == 0 && A.Number(fraction) == 0)
  {
    var s := whole + "." + fraction;
    assert s == whole + ['.'] + fraction;
    if |whole| <= 3 && |fraction| == 3 {
      ReadsAsThousands(whole, fraction, '.');
      ThousandsDiffer(whole, fraction);
    } else {
      PlainIsNotAmerican(whole, fraction);
      OneSeparator(whole, fraction, '.');
      DigitsHaveNo(whole, ',');
      DigitsHaveNo(fraction, ',');
      NoneOf(s, ',');
      PlainReads(whole, fraction);
    }
  }

  /** With a decimal comma: one or two decimals are read, three after at most three digits count as thousands, and
      anything else is refused rather than guessed. */
  lemma CommaReadsExactly(whole: string, fraction: string)
    requires Numeral(whole) && Numeral(fraction)
    ensures |fraction| <= 2 ==> Read(whole + "," + fraction) == Some(Value(whole, fraction))
    ensures |fraction| == 3 && |whole| <= 3 ==>
      Read(whole + "," + fraction) == Some((1000 * A.Number(whole) + A.Number(fraction)) as real)
    ensures |fraction| > 3 || (|fraction| == 3 && |whole| > 3) ==> Read(whole + "," + fraction) == None
  {
    var s := whole + "," + fraction;
    assert s == whole + [','] + fraction;
    DigitsHaveNo(whole, ',');
    DigitsHaveNo(whole, '.');
    DigitsHaveNo(fraction, '.');
    FirstOf(whole, ',', fraction);
    NoneOf(s, '.');
    OneSeparator(whole, fraction, ',');
    assert s[..|whole|] == whole && s[|whole| + 1..] == fraction;
    GroupsNeedSeparator(whole, '.');
    if |fraction| == 3 && |whole| <= 3 {
      ReadsAsThousands(whole, fraction, ',');
    } else if |fraction| <= 2 {
      PlainReads(whole, fraction);
      assert ReplaceFirst(s, ',', '.') == whole + "." + fraction;
    } else {
      assert s[|whole|] == ',';
      assert !Digits(s);
    }
  }

  // ------------------------------------------------------------ nothing is invented

  function DigitsOf(s: string): string {
    if s == "" then "" else DigitsOf(s[..|s| - 1]) + if '0' <= s[|s| - 1] <= '9' then [s[|s| - 1]] else ""
  }

  lemma {:induction false} DigitsOfAppend(s: string, t: string)
    ensures DigitsOf(s + t) == DigitsOf(s) + DigitsOf(t)
  {
    if t == "" {
      assert s + t == s;
    } else {
      DigitsOfAppend(s, t[..|t| - 1]);
      assert (s + t)[..|s + t| - 1] == s + t[..|t| - 1];
    }
  }

  lemma {:induction false} RemoveKeepsDigits(s: string, c: char)
    requires !('0' <= c <= '9')
    ensures DigitsOf(Remove(s, c)) == DigitsOf(s)
  {
    if s != "" {
      RemoveKeepsDigits(s[..|s| - 1], c);
      var last := if s[|s| - 1] == c then "" else [s[|s| - 1]];
      DigitsOfAppend(Remove(s[..|s| - 1], c), last);
      assert s[|s| - 1] != c ==> last[..0] == "";
    }
  }

  lemma ReplaceKeepsDigits(s: string, c: char, d: char)
    requires !('0' <= c <= '9') && !('0' <= d <= '9')
    ensures DigitsOf(ReplaceFirst(s, c, d)) == DigitsOf(s)
  {
    var k := FirstAt(s, c);
    if k < |s| {
      assert s == s[..k] + [c] + s[k + 1..];
      DigitsOfAppend(s[..k], [c]);
      DigitsOfAppend(s[..k] + [c], s[k + 1..]);
      DigitsOfAppend(s[..k], [d]);
      DigitsOfAppend(s[..k] + [d], s[k + 1..]);
      assert [c][..0] == "" && [d][..0] == "";
    }
  }

  lemma EuropeanKeepsDigits(v: string)
    ensures DigitsOf(ReplaceFirst(Remove(v, '.'), ',', '.')) == DigitsOf(v)
  {
    RemoveKeepsDigits(v, '.');
    ReplaceKeepsDigits(Remove(v, '.'), ',', '.');
  }

  /** Whatever the style, the digits read are exactly the digits written, in order. */
  lemma DigitsAreKept(v: string)
    ensures DigitsOf(Normalised(v)) == DigitsOf(v)
  {
    RemoveKeepsDigits(v, ',');
    EuropeanKeepsDigits(v);
    ReplaceKeepsDigits(v, ',', '.');
  }

  /** A cell without parentheses: a minus negates. */
  lemma MinusNegates(number: string, strip: string -> string)
    requires Plain(number) && strip(number) == number && strip("-" + number) == "-" + number
    ensures ReadAmount(number, strip) == Read(number)
    ensures ReadAmount("-" + number, strip) == Negated(true, Read(number))
  {
    PlainCharacters(number);
    assert ("-" + number)[1..] == number;
    assert !InParentheses(number) && !InParentheses("-" + number);
  }

  lemma BracketedIs(inner: string, strip: string -> string)
    requires InParentheses("(" + inner + ")") && strip(inner) == inner
    ensures ReadAmount("(" + inner + ")", strip) ==
      if "-" <= inner then Read(if "+" <= inner[1..] then inner[1..][1..] else inner[1..])
      else Negated(true, Read(if "+" <= inner then inner[1..] else inner))
  {
    var cell := "(" + inner + ")";
    assert cell[1..|cell| - 1] == inner;
  }

  lemma BracketsNegate(number: string, strip: string -> string)
    requires Plain(number) && strip(number) == number
    ensures ReadAmount("(" + number + ")", strip) == Negated(true, Read(number))
  {
    PlainCharacters(number);
    BracketedIs(number, strip);
  }

  lemma BothCancel(number: string, strip: string -> string)
    requires Plain(number) && strip("-" + number) == "-" + number
    ensures ReadAmount("(-" + number + ")", strip) == Read(number)
  {
    PlainCharacters(number);
    var inner := "-" + number;
    assert inner[1..] == number && "(-" + number + ")" == "(" + inner + ")";
    BracketedIs(inner, strip);
  }

  /** Parentheses and a minus each negate, and together they cancel. */
  lemma SignsNegate(number: string, strip: string -> string)
    requires Plain(number) && strip(number) == number && strip("-" + number) == "-" + number
    ensures ReadAmount(number, strip) == Read(number)
    ensures ReadAmount("-" + number, strip) == Negated(true, Read(number))
    ensures ReadAmount("(" + number + ")", strip) == Negated(true, Read(number))
    ensures ReadAmount("(-" + number + ")", strip) == Read(number)
  {
    MinusNegates(number, strip);
    BracketsNegate(number, strip);
    BothCancel(number, strip);
  }

  lemma PlainCharacters(s: string)
    requires Plain(s)
    ensures s != "" && '0' <= s[0] <= '9'
    ensures forall c | c in s :: '0' <= c <= '9' || c == '.'
  {
    var k := FirstAt(s, '.');
    if k < |s| {
      assert s[0] == s[..k][0];
      forall i | 0 <= i < |s| ensures '0' <= s[i] <= '9' || s[i] == '.' {
        assert i < k ==> s[i] == s[..k][i];
        assert i > k ==> s[i] == s[k + 1..][i - k - 1];
      }
    }
  }
}
