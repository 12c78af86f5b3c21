/** Amounts of money as text: the server's ParseAmount and the mobile app's `yen`, which it
    has to read back. */
module Amount {
  import opened Wrappers
  import opened Text

  const MIN64: int := -0x8000_0000_0000_0000
  const MAX64: int := 0x7fff_ffff_ffff_ffff

  predicate Is64(v: int) {
    MIN64 <= v <= MAX64
  }

  /** Negation of a 64-bit integer; the least one is its own negation. */
  function Neg64(v: int): int {
    if v == MIN64 then v else -v
  }

  function Abs64(v: int): int {
    if v < 0 then Neg64(v) else v
  }

  // ----------------------------------------------------------------- printing

  function Decimal(n: nat): (s: string)
    ensures s != "" && AllDigits(s)
  {
    if n < 10 then [DigitOf(n)] else Decimal(n / 10) + [DigitOf(n % 10)]
  }

  function DigitOf(n: nat): (c: char)
    requires n < 10
    ensures IsDigit(c)
  {
    '0' + n as char
  }

  /** Dart's int.toString. */
  function IntToString(v: int): string {
    if v < 0 then "-" + Decimal(-v) else Decimal(v)
  }

  /** Groups of three, counted from the right. */
  function Grouped(digits: string): string {
    if |digits| <= 3 then digits
    else Grouped(digits[..|digits| - 3]) + "," + digits[|digits| - 3..]
  }

  function Yen(v: int): string {
    (if v < 0 then "−" else "") + "¥" + Grouped(IntToString(Abs64(v)))
  }

  /** What the printer's loop has written when `total` is the length of all digits. */
  function Written(digits: string, total: nat): string {
    if digits == "" then ""
    else
      var i := |digits| - 1;
      Written(digits[..i], total) + (if i > 0 && (total - i) % 3 == 0 then "," else "") + [digits[i]]
  }

  lemma {:induction false} WrittenByThrees(digits: string, total: nat)
    requires total >= |digits|
    ensures Written(digits, total + 3) == Written(digits, total)
    decreases |digits|
  {
    if digits != "" {
      WrittenByThrees(digits[..|digits| - 1], total);
    }
  }

  lemma WrittenLast(digits: string, i: nat, total: nat)
    requires i < |digits|
    ensures Written(digits[..i + 1], total)
         == Written(digits[..i], total) + (if i > 0 && (total - i) % 3 == 0 then "," else "") + [digits[i]]
  {
    assert digits[..i + 1][..i] == digits[..i];
  }

  /** Left to right with a modulus, or from the right by threes: the same text. */
  lemma {:induction false} WrittenIsGrouped(digits: string)
    ensures Written(digits, |digits|) == Grouped(digits)
    decreases |digits|
  {
    var n := |digits|;
    if n > 3 {
      WrittenIsGrouped(digits[..n - 3]);
      WrittenByThrees(digits[..n - 3], n - 3);
      WrittenLast(digits, n - 3, n);
      WrittenLast(digits, n - 2, n);
      WrittenLast(digits, n - 1, n);
      assert digits[..n] == digits;
      assert digits[n - 3..] == [digits[n - 3]] + [digits[n - 2]] + [digits[n - 1]];
    } else {
      ShortIsWritten(digits, n);
    }
  }

  lemma {:induction false} ShortIsWritten(digits: string, total: nat)
    requires |digits| <= total <= 3
    ensures Written(digits, total) == digits
    decreases |digits|
  {
    if digits != "" {
      ShortIsWritten(digits[..|digits| - 1], total);
    }
  }

  /** The mobile app's printer. */
  method PrintYen(value: int) returns (text: string)
    requires Is64(value)
    ensures text == Yen(value)
  {
    var sign := if value < 0 then "−" else "";
    var digits := IntToString(Abs64(value));
    var buffer := "";
    for index := 0 to |digits|
      invariant buffer == Written(digits[..index], |digits|)
    {
      WrittenLast(digits, index, |digits|);
      if index > 0 && (|digits| - index) % 3 == 0 {
        buffer := buffer + ",";
      }
      buffer := buffer + [digits[index]];
    }
    assert digits[..|digits|] == digits;
    WrittenIsGrouped(digits);
    text := sign + "¥" + buffer;
  }

  function DropCommas(s: string): string {
    if s == "" then "" else (if s[0] == ',' then "" else [s[0]]) + DropCommas(s[1..])
  }

  lemma {:induction false} DropCommasConcat(a: string, b: string)
    ensures DropCommas(a + b) == DropCommas(a) + DropCommas(b)
  {
    if a == "" {
      assert a + b == b;
    } else {
      assert (a + b)[1..] == a[1..] + b;
      DropCommasConcat(a[1..], b);
    }
  }

  lemma {:induction false} DigitsHaveNoCommas(digits: string)
    requires AllDigits(digits)
    ensures DropCommas(digits) == digits
  {
    if digits != "" {
      DigitsHaveNoCommas(digits[1..]);
    }
  }

  /** A comma stands at every fourth place from the right. */
  predicate CommasByThrees(s: string) {
    forall k :: 0 <= k < |s| ==> (s[|s| - 1 - k] == ',' <==> k % 4 == 3)
  }

  lemma OneMoreGroup(g: string, s: string)
    requires CommasByThrees(g) && |s| == |g| + 4 && s[..|g|] == g
    requires s[|g|] == ',' && s[|g| + 1] != ',' && s[|g| + 2] != ',' && s[|g| + 3] != ','
    ensures CommasByThrees(s)
  {
    forall k | 4 <= k < |s|
      ensures s[|s| - 1 - k] == ',' <==> k % 4 == 3
    {
      var j := k - 4;
      assert s[..|g|][|g| - 1 - j] == g[|g| - 1 - j] == s[|s| - 1 - k];
      assert j % 4 == 3 <==> k % 4 == 3;
    }
  }

  lemma DropOneMore(g: string, last: string)
    requires AllDigits(last)
    ensures DropCommas(g + "," + last) == DropCommas(g) + last
  {
    DropCommasConcat(g + ",", last);
    DropCommasConcat(g, ",");
    assert DropCommas(",") == "" by { assert ","[1..] == ""; }
    DigitsHaveNoCommas(last);
  }

  lemma OneMoreLook(g: string, last: string, s: string)
    requires CommasByThrees(g) && |last| == 3 && AllDigits(last) && s == g + "," + last
    ensures CommasByThrees(s) && DropCommas(s) == DropCommas(g) + last
  {
    OneMoreGroup(g, s);
    DropOneMore(g, last);
  }

  lemma {:induction false} GroupedLooks(digits: string)
    requires AllDigits(digits)
    ensures CommasByThrees(Grouped(digits)) && DropCommas(Grouped(digits)) == digits
    ensures digits != "" ==> Grouped(digits) != "" && Grouped(digits)[0] == digits[0]
    decreases |digits|
  {
    var n := |digits| - 3;
    if n > 0 {
      GroupedLooks(digits[..n]);
      OneMoreLook(Grouped(digits[..n]), digits[n..], Grouped(digits));
      assert digits == digits[..n] + digits[n..];
    } else {
      DigitsHaveNoCommas(digits);
    }
  }

  lemma {:induction false} NoLeadingZero(n: nat)
    ensures n > 0 ==> Decimal(n)[0] != '0'
    ensures n == 0 ==> Decimal(n) == "0"
  {
    if n >= 10 {
      NoLeadingZero(n / 10);
    }
  }

  /** How an amount looks: a minus sign if it is negative, the yen sign, and then its decimal
      digits without a leading zero, with a comma at every fourth place from the right. */
  lemma YenLooks(v: int)
    requires Is64(v) && v != MIN64
    ensures
      var sign := if v < 0 then "−¥" else "¥";
      var amount := if v < 0 then -v else v;
      && HasPrefix(Yen(v), sign) && CommasByThrees(Yen(v)[|sign|..])
      && DropCommas(Yen(v)[|sign|..]) == Decimal(amount) && DigitsValue(Decimal(amount)) == amount
      && (if amount == 0 then Yen(v) == "¥0" else Yen(v)[|sign|] != '0')
  {
    var sign := if v < 0 then "−¥" else "¥";
    var digits := Decimal(Abs64(v));
    assert Yen(v) == sign + Grouped(digits);
    GroupedLooks(digits);
    NoLeadingZero(Abs64(v));
    DecimalValue(Abs64(v));
  }

  // ------------------------------------------------------------------ reading

  /** Group separators and currency signs. */
  predicate IsMark(c: char) {
    c == ',' || c == '，' || c == '¥' || c == '￥' || c == '円'
  }

  /** What the replacer makes of one character. */
  function ReplaceChar(c: char): string {
    if IsMark(c) || c == ' ' || c == '　' || c == '(' || c == ')' then ""
    else if c == '＋' then "+"
    else if c == '−' || c == '－' || c == 'ー' then "-"
    else [c]
  }

  function Replaced(s: string): string {
    if s == "" then "" else ReplaceChar(s[0]) + Replaced(s[1..])
  }

  function DigitChar(c: char): string {
    if '０' <= c <= '９' then ['0' + (c - '０')]
    else if IsSpace(c) then ""
    else [c]
  }

  function AsciiDigits(s: string): string {
    if s == "" then "" else DigitChar(s[0]) + AsciiDigits(s[1..])
  }

  function Clean(s: string): string {
    AsciiDigits(Replaced(s))
  }

  /** strconv.ParseInt(s, 10, 64). */
  function ParseInt(s: string): Option<int> {
    if s == "" then None
    else
      var signed := s[0] == '+' || s[0] == '-';
      var digits := if signed then s[1..] else s;
      if digits == "" || !AllDigits(digits) then None
      else
        var v := if s[0] == '-' then 0 - DigitsValue(digits) else DigitsValue(digits);
        if Is64(v) then Some(v) else None
  }

  predicate Parenthesised(s: string) {
    HasPrefix(s, "(") && HasSuffix(s, ")")
  }

  function ReadCleaned(text: string, parenthesised: bool): (r: Result<int, string>)
    ensures r.Ok? ==> Is64(r.value)
  {
    match ParseInt(text)
    case None => Err(text)
    case Some(v) => if parenthesised && v > 0 then Ok(-v) else Ok(v)
  }

  /** The amount a text stands for, or the cleaned text that stands for none. */
  function AmountOf(value: string): (r: Result<int, string>)
    ensures r.Ok? ==> Is64(r.value)
  {
    var trimmed := TrimSpace(value);
    if trimmed == "" then Ok(0)
    else ReadCleaned(Clean(trimmed), Parenthesised(trimmed))
  }

  lemma AsciiDigitsNext(s: string, i: nat)
    requires i < |s|
    ensures AsciiDigits(s[..i + 1]) == AsciiDigits(s[..i]) + DigitChar(s[i])
  {
    assert s[..i + 1] == s[..i] + [s[i]];
    AsciiDigitsConcat(s[..i], [s[i]]);
    assert AsciiDigits([s[i]]) == DigitChar(s[i]) by { assert [s[i]][1..] == ""; }
  }

  method ToAsciiDigits(value: string) returns (r: string)
    ensures r == AsciiDigits(value)
  {
    r := "";
    for i := 0 to |value|
      invariant r == AsciiDigits(value[..i])
    {
      AsciiDigitsNext(value, i);
      var c := value[i];
      if '０' <= c <= '９' {
        r := r + ['0' + (c - '０')];
      } else if !IsSpace(c) {
        r := r + [c];
      }
    }
    assert value[..|value|] == value;
  }

  lemma SignsAloneDoNotParse()
    ensures ParseInt("") == ParseInt("+") == ParseInt("-") == None
  {
    assert "+"[1..] == "" && "-"[1..] == "";
  }

  method ParseAmount(value: string) returns (r: Result<int, string>)
    ensures r == AmountOf(value)
  {
    var text := TrimSpace(value);
    if text == "" {
      return Ok(0);
    }
    var negativeByParentheses := Parenthesised(text);
    text := Replaced(text);
    text := ToAsciiDigits(text);
    r := ReadAmount(text, negativeByParentheses);
  }

  /** The rest of ParseAmount, on the cleaned text. */
  method ReadAmount(text: string, negativeByParentheses: bool) returns (r: Result<int, string>)
    ensures r == ReadCleaned(text, negativeByParentheses)
  {
    SignsAloneDoNotParse();
    if text == "" || text == "+" || text == "-" {
      return Err(text);
    }
    var parsed := ParseInt(text);
    if parsed.None? {
      return Err(text);
    }
    var amount := parsed.value;
    if negativeByParentheses && amount > 0 {
      amount := -amount;
    }
    return Ok(amount);
  }

  // ------------------------------------------------------ cleaning, by pieces

  lemma {:induction false} ReplacedConcat(a: string, b: string)
    ensures Replaced(a + b) == Replaced(a) + Replaced(b)
  {
    if a == "" {
      assert a + b == b;
    } else {
      assert (a + b)[1..] == a[1..] + b;
      ReplacedConcat(a[1..], b);
    }
  }

  lemma {:induction false} AsciiDigitsConcat(a: string, b: string)
    ensures AsciiDigits(a + b) == AsciiDigits(a) + AsciiDigits(b)
  {
    if a == "" {
      assert a + b == b;
    } else {
      assert (a + b)[1..] == a[1..] + b;
      AsciiDigitsConcat(a[1..], b);
    }
  }

  lemma CleanConcat(a: string, b: string)
    ensures Clean(a + b) == Clean(a) + Clean(b)
  {
    ReplacedConcat(a, b);
    AsciiDigitsConcat(Replaced(a), Replaced(b));
  }

  lemma CleanChar(c: char)
    ensures Clean([c]) == if IsMark(c) || c == '(' || c == ')' || IsSpace(c) then ""
                          else if c == '＋' then "+"
                          else if c == '−' || c == '－' || c == 'ー' then "-"
                          else if '０' <= c <= '９' then ['0' + (c - '０')]
                          else [c]
  {
    assert [c][1..] == "";
    assert Replaced([c]) == ReplaceChar(c);
    var d := Replaced([c]);
    if d != "" {
      assert d[1..] == "" && AsciiDigits(d) == DigitChar(d[0]) + AsciiDigits("");
      assert d == [d[0]];
    }
  }

  lemma CleanHead(s: string)
    requires s != ""
    ensures Clean(s) == Clean([s[0]]) + Clean(s[1..])
  {
    assert s == [s[0]] + s[1..];
    CleanConcat([s[0]], s[1..]);
  }

  lemma {:induction false} BlankCleansAway(s: string)
    requires Blank(s)
    ensures Clean(s) == ""
  {
    if s != "" {
      CleanHead(s);
      CleanChar(s[0]);
      BlankCleansAway(s[1..]);
    }
  }

  lemma CleanParts(s: string, k: nat)
    requires k <= |s|
    ensures Clean(s) == Clean(s[..k]) + Clean(s[k..])
  {
    assert s == s[..k] + s[k..];
    CleanConcat(s[..k], s[k..]);
  }

  lemma CleanMiddle(s: string, from: nat, to: nat)
    requires from <= to <= |s| && Blank(s[..from]) && Blank(s[to..])
    ensures Clean(s) == Clean(s[from..to])
  {
    CleanParts(s, to);
    BlankCleansAway(s[to..]);
    CleanParts(s[..to], from);
    assert s[..to][..from] == s[..from] && s[..to][from..] == s[from..to];
    BlankCleansAway(s[..from]);
  }

  lemma CleanIgnoresTrim(s: string)
    ensures Clean(TrimSpace(s)) == Clean(s)
  {
    var from := SkipSpaces(s, 0);
    CleanMiddle(s, from, DropSpaces(s, from, |s|));
  }

  predicate NoParentheses(s: string) {
    '(' !in s && ')' !in s
  }

  /** Without parentheses a text that is not blank counts only as far as it is cleaned. */
  lemma AmountOfCleaned(s: string)
    requires NoParentheses(s) && !Blank(s)
    ensures AmountOf(s) == ReadCleaned(Clean(s), false)
  {
    TrimSpaceEmpty(s);
    CleanIgnoresTrim(s);
    var trimmed := TrimSpace(s);
    assert trimmed != "" ==> trimmed[..1][0] == trimmed[0] && trimmed[0] in s;
  }

  // -------------------------------------------------------------- the results

  lemma {:induction false} DigitsCleanUnchanged(s: string)
    requires AllDigits(s)
    ensures Clean(s) == s
  {
    if s != "" {
      CleanHead(s);
      CleanChar(s[0]);
      DigitsCleanUnchanged(s[1..]);
    }
  }

  lemma CleanAcrossComma(a: string, b: string)
    ensures Clean(a + "," + b) == Clean(a) + Clean(b)
  {
    CleanConcat(a + ",", b);
    CleanConcat(a, ",");
    CleanChar(',');
  }

  lemma {:induction false} GroupingCleansAway(digits: string)
    ensures Clean(Grouped(digits)) == Clean(digits)
    decreases |digits|
  {
    var n := |digits| - 3;
    if n > 0 {
      GroupingCleansAway(digits[..n]);
      CleanAcrossComma(Grouped(digits[..n]), digits[n..]);
      CleanParts(digits, n);
    }
  }

  lemma {:induction false} DecimalValue(n: nat)
    ensures DigitsValue(Decimal(n)) == n
  {
    var s := Decimal(n);
    assert s[|s| - 1] == DigitOf(n % 10);
    if n >= 10 {
      DecimalValue(n / 10);
      assert s[..|s| - 1] == Decimal(n / 10);
    }
  }

  lemma CleanYen(v: int)
    ensures Clean(Yen(v)) == (if v < 0 then "-" else "") + Clean(IntToString(Abs64(v)))
  {
    var sign, digits := if v < 0 then "−" else "", IntToString(Abs64(v));
    CleanConcat(sign + "¥", Grouped(digits));
    CleanConcat(sign, "¥");
    CleanChar('¥');
    CleanChar('−');
    GroupingCleansAway(digits);
  }

  lemma {:induction false} GroupedCharacters(digits: string)
    ensures forall i :: 0 <= i < |Grouped(digits)| ==> Grouped(digits)[i] == ',' || Grouped(digits)[i] in digits
    decreases |digits|
  {
    if |digits| > 3 {
      GroupedCharacters(digits[..|digits| - 3]);
    }
  }

  lemma GroupedHasNoParentheses(v: int)
    ensures NoParentheses(Grouped(IntToString(v)))
  {
    var digits := IntToString(v);
    GroupedCharacters(digits);
    assert forall i :: 0 <= i < |digits| ==> digits[i] == '-' || IsDigit(digits[i]);
  }

  lemma YenHasNoParentheses(v: int)
    ensures NoParentheses(Yen(v)) && !Blank(Yen(v))
  {
    GroupedHasNoParentheses(Abs64(v));
    assert Yen(v)[if v < 0 then 1 else 0] == '¥';
  }

  lemma DigitsParse(digits: string)
    requires digits != "" && AllDigits(digits)
    ensures ParseInt(digits) == if Is64(DigitsValue(digits)) then Some(DigitsValue(digits)) else None
  {
    assert IsDigit(digits[0]);
  }

  lemma MinusParses(digits: string)
    requires digits != "" && AllDigits(digits)
    ensures ParseInt("-" + digits) == if Is64(0 - DigitsValue(digits)) then Some(0 - DigitsValue(digits)) else None
  {
    var s := "-" + digits;
    assert s[0] == '-' && s[1..] == digits;
  }

  lemma SignedDecimalParses(n: nat, negative: bool)
    ensures
      var v := if negative then 0 - n else n;
      ParseInt((if negative then "-" else "") + Decimal(n)) == if Is64(v) then Some(v) else None
  {
    DecimalValue(n);
    if negative {
      MinusParses(Decimal(n));
    } else {
      DigitsParse(Decimal(n));
      assert "" + Decimal(n) == Decimal(n);
    }
  }

  lemma TwoSignsDoNotParse(digits: string)
    ensures ParseInt("-" + ("-" + digits)) == None
  {
    assert ("-" + ("-" + digits))[1..][0] == '-';
  }

  lemma CleanYenIs(v: int)
    requires Is64(v) && v != MIN64
    ensures Clean(Yen(v)) == (if v < 0 then "-" else "") + Decimal(Abs64(v))
  {
    CleanYen(v);
    DigitsCleanUnchanged(Decimal(Abs64(v)));
  }

  lemma CleanNegative(digits: string)
    requires AllDigits(digits)
    ensures Clean("-" + digits) == "-" + digits
  {
    CleanConcat("-", digits);
    CleanChar('-');
    DigitsCleanUnchanged(digits);
  }

  lemma LeastDoesNotReadBack()
    ensures AmountOf(Yen(MIN64)).Err?
  {
    var digits := Decimal(-MIN64);
    CleanYen(MIN64);
    CleanNegative(digits);
    YenHasNoParentheses(MIN64);
    AmountOfCleaned(Yen(MIN64));
    TwoSignsDoNotParse(digits);
  }

  /** What the app prints the server reads back, for every 64-bit value but the least; its
      absolute value does not exist, and its print is no amount. */
  lemma PrintedAmountsReadBack(v: int)
    requires Is64(v)
    ensures AmountOf(Yen(v)) == Ok(v) <==> v != MIN64
  {
    if v == MIN64 {
      LeastDoesNotReadBack();
    } else {
      CleanYenIs(v);
      YenHasNoParentheses(v);
      AmountOfCleaned(Yen(v));
      SignedDecimalParses(Abs64(v), v < 0);
    }
  }

  predicate IsSeparator(c: char) {
    IsMark(c) || IsSpace(c)
  }

  function Insert(s: string, i: nat, c: char): string
    requires i <= |s|
  {
    s[..i] + [c] + s[i..]
  }

  lemma InsertCleansAway(s: string, i: nat, c: char)
    requires i <= |s| && IsSeparator(c)
    ensures Clean(Insert(s, i, c)) == Clean(s)
  {
    CleanConcat(s[..i] + [c], s[i..]);
    CleanConcat(s[..i], [c]);
    CleanParts(s, i);
    CleanChar(c);
  }

  lemma InsertKeeps(s: string, i: nat, c: char)
    requires NoParentheses(s) && i <= |s| && IsSeparator(c)
    ensures NoParentheses(Insert(s, i, c))
    ensures Blank(Insert(s, i, c)) <==> Blank(s) && IsSpace(c)
  {
    var t := Insert(s, i, c);
    assert t[i] == c && forall j :: 0 <= j < |s| ==> s[j] == t[if j < i then j else j + 1];
    assert forall j :: 0 <= j < |t| && j != i ==> t[j] in s;
  }

  /** Putting a separator or a currency sign anywhere into a text without parentheses leaves
      its amount alone, exactly when the text is not blank or the sign is white space: a
      blank text is zero, a lone comma is an error. */
  lemma SeparatorsAreIgnored(s: string, i: nat, c: char)
    requires NoParentheses(s) && i <= |s| && IsSeparator(c)
    ensures AmountOf(Insert(s, i, c)) == AmountOf(s) <==> !Blank(s) || IsSpace(c)
  {
    var t := Insert(s, i, c);
    InsertKeeps(s, i, c);
    InsertCleansAway(s, i, c);
    TrimSpaceEmpty(s);
    TrimSpaceEmpty(t);
    if !Blank(s) {
      AmountOfCleaned(s);
      AmountOfCleaned(t);
    } else if !IsSpace(c) {
      AmountOfCleaned(t);
      BlankCleansAway(s);
    }
  }

  /** For one: nothing is 0, a comma is no amount. */
  lemma CommaInBlankText()
    ensures AmountOf("") == Ok(0) && AmountOf(Insert("", 0, ',')).Err?
  {
    SeparatorsAreIgnored("", 0, ',');
    var s := Insert("", 0, ',');
    assert s == [','];
    TrimSpaceEmpty("");
    AmountOfCleaned(s);
    CleanChar(',');
    SignsAloneDoNotParse();
  }

  /** b is a with some of its digits in full width. */
  predicate Widened(a: string, b: string) {
    |a| == |b| && forall i :: 0 <= i < |a| ==>
      a[i] == b[i] || (IsDigit(a[i]) && '０' <= b[i] <= '９' && b[i] - '０' == a[i] - '0')
  }

  lemma WideDigitCleansSame(a: char, b: char)
    requires IsDigit(a) && '０' <= b <= '９' && b - '０' == a - '0'
    ensures Clean([a]) == Clean([b])
  {
    CleanChar(a);
    CleanChar(b);
  }

  lemma {:induction false} WidenedCleansSame(a: string, b: string)
    requires Widened(a, b)
    ensures Clean(a) == Clean(b)
  {
    if a != "" {
      CleanHead(a);
      CleanHead(b);
      if a[0] != b[0] { WideDigitCleansSame(a[0], b[0]); }
      WidenedCleansSame(a[1..], b[1..]);
    }
  }

  lemma WidenedKeeps(a: string, b: string)
    requires Widened(a, b) && NoParentheses(a)
    ensures NoParentheses(b) && (Blank(a) <==> Blank(b))
  {
    assert forall i :: 0 <= i < |b| ==> (b[i] == a[i] && a[i] in a) || '０' <= b[i] <= '９';
    assert forall i :: 0 <= i < |a| ==> (IsSpace(a[i]) <==> IsSpace(b[i]));
  }

  /** Full-width digits read like ASCII ones. */
  lemma FullWidthReadsTheSame(a: string, b: string)
    requires Widened(a, b) && NoParentheses(a)
    ensures AmountOf(a) == AmountOf(b)
  {
    WidenedKeeps(a, b);
    if Blank(a) {
      TrimSpaceEmpty(a);
      TrimSpaceEmpty(b);
    } else {
      WidenedCleansSame(a, b);
      AmountOfCleaned(a);
      AmountOfCleaned(b);
    }
  }

  // --------------------------------------------- parentheses, signs and range

  lemma TrimIs(s: string, from: nat, to: nat)
    requires from < to <= |s| && !IsSpace(s[from]) && !IsSpace(s[to - 1])
    requires forall k :: 0 <= k < from ==> IsSpace(s[k])
    requires forall k :: to <= k < |s| ==> IsSpace(s[k])
    ensures TrimSpace(s) == s[from..to]
  {
    var f := SkipSpaces(s, 0);
    assert f == from;
    var t := DropSpaces(s, f, |s|);
    assert t == to;
  }

  lemma AmountOfTrimmed(s: string, trimmed: string)
    requires TrimSpace(s) == trimmed != ""
    ensures AmountOf(s) == ReadCleaned(Clean(trimmed), Parenthesised(trimmed))
  {
  }

  lemma CleanInParentheses(s: string)
    ensures Clean("(" + s + ")") == Clean(s)
  {
    CleanConcat("(" + s, ")");
    CleanConcat("(", s);
    CleanChar('(');
    CleanChar(')');
  }

  lemma InParentheses(s: string, t: string)
    requires t == "(" + s + ")"
    ensures AmountOf(t) == ReadCleaned(Clean(s), true)
  {
    assert t[0] == '(' && t[|t| - 1] == ')' && t[0..|t|] == t;
    TrimIs(t, 0, |t|);
    CleanInParentheses(s);
    assert Parenthesised(t);
    AmountOfTrimmed(t, t);
  }

  /** A positive amount negated; a negative one and an error as they are. */
  function Negative(r: Result<int, string>): Result<int, string> {
    if r.Ok? && r.value > 0 then Ok(-r.value) else r
  }

  lemma ReadNegative(text: string)
    ensures ReadCleaned(text, true) == Negative(ReadCleaned(text, false))
  {
  }

  /** Parentheses around a text turn a positive amount into a negative one, and leave a negative
      one and an error as they are. */
  lemma ParenthesesNegate(s: string, t: string)
    requires NoParentheses(s) && !Blank(s) && t == "(" + s + ")"
    ensures AmountOf(t) == Negative(AmountOf(s))
  {
    ReadNegative(Clean(s));
    InParentheses(s, t);
    AmountOfCleaned(s);
  }

  /** Around nothing they are an error. */
  lemma EmptyParentheses(s: string, t: string)
    requires Blank(s) && t == "(" + s + ")"
    ensures AmountOf(t) == Err("")
  {
    SignsAloneDoNotParse();
    BlankCleansAway(s);
    InParentheses(s, t);
  }

  lemma TrimPart(all: string, at: nat, s: string, from: nat, to: nat)
    requires at + |s| <= |all| && (forall k :: 0 <= k < |s| ==> all[at + k] == s[k])
    requires from < to <= |s| && !IsSpace(s[from]) && !IsSpace(s[to - 1])
    requires forall k :: 0 <= k < at + from || at + to <= k < |all| ==> IsSpace(all[k])
    ensures TrimSpace(all) == s[from..to]
  {
    assert all[at + from] == s[from] && all[at + (to - 1)] == s[to - 1];
    TrimIs(all, at + from, at + to);
    assert all[at + from..at + to] == s[from..to];
  }

  /** The part of a text that begins at `at`, with nothing but spaces outside of it. */
  lemma SpacedTrims(all: string, at: nat, s: string)
    requires at + |s| <= |all| && (forall k :: 0 <= k < |s| ==> all[at + k] == s[k]) && !Blank(s)
    requires forall k :: 0 <= k < at || at + |s| <= k < |all| ==> IsSpace(all[k])
    ensures TrimSpace(all) == TrimSpace(s) != ""
  {
    var from := SkipSpaces(s, 0);
    var to := DropSpaces(s, from, |s|);
    TrimSpaceEmpty(s);
    forall k | 0 <= k < at + from || at + to <= k < |all|
      ensures IsSpace(all[k])
    {
      if at <= k < at + |s| {
        var j := k - at;
        assert all[at + j] == s[j];
      }
    }
    TrimPart(all, at, s, from, to);
  }

  /** White space around a text changes nothing, parentheses or not. */
  lemma SpaceAroundIsIgnored(before: string, s: string, after: string)
    requires Blank(before) && Blank(after)
    ensures AmountOf(before + s + after) == AmountOf(s)
  {
    var all := before + s + after;
    if Blank(s) {
      TrimSpaceEmpty(s);
      TrimSpaceEmpty(all);
    } else {
      SpacedTrims(all, |before|, s);
    }
  }

  lemma SignReads(sign: char, digits: string, s: string)
    requires digits != "" && AllDigits(digits) && s == [sign] + digits
    requires !IsSpace(sign) && sign != '(' && sign != ')'
    ensures AmountOf(s) == ReadCleaned(Clean([sign]) + digits, false)
  {
    CleanConcat([sign], digits);
    DigitsCleanUnchanged(digits);
    assert s[0] == sign && forall i :: 0 < i < |s| ==> s[i] == digits[i - 1];
    AmountOfCleaned(s);
  }

  lemma PlusParses(digits: string)
    requires digits != "" && AllDigits(digits)
    ensures ParseInt("+" + digits) == ParseInt(digits)
  {
    var s := "+" + digits;
    assert s[0] == '+' && s[1..] == digits;
    assert IsDigit(digits[0]);
  }

  /** Decimal digits are read within 64 bits, or not at all. */
  lemma DigitsRead(digits: string)
    requires digits != "" && AllDigits(digits)
    ensures AmountOf(digits)
         == if DigitsValue(digits) <= 9_223_372_036_854_775_807 then Ok(DigitsValue(digits)) else Err(digits)
  {
    DigitsCleanUnchanged(digits);
    AmountOfCleaned(digits);
    DigitsParse(digits);
  }

  lemma PlusIsRead(digits: string)
    requires digits != "" && AllDigits(digits)
    ensures ReadCleaned("+" + digits, false)
         == if DigitsValue(digits) <= 9_223_372_036_854_775_807 then Ok(DigitsValue(digits)) else Err("+" + digits)
  {
    PlusParses(digits);
    DigitsParse(digits);
  }

  lemma MinusIsRead(digits: string)
    requires digits != "" && AllDigits(digits)
    ensures
      var v: int := DigitsValue(digits);
      ReadCleaned("-" + digits, false) == if v <= 9_223_372_036_854_775_808 then Ok(-v) else Err("-" + digits)
  {
    MinusParses(digits);
  }

  /** A plus sign changes nothing, but for the text of the error. */
  lemma PlusReads(sign: char, digits: string, s: string)
    requires digits != "" && AllDigits(digits) && (sign == '+' || sign == '＋') && s == [sign] + digits
    ensures AmountOf(s)
         == if DigitsValue(digits) <= 9_223_372_036_854_775_807 then Ok(DigitsValue(digits)) else Err("+" + digits)
  {
    PlusIsRead(digits);
    CleanChar(sign);
    SignReads(sign, digits, s);
  }

  /** A minus sign negates, and lets one more value in. */
  lemma MinusReads(sign: char, digits: string, s: string)
    requires digits != "" && AllDigits(digits) && s == [sign] + digits
    requires sign == '-' || sign == '−' || sign == '－' || sign == 'ー'
    ensures
      var v: int := DigitsValue(digits);
      AmountOf(s) == if v <= 9_223_372_036_854_775_808 then Ok(-v) else Err("-" + digits)
  {
    MinusIsRead(digits);
    CleanChar(sign);
    SignReads(sign, digits, s);
  }

  /** A text with one parenthesis at most does not begin and end with one each. */
  lemma NotParenthesised(t: string, i: int)
    requires forall k :: 0 <= k < |t| && k != i ==> t[k] != '(' && t[k] != ')'
    ensures !Parenthesised(t)
  {
    assert |t| > 0 ==> t[..1][0] == t[0] && t[|t| - 1..][0] == t[|t| - 1];
  }

  lemma OneParenthesis(t: string, i: nat)
    requires !Blank(t) && forall k :: 0 <= k < |t| && k != i ==> t[k] != '(' && t[k] != ')'
    ensures AmountOf(t) == ReadCleaned(Clean(t), false)
  {
    var from := SkipSpaces(t, 0);
    OnePartAtMost(t, i, from, DropSpaces(t, from, |t|), TrimSpace(t));
    TrimSpaceEmpty(t);
    CleanIgnoresTrim(t);
    AmountOfTrimmed(t, TrimSpace(t));
  }

  lemma OnePartAtMost(t: string, i: nat, from: nat, to: nat, part: string)
    requires from <= to <= |t| && part == t[from..to]
    requires forall k :: 0 <= k < |t| && k != i ==> t[k] != '(' && t[k] != ')'
    ensures !Parenthesised(part)
  {
    assert forall k :: 0 <= k < |part| ==> part[k] == t[from + k];
    NotParenthesised(part, i - from);
  }

  lemma InsertedReads(s: string, i: nat, c: char, t: string)
    requires i <= |s| && NoParentheses(s) && !Blank(s) && t == Insert(s, i, c)
    ensures AmountOf(t) == ReadCleaned(Clean(s[..i]) + Clean([c]) + Clean(s[i..]), false)
  {
    assert forall k :: 0 <= k < |t| && k != i ==> t[k] == s[if k < i then k else k - 1];
    assert forall k :: 0 <= k < |s| ==> s[k] == t[if k < i then k else k + 1];
    OneParenthesis(t, i);
    CleanConcat(s[..i] + [c], s[i..]);
    CleanConcat(s[..i], [c]);
  }

  /** The characters that can be put anywhere into any text without changing its amount. */
  ghost predicate Ignored(c: char) {
    forall s, i: nat :: i <= |s| && NoParentheses(s) && !Blank(s) ==> AmountOf(Insert(s, i, c)) == AmountOf(s)
  }

  lemma AreIgnored(c: char)
    requires IsMark(c) || c == '(' || c == ')' || IsSpace(c)
    ensures Ignored(c)
  {
    forall s, i: nat | i <= |s| && NoParentheses(s) && !Blank(s)
      ensures AmountOf(Insert(s, i, c)) == AmountOf(s)
    {
      IsIgnored(s, i, c, Insert(s, i, c));
    }
  }

  lemma CleanedTheSame(s: string, i: nat, c: char)
    requires i <= |s| && (IsMark(c) || c == '(' || c == ')' || IsSpace(c))
    ensures Clean(s[..i]) + Clean([c]) + Clean(s[i..]) == Clean(s)
  {
    CleanChar(c);
    CleanParts(s, i);
  }

  lemma IsIgnored(s: string, i: nat, c: char, t: string)
    requires IsMark(c) || c == '(' || c == ')' || IsSpace(c)
    requires i <= |s| && NoParentheses(s) && !Blank(s) && t == Insert(s, i, c)
    ensures AmountOf(t) == AmountOf(s)
  {
    CleanedTheSame(s, i, c);
    AmountOfCleaned(s);
    InsertedReads(s, i, c, t);
  }

  lemma OneAndMore(t: string)
    requires |t| == 2 && t[0] == '1'
    ensures ParseInt(t) != Some(1)
  {
    if IsDigit(t[1]) {
      assert t[..1] == "1" && "1"[..0] == "";
      assert DigitsValue("1") == 1;
      assert DigitsValue(t) == 10 * DigitsValue(t[..1]) + (t[1] - '0') as nat;
    }
  }

  /** "1" and any other character. */
  lemma OneAndOther(c: char)
    requires !(IsMark(c) || c == '(' || c == ')' || IsSpace(c))
    ensures ReadCleaned(Clean("1"[..1]) + Clean([c]) + Clean("1"[1..]), false) != Ok(1)
  {
    var one := "1";
    assert one[..1] == one && one[1..] == "" && Clean("") == "";
    DigitsCleanUnchanged(one);
    CleanChar(c);
    OneAndMore(Clean(one[..1]) + Clean([c]) + Clean(one[1..]));
  }

  lemma OneIsOne(one: string)
    requires one == "1"
    ensures AmountOf(one) == Ok(1) && NoParentheses(one) && !Blank(one)
  {
    assert one[..0] == "" && DigitsValue(one) == 1;
    assert !IsSpace(one[0]);
    DigitsRead(one);
  }

  /** Any other character makes another amount of "1", or none. */
  lemma NotIgnored(c: char, one: string)
    requires !(IsMark(c) || c == '(' || c == ')' || IsSpace(c)) && one == "1"
    ensures !Ignored(c)
  {
    OneIsOne(one);
    OneAndOther(c);
    InsertedReads(one, 1, c, Insert(one, 1, c));
  }

  /** They are commas, the yen signs, parentheses and white space, and no others. */
  lemma IgnoredIff(c: char)
    ensures Ignored(c) <==>
              || c == ',' || c == '，' || c == '¥' || c == '￥' || c == '円' || c == '(' || c == ')'
              || '\t' <= c <= '\r' || c == ' ' || c == '\U{85}' || c == '\U{A0}' || c == '\U{1680}'
              || '\U{2000}' <= c <= '\U{200A}' || c == '\U{2028}' || c == '\U{2029}' || c == '\U{202F}'
              || c == '\U{205F}' || c == '　'
  {
    if IsMark(c) || c == '(' || c == ')' || IsSpace(c) {
      AreIgnored(c);
    } else {
      NotIgnored(c, "1");
    }
  }

  // ------------------------------------------------------- amounts of records

  datatype Kind = Expense | Income

  /** The amount columns of a record: one signed column, or money out and money in. */
  datatype Columns = Single(amount: string) | Pair(debit: string, credit: string)

  /** The parsed value that a record's amount is taken from. */
  function Chosen(columns: Columns): Option<int> {
    match columns
    case Single(text) => if AmountOf(text).Ok? then Some(AmountOf(text).value) else None
    case Pair(debit, credit) =>
      if AmountOf(debit).Err? || AmountOf(credit).Err? then None
      else if AmountOf(debit).value != 0 then Some(AmountOf(debit).value)
      else Some(AmountOf(credit).value)
  }

  /** normalizeRecord's handling of the amount. */
  method NormalizeAmount(columns: Columns) returns (r: Result<(Kind, int), string>)
    ensures r.Ok? <==> Chosen(columns).Some? && Chosen(columns).value != 0
    ensures r.Ok? ==> (r.value.1 > 0 <==> Chosen(columns).value != MIN64)
    ensures r.Ok? && columns.Single? ==>
              var v := AmountOf(columns.amount).value;
              r.value == if v < 0 then (Income, Abs64(v)) else (Expense, v)
    ensures r.Ok? && columns.Pair? ==>
              var debit, credit := AmountOf(columns.debit), AmountOf(columns.credit);
              && debit.Ok? && credit.Ok?
              && r.value == if debit.value != 0 then (Expense, Abs64(debit.value)) else (Income, Abs64(credit.value))
  {
    var kind, amount := Expense, 0;
    match columns {
      case Single(text) =>
        var parsed := ParseAmount(text);
        if parsed.Err? {
          return Err(parsed.error);
        }
        amount := parsed.value;
        if amount < 0 {
          kind := Income;
          amount := Neg64(amount);
        }
      case Pair(debitText, creditText) =>
        var debit := ParseAmount(debitText);
        var credit := ParseAmount(creditText);
        if debit.Err? {
          return Err(debit.error);
        }
        if credit.Err? {
          return Err(credit.error);
        }
        if debit.value != 0 {
          amount := Abs64(debit.value);
          kind := Expense;
        } else if credit.value != 0 {
          amount := Abs64(credit.value);
          kind := Income;
        } else {
          return Err("empty amounts");
        }
    }
    if amount == 0 {
      return Err("zero amount");
    }
    return Ok((kind, amount));
  }

  /** The one amount that stays negative can be written in a file. */
  lemma LeastAmountCanBeWritten()
    ensures Chosen(Single("-" + Decimal(-MIN64))) == Some(MIN64)
  {
    var digits := Decimal(-MIN64);
    var s := "-" + digits;
    CleanNegative(digits);
    SignedDecimalParses(-MIN64, true);
    assert s[0] == '-' && !IsSpace(s[0]);
    AmountOfCleaned(s);
  }
}
