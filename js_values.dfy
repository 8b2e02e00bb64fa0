/**
 * The few JavaScript value operations the raffle components rely on:
 * `parseInt`, `Number` on an integer-valued form field, `startsWith` and
 * `replace` with a string pattern. Strings are sequences of UTF-16 code
 * units in JavaScript and `seq<char>` here.
 */
module JsValues {

  datatype Option<T> = None | Some(value: T)

  /** A JavaScript number as this model meets it: NaN or an integer. */
  datatype Num = NaN | Int(value: int)

  predicate IsDigit(c: char) { '0' <= c <= '9' }

  function DigitValue(c: char): (d: nat)
    requires IsDigit(c)
    ensures d < 10
  {
    (c as int) - ('0' as int)
  }

  function DigitChar(d: nat): (c: char)
    requires d < 10
    ensures IsDigit(c) && DigitValue(c) == d
  {
    (('0' as int) + d) as char
  }

  /** The white space and line terminators that `trim` and `\s` recognise. */
  predicate IsSpace(c: char)
  {
    c == '\t' || c == '\n' || c == '\U{000B}' || c == '\U{000C}' || c == '\r' || c == ' '
    || c == '\U{00A0}' || c == '\U{1680}' || ('\U{2000}' <= c <= '\U{200A}')
    || c == '\U{2028}' || c == '\U{2029}' || c == '\U{202F}' || c == '\U{205F}'
    || c == '\U{3000}' || c == '\U{FEFF}'
  }

  predicate AllDigits(s: string) { forall k :: 0 <= k < |s| ==> IsDigit(s[k]) }

  /** The value of a string of decimal digits, most significant first. */
  function DigitsValue(s: string): (n: nat)
    requires AllDigits(s)
  {
    if s == [] then 0 else DigitsValue(s[..|s| - 1]) * 10 + DigitValue(s[|s| - 1])
  }

  /** The length of the longest prefix of `s` made of decimal digits. */
  function DigitPrefix(s: string): (k: nat)
    ensures k <= |s| && AllDigits(s[..k])
    ensures k < |s| ==> !IsDigit(s[k])
  {
    if s == [] || !IsDigit(s[0]) then 0
    else
      var k := 1 + DigitPrefix(s[1..]);
      assert s[..k] == [s[0]] + s[1..][..k - 1];
      k
  }

  function TrimStart(s: string): (t: string)
    ensures |t| <= |s| && t == s[|s| - |t|..]
    ensures t != [] ==> !IsSpace(t[0])
    ensures forall k :: 0 <= k < |s| - |t| ==> IsSpace(s[k])
  {
    if s != [] && IsSpace(s[0]) then TrimStart(s[1..]) else s
  }

  /**
   * `parseInt(s)` with no radix, for decimal text: leading white space is
   * skipped, one sign is accepted, and the longest run of digits after it is
   * read; text after that run is ignored. No digit at all gives NaN.
   */
  function ParseInt(s: string): Num
  {
    var t := TrimStart(s);
    var negative := t != [] && t[0] == '-';
    var body := if t != [] && (t[0] == '-' || t[0] == '+') then t[1..] else t;
    var k := DigitPrefix(body);
    if k == 0 then NaN
    else Int(if negative then -(DigitsValue(body[..k]) as int) else DigitsValue(body[..k]))
  }

  /** The text an integer-valued number field can hold: empty, or digits after an optional minus. */
  predicate IsIntegerText(s: string)
  {
    s == [] || (s[0] == '-' && |s| > 1 && AllDigits(s[1..])) || (s != [] && AllDigits(s))
  }

  /** `Number(s)` on the text of an integer-valued number field; `Number("")` is 0. */
  function ToNumber(s: string): (n: int)
    requires IsIntegerText(s)
  {
    if s == [] then 0
    else if s[0] == '-' then -(DigitsValue(s[1..]) as int)
    else DigitsValue(s)
  }

  /** Decimal digits of a natural number, without leading zeros (`"0"` for zero). */
  function ShowNat(n: nat): (s: string)
    ensures s != [] && AllDigits(s)
    decreases n
  {
    if n < 10 then [DigitChar(n)] else ShowNat(n / 10) + [DigitChar(n % 10)]
  }

  /** `String(n)` for an integer. */
  function ShowInt(n: int): (s: string)
    ensures IsIntegerText(s) && s != []
    ensures (n < 0) <==> s[0] == '-'
  {
    if n < 0 then "-" + ShowNat(-n) else ShowNat(n)
  }

  lemma {:induction false} ShowNatValue(n: nat)
    ensures DigitsValue(ShowNat(n)) == n
    decreases n
  {
    var s := ShowNat(n);
    if n >= 10 {
      ShowNatValue(n / 10);
      assert s[..|s| - 1] == ShowNat(n / 10);
    }
  }

  lemma {:induction false} DigitPrefixOfDigits(s: string)
    requires AllDigits(s)
    ensures DigitPrefix(s) == |s|
  {
    if s != [] {
      assert AllDigits(s[1..]) by { assert forall k :: 0 <= k < |s| - 1 ==> s[1..][k] == s[k + 1]; }
      DigitPrefixOfDigits(s[1..]);
    }
  }

  /** `parseInt` reads back what `String` writes. */
  lemma ParseIntShowInt(n: int)
    ensures ParseInt(ShowInt(n)) == Int(n)
  {
    var s := ShowInt(n);
    var digits := ShowNat(if n < 0 then -n else n);
    ShowNatValue(if n < 0 then -n else n);
    assert !IsSpace(s[0]);
    assert TrimStart(s) == s;
    var body := if n < 0 then s[1..] else s;
    assert body == digits;
    DigitPrefixOfDigits(body);
    assert body[..|body|] == body;
  }

  /** `Number` reads back what `String` writes. */
  lemma ToNumberShowInt(n: int)
    ensures IsIntegerText(ShowInt(n)) && ToNumber(ShowInt(n)) == n
  {
    var s := ShowInt(n);
    ShowNatValue(if n < 0 then -n else n);
    if n < 0 {
      assert s[1..] == ShowNat(-n);
    } else {
      assert s[0] != '-';
    }
  }

  /** `s.startsWith(prefix)`: the text begins with the prefix, that is, the prefix occurs at 0. */
  predicate StartsWith(s: string, prefix: string): (b: bool)
    ensures b <==> OccursAt(s, prefix, 0)
  {
    |prefix| <= |s| && s[..|prefix|] == prefix
  }

  predicate OccursAt(s: string, pattern: string, i: int)
  {
    0 <= i && i + |pattern| <= |s| && s[i..i + |pattern|] == pattern
  }

  /** An occurrence past the first position is an occurrence in the tail, one position earlier. */
  lemma OccursInTail(s: string, pattern: string)
    requires s != []
    ensures forall i :: 1 <= i ==> (OccursAt(s, pattern, i) <==> OccursAt(s[1..], pattern, i - 1))
  {
    forall i | 1 <= i ensures OccursAt(s, pattern, i) <==> OccursAt(s[1..], pattern, i - 1) {
      if i + |pattern| <= |s| {
        assert s[1..][i - 1..i - 1 + |pattern|] == s[i..i + |pattern|];
      }
    }
  }

  /** The first index at which `pattern` occurs in `s`, as `indexOf` finds it. */
  function IndexOf(s: string, pattern: string): (r: Option<nat>)
    ensures r.Some? ==> OccursAt(s, pattern, r.value)
    ensures r.Some? ==> forall i :: 0 <= i < r.value ==> !OccursAt(s, pattern, i)
    ensures r.None? ==> forall i :: !OccursAt(s, pattern, i)
  {
    if |pattern| > |s| then None
    else if s[..|pattern|] == pattern then Some(0)
    else
      OccursInTail(s, pattern);
      match IndexOf(s[1..], pattern)
      case None => None
      case Some(j) => Some(j + 1)
  }

  /** `s.replace(pattern, replacement)` with a string pattern: only the first occurrence is replaced. */
  function ReplaceFirst(s: string, pattern: string, replacement: string): (r: string)
    ensures replacement == pattern ==> r == s
  {
    match IndexOf(s, pattern)
    case None => s
    case Some(i) => s[..i] + replacement + s[i + |pattern|..]
  }
}
