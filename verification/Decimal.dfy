/** Printing a signed 16-bit integer in decimal and parsing it back, with the
    overflow checks of the standard parser. */
module Decimal {
  import opened Net

  function Digit(d: nat): char
    requires d < 10
  {
    '0' + d as char
  }

  function Digits(n: nat): (s: string)
    ensures |s| > 0 && forall c :: c in s ==> '0' <= c <= '9'
  {
    if n < 10 then [Digit(n)] else Digits(n / 10) + [Digit(n % 10)]
  }

  function ToString(i: I16): (s: string)
    ensures |s| > 0 && ',' !in s
  {
    var n: int := i;
    if n < 0 then "-" + Digits(-n) else Digits(n)
  }

  /** Reads the remaining digits on top of `acc`, towards minus infinity for a
      negative number; None on a non-digit or as soon as the value overflows. */
  function ParseDigits(s: string, negative: bool, acc: I16): Option<I16> {
    if s == "" then Some(acc)
    else if !('0' <= s[0] <= '9') then None
    else
      var d := s[0] as int - '0' as int;
      var v := if negative then acc * 10 - d else acc * 10 + d;
      if -0x8000 <= v < 0x8000 then ParseDigits(s[1..], negative, v) else None
  }

  function Parse(s: string): Option<I16> {
    if s == "" then None
    else if s[0] == '-' || s[0] == '+' then
      if |s| == 1 then None else ParseDigits(s[1..], s[0] == '-', 0)
    else ParseDigits(s, false, 0)
  }

  // ---- The printed text by itself ----

  predicate OnlyDigits(s: string) {
    forall k :: 0 <= k < |s| ==> '0' <= s[k] <= '9'
  }

  predicate AllDigits(s: string) {
    s != "" && OnlyDigits(s)
  }

  /** The number that decimal digits denote. */
  function Value(s: string): nat
    requires OnlyDigits(s)
  {
    if s == "" then 0 else 10 * Value(s[..|s| - 1]) + (s[|s| - 1] as int - '0' as int)
  }

  lemma {:induction false} DigitsText(n: nat)
    ensures AllDigits(Digits(n)) && Value(Digits(n)) == n
    ensures Digits(n)[0] == '0' <==> n == 0
    ensures n == 0 ==> Digits(n) == "0"
  {
    if n >= 10 {
      DigitsText(n / 10);
      assert Digits(n)[..|Digits(n)| - 1] == Digits(n / 10);
    } else {
      assert Digits(n)[..0] == "";
    }
  }

  /** The text of a number is its plain decimal form: digits that denote its
      absolute value without a leading zero, after '-' for a negative number and
      after nothing otherwise. */
  lemma PrintsPlainly(i: I16)
    ensures var text := ToString(i);
      var digits := if i < 0 then text[1..] else text;
      && (i < 0 <==> text[0] == '-')
      && AllDigits(digits) && Value(digits) == (if i < 0 then 0 - i else i)
      && (digits[0] == '0' <==> i == 0) && (i == 0 ==> digits == "0")
  {
    var n: int := i;
    DigitsText(if n < 0 then -n else n);
    if n < 0 {
      assert ToString(i)[1..] == Digits(-n);
    } else {
      assert ToString(i)[0] in ToString(i);
    }
  }

  lemma {:induction false} ParseAppend(a: string, b: string, negative: bool, acc: I16)
    ensures ParseDigits(a + b, negative, acc) ==
      match ParseDigits(a, negative, acc)
      case None => None
      case Some(v) => ParseDigits(b, negative, v)
  {
    if a == "" {
      assert a + b == b;
    } else {
      assert (a + b)[1..] == a[1..] + b;
      if '0' <= a[0] <= '9' {
        var d := a[0] as int - '0' as int;
        var v := if negative then acc * 10 - d else acc * 10 + d;
        if -0x8000 <= v < 0x8000 {
          ParseAppend(a[1..], b, negative, v);
        }
      }
    }
  }

  lemma {:induction false} DigitsParse(n: nat, negative: bool)
    requires if negative then n <= 0x8000 else n < 0x8000
    ensures ParseDigits(Digits(n), negative, 0) == Some(if negative then 0 - n else n)
  {
    if n >= 10 {
      DigitsParse(n / 10, negative);
      ParseAppend(Digits(n / 10), [Digit(n % 10)], negative, 0);
      assert n == n / 10 * 10 + n % 10;
    }
  }

  lemma ParseLast(s: string, c: char, negative: bool)
    requires '0' <= c <= '9'
    ensures var d := c as int - '0' as int;
      ParseDigits(s + [c], negative, 0) ==
      match ParseDigits(s, negative, 0)
      case None => None
      case Some(v) =>
        var w := if negative then v * 10 - d else v * 10 + d;
        if -0x8000 <= w < 0x8000 then Some(w) else None
  {
    ParseAppend(s, [c], negative, 0);
  }

  /** The overflow checks along the way refuse exactly the numbers that do not
      fit in the end. */
  lemma {:induction false} ParsesInRange(s: string, negative: bool)
    requires OnlyDigits(s)
    ensures var v := if negative then 0 - Value(s) else Value(s);
      ParseDigits(s, negative, 0) == if -0x8000 <= v < 0x8000 then Some(v) else None
  {
    if s != "" {
      var n := |s| - 1;
      assert s == s[..n] + [s[n]];
      ParsesInRange(s[..n], negative);
      ParseLast(s[..n], s[n], negative);
    }
  }

  /** Anything but digits is refused. */
  lemma {:induction false} RefusesOthers(s: string, negative: bool, acc: I16)
    requires !OnlyDigits(s)
    ensures ParseDigits(s, negative, acc) == None
  {
    if '0' <= s[0] <= '9' {
      var d := s[0] as int - '0' as int;
      var v := if negative then acc * 10 - d else acc * 10 + d;
      assert !OnlyDigits(s[1..]) by {
        var k :| 0 <= k < |s| && !('0' <= s[k] <= '9');
        assert s[1..][k - 1] == s[k];
      }
      if -0x8000 <= v < 0x8000 {
        RefusesOthers(s[1..], negative, v);
      }
    }
  }

  /** Exactly what is parsed: digits after at most one sign that denote a
      number of 16 bits, which is the result. */
  lemma ParseExact(s: string)
    ensures var negative := s != "" && s[0] == '-';
      var digits := if s != "" && s[0] in {'-', '+'} then s[1..] else s;
      if !AllDigits(digits) then Parse(s) == None
      else
        var v := if negative then 0 - Value(digits) else Value(digits);
        Parse(s) == if -0x8000 <= v < 0x8000 then Some(v) else None
  {
    var signed := s != "" && s[0] in {'-', '+'};
    var digits := if signed then s[1..] else s;
    var negative := s != "" && s[0] == '-';
    if AllDigits(digits) {
      ParsesInRange(digits, negative);
    } else if digits != "" {
      RefusesOthers(digits, negative, 0);
    }
  }

  /** Parsing what was printed gives the number back, -32768 included. */
  lemma PrintParse(i: I16)
    ensures Parse(ToString(i)) == Some(i)
  {
    var n: int := i;
    if n < 0 {
      assert ("-" + Digits(-n))[1..] == Digits(-n);
      DigitsParse(-n, true);
    } else {
      DigitsParse(n, false);
    }
  }

  // ---- Lists of ids ----

  function Strings(ids: seq<I16>): (r: seq<string>)
    ensures |r| == |ids|
  {
    seq(|ids|, i requires 0 <= i < |ids| => ToString(ids[i]))
  }

  lemma StringsAppend(ids: seq<I16>, id: I16)
    ensures Strings(ids + [id]) == Strings(ids) + [ToString(id)]
  {
  }

  function Join(parts: seq<string>): string {
    if |parts| == 0 then ""
    else if |parts| == 1 then parts[0]
    else parts[0] + "," + Join(parts[1..])
  }

  /** The reply body that hands out `ids`. */
  function Body(ids: seq<I16>): string {
    "[" + Join(Strings(ids)) + "]"
  }

  /** One body, character by character. */
  lemma BodyText()
    ensures Body([123, -4, 0]) == "[123,-4,0]"
  {
    assert Digits(12) == Digits(1) + ['2'] == "12";
    assert Digits(123) == Digits(12) + ['3'] == "123";
    assert ToString(123) == "123" && ToString(-4) == "-4" && ToString(0) == "0";
    assert Strings([123, -4, 0]) == ["123", "-4", "0"];
    JoinThree("123", "-4", "0");
  }

  lemma JoinThree(a: string, b: string, c: string)
    ensures Join([a, b, c]) == a + "," + b + "," + c
  {
    assert [a, b, c][1..] == [b, c] && [b, c][1..] == [c];
    assert Join([b, c]) == b + "," + c;
    assert a + "," + (b + "," + c) == a + "," + b + "," + c;
  }

  /** Cuts a text at its commas. */
  function Split(s: string): (parts: seq<string>)
    ensures |parts| > 0
  {
    if s == "" then [""]
    else
      var rest := Split(s[1..]);
      if s[0] == ',' then [""] + rest else [[s[0]] + rest[0]] + rest[1..]
  }

  function ParseAll(parts: seq<string>): Option<seq<I16>> {
    if parts == [] then Some([])
    else
      match (Parse(parts[0]), ParseAll(parts[1..]))
      case (Some(i), Some(rest)) => Some([i] + rest)
      case _ => None
  }

  /** What a client reads out of a reply body. */
  function ParseBody(body: string): Option<seq<I16>> {
    if |body| < 2 || body[0] != '[' || body[|body| - 1] != ']' then None
    else ParseAll(Split(body[1..|body| - 1]))
  }

  lemma {:induction false} SplitAtFirst(a: string, rest: string)
    requires ',' !in a
    ensures Split(a) == [a]
    ensures Split(a + "," + rest) == [a] + Split(rest)
  {
    if a == "" {
      assert a + "," + rest == "," + rest;
    } else {
      SplitAtFirst(a[1..], rest);
      assert (a + "," + rest)[1..] == a[1..] + "," + rest;
      assert [a[0]] + a[1..] == a;
    }
  }

  lemma {:induction false} SplitJoin(parts: seq<string>)
    requires |parts| > 0 && forall p :: p in parts ==> ',' !in p
    ensures Split(Join(parts)) == parts
  {
    if |parts| == 1 {
      SplitAtFirst(parts[0], "");
    } else {
      SplitJoin(parts[1..]);
      SplitAtFirst(parts[0], Join(parts[1..]));
    }
  }

  lemma ParseOneMore(id: I16, ids: seq<I16>)
    requires ParseAll(Strings(ids)) == Some(ids)
    ensures ParseAll([ToString(id)] + Strings(ids)) == Some([id] + ids)
  {
    PrintParse(id);
    assert ([ToString(id)] + Strings(ids))[1..] == Strings(ids);
  }

  lemma {:induction false} ParseAllStrings(ids: seq<I16>)
    ensures ParseAll(Strings(ids)) == Some(ids)
  {
    if ids != [] {
      ParseAllStrings(ids[1..]);
      ParseOneMore(ids[0], ids[1..]);
      assert Strings(ids) == [ToString(ids[0])] + Strings(ids[1..]);
      assert ids == [ids[0]] + ids[1..];
    }
  }

  /** The reply body carries exactly the ids it was built from, in order. */
  lemma BodyRoundTrip(ids: seq<I16>)
    requires ids != []
    ensures ParseBody(Body(ids)) == Some(ids)
  {
    var text := Join(Strings(ids));
    assert Body(ids)[1..|Body(ids)| - 1] == text;
    SplitJoin(Strings(ids));
    ParseAllStrings(ids);
  }
}
