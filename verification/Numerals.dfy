/** Numbers as `printf` writes and `atoi` and `strtoul` read them. */
module Numerals {

  predicate IsSpace(c: char) {
    c == ' ' || c == '\t' || c == '\n' || c == '\r' || c == (11 as char) || c == (12 as char)
  }

  /** The value of a digit, at least the base if the character is none. */
  function Value(c: char): nat {
    if '0' <= c <= '9' then c as int - '0' as int
    else if 'a' <= c <= 'f' then c as int - 'a' as int + 10
    else if 'A' <= c <= 'F' then c as int - 'A' as int + 10
    else 99
  }

  function Digit(d: nat): (c: char)
    requires d < 16
    ensures Value(c) == d && !IsSpace(c) && c != '-' && c != '+' && c != 'x' && c != ':' && c != ','
  {
    if d < 10 then ('0' as int + d) as char else ('a' as int + d - 10) as char
  }

  /** `%d` and `%x` for a number that is not negative. */
  function Digits(n: nat, base: nat): (s: string)
    requires 2 <= base <= 16
    ensures |s| > 0
  {
    if n < base then [Digit(n)] else Digits(n / base, base) + [Digit(n % base)]
  }

  /** Reads digits up to the first character that is none. */
  function ReadDigits(acc: nat, s: string, base: nat): nat
    decreases |s|
  {
    if s == "" || Value(s[0]) >= base then acc else ReadDigits(acc * base + Value(s[0]), s[1..], base)
  }

  lemma {:induction false} DigitsRead(n: nat, rest: string, base: nat)
    requires 2 <= base <= 16
    ensures ReadDigits(0, Digits(n, base) + rest, base) == ReadDigits(n, rest, base)
    decreases n
  {
    hide Digit, Value;
    if n < base {
      OneDigit(0, n, rest, base);
      assert Digits(n, base) == [Digit(n)] && 0 * base + n == n;
    } else {
      var q, r := n / base, n % base;
      Quotient(n, base);
      assert Digits(n, base) + rest == Digits(q, base) + ([Digit(r)] + rest);
      hide Digits;
      DigitsRead(q, [Digit(r)] + rest, base);
      OneDigit(q, r, rest, base);
    }
  }

  lemma Quotient(n: nat, base: nat)
    requires 2 <= base <= n
    ensures n / base * base + n % base == n && n / base < n
  {
    assert n / base * base + n % base == n;
  }

  lemma OneDigit(acc: nat, d: nat, rest: string, base: nat)
    requires d < base <= 16
    ensures ReadDigits(acc, [Digit(d)] + rest, base) == ReadDigits(acc * base + d, rest, base)
  {
    hide Digit, Value;
    assert ([Digit(d)] + rest)[0] == Digit(d) && ([Digit(d)] + rest)[1..] == rest;
  }

  /** No digit is a blank, a sign or the `x` of a hexadecimal prefix. */
  ghost predicate Plain(s: string) {
    forall i :: 0 <= i < |s| ==> !IsSpace(s[i]) && s[i] != '-' && s[i] != '+' && s[i] != 'x' && s[i] != ':' && s[i] != ','
  }

  lemma {:induction false} DigitsPlain(n: nat, base: nat)
    requires 2 <= base <= 16
    ensures Plain(Digits(n, base))
    decreases n
  {
    hide Digit, IsSpace;
    if n >= base {
      Quotient(n, base);
      DigitsPlain(n / base, base);
    }
  }

  // ---------------------------------------------------------------- atoi and strtoul

  function SkipSpace(s: string): string {
    if s != "" && IsSpace(s[0]) then SkipSpace(s[1..]) else s
  }

  function Atoi(s: string): int {
    var t := SkipSpace(s);
    if t != "" && t[0] == '-' then -(ReadDigits(0, t[1..], 10) as int)
    else if t != "" && t[0] == '+' then ReadDigits(0, t[1..], 10)
    else ReadDigits(0, t, 10)
  }

  /** `strtoul(s, NULL, 16)`. */
  function Strtoul(s: string): nat {
    var t := SkipSpace(s);
    if |t| >= 2 && t[0] == '0' && (t[1] == 'x' || t[1] == 'X') then ReadDigits(0, t[2..], 16)
    else ReadDigits(0, t, 16)
  }

  /** `%d` */
  function Decimal(n: int): (s: string)
    ensures |s| > 0
  {
    if n < 0 then "-" + Digits(-n, 10) else Digits(n, 10)
  }

  /** `%p`: the null pointer prints as `(nil)`. */
  function Pointer(p: nat): (s: string)
    ensures |s| > 0
  {
    if p == 0 then "(nil)" else "0x" + Digits(p, 16)
  }

  function Blanks(n: nat): string {
    seq(n, _ => ' ')
  }

  lemma {:induction false} SkipBlanks(n: nat, s: string)
    requires s != "" && !IsSpace(s[0])
    ensures SkipSpace(Blanks(n) + s) == s
    decreases n
  {
    if n == 0 {
      assert Blanks(0) + s == s;
    } else {
      assert (Blanks(n) + s)[1..] == Blanks(n - 1) + s;
      SkipBlanks(n - 1, s);
    }
  }

  /** A printed number comes back, whatever stood before it and whatever ends it. */
  lemma AtoiReads(n: int, blanks: nat, end: string)
    requires end == "" || Value(end[0]) >= 10
    ensures Atoi(Blanks(blanks) + Decimal(n) + end) == n
  {
    hide Digits, Value, SkipSpace;
    var m: nat := if n < 0 then -n else n;
    var digits := Digits(m, 10);
    DigitsPlain(m, 10);
    DigitsRead(m, end, 10);
    NoMoreDigits(m, end);
    var text := Decimal(n) + end;
    assert Blanks(blanks) + Decimal(n) + end == Blanks(blanks) + text;
    if n < 0 {
      assert text[0] == '-' && text[1..] == digits + end;
    } else {
      assert text == digits + end && text[0] == digits[0];
    }
    SkipBlanks(blanks, text);
  }

  lemma NoMoreDigits(n: nat, end: string)
    requires end == "" || Value(end[0]) >= 10
    ensures ReadDigits(n, end, 10) == n
  {
  }

  lemma StrtoulReads(p: nat, blanks: nat, end: string)
    requires end == "" || end == "\n"
    ensures Strtoul(Blanks(blanks) + Pointer(p) + end) == p
  {
    var text := Pointer(p) + end;
    assert Blanks(blanks) + Pointer(p) + end == Blanks(blanks) + text;
    if p == 0 {
      assert text[0] == '(';
    } else {
      DigitsRead(p, end, 16);
      assert text[0] == '0' && text[1] == 'x' && text[2..] == Digits(p, 16) + end;
    }
    SkipBlanks(blanks, text);
  }

  /** The numerals themselves, as `%d` and `%p` write them. */
  lemma WrittenNumerals(d: nat)
    requires d < 16
    ensures [Digit(d)] == "0123456789abcdef"[d..d + 1]
    ensures Decimal(0) == "0" && Decimal(-10) == "-10" && Decimal(907) == "907"
    ensures Pointer(0) == "(nil)" && Pointer(0xc0a) == "0xc0a"
  {
    assert "0123456789abcdef"[d] == Digit(d);
    assert Digits(90, 10) == "90";
    assert Digits(0xc0, 16) == "c0";
  }
}
