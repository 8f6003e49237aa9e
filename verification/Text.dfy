/** The string functions the configuration file goes through: Go's trimming, line scanning
    and decimal conversion. */
module Text {
  import opened Int64

  datatype Option<T> = None | Some(value: T)

  /** `unicode.IsSpace`. */
  predicate IsSpace(c: char) {
    '\t' <= c <= '\r' || c == ' ' || c == '\U{85}' || c == '\U{A0}' || c == '\U{1680}'
    || '\U{2000}' <= c <= '\U{200A}' || c == '\U{2028}' || c == '\U{2029}' || c == '\U{202F}'
    || c == '\U{205F}' || c == '\U{3000}'
  }

  /** Go's list for the first 256 characters. */
  lemma LatinBlanks(c: char)
    requires c < '\U{100}'
    ensures IsSpace(c) <==> c in ['\t', '\n', '\U{B}', '\U{C}', '\r', ' ', '\U{85}', '\U{A0}']
  {
  }

  predicate IsQuote(c: char) {
    c == '"' || c == '\''
  }

  function TrimLeft(p: char -> bool, s: string): string {
    if s != [] && p(s[0]) then TrimLeft(p, s[1..]) else s
  }

  function TrimRight(p: char -> bool, s: string): string {
    if s != [] && p(s[|s| - 1]) then TrimRight(p, s[..|s| - 1]) else s
  }

  function Trim(p: char -> bool, s: string): string {
    TrimRight(p, TrimLeft(p, s))
  }

  /** What is trimmed is all of the kind, and what is left has none of it at its ends. */
  lemma TrimExactly(p: char -> bool, s: string) returns (left: string, right: string)
    ensures s == left + Trim(p, s) + right
    ensures (forall c :: c in left ==> p(c)) && (forall c :: c in right ==> p(c))
    ensures var t := Trim(p, s); t == [] || (!p(t[0]) && !p(t[|t| - 1]))
  {
    left := TrimLeftExactly(p, s);
    right := TrimRightExactly(p, TrimLeft(p, s));
  }

  lemma {:induction false} TrimLeftExactly(p: char -> bool, s: string) returns (left: string)
    ensures s == left + TrimLeft(p, s) && forall c :: c in left ==> p(c)
    ensures TrimLeft(p, s) == [] || !p(TrimLeft(p, s)[0])
  {
    if s != [] && p(s[0]) {
      var rest := TrimLeftExactly(p, s[1..]);
      var kept := TrimLeft(p, s[1..]);
      left := [s[0]] + rest;
      assert s == [s[0]] + s[1..] && s[1..] == rest + kept;
      assert [s[0]] + (rest + kept) == left + kept;
    } else {
      left := [];
    }
  }

  lemma {:induction false} TrimRightExactly(p: char -> bool, s: string) returns (right: string)
    ensures s == TrimRight(p, s) + right && forall c :: c in right ==> p(c)
    ensures TrimRight(p, s) == [] || (TrimRight(p, s)[0] == s[0] && !p(TrimRight(p, s)[|TrimRight(p, s)| - 1]))
  {
    if s != [] && p(s[|s| - 1]) {
      var rest := TrimRightExactly(p, s[..|s| - 1]);
      right := rest + [s[|s| - 1]];
      assert s == s[..|s| - 1] + [s[|s| - 1]];
    } else {
      right := [];
    }
  }

  function TrimSpace(s: string): string {
    Trim(IsSpace, s)
  }

  /** What a value becomes on its way through the file. */
  function Cleaned(v: string): string {
    Trim(IsQuote, TrimSpace(v))
  }

  lemma {:induction false} TrimLeftKeepsOnly(p: char -> bool, s: string)
    ensures forall c :: c in TrimLeft(p, s) ==> c in s
  {
    if s != [] && p(s[0]) {
      TrimLeftKeepsOnly(p, s[1..]);
    }
  }

  lemma {:induction false} TrimRightKeepsOnly(p: char -> bool, s: string)
    ensures forall c :: c in TrimRight(p, s) ==> c in s
  {
    if s != [] && p(s[|s| - 1]) {
      TrimRightKeepsOnly(p, s[..|s| - 1]);
    }
  }

  lemma CleanedKeepsOnly(v: string)
    ensures forall c :: c in Cleaned(v) ==> c in v
  {
    TrimLeftKeepsOnly(IsSpace, v);
    TrimRightKeepsOnly(IsSpace, TrimLeft(IsSpace, v));
    TrimLeftKeepsOnly(IsQuote, TrimSpace(v));
    TrimRightKeepsOnly(IsQuote, TrimLeft(IsQuote, TrimSpace(v)));
  }

  /** Trimming on the right reaches into a prefix only if the rest is trimmed away. */
  lemma {:induction false} TrimRightOfConcat(p: char -> bool, a: string, b: string)
    ensures TrimRight(p, a + b) == if TrimRight(p, b) == [] then TrimRight(p, a) else a + TrimRight(p, b)
  {
    if b == [] {
      assert a + b == a;
    } else {
      var last := |b| - 1;
      assert (a + b)[..|a + b| - 1] == a + b[..last] && (a + b)[|a + b| - 1] == b[last];
      if p(b[last]) {
        TrimRightOfConcat(p, a, b[..last]);
      }
    }
  }

  lemma {:induction false} TrimRightIdempotent(p: char -> bool, s: string)
    ensures TrimRight(p, TrimRight(p, s)) == TrimRight(p, s)
  {
    if s != [] && p(s[|s| - 1]) {
      TrimRightIdempotent(p, s[..|s| - 1]);
    }
  }

  /** Left and right trimming commute. */
  lemma {:induction false} TrimsCommute(p: char -> bool, s: string)
    ensures TrimRight(p, TrimLeft(p, s)) == TrimLeft(p, TrimRight(p, s))
  {
    if s != [] && p(s[0]) {
      TrimsCommute(p, s[1..]);
      assert s == [s[0]] + s[1..];
      TrimRightOfConcat(p, [s[0]], s[1..]);
    } else if s != [] {
      assert s == [s[0]] + s[1..];
      TrimRightOfConcat(p, [s[0]], s[1..]);
    }
  }

  // ---------- Lines ----------

  /** The scanner gives up at a line whose bytes do not fit its buffer with the newline. */
  const SCAN_LIMIT := 65536

  function Utf8Length(c: char): nat {
    if c < '\U{80}' then 1 else if c < '\U{800}' then 2 else if c < '\U{10000}' then 3 else 4
  }

  /** The values that fit the payload of a UTF-8 form of `n` bytes. */
  function Payload(n: nat): nat
    requires 1 <= n <= 4
  {
    if n == 1 then 0x80
    else if n == 2 then 0x20 * 0x40
    else if n == 3 then 0x10 * 0x40 * 0x40
    else 0x8 * 0x40 * 0x40 * 0x40
  }

  /** A character takes the shortest form that holds it. */
  lemma ShortestForm(c: char, n: nat)
    requires 1 <= n <= 4
    ensures (c as int) < Payload(n) <==> n >= Utf8Length(c)
  {
  }

  function Bytes(s: string): nat {
    if s == [] then 0 else Utf8Length(s[0]) + Bytes(s[1..])
  }

  predicate TooLong(line: string) {
    Bytes(line) >= SCAN_LIMIT
  }

  function LineEnd(text: string): (i: nat)
    ensures i <= |text| && (i < |text| ==> text[i] == '\n')
    ensures forall j :: 0 <= j < i ==> text[j] != '\n'
  {
    if text == [] || text[0] == '\n' then 0 else 1 + LineEnd(text[1..])
  }

  function DropReturn(line: string): string {
    if line != [] && line[|line| - 1] == '\r' then line[..|line| - 1] else line
  }

  /** `bufio.Scanner` over lines. */
  function ScanLines(text: string): seq<string>
    decreases |text|
  {
    if text == [] then []
    else
      var i := LineEnd(text);
      if TooLong(text[..i]) then []
      else [DropReturn(text[..i])] + ScanLines(if i < |text| then text[i + 1..] else [])
  }

  function Unlines(lines: seq<string>): string {
    if lines == [] then "" else lines[0] + "\n" + Unlines(lines[1..])
  }

  /** The lines a scanner shows of a text written line by line. */
  function Shown(lines: seq<string>): seq<string> {
    if lines == [] || TooLong(lines[0]) then [] else [DropReturn(lines[0])] + Shown(lines[1..])
  }

  lemma {:induction false} ScanOfUnlines(lines: seq<string>)
    requires forall i :: 0 <= i < |lines| ==> '\n' !in lines[i]
    ensures ScanLines(Unlines(lines)) == Shown(lines)
  {
    if lines != [] {
      var text, n := Unlines(lines), |lines[0]|;
      ScanOfUnlines(lines[1..]);
      assert text[..n] == lines[0] && text[n] == '\n' && text[n + 1..] == Unlines(lines[1..]);
      assert forall j :: 0 <= j < n ==> text[j] == lines[0][j];
      assert LineEnd(text) == n;
    }
  }

  /** A line that ends as on Windows is the same line. */
  lemma CarriageReturnIsDropped(line: string)
    requires '\n' !in line && !TooLong(line + "\r")
    ensures ScanLines(line + "\r\n") == [line]
  {
    var lines := [line + "\r"];
    assert lines[1..] == [];
    assert Unlines(lines) == line + "\r" + "\n" + "" == line + "\r\n";
    ScanOfUnlines(lines);
    assert Shown(lines) == [DropReturn(line + "\r")] + Shown(lines[1..]);
    assert (line + "\r")[..|line|] == line;
  }

  lemma {:induction false} ScannedLinesHaveNoNewline(text: string)
    ensures forall line :: line in ScanLines(text) ==> '\n' !in line
    decreases |text|
  {
    if text != [] {
      var i := LineEnd(text);
      var line, rest := text[..i], if i < |text| then text[i + 1..] else [];
      ScannedLinesHaveNoNewline(rest);
      assert '\n' !in line && '\n' !in DropReturn(line);
    }
  }

  // ---------- Decimals ----------

  function DigitChar(d: nat): (c: char)
    requires d < 10
    ensures IsDigit(c) && DigitValue(c) == d
  {
    "0123456789"[d]
  }

  predicate IsDigit(c: char) {
    '0' <= c <= '9'
  }

  predicate AllDigits(s: string) {
    forall i :: 0 <= i < |s| ==> IsDigit(s[i])
  }

  function DigitValue(c: char): (d: nat)
    requires IsDigit(c)
    ensures d < 10
  {
    (c as int) - ('0' as int)
  }

  function Digits(n: nat): (s: string)
    ensures s != [] && AllDigits(s)
  {
    if n < 10 then [DigitChar(n)] else Digits(n / 10) + [DigitChar(n % 10)]
  }

  function Abs(n: int): nat {
    if n < 0 then 0 - n else n
  }

  /** `%d`. */
  function Itoa(n: int): string {
    if n < 0 then "-" + Digits(Abs(n)) else Digits(Abs(n))
  }

  function DigitsValue(s: string): nat
    requires AllDigits(s)
  {
    if s == [] then 0
    else
      assert IsDigit(s[|s| - 1]);
      DigitsValue(s[..|s| - 1]) * 10 + DigitValue(s[|s| - 1])
  }

  /** `strconv.Atoi`: an optional sign, at least one digit, and a value in range. */
  function Atoi(s: string): Option<int64> {
    var digits := if s != [] && (s[0] == '-' || s[0] == '+') then s[1..] else s;
    if digits == [] || !AllDigits(digits) then None
    else
      var n: int := if s[0] == '-' then 0 - DigitsValue(digits) else DigitsValue(digits);
      if MIN <= n <= MAX then Some(n) else None
  }

  lemma {:induction false} ValueOfDigits(n: nat)
    ensures DigitsValue(Digits(n)) == n
  {
    if n >= 10 {
      ValueOfDigits(n / 10);
      assert Digits(n)[..|Digits(n)| - 1] == Digits(n / 10);
    }
  }

  lemma AtoiOfPrinted(n: int64, digits: string, s: string)
    requires digits != [] && AllDigits(digits) && DigitsValue(digits) == Abs(n)
    requires s == if n < 0 then "-" + digits else digits
    ensures Atoi(s) == Some(n)
  {
    assert IsDigit(digits[0]);
    if n < 0 {
      assert s[1..] == digits;
    }
  }

  lemma AtoiOfItoa(n: int64)
    ensures Atoi(Itoa(n)) == Some(n)
  {
    ValueOfDigits(Abs(n));
    AtoiOfPrinted(n, Digits(Abs(n)), Itoa(n));
  }

  function PowerOfTen(k: nat): nat {
    if k == 0 then 1 else 10 * PowerOfTen(k - 1)
  }

  lemma {:induction false} DigitsAreFew(n: nat, k: nat)
    requires k >= 1 && n < PowerOfTen(k)
    ensures |Digits(n)| <= k
  {
    if n >= 10 {
      assert k > 1;
      DigitsAreFew(n / 10, k - 1);
    }
  }

  lemma {:induction false} BytesAtMost(s: string)
    ensures Bytes(s) <= 4 * |s|
  {
    if s != [] {
      BytesAtMost(s[1..]);
    }
  }

  /** A printed number is a clean value: short, one line, nothing to trim. */
  lemma ItoaIsPlain(n: int64)
    ensures var s := Itoa(n); s != [] && |s| <= 20 && '\n' !in s && Cleaned(s) == s && TrimSpace(s) == s
  {
    var s := Itoa(n);
    TenTo19();
    DigitsAreFew(Abs(n), 19);
    forall i | 0 <= i < |s| ensures IsDigit(s[i]) || s[i] == '-' {
      assert n < 0 && i > 0 ==> s[i] == Digits(Abs(n))[i - 1];
    }
    NumeralIsPlain(s);
  }

  lemma NumeralIsPlain(s: string)
    requires s != [] && forall i :: 0 <= i < |s| ==> IsDigit(s[i]) || s[i] == '-'
    ensures '\n' !in s && Cleaned(s) == s && TrimSpace(s) == s
  {
    NothingToTrim(IsSpace, s);
    NothingToTrim(IsQuote, s);
  }

  lemma NothingToTrim(p: char -> bool, s: string)
    requires s != [] && !p(s[0]) && !p(s[|s| - 1])
    ensures Trim(p, s) == s
  {
  }

  lemma TenTo19()
    ensures PowerOfTen(19) > MAX + 1
  {
    assert PowerOfTen(4) == 10_000;
    assert PowerOfTen(8) == 10_000 * PowerOfTen(4);
    assert PowerOfTen(12) == 10_000 * PowerOfTen(8);
    assert PowerOfTen(16) == 10_000 * PowerOfTen(12);
    assert PowerOfTen(19) == 1000 * PowerOfTen(16);
  }
}
