/**
 * The few Java library behaviours the relay depends on when it stores and
 * reads back "addr:port" strings, compares circuit identifiers and opens
 * sockets: the range of an `int`, `Integer.toString`, `Integer.parseInt`,
 * `String.equalsIgnoreCase` and the port range `java.net.Socket` accepts.
 */
module JavaLang {
  import opened Wrappers

  const IntMin: int := -0x8000_0000
  const IntMax: int := 0x7FFF_FFFF

  /** A Java `int`. */
  type JInt = x: int | IntMin <= x <= IntMax

  predicate IsDigit(c: char) {
    '0' <= c <= '9'
  }

  predicate AllDigits(s: string) {
    forall i :: 0 <= i < |s| ==> IsDigit(s[i])
  }

  function DigitChar(d: nat): (c: char)
    requires d < 10
    ensures IsDigit(c) && c as int - '0' as int == d
  {
    (d + '0' as int) as char
  }

  /** The decimal digits of `n`, most significant first. */
  function Digits(n: nat): (s: string)
    ensures |s| > 0 && AllDigits(s)
    decreases n
  {
    if n < 10 then [DigitChar(n)] else Digits(n / 10) + [DigitChar(n % 10)]
  }

  /** The value of a string of decimal digits; leading zeros are allowed. */
  function DigitsValue(s: string): nat
    requires AllDigits(s)
  {
    if s == [] then 0
    else
      var init := s[..|s| - 1];
      assert forall i :: 0 <= i < |init| ==> init[i] == s[i];
      DigitsValue(init) * 10 + (s[|s| - 1] as int - '0' as int)
  }

  /** `Integer.toString(n)`: a minus sign for negative values, then the digits. */
  function IntToString(n: int): string {
    if n < 0 then "-" + Digits(-n) else Digits(n)
  }

  /**
   * `Integer.parseInt(s)`: an optional sign, at least one digit, and a value
   * inside the `int` range. `None` stands for the NumberFormatException Java
   * throws otherwise.
   */
  function ParseInt(s: string): Option<JInt> {
    if |s| == 0 then None
    else
      var body := if s[0] == '-' || s[0] == '+' then s[1..] else s;
      if |body| == 0 || !AllDigits(body) then None
      else
        var v: int := if s[0] == '-' then -(DigitsValue(body) as int) else DigitsValue(body);
        if IntMin <= v <= IntMax then Some(v) else None
  }

  lemma {:induction false} DigitsValueOfDigits(n: nat)
    ensures DigitsValue(Digits(n)) == n
    decreases n
  {
    if n >= 10 {
      DigitsValueOfDigits(n / 10);
      var s := Digits(n);
      assert s[..|s| - 1] == Digits(n / 10);
    }
  }

  /** Parsing what `Integer.toString` printed gives the same `int` back. */
  lemma ParseIntToString(n: JInt)
    ensures ParseInt(IntToString(n)) == Some(n)
  {
    var s := IntToString(n);
    if n < 0 {
      var m: nat := -(n as int);
      var d := Digits(m);
      DigitsValueOfDigits(m);
      assert s == "-" + d;
      assert s[0] == '-' && s[1..] == d;
    } else {
      var d := Digits(n);
      DigitsValueOfDigits(n);
      assert s == d && IsDigit(d[0]);
    }
  }

  /** A printed `int` holds no colon. */
  lemma IntToStringHasNoColon(n: int)
    ensures ':' !in IntToString(n)
  {
    var d := if n < 0 then Digits(-n) else Digits(n);
    assert forall i :: 0 <= i < |d| ==> d[i] != ':';
  }

  /**
   * The ports `new Socket(addr, port)` accepts; outside 0 .. 65535 it throws
   * IllegalArgumentException, which is not an IOException.
   */
  predicate SocketPort(port: int) {
    0 <= port <= 0xFFFF
  }

  /** `Character.toLowerCase` restricted to ASCII letters. */
  function ToLower(c: char): char {
    if 'A' <= c <= 'Z' then (c as int + 32) as char else c
  }

  /** `a.equalsIgnoreCase(b)`: equal lengths and equal letters up to case. */
  predicate EqualsIgnoreCase(a: string, b: string) {
    |a| == |b| && forall i :: 0 <= i < |a| ==> ToLower(a[i]) == ToLower(b[i])
  }

  /** `Integer.parseInt("70000")` is 70000: an `int`, but above the largest socket port. */
  lemma SeventyThousand()
    ensures ParseInt("70000") == Some(70000)
  {
    assert AllDigits("70000");
    assert DigitsValue("7") == 7;
    assert "70"[..1] == "7";
    assert DigitsValue("70") == 70;
    assert "700"[..2] == "70";
    assert DigitsValue("700") == 700;
    assert "7000"[..3] == "700";
    assert DigitsValue("7000") == 7000;
    assert "70000"[..4] == "7000";
    assert DigitsValue("70000") == 70000;
  }
}
