/** The "<ip-address>:<port>" strings that servers register, and how clients and primaries take them apart. */
module Addresses {
  import opened Numbers
  import opened Wrappers

  datatype Address = Address(ip: string, port: int)

  const SEPARATOR := ':'

  // ---------- Writing ----------

  function Digit(d: nat): char
    requires d < 10
  {
    '0' + d as char
  }

  /** A number as %d prints it. */
  function Decimal(n: nat): (s: string)
    ensures s != [] && SEPARATOR !in s
    ensures '0' <= s[0] <= '9'
  {
    if n < 10 then [Digit(n)] else Decimal(n / 10) + [Digit(n % 10)]
  }

  /** An address that sprintf turns into one string with one separator, and that has a real port. */
  predicate Registrable(a: Address) {
    a.ip != "" && SEPARATOR !in a.ip && a.port > 0
  }

  function FormatAddress(ip: string, port: nat): string {
    ip + [SEPARATOR] + Decimal(port)
  }

  // ---------- Reading ----------

  function SkipSeparators(s: string): (r: string)
    ensures |r| <= |s| && (r != [] ==> r[0] != SEPARATOR)
  {
    if s != [] && s[0] == SEPARATOR then SkipSeparators(s[1..]) else s
  }

  /** The characters before the first separator. */
  function Token(s: string): (t: string)
    ensures |t| <= |s|
  {
    if s == [] || s[0] == SEPARATOR then [] else [s[0]] + Token(s[1..])
  }

  datatype Split = Split(token: string, rest: string)

  /** strtok: None when only separators are left; rest is where the next call goes on. */
  function StrTok(s: string): Option<Split> {
    var t := SkipSeparators(s);
    if t == [] then None
    else
      var token := Token(t);
      Some(Split(token, if |token| == |t| then [] else t[|token| + 1..]))
  }

  predicate IsDigit(c: char) {
    '0' <= c <= '9'
  }

  predicate IsSpace(c: char) {
    c == ' ' || '\t' <= c <= '\r'
  }

  /** The number that the digits at the front of the string make up, after those that made up n. */
  function ReadDigits(s: string, n: int): int
    decreases |s|
  {
    if s == [] || !IsDigit(s[0]) then n else ReadDigits(s[1..], 10 * n + (s[0] - '0') as int)
  }

  function Atoi(s: string): int {
    if s == [] then 0
    else if IsSpace(s[0]) then Atoi(s[1..])
    else if s[0] == '-' then -ReadDigits(s[1..], 0)
    else if s[0] == '+' then ReadDigits(s[1..], 0)
    else ReadDigits(s, 0)
  }

  /** parse_address_port: None for a NULL string, a missing port, and a port that reads as 0. */
  function ParseAddressPort(s: Option<string>): Option<Address> {
    if s.None? then None
    else
      var ip := StrTok(s.value);
      var port := if ip.None? then None else StrTok(ip.value.rest);
      if port.None? || Atoi(port.value.token) == 0 then None
      else Some(Address(ip.value.token, Atoi(port.value.token)))
  }

  // ---------- Round trip ----------

  lemma {:induction false} TokenFound(t: string, rest: string)
    requires SEPARATOR !in t && (rest != [] ==> rest[0] == SEPARATOR)
    ensures Token(t + rest) == t
  {
    if t == [] {
      assert t + rest == rest;
    } else {
      assert t[0] in t && (t + rest)[1..] == t[1..] + rest;
      TokenFound(t[1..], rest);
    }
  }

  lemma {:induction false} DigitsRead(n: nat, m: nat, rest: string)
    ensures ReadDigits(Decimal(n) + rest, m) == ReadDigits(rest, Shifted(n, m))
  {
    var s := Decimal(n) + rest;
    if n < 10 {
      assert s[1..] == rest;
    } else {
      assert s == Decimal(n / 10) + ([Digit(n % 10)] + rest);
      DigitsRead(n / 10, m, [Digit(n % 10)] + rest);
      assert ([Digit(n % 10)] + rest)[1..] == rest;
    }
  }

  /** The characters themselves: the i-th from the end is the digit for the i-th power of 10. */
  lemma {:induction false} DecimalDigit(n: nat, i: nat)
    requires i < |Decimal(n)|
    ensures Power(10, i) > 0 &&
            Decimal(n)[|Decimal(n)| - 1 - i] == '0' + (Quotient(n, Power(10, i)) % 10) as char
  {
    hide Quotient;
    PowerPositive(10, i);
    QuotientBy(n);
    if i > 0 {
      DecimalDigit(n / 10, i - 1);
      DivideTwice(n, 10, Power(10, i - 1));
    }
  }

  /** There are as many characters as the number has digits, and at least one. */
  lemma {:induction false} DecimalLength(n: nat)
    ensures |Decimal(n)| >= 1 && n < Power(10, |Decimal(n)|)
    ensures |Decimal(n)| > 1 ==> n >= Power(10, |Decimal(n)| - 1)
  {
    assert Power(10, 1) == 10 * Power(10, 0);
    if n >= 10 {
      DecimalLength(n / 10);
      var k := |Decimal(n / 10)|;
      assert |Decimal(n)| == k + 1 && Power(10, k + 1) == 10 * Power(10, k);
      if k > 1 {
        assert Power(10, k) == 10 * Power(10, k - 1);
      }
    }
  }

  /** The number whose digits are those of m and then those of n. */
  function Shifted(n: nat, m: nat): nat {
    if n < 10 then 10 * m + n else 10 * Shifted(n / 10, m) + n % 10
  }

  lemma {:induction false} ShiftedZero(n: nat)
    ensures Shifted(n, 0) == n
  {
    if n >= 10 {
      ShiftedZero(n / 10);
    }
  }

  lemma AtoiDecimal(n: nat)
    ensures Atoi(Decimal(n)) == n
  {
    assert Decimal(n) + [] == Decimal(n);
    DigitsRead(n, 0, []);
    ShiftedZero(n);
  }

  /** What a server registers: its address, a colon, and its port in decimal. */
  lemma Registered(ip: string, port: nat)
    ensures FormatAddress(ip, port) == ip + ":" + Decimal(port)
  {
  }

  /** It is taken apart again into its address and its port, exactly when the port is not 0. */
  lemma AddressRoundTrip(ip: string, port: nat)
    requires ip != "" && ':' !in ip
    ensures ParseAddressPort(Some(ip + ":" + Decimal(port))) == Some(Address(ip, port)) <==> port != 0
    ensures ParseAddressPort(Some(FormatAddress(ip, port))) == Some(Address(ip, port)) <==> port != 0
    ensures port == 0 ==> ParseAddressPort(Some(ip + ":" + Decimal(port))) == None
  {
    hide Atoi;
    var tail := [SEPARATOR] + Decimal(port);
    assert FormatAddress(ip, port) == ip + tail == ip + ":" + Decimal(port);
    assert ip[0] in ip;
    TokenFound(ip, tail);
    assert (ip + tail)[|ip| + 1..] == Decimal(port);
    assert Decimal(port)[0] in Decimal(port);
    TokenFound(Decimal(port), []);
    assert Decimal(port) + [] == Decimal(port);
    AtoiDecimal(port);
  }

  /** No string, and a string without a port, are refused. */
  lemma MissingPort(ip: string)
    requires ':' !in ip
    ensures ParseAddressPort(None) == None
    ensures ParseAddressPort(Some(ip)) == None && ParseAddressPort(Some(ip + ":")) == None
  {
    hide Atoi;
    if ip != "" {
      assert ip[0] in ip;
      TokenFound(ip, "");
      TokenFound(ip, ":");
      assert ip + "" == ip && (ip + ":")[|ip| + 1..] == "";
    } else {
      assert ip + ":" == ":";
    }
  }
}
