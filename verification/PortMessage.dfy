/** The text of the port handshake: printing and scanning "PORT %d". */
module PortMessage {
  import opened Common

  predicate IsDigit(c: char) {
    '0' <= c <= '9'
  }

  predicate IsSpace(c: char) {
    c == ' ' || '\t' <= c <= '\r'
  }

  function Digits(n: nat): (s: string)
    ensures s != [] && forall c :: c in s ==> IsDigit(c)
  {
    var last := [(n % 10) as char + '0'];
    if n < 10 then last else Digits(n / 10) + last
  }

  /** snprintf(..., "PORT %d", port) */
  function Print(port: nat): string {
    "PORT " + Digits(port)
  }

  function SkipSpaces(s: string): string {
    if s != [] && IsSpace(s[0]) then SkipSpaces(s[1..]) else s
  }

  /** The longest prefix of digits. */
  function DigitPrefix(s: string): (d: string)
    ensures forall c :: c in d ==> IsDigit(c)
  {
    if s != [] && IsDigit(s[0]) then [s[0]] + DigitPrefix(s[1..]) else []
  }

  function Value(s: string): nat
    requires forall c :: c in s ==> IsDigit(c)
  {
    if s == [] then 0
    else
      var last := s[|s| - 1];
      assert last in s && IsDigit(last);
      Value(s[..|s| - 1]) * 10 + (last as int - '0' as int)
  }

  /** The %d conversion: blanks, an optional sign, at least one digit. */
  function ScanInt(s: string): Option<int> {
    var t := SkipSpaces(s);
    var signed := t != [] && (t[0] == '-' || t[0] == '+');
    var digits := DigitPrefix(if signed then t[1..] else t);
    if digits == [] then None
    else if signed && t[0] == '-' then Some(0 - Value(digits) as int)
    else Some(Value(digits))
  }

  /** sscanf(s, "PORT %d", &port): None unless exactly one conversion succeeds. */
  function Scan(s: string): Option<int> {
    if |s| < 4 || s[..4] != "PORT" then None else ScanInt(SkipSpaces(s[4..]))
  }

  lemma {:induction false} ValueOfDigits(n: nat)
    ensures Value(Digits(n)) == n
  {
    if n >= 10 {
      ValueOfDigits(n / 10);
      assert Digits(n)[..|Digits(n)| - 1] == Digits(n / 10);
    }
  }

  lemma {:induction false} DigitPrefixOf(d: string, rest: string)
    requires (forall c :: c in d ==> IsDigit(c)) && (rest == [] || !IsDigit(rest[0]))
    ensures DigitPrefix(d + rest) == d
  {
    if d != [] {
      assert (d + rest)[1..] == d[1..] + rest;
      DigitPrefixOf(d[1..], rest);
    } else {
      assert d + rest == rest;
    }
  }

  /** Scanning undoes printing, whatever follows the digits in the receiver's buffer. */
  lemma ScanUndoesPrint(port: nat, rest: string)
    requires rest == [] || !IsDigit(rest[0])
    ensures Scan(Print(port) + rest) == Some(port)
  {
    var s := Print(port) + rest;
    var d := Digits(port);
    assert s[..4] == "PORT";
    assert s[4..] == [' '] + (d + rest);
    assert s[4..][1..] == d + rest;
    assert d[0] in d && (d + rest)[0] == d[0];
    assert SkipSpaces(d + rest) == d + rest;
    DigitPrefixOf(d, rest);
    ValueOfDigits(port);
  }

  lemma {:induction false} BlanksSkipped(blanks: string, s: string)
    requires forall c :: c in blanks ==> c == ' ' || 9 <= c as int <= 13
    requires s != [] && !IsSpace(s[0])
    ensures SkipSpaces(blanks + s) == s
  {
    if blanks == [] {
      assert blanks + s == s;
    } else {
      assert blanks[0] in blanks && (blanks + s)[1..] == blanks[1..] + s;
      assert forall c :: c in blanks[1..] ==> c in blanks;
      BlanksSkipped(blanks[1..], s);
    }
  }

  /** What else the conversion reads: any blanks, a sign, leading zeros. */
  lemma ScanReads(blanks: string, sign: string, d: string, rest: string)
    requires (forall c :: c in blanks ==> c == ' ' || 9 <= c as int <= 13) && sign in ["", "+", "-"]
    requires d != [] && (forall c :: c in d ==> IsDigit(c)) && (rest == [] || !IsDigit(rest[0]))
    ensures Scan("PORT" + (blanks + (sign + (d + rest)))) == Some(if sign == "-" then 0 - Value(d) as int else Value(d))
  {
    var number := sign + (d + rest);
    var s := "PORT" + (blanks + number);
    assert s[..4] == "PORT" && s[4..] == blanks + number;
    assert d[0] in d && (d + rest)[0] == d[0];
    assert number[0] == if sign == "" then d[0] else sign[0];
    BlanksSkipped(blanks, number);
    assert SkipSpaces(number) == number;
    DigitPrefixOf(d, rest);
    assert sign != "" ==> number[1..] == d + rest;
    assert sign == "" ==> number == d + rest;
  }

  /** Anything scanned begins with "PORT" and has a digit behind that. */
  lemma ScanNeeds(s: string)
    ensures Scan(s).Some? ==> |s| > 4 && s[..4] == "PORT" && exists k :: 4 <= k < |s| && IsDigit(s[k])
  {
    if Scan(s).Some? {
      var t := SkipSpaces(SkipSpaces(s[4..]));
      SkippedIsSuffix(s[4..]);
      SkippedIsSuffix(SkipSpaces(s[4..]));
      var k := if t[0] == '-' || t[0] == '+' then 1 else 0;
      assert IsDigit(t[k]);
      var from := |s| - |t|;
      assert t == s[from..] && s[from + k] == t[k];
    }
  }

  lemma {:induction false} SkippedIsSuffix(s: string)
    ensures |SkipSpaces(s)| <= |s| && SkipSpaces(s) == s[|s| - |SkipSpaces(s)|..]
  {
    if s != [] && IsSpace(s[0]) {
      SkippedIsSuffix(s[1..]);
    }
  }

  /** What is sent for the smallest and the largest port. */
  lemma PortsAsText()
    ensures Print(1) == "PORT 1" && Print(65535) == "PORT 65535"
  {
    assert Digits(6) == "6" && Digits(65) == "65" && Digits(655) == "655" && Digits(6553) == "6553";
  }
}
