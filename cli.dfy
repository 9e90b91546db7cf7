/** `get_port`: the listening port chosen from the command line, with the C
    library's `strtoul` written out for base 10. */
module Cli {
  import opened CText

  const DefaultPort: nat := 25565
  const MaxPort: nat := 65535
  /** `ULONG_MAX` on an LP64 platform. */
  const ULongMax: nat := 0xFFFF_FFFF_FFFF_FFFF

  /** What `get_port` does: return a port, or `exit(EXIT_FAILURE)`. */
  datatype PortResult = Port(port: nat) | ExitFailure

  /** `strtoul(s, &endptr, 10)`: the value and the index `endptr` points at. */
  datatype Conversion = Conversion(value: nat, end: nat)

  /** `isspace` in the C locale. */
  predicate IsSpace(c: byte)
  {
    c == ' ' as int || ('\t' as int <= c <= '\r' as int)
  }

  predicate IsDigit(c: byte) { '0' as int <= c <= '9' as int }

  function SkipSpaces(s: seq<byte>, i: nat): (j: nat)
    requires i <= |s|
    ensures i <= j <= |s|
    ensures forall k | i <= k < j :: IsSpace(s[k])
    ensures j == |s| || !IsSpace(s[j])
    decreases |s| - i
  {
    if i < |s| && IsSpace(s[i]) then SkipSpaces(s, i + 1) else i
  }

  function DigitsEnd(s: seq<byte>, i: nat): (j: nat)
    requires i <= |s|
    ensures i <= j <= |s|
    ensures forall k | i <= k < j :: IsDigit(s[k])
    ensures j == |s| || !IsDigit(s[j])
    decreases |s| - i
  {
    if i < |s| && IsDigit(s[i]) then DigitsEnd(s, i + 1) else i
  }

  /** The number a run of decimal digits denotes. */
  function DigitsValue(d: seq<byte>): nat
  {
    if d == [] then 0
    else 10 * DigitsValue(d[..|d| - 1]) + (if IsDigit(d[|d| - 1]) then d[|d| - 1] - '0' as int else 0)
  }

  /** Leading white space, an optional sign, then digits; no digits means no
      conversion (`endptr` is `s` and the value 0); a value out of range is
      `ULONG_MAX`; a minus sign negates in unsigned arithmetic. */
  function StrToUL(s: seq<byte>): (c: Conversion)
    ensures c.end <= |s| && c.value <= ULongMax
    ensures c.end == 0 ==> c.value == 0
    ensures c.end > 0 ==> IsDigit(s[c.end - 1]) && (c.end == |s| || !IsDigit(s[c.end]))
  {
    var i := SkipSpaces(s, 0);
    var negative := i < |s| && s[i] == '-' as int;
    var j := if i < |s| && (s[i] == '+' as int || s[i] == '-' as int) then i + 1 else i;
    var k := DigitsEnd(s, j);
    if k == j then Conversion(0, 0)
    else
      var magnitude := DigitsValue(s[j..k]);
      if magnitude > ULongMax then Conversion(ULongMax, k)
      else if negative then Conversion((ULongMax + 1 - magnitude) % (ULongMax + 1), k)
      else Conversion(magnitude, k)
  }

  /** `get_port(argc, argv)` with `argc == |argv|`; the program writes
      `strtoul(argv[1], ...)`, which converts the option itself. */
  function GetPort(argv: seq<CString>): (r: PortResult)
    requires 1 <= |argv|
    ensures |argv| == 1 ==> r == Port(DefaultPort)
    ensures |argv| > 3 ==> r == ExitFailure
    ensures |argv| > 1 && argv[1] != Ascii("-p") && argv[1] != Ascii("--port") ==> r == ExitFailure
    ensures r.Port? ==> r.port <= MaxPort
  {
    if |argv| == 1 then Port(DefaultPort)
    else if |argv| > 3 then ExitFailure
    else if argv[1] != Ascii("-p") && argv[1] != Ascii("--port") then ExitFailure
    else
      var number := StrToUL(argv[1]);
      if number.end == 0 || number.value > MaxPort then ExitFailure
      else Port(number.value)
  }

  /** Neither option spelling holds a digit, so converting the option fails. */
  lemma OptionsDoNotConvert()
    ensures StrToUL(Ascii("-p")).end == 0
    ensures StrToUL(Ascii("--port")).end == 0
  {
    var p := Ascii("-p");
    assert p == ['-' as int, 'p' as int];
    assert SkipSpaces(p, 0) == 0;
    assert DigitsEnd(p, 1) == 1;
    var port := Ascii("--port");
    assert port[..2] == ['-' as int, '-' as int];
    assert SkipSpaces(port, 0) == 0;
    assert DigitsEnd(port, 1) == 1;
  }

  /** As written, `get_port` returns only for a bare invocation: every other
      command line, `-p 8080` included, ends the process. */
  lemma GetPortOnlyDefault(argv: seq<CString>)
    requires 1 <= |argv|
    ensures GetPort(argv) == if |argv| == 1 then Port(DefaultPort) else ExitFailure
  {
    OptionsDoNotConvert();
  }

  /** `get_port` converting the value after the option, `argv[2]`, as the
      usage message `-p <port>` describes; a missing value is refused. */
  function GetPortIntended(argv: seq<CString>): (r: PortResult)
    requires 1 <= |argv|
    ensures r.Port? ==> r.port <= MaxPort
    ensures r.Port? && |argv| != 1 ==> |argv| == 3 && (argv[1] == Ascii("-p") || argv[1] == Ascii("--port"))
  {
    if |argv| == 1 then Port(DefaultPort)
    else if |argv| != 3 then ExitFailure
    else if argv[1] != Ascii("-p") && argv[1] != Ascii("--port") then ExitFailure
    else
      var number := StrToUL(argv[2]);
      if number.end == 0 || number.value > MaxPort then ExitFailure
      else Port(number.value)
  }

  /** `strtoul` reads back what `%d` writes, up to the end of the digits. */
  lemma {:induction false} DecimalDigitsValue(n: nat)
    ensures DigitsValue(Decimal(n)) == n
    ensures DigitsEnd(Decimal(n), 0) == |Decimal(n)|
    decreases n
  {
    var d := Decimal(n);
    if n >= 10 {
      DecimalDigitsValue(n / 10);
      assert d[..|d| - 1] == Decimal(n / 10);
    }
  }

  lemma StrToULDecimal(n: nat)
    requires n <= MaxPort
    ensures StrToUL(Decimal(n)) == Conversion(n, |Decimal(n)|)
  {
    DecimalDigitsValue(n);
    var d := Decimal(n);
    assert IsDigit(d[0]) && !IsSpace(d[0]);
    assert SkipSpaces(d, 0) == 0;
    assert d[0..|d|] == d;
    assert DigitsValue(d[0..DigitsEnd(d, 0)]) == n <= ULongMax;
  }

  /** The intended `get_port` accepts `-p <port>` and `--port <port>` for every
      port from 0 to 65535, written as `%d` writes it. */
  lemma GetPortIntendedParses(program: CString, option: CString, n: nat)
    requires option == Ascii("-p") || option == Ascii("--port")
    requires n <= MaxPort
    ensures NoNul(Decimal(n))
    ensures GetPortIntended([program, option, Decimal(n)]) == Port(n)
  {
    assert NUL !in Decimal(n) by {
      forall i | 0 <= i < |Decimal(n)| ensures Decimal(n)[i] != NUL { }
    }
    StrToULDecimal(n);
  }
}
