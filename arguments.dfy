/** The command line of irtx: parse_arg and the decimal conversion it relies on. */
module Arguments {
  import opened CTypes
  import opened Wrappers

  /** The characters C's isspace accepts in the "C" locale. */
  predicate IsSpace(c: char)
  {
    c == ' ' || (9 <= c as int <= 13)
  }

  predicate IsDigit(c: char)
  {
    '0' <= c <= '9'
  }

  predicate AllDigits(s: string)
  {
    forall j :: 0 <= j < |s| ==> IsDigit(s[j])
  }

  function SkipSpace(s: string): (t: string)
    ensures |t| <= |s| && t == s[|s| - |t|..]
    ensures t == [] || !IsSpace(t[0])
    ensures forall j :: 0 <= j < |s| - |t| ==> IsSpace(s[j])
  {
    if s != [] && IsSpace(s[0]) then SkipSpace(s[1..]) else s
  }

  /** The number a string of decimal digits writes, most significant first. */
  function DecimalValue(s: string): nat
    requires AllDigits(s)
  {
    if s == [] then 0 else 10 * DecimalValue(s[..|s| - 1]) + (s[|s| - 1] as int - '0' as int)
  }

  /** What remains of strtol's work once the white space is skipped: one
      optional sign and then digits up to the end of the string. */
  function SignedValue(t: string): (r: Option<int>)
    ensures r.Some? ==> t != [] && (IsDigit(t[0]) || t[0] == '-' || t[0] == '+')
    ensures r.Some? ==> exists j :: 0 <= j < |t| && IsDigit(t[j])
    ensures r.Some? ==> var u := if t[0] == '-' || t[0] == '+' then t[1..] else t; u != [] && AllDigits(u)
    ensures t != [] && AllDigits(t) ==> r == Some(DecimalValue(t))
    ensures |t| >= 2 && t[0] == '-' && AllDigits(t[1..]) ==> r == Some(0 - DecimalValue(t[1..]) as int)
    ensures |t| >= 2 && t[0] == '+' && AllDigits(t[1..]) ==> r == Some(DecimalValue(t[1..]) as int)
  {
    var negative := t != [] && t[0] == '-';
    var u := if t != [] && (t[0] == '-' || t[0] == '+') then t[1..] else t;
    if u != [] && AllDigits(u) then Some(if negative then 0 - DecimalValue(u) as int else DecimalValue(u) as int)
    else None
  }

  /** strtol(s, &endptr, 10) together with the test *endptr == '\0' of
      parse_arg: Some(value) when the conversion consumes the whole string,
      None when characters are left over.  Leading white space and one sign
      are accepted; a string with no digits converts nothing, so endptr is s
      itself and only the empty string passes. */
  function StrtolWhole(s: string): (r: Option<int>)
    ensures s == [] ==> r == Some(0)
  {
    if s == [] then Some(0) else SignedValue(SkipSpace(s))
  }

  /** Without leading white space the string goes straight to the sign and
      digits, so plain digits give their value, a sign followed by digits
      its signed value, and anything else at the front is refused. */
  lemma StrtolCases(s: string)
    ensures s != [] && !IsSpace(s[0]) ==> StrtolWhole(s) == SignedValue(s)
    ensures s != [] && AllDigits(s) ==> StrtolWhole(s) == Some(DecimalValue(s))
    ensures StrtolWhole(s).Some? && s != [] && !IsSpace(s[0]) ==> IsDigit(s[0]) || s[0] == '-' || s[0] == '+'
  {
    if s != [] && !IsSpace(s[0]) {
      assert SkipSpace(s) == s;
    }
  }

  /** A string accepted as a number other than the empty one holds a digit. */
  lemma StrtolNeedsDigit(s: string)
    requires s != [] && StrtolWhole(s).Some?
    ensures exists j :: 0 <= j < |s| && IsDigit(s[j])
  {
    var t := SkipSpace(s);
    var j :| 0 <= j < |t| && IsDigit(t[j]);
    assert s[|s| - |t| + j] == t[j];
  }

  /** A character other than a digit anywhere after the first position
      leaves endptr short of the end, so the argument is refused. */
  lemma StrtolRejectsTrailing(s: string, j: nat)
    requires 0 < j < |s| && !IsSpace(s[0]) && !IsDigit(s[j])
    ensures StrtolWhole(s) == None
  {
    StrtolCases(s);
  }

  /** The argument "12x" has a character left after the number. */
  lemma StrtolRejectsExample()
    ensures StrtolWhole("12x") == None
    ensures ParseArg(["12x", "0", "AB"]) == None
  {
    StrtolRejectsTrailing("12x", 2);
  }

  /** Leading white space does not change the conversion, as long as
      something follows it. */
  lemma StrtolSkipsSpace(s: string)
    requires |s| >= 2 && IsSpace(s[0])
    ensures StrtolWhole(s) == StrtolWhole(s[1..])
  {
    assert SkipSpace(s) == SkipSpace(s[1..]);
  }

  /** The settings parse_arg writes to its out-parameters. */
  datatype Args = Args(repeat: uint8, interval: uint16, hex: string)

  /** parse_arg: one argument is the data with repeat 1 and interval 0;
      three are repeat, interval and data, where repeat must convert to
      0..255 and interval to 0..65535; any other count is refused. */
  function ParseArg(argv: seq<string>): (r: Option<Args>)
    ensures |argv| == 1 ==> r == Some(Args(1, 0, argv[0]))
    ensures r.Some? ==> (|argv| == 1 || |argv| == 3) && r.value.hex == argv[|argv| - 1]
  {
    if |argv| == 1 then
      Some(Args(1, 0, argv[0]))
    else if |argv| == 3 then
      match (StrtolWhole(argv[0]), StrtolWhole(argv[1]))
      case (Some(rep), Some(ival)) =>
        if 0 <= rep <= 0xff && 0 <= ival <= 0xffff then Some(Args(rep as uint8, ival as uint16, argv[2]))
        else None
      case _ => None
    else
      None
  }

  /** With three arguments, parse_arg succeeds exactly when both numbers
      convert completely and are within range, and then it keeps them. */
  lemma ParseArgThree(argv: seq<string>)
    requires |argv| == 3
    ensures ParseArg(argv).Some? <==>
              (StrtolWhole(argv[0]).Some? && 0 <= StrtolWhole(argv[0]).value <= 0xff &&
               StrtolWhole(argv[1]).Some? && 0 <= StrtolWhole(argv[1]).value <= 0xffff)
    ensures ParseArg(argv).Some? ==>
              ParseArg(argv).value.repeat as int == StrtolWhole(argv[0]).value &&
              ParseArg(argv).value.interval as int == StrtolWhole(argv[1]).value
  {
  }

  /** The reference decimal writer. */
  function FormatDecimal(n: nat): (s: string)
    ensures s != []
  {
    if n < 10 then [('0' as int + n) as char]
    else FormatDecimal(n / 10) + [('0' as int + n % 10) as char]
  }

  lemma {:induction false} DecimalRoundTrip(n: nat)
    ensures AllDigits(FormatDecimal(n)) && DecimalValue(FormatDecimal(n)) == n
  {
    if n >= 10 {
      DecimalRoundTrip(n / 10);
      var s := FormatDecimal(n);
      assert s[..|s| - 1] == FormatDecimal(n / 10);
    }
  }

  /** A number written in decimal converts back to itself. */
  lemma StrtolFormat(n: nat)
    ensures StrtolWhole(FormatDecimal(n)) == Some(n)
  {
    DecimalRoundTrip(n);
    var s := FormatDecimal(n);
    assert IsDigit(s[0]);
  }

  /** Any repeat and interval, written in decimal before the data, are read back as given. */
  lemma ParseArgRoundTrip(repeat: uint8, interval: uint16, hex: string)
    ensures ParseArg([FormatDecimal(repeat as nat), FormatDecimal(interval as nat), hex]) == Some(Args(repeat, interval, hex))
  {
    StrtolFormat(repeat as nat);
    StrtolFormat(interval as nat);
  }

  /** A repeat count above 255 is refused rather than truncated. */
  lemma ParseArgRejectsWideRepeat(n: nat, interval: string, hex: string)
    requires n > 0xff
    ensures ParseArg([FormatDecimal(n), interval, hex]) == None
  {
    StrtolFormat(n);
  }
}
