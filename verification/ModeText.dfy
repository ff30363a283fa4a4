/**
 Modes as text: the journal and configuration lines the broker writes and reads
 back, and the mode it hands to Android and parses from Android's answer.
 */
module ModeText {
  import opened Options
  import opened ComposerLink
  import opened Refresh

  predicate IsDigit(c: char)
  {
    '0' <= c <= '9'
  }

  predicate AllDigits(s: string)
  {
    forall i :: 0 <= i < |s| ==> IsDigit(s[i])
  }

  predicate IsSpace(c: char)
  {
    c == ' ' || c == '\n' || c == '\t' || c == '\r'
  }

  // ---------------------------------------------------------------------
  // Printing

  function Digit(n: nat): char
    requires n < 10
  {
    '0' + n as char
  }

  function Digits(n: nat): string
  {
    if n < 10 then [Digit(n)] else Digits(n / 10) + [Digit(n % 10)]
  }

  /** The line of three numbers. */
  function PrintMode(mode: Mode): string
  {
    Digits(mode.width) + (" " + (Digits(mode.height) + (" " + (Digits(mode.refreshMillihz) + "\n"))))
  }

  /** Hertz with three decimals. */
  function PrintRefresh(m: nat): string
  {
    Digits(m / 1000) + ("." + Thousandths(m % 1000))
  }

  function Thousandths(k: nat): string
    requires k < 1000
  {
    [Digit(k / 100), Digit(k / 10 % 10), Digit(k % 10)]
  }

  // ---------------------------------------------------------------------
  // Scanning

  function SkipSpaces(s: string): string
  {
    if s != "" && IsSpace(s[0]) then SkipSpaces(s[1..]) else s
  }

  /** The length of the leading run of digits. */
  function DigitCount(s: string): (n: nat)
    ensures n <= |s|
    ensures forall i :: 0 <= i < n ==> IsDigit(s[i])
    ensures n < |s| ==> !IsDigit(s[n])
  {
    if s != "" && IsDigit(s[0]) then 1 + DigitCount(s[1..]) else 0
  }

  function Value(s: string): nat
    requires AllDigits(s)
  {
    if s == "" then 0 else 10 * Value(s[..|s| - 1]) + (s[|s| - 1] as int - '0' as int)
  }

  /** A conversion: what was read, and what is left. */
  datatype Scan<T> = NoMatch | Match(value: T, rest: string)

  function ScanUnsigned(s: string): Scan<nat>
  {
    var t := SkipSpaces(s);
    var n := DigitCount(t);
    if n == 0 then NoMatch else Match(Value(t[..n]), t[n..])
  }

  /** A decimal number: digits, and a fraction after a point. */
  function ScanDecimal(s: string): Scan<real>
  {
    DecimalAt(SkipSpaces(s))
  }

  function DecimalAt(t: string): Scan<real>
  {
    var n := DigitCount(t);
    if n == 0 then NoMatch
    else if n < |t| && t[n] == '.' then FractionAt(Value(t[..n]), t[n + 1..])
    else Match(Value(t[..n]) as real, t[n..])
  }

  function FractionAt(whole: nat, s: string): Scan<real>
  {
    Match(whole as real + Fraction(s[..DigitCount(s)]), s[DigitCount(s)..])
  }

  function Fraction(s: string): real
    requires AllDigits(s)
  {
    if s == "" then 0.0 else ((s[0] as int - '0' as int) as real + Fraction(s[1..])) / 10.0
  }

  function ScanChar(s: string, c: char): Option<string>
  {
    if s != "" && s[0] == c then Some(s[1..]) else None
  }

  /** Three numbers; what follows them is ignored. */
  function ParseMode(s: string): Option<Mode>
  {
    match ScanUnsigned(s)
    case NoMatch => None
    case Match(w, s1) =>
      match ScanUnsigned(s1)
      case NoMatch => None
      case Match(h, s2) =>
        match ScanUnsigned(s2)
        case NoMatch => None
        case Match(r, _) => Some(Mode(w, h, r))
  }

  /** What Android's answer says. */
  /** No preferred mode, or the numbers of one. */
  datatype Answer = NoMode | Answer(width: nat, height: nat, rate: real)

  function AfterColon(s: string): string
  {
    if ':' !in s then s
    else if s[0] == ':' then s[1..]
    else AfterColon(s[1..])
  }

  predicate SaysNull(s: string)
  {
    exists i :: 0 <= i <= |s| - 4 && s[i] == 'n' && s[i + 1] == 'u' && s[i + 2] == 'l' && s[i + 3] == 'l'
  }

  /** "width height rate". */
  function ScanSpaced(s: string): Option<Answer>
  {
    match ScanUnsigned(s)
    case NoMatch => None
    case Match(w, s1) =>
      match ScanUnsigned(s1)
      case NoMatch => None
      case Match(h, s2) =>
        match ScanDecimal(s2)
        case NoMatch => None
        case Match(r, _) => Some(Answer(w, h, r))
  }

  /** "width x height @ rate", without the spaces. */
  function ScanCompact(s: string): Option<Answer>
  {
    match ScanUnsigned(s)
    case NoMatch => None
    case Match(w, s1) =>
      match ScanChar(s1, 'x')
      case None => None
      case Some(s2) => ScanHeightAndRate(w, s2)
  }

  function ScanHeightAndRate(w: nat, s: string): Option<Answer>
  {
    match ScanUnsigned(s)
    case NoMatch => None
    case Match(h, s1) =>
      match ScanChar(s1, '@')
      case None => None
      case Some(s2) =>
        match ScanDecimal(s2)
        case NoMatch => None
        case Match(r, _) => Some(Answer(w, h, r))
  }

  function ParseAnswer(s: string): Option<Answer>
  {
    var value := AfterColon(s);
    if SaysNull(value) then Some(NoMode)
    else if ScanSpaced(value).Some? then ScanSpaced(value)
    else ScanCompact(value)
  }

  /** The snapshot, once `y` is the rate as binary32 and `z` a thousand times that. */
  function Snapshot(a: Answer, y: real, z: real): Option<Mode>
    requires Rounded(1000.0 * y, z)
  {
    if a.NoMode? then Some(NATIVE)
    else if a.width == 0 || a.height == 0 || y < 1.0 then None
    else Some(Mode(a.width, a.height, Nearest(z)))
  }

  // ---------------------------------------------------------------------
  // Round trips

  lemma {:induction false} DigitsAreDigits(n: nat)
    ensures Digits(n) != "" && AllDigits(Digits(n))
    decreases n
  {
    if n >= 10 {
      DigitsAreDigits(n / 10);
    }
  }

  lemma {:induction false} ValueOfDigits(n: nat)
    ensures AllDigits(Digits(n))
    ensures Value(Digits(n)) == n
    decreases n
  {
    DigitsAreDigits(n);
    if n < 10 {
      assert Digits(n)[..0] == "";
    } else {
      ValueOfDigits(n / 10);
      assert Digits(n)[..|Digits(n)| - 1] == Digits(n / 10);
    }
  }

  lemma {:induction false} DigitCountOf(d: string, rest: string)
    requires AllDigits(d)
    requires rest != "" ==> !IsDigit(rest[0])
    ensures DigitCount(d + rest) == |d|
    decreases |d|
  {
    if d == "" {
      assert d + rest == rest;
    } else {
      assert (d + rest)[1..] == d[1..] + rest;
      DigitCountOf(d[1..], rest);
    }
  }

  lemma SkipOneSpace(t: string)
    requires t != "" && !IsSpace(t[0])
    ensures SkipSpaces(t) == t && SkipSpaces(" " + t) == t
  {
    assert (" " + t)[1..] == t;
  }

  /** What a conversion sees of a printed number. */
  lemma LeadingDigits(n: nat, rest: string)
    requires rest != "" ==> !IsDigit(rest[0])
    ensures var t := Digits(n) + rest;
            && t != "" && !IsSpace(t[0])
            && 0 < DigitCount(t) == |Digits(n)| && t[..DigitCount(t)] == Digits(n) && t[DigitCount(t)..] == rest
            && Value(t[..DigitCount(t)]) == n
  {
    var d := Digits(n);
    DigitsAreDigits(n);
    ValueOfDigits(n);
    DigitCountOf(d, rest);
    assert (d + rest)[0] == d[0];
    assert (d + rest)[..|d|] == d && (d + rest)[|d|..] == rest;
  }

  /** A printed number is read back whole, with one space or none before it. */
  lemma ScanPrinted(n: nat, rest: string)
    requires rest != "" ==> !IsDigit(rest[0])
    ensures ScanUnsigned(Digits(n) + rest) == Match(n, rest)
    ensures ScanUnsigned(" " + (Digits(n) + rest)) == Match(n, rest)
  {
    LeadingDigits(n, rest);
    SkipOneSpace(Digits(n) + rest);
  }

  /** The journal and the configuration file give back every mode written to them. */
  lemma JournalRoundTrip(mode: Mode)
    ensures ParseMode(PrintMode(mode)) == Some(mode)
  {
    ScanPrinted(mode.refreshMillihz, "\n");
    ScanPrinted(mode.height, " " + (Digits(mode.refreshMillihz) + "\n"));
    ScanPrinted(mode.width, " " + (Digits(mode.height) + (" " + (Digits(mode.refreshMillihz) + "\n"))));
  }

  // ---------------------------------------------------------------------
  // A mode set in Android and read back

  lemma ThreeDigits(a: nat, b: nat, c: nat)
    requires a < 10 && b < 10 && c < 10
    ensures var t := [Digit(a), Digit(b), Digit(c)];
            AllDigits(t) && Fraction(t) == (100 * a + 10 * b + c) as real / 1000.0
  {
    var t := [Digit(a), Digit(b), Digit(c)];
    assert t[1..] == [t[1], t[2]] && t[1..][1..] == [t[2]] && t[1..][1..][1..] == "";
    assert Fraction(t[1..][1..]) == c as real / 10.0;
    assert Fraction(t[1..]) == (b as real + c as real / 10.0) / 10.0;
  }

  lemma ThousandthsValue(k: nat)
    requires k < 1000
    ensures AllDigits(Thousandths(k)) && Fraction(Thousandths(k)) == k as real / 1000.0
  {
    ThreeDigits(k / 100, k / 10 % 10, k % 10);
    assert k == 100 * (k / 100) + 10 * (k / 10 % 10) + k % 10;
  }

  /** Where the leading digits end and what follows them. */
  lemma DigitsThen(d: string, rest: string)
    requires AllDigits(d) && (rest != "" ==> !IsDigit(rest[0]))
    ensures var t := d + rest;
            DigitCount(t) == |d| && t[..DigitCount(t)] == d && t[DigitCount(t)..] == rest
  {
    DigitCountOf(d, rest);
    assert (d + rest)[..|d|] == d && (d + rest)[|d|..] == rest;
  }

  lemma FractionParts(whole: nat, f: string, rest: string)
    requires AllDigits(f) && (rest != "" ==> !IsDigit(rest[0]))
    ensures FractionAt(whole, f + rest) == Match(whole as real + Fraction(f), rest)
  {
    DigitsThen(f, rest);
  }

  /** The parts of a decimal number, whatever its digits are. */
  lemma DecimalParts(d: string, tail: string)
    requires d != "" && AllDigits(d)
    ensures DecimalAt(d + ("." + tail)) == FractionAt(Value(d), tail)
  {
    var t := d + ("." + tail);
    DigitsThen(d, "." + tail);
    assert t[|d|] == ("." + tail)[0] == '.';
    assert t[|d| + 1..] == tail;
  }

  lemma WholeAndThousandths(m: nat)
    ensures (m / 1000) as real + (m % 1000) as real / 1000.0 == Hertz(m)
  {
    assert m == 1000 * (m / 1000) + m % 1000;
    assert m as real == 1000.0 * (m / 1000) as real + (m % 1000) as real;
  }

  lemma DecimalWhole(d: string, f: string, rest: string)
    requires d != "" && AllDigits(d) && AllDigits(f) && (rest != "" ==> !IsDigit(rest[0]))
    ensures DecimalAt(d + ("." + (f + rest))) == Match(Value(d) as real + Fraction(f), rest)
  {
    hide *;
    DecimalParts(d, f + rest);
    FractionParts(Value(d), f, rest);
  }

  lemma ScanSkips(t: string)
    requires t != "" && !IsSpace(t[0])
    ensures ScanDecimal(t) == ScanDecimal(" " + t) == DecimalAt(t)
  {
    SkipOneSpace(t);
  }

  lemma PointGrouped(d: string, f: string, rest: string)
    ensures d + ("." + f) + rest == d + ("." + (f + rest))
  {
  }

  lemma ScanText(d: string, f: string, rest: string)
    requires d != "" && AllDigits(d) && AllDigits(f) && (rest != "" ==> !IsDigit(rest[0]))
    ensures var t := d + ("." + f) + rest;
            ScanDecimal(t) == ScanDecimal(" " + t) == Match(Value(d) as real + Fraction(f), rest)
  {
    PointGrouped(d, f, rest);
    ScanSkips(d + ("." + f) + rest);
    DecimalWhole(d, f, rest);
  }

  /** Three decimals are read back exactly. */
  lemma ScanPrintedRefresh(m: nat, rest: string)
    requires rest != "" ==> !IsDigit(rest[0])
    ensures ScanDecimal(PrintRefresh(m) + rest) == Match(Hertz(m), rest)
    ensures ScanDecimal(" " + (PrintRefresh(m) + rest)) == Match(Hertz(m), rest)
  {
    hide Digits, Thousandths, ScanDecimal, Value, Fraction, AllDigits;
    DigitsAreDigits(m / 1000);
    ValueOfDigits(m / 1000);
    ThousandthsValue(m % 1000);
    WholeAndThousandths(m);
    ScanText(Digits(m / 1000), Thousandths(m % 1000), rest);
  }

  /** A decimal number as anyone may print it: digits, and perhaps a point with
      further digits. */
  datatype Decimal = Decimal(whole: string, fraction: Option<string>)
  {
    ghost predicate Valid()
    {
      whole != "" && AllDigits(whole) && (fraction.Some? ==> AllDigits(fraction.value))
    }

    function Text(): string
    {
      if fraction.Some? then whole + ("." + fraction.value) else whole
    }

    function Amount(): real
      requires Valid()
    {
      Value(whole) as real + if fraction.Some? then Fraction(fraction.value) else 0.0
    }
  }

  /** The three decimals the broker prints are one such text. */
  lemma PrintedIsDecimal(m: nat)
    ensures var d := Decimal(Digits(m / 1000), Some(Thousandths(m % 1000)));
            d.Valid() && d.Text() == PrintRefresh(m) && d.Amount() == Hertz(m)
  {
    DigitsAreDigits(m / 1000);
    ValueOfDigits(m / 1000);
    ThousandthsValue(m % 1000);
    WholeAndThousandths(m);
  }

  lemma WholeRead(d: string)
    requires d != "" && AllDigits(d)
    ensures ScanDecimal(d + "\n") == ScanDecimal(" " + (d + "\n")) == Match(Value(d) as real, "\n")
  {
    DigitsThen(d, "\n");
    assert (d + "\n")[0] == d[0];
    ScanSkips(d + "\n");
  }

  /** Every decimal text is read as the number it denotes. */
  lemma DecimalRead(rate: Decimal)
    requires rate.Valid()
    ensures ScanDecimal(rate.Text() + "\n") == ScanDecimal(" " + (rate.Text() + "\n")) == Match(rate.Amount(), "\n")
  {
    hide ScanDecimal, Value, Fraction, AllDigits;
    if rate.fraction.Some? {
      ScanText(rate.whole, rate.fraction.value, "\n");
    } else {
      WholeRead(rate.whole);
    }
  }

  function SpacedTail(height: nat, rate: Decimal): string
  {
    " " + (Digits(height) + (" " + (rate.Text() + "\n")))
  }

  function CompactTail(height: nat, rate: Decimal): string
  {
    "x" + (Digits(height) + ("@" + (rate.Text() + "\n")))
  }

  /** The mode in one of the two forms. */
  function ModeAnswer(width: nat, height: nat, rate: Decimal, compact: bool): string
  {
    " " + (Digits(width) + if compact then CompactTail(height, rate) else SpacedTail(height, rate))
  }

  lemma {:induction false} ColonFound(caption: string, value: string)
    requires ':' !in caption
    ensures AfterColon(caption + (":" + value)) == value
    decreases |caption|
  {
    var s := caption + (":" + value);
    assert s[|caption|] == ':';
    if caption != "" {
      assert s[1..] == caption[1..] + (":" + value);
      ColonFound(caption[1..], value);
    } else {
      assert s[1..] == value;
    }
  }

  lemma DecimalPlain(rate: Decimal)
    requires rate.Valid()
    ensures 'n' !in rate.Text()
  {
    assert 'n' !in rate.whole;
    if rate.fraction.Some? {
      assert 'n' !in rate.fraction.value;
    }
  }

  lemma NotNull(width: nat, height: nat, rate: Decimal, compact: bool)
    requires rate.Valid()
    ensures !SaysNull(ModeAnswer(width, height, rate, compact))
  {
    var tail := if compact then CompactTail(height, rate) else SpacedTail(height, rate);
    DigitsAreDigits(width);
    DigitsAreDigits(height);
    DecimalPlain(rate);
    assert 'n' !in Digits(width) && 'n' !in Digits(height);
    assert 'n' !in tail;
    assert 'n' !in " " + (Digits(width) + tail);
  }

  lemma SpacedRead(width: nat, height: nat, rate: Decimal)
    requires rate.Valid()
    ensures ScanSpaced(ModeAnswer(width, height, rate, false)) == Some(Answer(width, height, rate.Amount()))
  {
    hide ScanUnsigned, ScanDecimal, Digits, Decimal.Amount;
    ScanPrinted(width, SpacedTail(height, rate));
    ScanPrinted(height, " " + (rate.Text() + "\n"));
    DecimalRead(rate);
  }

  lemma HeightAndRateRead(width: nat, height: nat, rate: Decimal)
    requires rate.Valid()
    ensures ScanHeightAndRate(width, CompactTail(height, rate)[1..]) == Some(Answer(width, height, rate.Amount()))
  {
    hide ScanUnsigned, ScanDecimal, Digits, Decimal.Amount;
    var text := rate.Text() + "\n";
    assert CompactTail(height, rate)[1..] == Digits(height) + ("@" + text);
    ScanPrinted(height, "@" + text);
    assert ("@" + text)[1..] == text;
    DecimalRead(rate);
  }

  /** The compact form is not mistaken for the other one. */
  lemma CompactRead(width: nat, height: nat, rate: Decimal)
    requires rate.Valid()
    ensures ScanSpaced(ModeAnswer(width, height, rate, true)) == None
    ensures ScanCompact(ModeAnswer(width, height, rate, true)) == Some(Answer(width, height, rate.Amount()))
  {
    hide Digits, Decimal.Amount, ScanHeightAndRate, ScanDecimal;
    var tail := CompactTail(height, rate);
    assert tail[0] == 'x';
    ScanPrinted(width, tail);
    assert ScanUnsigned(tail) == NoMatch;
    HeightAndRateRead(width, height, rate);
  }

  /** After any caption without a colon, an answer in either form and with any
      decimals is read as the numbers it denotes. */
  lemma AnswerRead(caption: string, width: nat, height: nat, rate: Decimal, compact: bool)
    requires ':' !in caption && rate.Valid()
    ensures ParseAnswer(caption + (":" + ModeAnswer(width, height, rate, compact)))
            == Some(Answer(width, height, rate.Amount()))
  {
    hide ModeAnswer, ScanSpaced, ScanCompact, SaysNull, AfterColon, Decimal.Amount;
    ColonFound(caption, ModeAnswer(width, height, rate, compact));
    NotNull(width, height, rate, compact);
    if compact {
      CompactRead(width, height, rate);
    } else {
      SpacedRead(width, height, rate);
    }
  }

  /** Whatever mode the broker may ask for, reading Android's answer gives that very
      mode as the snapshot, however many decimals Android prints. */
  lemma SetModeReadsBack(caption: string, mode: Mode, rate: Decimal, compact: bool, y: real, z: real)
    requires ':' !in caption && mode.width > 0 && mode.height > 0 && 10000 <= mode.refreshMillihz <= 240000
    requires rate.Valid() && rate.Amount() == Hertz(mode.refreshMillihz)
    requires ReadsAs(Hertz(mode.refreshMillihz), y, z)
    ensures var answer := ParseAnswer(caption + (":" + ModeAnswer(mode.width, mode.height, rate, compact)));
            answer.Some? && Snapshot(answer.value, y, z) == Some(mode)
  {
    hide ParseAnswer, ModeAnswer, Decimal.Amount;
    AnswerRead(caption, mode.width, mode.height, rate, compact);
    assert 10.0 <= Hertz(mode.refreshMillihz);
    RefreshRoundTrip(mode.refreshMillihz, y, z);
  }

  /** The same with the three decimals the broker itself prints. */
  lemma PrintedModeReadsBack(caption: string, mode: Mode, compact: bool, y: real, z: real)
    requires ':' !in caption && mode.width > 0 && mode.height > 0 && 10000 <= mode.refreshMillihz <= 240000
    requires ReadsAs(Hertz(mode.refreshMillihz), y, z)
    ensures var m := mode.refreshMillihz;
            var printed := Decimal(Digits(m / 1000), Some(Thousandths(m % 1000)));
            var answer := ParseAnswer(caption + (":" + ModeAnswer(mode.width, mode.height, printed, compact)));
            && printed.Text() == PrintRefresh(m)
            && answer.Some? && Snapshot(answer.value, y, z) == Some(mode)
  {
    hide ParseAnswer, ModeAnswer, Decimal.Amount, Digits, Thousandths;
    var m := mode.refreshMillihz;
    PrintedIsDecimal(m);
    SetModeReadsBack(caption, mode, Decimal(Digits(m / 1000), Some(Thousandths(m % 1000))), compact, y, z);
  }

  /** An answer that says null is the native mode, whatever stands around it. */
  lemma NativeReadsBack(caption: string, before: string, after: string, y: real, z: real)
    requires ':' !in caption && Rounded(1000.0 * y, z)
    ensures var answer := ParseAnswer(caption + (":" + (before + ("null" + after))));
            answer.Some? && Snapshot(answer.value, y, z) == Some(NATIVE)
  {
    var value := before + ("null" + after);
    ColonFound(caption, value);
    var i := |before|;
    assert value[i] == 'n' && value[i + 1] == 'u' && value[i + 2] == 'l' && value[i + 3] == 'l';
  }
}
