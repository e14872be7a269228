/** Exact decimal text for integer amounts: parsing, formatting, and the web app's own pair. */
module Units {
  import opened Wrappers
  import opened Text
  import opened Decimal
  import Arith

  datatype UnitsError =
    | BadDecimals | NoDigits | Scientific | ManyPoints | BadPart | TooManyPlaces | NotAnInteger
    | NegativeMaxDecimals | BadFormat

  function ParseQuantity(value: string): Option<int> {
    ParseInteger(Trim(value))
  }

  /** The sign taken off, as `parseUnits` does it. */
  function Unsigned(trimmed: string): string {
    if trimmed != [] && (trimmed[0] == '-' || trimmed[0] == '+') then trimmed[1..] else trimmed
  }

  function ParseUnits(value: string, dec: int): Result<int, UnitsError> {
    if !(0 <= dec <= 36) then Err(BadDecimals)
    else
      var trimmed := Trim(value);
      if trimmed in {"", "-", "+"} then Err(NoDigits)
      else if 'e' in trimmed || 'E' in trimmed then Err(Scientific)
      else
        var parts := Split(Unsigned(trimmed), '.');
        if |parts| > 2 then Err(ManyPoints)
        else ParseParts(trimmed[0] == '-', parts[0], if |parts| == 2 then parts[1] else "", dec)
  }

  function ParseParts(isNegative: bool, intPart: string, fracPart: string, dec: nat): Result<int, UnitsError> {
    if intPart == "" && fracPart == "" then Err(NoDigits)
    else if intPart != "" && !IsInteger(intPart) then Err(BadPart)
    else if fracPart != "" && !IsInteger(fracPart) then Err(BadPart)
    else if |fracPart| > dec then Err(TooManyPlaces)
    else
      var combined := (if intPart == "" then "0" else intPart) + PadEnd(fracPart, dec, '0');
      match ParseInteger(combined)
      case None => Err(NotAnInteger)
      case Some(parsed) => Ok(if isNegative && parsed != 0 then -parsed else parsed)
  }

  datatype FormatOptions = FormatOptions(maxDecimals: Option<int>, trimTrailingZeros: bool)

  function Abs(q: int): nat { if q < 0 then -q else q }

  /** Decimal text without a sign. */
  function Plain(intPart: string, fracPart: string): string {
    if fracPart == "" then intPart else intPart + "." + fracPart
  }

  function Signed(negative: bool, body: string): string {
    if negative then "-" + body else body
  }

  function FormatUnits(q: int, dec: int, options: FormatOptions): Result<string, UnitsError> {
    if !(0 <= dec <= 36) then Err(BadDecimals)
    else if dec == 0 then Ok(Signed(q < 0, ToDigits(Abs(q))))
    else if options.maxDecimals.Some? && options.maxDecimals.value < 0 then Err(NegativeMaxDecimals)
    else
      var parts := Written(PadStart(ToDigits(Abs(q)), dec + 1, '0'), dec, options);
      Ok(Signed(q < 0, Plain(parts.0, parts.1)))
  }

  /** Digits before the point, and the digits written after it. */
  function Written(str: string, dec: nat, options: FormatOptions): (string, string)
    requires dec <= |str| && (options.maxDecimals.Some? ==> options.maxDecimals.value >= 0)
  {
    var cut := str[|str| - dec..][..Places(dec, options)];
    (str[..|str| - dec], if options.trimTrailingZeros then StripEnd(cut, '0') else cut)
  }

  /** How many of the decimals are written. */
  function Places(dec: nat, options: FormatOptions): int {
    if options.maxDecimals.Some? && options.maxDecimals.value < dec then options.maxDecimals.value else dec
  }

  /** Toward zero, to a multiple of `unit`. */
  function TowardZero(q: int, unit: nat): int
    requires unit > 0
  {
    if q < 0 then -((-q) / unit * unit) else q / unit * unit
  }

  // ----- Round trips -----

  predicate NoMarks(s: string) {
    'e' !in s && 'E' !in s && '.' !in s
  }

  /** The part of the text before or after the point: non-empty digits. */
  predicate IsPart(s: string) {
    s != "" && AreDigits(s)
  }

  lemma PartShape(s: string)
    requires IsPart(s)
    ensures NoMarks(s) && IsDigit(s[0]) && IsDigit(s[|s| - 1])
  {
    DigitsOnly(s);
  }

  lemma PlainShape(intPart: string, fracPart: string)
    requires IsPart(intPart) && (fracPart != "" ==> IsPart(fracPart))
    ensures var body := Plain(intPart, fracPart);
      && body != "" && IsDigit(body[0]) && IsDigit(body[|body| - 1])
      && 'e' !in body && 'E' !in body
      && Split(body, '.') == if fracPart == "" then [intPart] else [intPart, fracPart]
  {
    PartShape(intPart);
    if fracPart == "" {
      SplitNone(intPart, '.');
    } else {
      PartShape(fracPart);
      SplitFirst(intPart, '.', fracPart);
      SplitNone(fracPart, '.');
    }
  }

  lemma SignedShape(negative: bool, body: string)
    requires body != "" && IsDigit(body[0]) && IsDigit(body[|body| - 1]) && 'e' !in body && 'E' !in body
    ensures var text := Signed(negative, body);
      && Trim(text) == text && Unsigned(text) == body && text !in {"", "-", "+"}
      && 'e' !in text && 'E' !in text && (text[0] == '-' <==> negative)
  {
    var text := Signed(negative, body);
    assert text[|text| - 1] == body[|body| - 1];
    TrimPlain(text);
    if negative { assert text[1..] == body; }
  }

  /** The text of a sign and two parts is read as those parts. */
  lemma ReadsText(negative: bool, intPart: string, fracPart: string, dec: nat)
    requires dec <= 36 && IsPart(intPart) && (fracPart != "" ==> IsPart(fracPart))
    ensures ParseUnits(Signed(negative, Plain(intPart, fracPart)), dec) == ParseParts(negative, intPart, fracPart, dec)
  {
    PlainShape(intPart, fracPart);
    SignedShape(negative, Plain(intPart, fracPart));
  }

  function Negated(negative: bool, n: nat): int {
    if negative then -(n as int) else n as int
  }

  /** The parts are read digit by digit. */
  lemma ReadsParts(negative: bool, intPart: string, fracPart: string, dec: nat)
    requires IsPart(intPart) && (fracPart != "" ==> IsPart(fracPart)) && |fracPart| <= dec
    ensures AreDigits(intPart + PadEnd(fracPart, dec, '0'))
    ensures ParseParts(negative, intPart, fracPart, dec)
         == Ok(Negated(negative, FromDigits(intPart + PadEnd(fracPart, dec, '0'))))
  {
    PartShape(intPart);
    if fracPart != "" { PartShape(fracPart); }
    PaddedEnd(intPart, fracPart, dec);
    var combined := intPart + PadEnd(fracPart, dec, '0');
    assert combined[0] == intPart[0];
  }

  lemma PaddedEnd(intPart: string, fracPart: string, dec: nat)
    requires AreDigits(intPart) && AreDigits(fracPart) && |fracPart| <= dec
    ensures |PadEnd(fracPart, dec, '0')| == dec && AreDigits(intPart + PadEnd(fracPart, dec, '0'))
  {
    FromShifted(fracPart, dec - |fracPart|);
    assert |fracPart| == dec ==> PadEnd(fracPart, dec, '0') == fracPart;
    DigitsAppend(intPart, PadEnd(fracPart, dec, '0'));
  }

  /** Cutting digits and padding zeros back is rounding down to the cut place. */
  lemma CutRoundsDown(kept: string, rest: string)
    requires AreDigits(kept) && AreDigits(rest)
    ensures AreDigits(kept + rest) && AreDigits(kept + Repeat('0', |rest|))
    ensures FromDigits(kept + Repeat('0', |rest|)) == FromDigits(kept + rest) / Pow10(|rest|) * Pow10(|rest|)
  {
    FromDigitsAppend(kept, rest);
    FromDigitsBound(rest);
    FromShifted(kept, |rest|);
    DownOf(FromDigits(kept + rest), FromDigits(kept), Pow10(|rest|), FromDigits(rest));
  }

  lemma DownOf(w: nat, a: nat, p: nat, r: nat)
    requires p > 0 && w == a * p + r && r < p
    ensures w / p * p == a * p
  {
    Arith.DivUnique(w, p, a);
  }

  /** The text in three pieces: before the point, written after it, not written. */
  lemma Pieces(str: string, dec: nat, k: nat) returns (intPart: string, cut: string, rest: string)
    requires AreDigits(str) && k <= dec < |str|
    ensures str == intPart + cut + rest && |cut| == k && |rest| == dec - k
    ensures intPart == str[..|str| - dec] && cut == str[|str| - dec..][..k]
    ensures IsPart(intPart) && AreDigits(cut) && AreDigits(rest) && AreDigits(intPart + cut)
  {
    var at := |str| - dec;
    intPart, cut, rest := str[..at], str[at..][..k], str[at + k..];
    assert str[at..at + k] == cut;
    assert intPart + cut == str[..at + k];
    DigitsSplit(str, at + k);
    DigitsAppend(intPart, cut);
  }

  lemma StripDigits(s: string, shown: string)
    requires AreDigits(s) && (shown == s || shown == StripEnd(s, '0'))
    ensures AreDigits(shown)
  {
    StripPads(s, shown, '0');
    DigitsAppend(shown, Repeat('0', |s| - |shown|));
  }

  /** What formatting writes, read back, is the amount cut toward zero at the last written place. */
  lemma ParseFormatUnits(q: int, dec: nat, options: FormatOptions)
    requires dec <= 36 && (dec > 0 && options.maxDecimals.Some? ==> options.maxDecimals.value >= 0)
    ensures FormatUnits(q, dec, options).Ok?
    ensures ParseUnits(FormatUnits(q, dec, options).value, dec)
         == Ok(if dec == 0 then q else TowardZero(q, Pow10(dec - Places(dec, options))))
  {
    if dec == 0 {
      WholeReads(q);
    } else {
      var parts := Written(PadStart(ToDigits(Abs(q)), dec + 1, '0'), dec, options);
      WrittenParts(q, dec, options);
      ReadsText(q < 0, parts.0, parts.1, dec);
    }
  }

  /** A minus is written exactly for negative amounts, even where the digits written are all zeros. */
  lemma {:induction false} MinusIff(q: int, dec: nat, options: FormatOptions)
    requires FormatUnits(q, dec, options).Ok?
    ensures FormatUnits(q, dec, options).value != ""
    ensures FormatUnits(q, dec, options).value[0] == '-' <==> q < 0
  {
    var digits := ToDigits(Abs(q));
    DigitsOnly(digits);
    if dec > 0 {
      var str := PadStart(digits, dec + 1, '0');
      PaddedValue(digits, dec + 1);
      DigitsOnly(str);
      var parts := Written(str, dec, options);
      assert parts.0 != "" && Plain(parts.0, parts.1)[0] == str[0];
    }
  }

  lemma WholeReads(q: int)
    ensures ParseUnits(Signed(q < 0, ToDigits(Abs(q))), 0) == Ok(q)
  {
    FromToDigits(Abs(q));
    DigitsRead(q < 0, ToDigits(Abs(q)));
    assert Negated(q < 0, Abs(q)) == q;
  }

  lemma DigitsRead(negative: bool, digits: string)
    requires IsPart(digits) && AreDigits(digits)
    ensures ParseUnits(Signed(negative, digits), 0) == Ok(Negated(negative, FromDigits(digits)))
  {
    ReadsText(negative, digits, "", 0);
    ReadsParts(negative, digits, "", 0);
    assert PadEnd("", 0, '0') == "" && digits + "" == digits;
  }

  /** The case with decimals: digits before the point, digits written, digits cut. */
  lemma WrittenParts(q: int, dec: nat, options: FormatOptions)
    requires 0 < dec <= 36 && (options.maxDecimals.Some? ==> options.maxDecimals.value >= 0)
    ensures var parts := Written(PadStart(ToDigits(Abs(q)), dec + 1, '0'), dec, options);
      && IsPart(parts.0) && (parts.1 != "" ==> IsPart(parts.1))
      && ParseParts(q < 0, parts.0, parts.1, dec) == Ok(TowardZero(q, Pow10(dec - Places(dec, options))))
  {
    FromToDigits(Abs(q));
    PaddedValue(ToDigits(Abs(q)), dec + 1);
    var kept, rest := PartsKept(q < 0, PadStart(ToDigits(Abs(q)), dec + 1, '0'), dec, options);
    CutTowardZero(q, kept, rest);
  }

  /** What is read back is the digits kept, with zeros for the rest. */
  lemma PartsKept(negative: bool, str: string, dec: nat, options: FormatOptions) returns (kept: string, rest: string)
    requires AreDigits(str) && 0 < dec < |str| && (options.maxDecimals.Some? ==> options.maxDecimals.value >= 0)
    ensures str == kept + rest && |rest| == dec - Places(dec, options)
    ensures AreDigits(kept) && AreDigits(rest) && AreDigits(kept + Repeat('0', |rest|))
    ensures var parts := Written(str, dec, options);
      && IsPart(parts.0) && (parts.1 != "" ==> IsPart(parts.1))
      && ParseParts(negative, parts.0, parts.1, dec) == Ok(Negated(negative, FromDigits(kept + Repeat('0', |rest|))))
  {
    var parts := Written(str, dec, options);
    var intPart, cut;
    intPart, cut, rest := Pieces(str, dec, Places(dec, options));
    kept := intPart + cut;
    StripDigits(cut, parts.1);
    StripPadEnd(cut, parts.1, '0', dec);
    ReadsParts(negative, intPart, parts.1, dec);
    Assoc(intPart, cut, Repeat('0', |rest|));
  }

  lemma CutTowardZero(q: int, kept: string, rest: string)
    requires AreDigits(kept) && AreDigits(rest) && AreDigits(kept + rest) && FromDigits(kept + rest) == Abs(q)
    ensures AreDigits(kept + Repeat('0', |rest|))
    ensures Negated(q < 0, FromDigits(kept + Repeat('0', |rest|))) == TowardZero(q, Pow10(|rest|))
  {
    CutRoundsDown(kept, rest);
  }

  lemma PaddedValue(digits: string, width: nat)
    requires AreDigits(digits)
    ensures AreDigits(PadStart(digits, width, '0')) && FromDigits(PadStart(digits, width, '0')) == FromDigits(digits)
  {
    if |digits| < width { FromPadded(width - |digits|, digits); }
  }

  /** With every decimal written the amount comes back exactly, trimmed or not. */
  lemma FormatUnitsRoundTrip(q: int, dec: nat, trim: bool)
    requires dec <= 36
    ensures var text := FormatUnits(q, dec, FormatOptions(None, trim));
      text.Ok? && ParseUnits(text.value, dec) == Ok(q)
  {
    ParseFormatUnits(q, dec, FormatOptions(None, trim));
  }

  // ----- What is read, and nothing else -----

  /** Text as it may be entered: a sign, possibly a second minus, digits, and possibly a point with digits after it. */
  function Entered(sign: string, minus: bool, whole: string, point: bool, frac: string): string {
    sign + (Signed(minus, whole) + if point then "." + frac else "")
  }

  predicate Enterable(sign: string, minus: bool, whole: string, point: bool, frac: string, dec: nat) {
    && sign in {"", "+", "-"} && AreDigits(whole) && AreDigits(frac) && (whole != "" || frac != "")
    && (minus ==> whole != "") && (!point ==> frac == "") && |frac| <= dec
  }

  /** The digits as an amount of the smallest unit. */
  function EnteredValue(whole: string, frac: string, dec: nat): nat
    requires AreDigits(whole) && AreDigits(frac) && |frac| <= dec
  {
    FromDigits(whole) * Pow10(dec) + FromDigits(frac) * Pow10(dec - |frac|)
  }

  lemma CombinedValue(whole: string, frac: string, dec: nat)
    requires AreDigits(whole) && AreDigits(frac) && |frac| <= dec
    ensures var combined := (if whole == "" then "0" else whole) + PadEnd(frac, dec, '0');
      AreDigits(combined) && FromDigits(combined) == EnteredValue(whole, frac, dec)
  {
    var shown, padded := if whole == "" then "0" else whole, PadEnd(frac, dec, '0');
    assert AreDigits("0") && FromDigits("0") == 0 by { assert "0"[..0] == ""; }
    FromShifted(frac, dec - |frac|);
    assert |frac| == dec ==> frac + Repeat('0', 0) == frac;
    assert padded == frac + Repeat('0', dec - |frac|);
    FromDigitsAppend(shown, padded);
  }

  lemma {:induction false} PlainParts(negative: bool, whole: string, frac: string, dec: nat)
    requires AreDigits(whole) && AreDigits(frac) && (whole != "" || frac != "") && |frac| <= dec
    ensures ParseParts(negative, whole, frac, dec) == Ok(Negated(negative, EnteredValue(whole, frac, dec)))
  {
    CombinedValue(whole, frac, dec);
    var digits := (if whole == "" then "0" else whole) + PadEnd(frac, dec, '0');
    DigitsOnly(digits);
    NoSign(whole);
    NoSign(frac);
  }

  lemma NoSign(digits: string)
    requires AreDigits(digits)
    ensures digits != "" ==> IsInteger(digits) && digits[0] != '-'
  {
    DigitsOnly(digits);
  }

  lemma MinusInteger(digits: string)
    requires AreDigits(digits) && digits != ""
    ensures ParseInteger("-" + digits) == Some(-(FromDigits(digits) as int))
  {
    assert ("-" + digits)[0] == '-' && ("-" + digits)[1..] == digits;
  }

  lemma {:induction false} MinusParts(negative: bool, whole: string, frac: string, dec: nat)
    requires AreDigits(whole) && AreDigits(frac) && whole != "" && |frac| <= dec
    ensures ParseParts(negative, "-" + whole, frac, dec) == Ok(Negated(!negative, EnteredValue(whole, frac, dec)))
  {
    var padded := PadEnd(frac, dec, '0');
    CombinedValue(whole, frac, dec);
    NoSign(frac);
    MinusInteger(whole);
    MinusInteger(whole + padded);
    assert "-" + whole + padded == "-" + (whole + padded);
    PartsRead(negative, "-" + whole, frac, dec, -(FromDigits(whole + padded) as int));
  }

  lemma PartsRead(negative: bool, intPart: string, frac: string, dec: nat, n: int)
    requires intPart != "" && IsInteger(intPart) && (frac != "" ==> IsInteger(frac)) && |frac| <= dec
    requires ParseInteger(intPart + PadEnd(frac, dec, '0')) == Some(n)
    ensures ParseParts(negative, intPart, frac, dec) == Ok(if negative && n != 0 then -n else n)
  {
  }

  lemma {:induction false} NoMarksIn(minus: bool, whole: string, tail: string)
    requires AreDigits(whole) && 'e' !in tail && 'E' !in tail
    ensures var body := Signed(minus, whole) + tail; 'e' !in body && 'E' !in body
    ensures '.' !in Signed(minus, whole)
  {
    DigitsOnly(whole);
  }

  lemma {:induction false} SplitTwo(first: string, second: string)
    requires '.' !in first && '.' !in second
    ensures Split(first + ("." + second), '.') == [first, second]
  {
    SplitFirst(first, '.', second);
    SplitNone(second, '.');
    assert first + ("." + second) == first + "." + second;
  }

  lemma {:induction false} SplitOne(first: string)
    requires '.' !in first
    ensures Split(first + "", '.') == [first]
  {
    SplitNone(first, '.');
    assert first + "" == first;
  }

  lemma {:induction false} EnteredParts(minus: bool, whole: string, point: bool, frac: string)
    requires AreDigits(whole) && AreDigits(frac) && (!point ==> frac == "")
    ensures var body := Signed(minus, whole) + if point then "." + frac else "";
      && 'e' !in body && 'E' !in body
      && Split(body, '.') == if point then [Signed(minus, whole), frac] else [Signed(minus, whole)]
  {
    DigitsOnly(frac);
    if point {
      NoMarksIn(minus, whole, "." + frac);
      SplitTwo(Signed(minus, whole), frac);
    } else {
      NoMarksIn(minus, whole, "");
      SplitOne(Signed(minus, whole));
    }
  }

  lemma {:induction false} SignTaken(sign: string, body: string)
    requires sign in {"", "+", "-"} && body != "" && (sign == "" ==> body[0] !in {'-', '+'})
    ensures var text := sign + body;
      && Unsigned(text) == body && (text[0] == '-' <==> sign == "-")
      && (body !in {"-", "+"} && 'e' !in body && 'E' !in body ==>
            text !in {"", "-", "+"} && 'e' !in text && 'E' !in text)
  {
    var text := sign + body;
    assert sign == "" ==> text == body;
    assert sign != "" ==> text[0] == sign[0] && text[1..] == body;
  }

  lemma {:induction false} BodyShape(minus: bool, whole: string, point: bool, frac: string)
    requires AreDigits(whole) && AreDigits(frac) && (whole != "" || frac != "") && (!point ==> frac == "")
    requires minus ==> whole != ""
    ensures var body := Signed(minus, whole) + if point then "." + frac else "";
      body != "" && body !in {"-", "+"} && body[0] != '+' && (body[0] == '-' <==> minus)
  {
    DigitsOnly(whole);
    var tail := if point then "." + frac else "";
    var body := Signed(minus, whole) + tail;
    if minus {
      assert body[0] == '-' && body[1] == whole[0];
    } else if whole != "" {
      assert body[0] == whole[0];
    } else {
      assert body == tail && tail[0] == '.';
    }
  }

  /** Text of this form, with or without spaces around it, is read as its digits and signs say; two minuses cancel. */
  lemma {:induction false} EnteredReads(value: string, sign: string, minus: bool, whole: string, point: bool,
                                        frac: string, dec: nat)
    requires Enterable(sign, minus, whole, point, frac, dec) && dec <= 36
    requires Trim(value) == Entered(sign, minus, whole, point, frac) && (sign == "" ==> !minus)
    ensures ParseUnits(value, dec) == Ok(Negated((sign == "-") != minus, EnteredValue(whole, frac, dec)))
  {
    EnteredParts(minus, whole, point, frac);
    BodyShape(minus, whole, point, frac);
    SignTaken(sign, Signed(minus, whole) + if point then "." + frac else "");
    if minus {
      MinusParts(sign == "-", whole, frac, dec);
    } else {
      PlainParts(sign == "-", whole, frac, dec);
    }
  }

  lemma {:induction false} DigitsAfterMinus(s: string)
    requires s != "" && IsInteger(s)
    ensures s == Signed(s[0] == '-', if s[0] == '-' then s[1..] else s)
    ensures AreDigits(if s[0] == '-' then s[1..] else s) && (if s[0] == '-' then s[1..] else s) != ""
  {
  }

  /** A minus after the point is never accepted. */
  lemma {:induction false} NoLateMinus(intPart: string, fracPart: string, dec: nat)
    requires fracPart != "" && fracPart[0] == '-' && (intPart == "" || IsInteger(intPart))
    ensures !IsInteger((if intPart == "" then "0" else intPart) + PadEnd(fracPart, dec, '0'))
  {
    var shown := if intPart == "" then "0" else intPart;
    var combined := shown + PadEnd(fracPart, dec, '0');
    assert combined[|shown|] == '-';
    if combined[0] == '-' {
      assert combined[1..][|shown| - 1] == '-';
      if AreDigits(combined[1..]) { DigitsOnly(combined[1..]); }
    } else if AreDigits(combined) {
      DigitsOnly(combined);
    }
  }

  lemma {:induction false} AcceptedParts(negative: bool, intPart: string, frac: string, dec: nat)
    returns (minus: bool, whole: string)
    requires ParseParts(negative, intPart, frac, dec).Ok?
    ensures intPart == Signed(minus, whole) && AreDigits(whole) && AreDigits(frac) && |frac| <= dec
    ensures (whole != "" || frac != "") && (minus ==> whole != "")
  {
    minus := intPart != "" && intPart[0] == '-';
    whole := if minus then intPart[1..] else intPart;
    if intPart != "" { DigitsAfterMinus(intPart); }
    if frac != "" {
      DigitsAfterMinus(frac);
      if frac[0] == '-' { NoLateMinus(intPart, frac, dec); }
    }
  }

  lemma SplitBody(body: string)
    requires |Split(body, '.')| <= 2
    ensures var parts := Split(body, '.');
      && |parts| >= 1
      && body == parts[0] + if |parts| == 2 then "." + parts[1] else ""
  {
    var parts := Split(body, '.');
    JoinSplit(body, '.');
    if |parts| == 2 { assert parts[1..] == [parts[1]]; }
  }

  /** Nothing else is read: accepted text, without the spaces around it, has that form. */
  lemma {:induction false} AcceptedIsEntered(value: string, dec: nat)
    returns (sign: string, minus: bool, whole: string, point: bool, frac: string)
    requires ParseUnits(value, dec).Ok?
    ensures dec <= 36 && Enterable(sign, minus, whole, point, frac, dec)
    ensures Trim(value) == Entered(sign, minus, whole, point, frac) && (sign == "" ==> !minus)
  {
    var text := Trim(value);
    var body := Unsigned(text);
    var parts := Split(body, '.');
    sign := if body == text then "" else text[..1];
    point := |parts| == 2;
    frac := if point then parts[1] else "";
    minus, whole := AcceptedParts(text[0] == '-', parts[0], frac, dec);
    SplitBody(body);
    if body != text { assert text[..1] == [text[0]]; }
    assert sign in {"", "+", "-"} && text == sign + body;
    assert minus ==> body[0] == '-';
  }

  // ----- The web app's pair -----

  /** `/^\d+(\.\d+)?$/`. */
  predicate IsPlainDecimal(s: string) {
    var parts := Split(s, '.');
    |parts| <= 2 && IsPart(parts[0]) && (|parts| == 2 ==> IsPart(parts[1]))
  }

  function ToBaseUnits(displayAmount: string, decimals: nat): Result<string, UnitsError> {
    var trimmed := Trim(displayAmount);
    if trimmed in {"", "0", "."} then Ok("0")
    else if !IsPlainDecimal(trimmed) then Err(BadFormat)
    else
      var parts := Split(trimmed, '.');
      var fracPart := if |parts| == 2 then parts[1] else "";
      var combined := StripStart(parts[0] + PadEnd(fracPart, decimals, '0')[..decimals], '0');
      Ok(if combined == "" then "0" else combined)
  }

  function FromBaseUnits(baseUnits: string, decimals: nat): string {
    var trimmed := StripStart(Trim(baseUnits), '0');
    if trimmed == "" then "0" else ShowBase(trimmed, decimals)
  }

  function ShowBase(trimmed: string, decimals: nat): string {
    if |trimmed| <= decimals then
      var frac := StripEnd(PadStart(trimmed, decimals, '0'), '0');
      if frac == "" then "0" else Plain("0", frac)
    else
      Plain(trimmed[..|trimmed| - decimals], StripEnd(trimmed[|trimmed| - decimals..], '0'))
  }

  /** The digits of a value: what stripping leading zeros leaves. */
  lemma StrippedIsValue(s: string)
    requires AreDigits(s)
    ensures var stripped := StripStart(s, '0');
      (if stripped == "" then "0" else stripped) == ToDigits(FromDigits(s))
  {
    StripStartPads(s, '0');
    var stripped := StripStart(s, '0');
    var n := |s| - |stripped|;
    DigitsAppend(Repeat('0', n), stripped);
    FromPadded(n, stripped);
    if stripped != "" {
      StripStops(s, '0');
      ToFromDigits(stripped);
    }
  }

  lemma {:induction false} StripStops(s: string, c: char)
    ensures StripStart(s, c) == "" || StripStart(s, c)[0] != c
  {
    if s != [] && s[0] == c { StripStops(s[1..], c); }
  }

  /** On plain decimal text with at most `decimals` places, the digits are those of the exact value. */
  lemma ToBaseReads(intPart: string, fracPart: string, decimals: nat)
    requires IsPart(intPart) && (fracPart != "" ==> IsPart(fracPart)) && |fracPart| <= decimals
    ensures var combined := intPart + PadEnd(fracPart, decimals, '0');
      AreDigits(combined) && ToBaseUnits(Plain(intPart, fracPart), decimals) == Ok(ToDigits(FromDigits(combined)))
  {
    PaddedEnd(intPart, fracPart, decimals);
    PlainShape(intPart, fracPart);
    TrimPlain(Plain(intPart, fracPart));
    var padded := PadEnd(fracPart, decimals, '0');
    assert padded[..decimals] == padded;
    if Plain(intPart, fracPart) == "0" {
      ZeroReads(decimals);
      assert intPart == "0" && fracPart == "";
    } else {
      StrippedIsValue(intPart + padded);
      assert IsPlainDecimal(Plain(intPart, fracPart));
    }
  }

  lemma ZeroReads(decimals: nat)
    ensures AreDigits("0" + PadEnd("", decimals, '0')) && FromDigits("0" + PadEnd("", decimals, '0')) == 0
  {
    FromShifted("0", decimals);
    assert "0"[..0] == "" && FromDigits("0") == 0;
    assert decimals > 0 ==> PadEnd("", decimals, '0') == Repeat('0', decimals);
    assert "0" + PadEnd("", decimals, '0') == "0" + Repeat('0', decimals);
  }

  lemma DigitsStay(n: nat)
    requires n > 0
    ensures StripStart(Trim(ToDigits(n)), '0') == ToDigits(n)
  {
    NoLeadingZero(n);
    DigitsOnly(ToDigits(n));
    TrimPlain(ToDigits(n));
  }

  lemma ZeroRoundTrip(decimals: nat)
    ensures ToBaseUnits(FromBaseUnits("0", decimals), decimals) == Ok("0")
  {
    TrimPlain("0");
    assert StripStart("0", '0') == StripStart("0"[1..], '0') == "";
  }

  /** Base units survive the trip through display text. */
  lemma BaseUnitsRoundTrip(n: nat, decimals: nat)
    ensures ToBaseUnits(FromBaseUnits(ToDigits(n), decimals), decimals) == Ok(ToDigits(n))
  {
    if n == 0 {
      ZeroRoundTrip(decimals);
    } else {
      BaseShown(n, decimals);
      ShownRoundTrip(n, decimals);
    }
  }

  lemma BaseShown(n: nat, decimals: nat)
    requires n > 0
    ensures FromBaseUnits(ToDigits(n), decimals) == ShowBase(ToDigits(n), decimals)
  {
    DigitsStay(n);
  }

  lemma ShownRoundTrip(n: nat, decimals: nat)
    requires n > 0
    ensures ToBaseUnits(ShowBase(ToDigits(n), decimals), decimals) == Ok(ToDigits(n))
  {
    if |ToDigits(n)| <= decimals { SmallRoundTrip(n, decimals); } else { LargeRoundTrip(n, decimals); }
  }

  /** The stripped fraction, padded back, has the digits of the value. */
  lemma SmallValue(digits: string, decimals: nat)
    requires AreDigits(digits) && |digits| <= decimals
    ensures var frac := StripEnd(PadStart(digits, decimals, '0'), '0');
      && (frac != "" ==> IsPart(frac)) && |frac| <= decimals
      && AreDigits("0" + PadEnd(frac, decimals, '0'))
      && FromDigits("0" + PadEnd(frac, decimals, '0')) == FromDigits(digits)
      && (frac == "" ==> FromDigits(digits) == 0)
  {
    PaddedValue(digits, decimals);
    var padded := PadStart(digits, decimals, '0');
    var frac := StripEnd(padded, '0');
    StripsBack(padded);
    StripDigits(padded, frac);
    FromPadded(1, padded);
    assert Repeat('0', 1) == "0";
    if frac == "" {
      FromZeros(decimals);
      assert padded == Repeat('0', decimals);
    }
  }

  lemma StripsBack(s: string)
    ensures |StripEnd(s, '0')| <= |s| && PadEnd(StripEnd(s, '0'), |s|, '0') == s
    ensures StripEnd(s, '0') == "" ==> s == Repeat('0', |s|)
  {
    StripPadEnd(s, StripEnd(s, '0'), '0', |s|);
    assert Repeat('0', 0) == "" && s + "" == s;
    StripPads(s, StripEnd(s, '0'), '0');
    assert "" + Repeat('0', |s|) == Repeat('0', |s|);
  }

  lemma SmallRoundTrip(n: nat, decimals: nat)
    requires n > 0 && |ToDigits(n)| <= decimals
    ensures var frac := StripEnd(PadStart(ToDigits(n), decimals, '0'), '0');
      frac != "" && ToBaseUnits(Plain("0", frac), decimals) == Ok(ToDigits(n))
  {
    FromToDigits(n);
    SmallValue(ToDigits(n), decimals);
    ToBaseReads("0", StripEnd(PadStart(ToDigits(n), decimals, '0'), '0'), decimals);
  }

  lemma LargeValue(digits: string, decimals: nat)
    requires AreDigits(digits) && |digits| > decimals
    ensures var frac := StripEnd(digits[|digits| - decimals..], '0');
      && IsPart(digits[..|digits| - decimals]) && (frac != "" ==> IsPart(frac)) && |frac| <= decimals
      && digits[..|digits| - decimals] + PadEnd(frac, decimals, '0') == digits
  {
    var tail := digits[|digits| - decimals..];
    DigitsSplit(digits, |digits| - decimals);
    StripsBack(tail);
    StripDigits(tail, StripEnd(tail, '0'));
  }

  lemma LargeRoundTrip(n: nat, decimals: nat)
    requires |ToDigits(n)| > decimals
    ensures var digits := ToDigits(n);
      var frac := StripEnd(digits[|digits| - decimals..], '0');
      ToBaseUnits(Plain(digits[..|digits| - decimals], frac), decimals) == Ok(ToDigits(n))
  {
    FromToDigits(n);
    var digits := ToDigits(n);
    LargeValue(digits, decimals);
    ToBaseReads(digits[..|digits| - decimals], StripEnd(digits[|digits| - decimals..], '0'), decimals);
  }

  /** Where both accept a text, both read the same amount. */
  lemma UnitsAgree(text: string, dec: nat)
    requires ParseUnits(text, dec).Ok? && ToBaseUnits(text, dec).Ok?
    ensures ToBaseUnits(text, dec).value == FormatInteger(ParseUnits(text, dec).value)
  {
    var trimmed := Trim(text);
    TrimIdempotent(text);
    PointRejected(text, dec);
    if trimmed == "0" { SplitNone("0", '.'); }
    var parts := Split(trimmed, '.');
    var intPart, fracPart := parts[0], if |parts| == 2 then parts[1] else "";
    PartsRejoin(trimmed);
    PlainShape(intPart, fracPart);
    assert Unsigned(trimmed) == trimmed;
    ReadsText(false, intPart, fracPart, dec);
    ReadsParts(false, intPart, fracPart, dec);
    ToBaseReads(intPart, fracPart, dec);
  }

  /** What the web app accepts: nothing, a lone point, or digits with or without a point and digits after it. */
  lemma {:induction false} ToBaseAcceptsIff(text: string, decimals: nat)
    ensures ToBaseUnits(text, decimals).Ok? <==>
      || Trim(text) in {"", "."}
      || exists whole, frac :: IsPart(whole) && (frac == "" || IsPart(frac)) && Trim(text) == Plain(whole, frac)
    ensures Trim(text) in {"", "."} ==> ToBaseUnits(text, decimals) == Ok("0")
  {
    var trimmed := Trim(text);
    if trimmed == "0" { assert IsPart("0") && Plain("0", "") == "0" by { assert "0"[..0] == ""; } }
    if IsPlainDecimal(trimmed) { PartsRejoin(trimmed); }
    if whole, frac :| IsPart(whole) && (frac == "" || IsPart(frac)) && trimmed == Plain(whole, frac) {
      PlainShape(whole, frac);
    }
  }

  /** Decimals beyond the places there are, are cut off. */
  lemma {:induction false} ToBaseCuts(whole: string, frac: string, decimals: nat)
    requires IsPart(whole) && IsPart(frac) && |frac| > decimals
    ensures AreDigits(whole + frac[..decimals])
    ensures ToBaseUnits(Plain(whole, frac), decimals) == Ok(ToDigits(FromDigits(whole + frac[..decimals])))
  {
    PlainShape(whole, frac);
    TrimPlain(Plain(whole, frac));
    DigitsSplit(frac, decimals);
    DigitsAppend(whole, frac[..decimals]);
    StrippedIsValue(whole + frac[..decimals]);
    assert |Plain(whole, frac)| >= 3;
  }

  /** Text in scientific notation is refused as such, whatever else is wrong with it. */
  lemma {:induction false} ScientificIff(value: string, dec: nat)
    ensures ParseUnits(value, dec) == Err(Scientific) <==> dec <= 36 && ('e' in Trim(value) || 'E' in Trim(value))
  {
  }

  lemma {:induction false} StripEndStops(s: string, c: char)
    ensures StripEnd(s, c) != "" ==> StripEnd(s, c)[|StripEnd(s, c)| - 1] != c
  {
    if s != "" && s[|s| - 1] == c { StripEndStops(s[..|s| - 1], c); }
  }

  /** Trimmed, no zero ends the decimals; untrimmed, as many are written as were asked for. */
  lemma {:induction false} WrittenDecimals(str: string, dec: nat, options: FormatOptions)
    requires dec <= |str| && (options.maxDecimals.Some? ==> options.maxDecimals.value >= 0)
    ensures var places := if options.maxDecimals.Some? && options.maxDecimals.value < dec then options.maxDecimals.value
                          else dec;
      var frac := Written(str, dec, options).1;
      if options.trimTrailingZeros then |frac| <= places && (frac != "" ==> frac[|frac| - 1] != '0')
      else |frac| == places
  {
    var cut := str[|str| - dec..][..Places(dec, options)];
    StripEndStops(cut, '0');
    StripEndPrefix(cut, '0');
  }

  /** Base units are shown as `formatUnits` writes them, trimmed. */
  lemma {:induction false} FormatsAgree(n: nat, decimals: nat)
    requires 0 < decimals <= 36
    ensures FormatUnits(n, decimals, FormatOptions(None, true)) == Ok(FromBaseUnits(ToDigits(n), decimals))
  {
    var digits := ToDigits(n);
    var str := PadStart(digits, decimals + 1, '0');
    var tail := str[|str| - decimals..];
    assert tail[..decimals] == tail;
    assert FormatUnits(n, decimals, FormatOptions(None, true))
        == Ok(Plain(str[..|str| - decimals], StripEnd(tail, '0')));
    if n == 0 {
      ShownZero(decimals);
    } else {
      BaseShown(n, decimals);
      if |digits| <= decimals { PadsOneMore(digits, decimals); }
    }
  }

  lemma {:induction false} PadsOneMore(digits: string, decimals: nat)
    requires |digits| <= decimals
    ensures var str := PadStart(digits, decimals + 1, '0');
      && str[..|str| - decimals] == "0" && str[|str| - decimals..] == PadStart(digits, decimals, '0')
  {
    var n := decimals - |digits|;
    assert Repeat('0', n + 1) == "0" + Repeat('0', n);
    var str := PadStart(digits, decimals + 1, '0');
    assert str == "0" + (Repeat('0', n) + digits);
    assert n == 0 ==> Repeat('0', n) + digits == digits;
    assert str[..1] == "0" && str[1..] == Repeat('0', n) + digits;
  }

  lemma {:induction false} ShownZero(decimals: nat)
    requires decimals > 0
    ensures FromBaseUnits("0", decimals) == "0"
    ensures var str := PadStart("0", decimals + 1, '0');
      Plain(str[..|str| - decimals], StripEnd(str[|str| - decimals..], '0')) == "0"
  {
    TrimPlain("0");
    assert StripStart("0", '0') == StripStart("0"[1..], '0') == "";
    PadsOneMore("0", decimals);
    FromZerosOnly(decimals);
  }

  lemma {:induction false} FromZerosOnly(decimals: nat)
    requires decimals > 0
    ensures StripEnd(PadStart("0", decimals, '0'), '0') == ""
  {
    assert Repeat('0', 1) == "0";
    RepeatJoins('0', decimals - 1, 1);
    assert decimals == 1 ==> PadStart("0", decimals, '0') == Repeat('0', 1);
    StripsZeros(decimals);
  }

  lemma {:induction false} StripsZeros(n: nat)
    ensures StripEnd(Repeat('0', n), '0') == ""
  {
    if n > 0 {
      StripsZeros(n - 1);
      assert Repeat('0', n)[..n - 1] == Repeat('0', n - 1);
    }
  }

  lemma PointRejected(text: string, dec: nat)
    ensures Trim(text) == "." ==> ParseUnits(text, dec).Err?
  {
    assert Split(".", '.') == ["", ""];
  }

  lemma PartsRejoin(s: string)
    requires IsPlainDecimal(s)
    ensures var parts := Split(s, '.');
      s == Plain(parts[0], if |parts| == 2 then parts[1] else "")
  {
    var parts := Split(s, '.');
    JoinSplit(s, '.');
    if |parts| == 2 { assert parts[1..] == [parts[1]]; }
  }

  lemma TrimIdempotent(s: string)
    ensures Trim(Trim(s)) == Trim(s)
  {
    var t := Trim(s);
    TrimEndStops(TrimStart(s));
    TrimStartStops(s);
    TrimEndPrefix(TrimStart(s));
    TrimPlain(t);
  }

  lemma {:induction false} TrimStartStops(s: string)
    ensures TrimStart(s) == "" || !IsSpace(TrimStart(s)[0])
  {
    if s != [] && IsSpace(s[0]) { TrimStartStops(s[1..]); }
  }

  lemma {:induction false} TrimEndStops(s: string)
    ensures TrimEnd(s) == "" || !IsSpace(TrimEnd(s)[|TrimEnd(s)| - 1])
  {
    if s != [] && IsSpace(s[|s| - 1]) { TrimEndStops(s[..|s| - 1]); }
  }

  lemma {:induction false} TrimEndPrefix(s: string)
    ensures TrimEnd(s) <= s
  {
    if s != [] && IsSpace(s[|s| - 1]) { TrimEndPrefix(s[..|s| - 1]); }
  }
}
