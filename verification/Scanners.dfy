/** The loader's hand-written scanners for JSON arrays (`json_get_u32_array`, `json_get_string_array`). A pointer into
    the text is what it points to: the text from there on. */
module Scanners {
  import opened Common

  const PATTERN_LEN: nat := 64

  datatype ScanError = NoSpace | Invalid

  datatype Scan<T> = Ok(values: seq<T>) | Fail(error: ScanError)

  /** `p[i]`: at the end of a C string stands its terminator. */
  function At(p: string, i: nat): char {
    if i < |p| then p[i] else '\0'
  }

  predicate IsSeparator(c: char) {
    IsSpace(c) || c == ','
  }

  function SkipSpaces(p: string): (q: string)
    ensures |q| <= |p|
  {
    if IsSpace(At(p, 0)) then SkipSpaces(p[1..]) else p
  }

  function SkipSeparators(p: string): (q: string)
    ensures |q| <= |p|
  {
    if IsSeparator(At(p, 0)) then SkipSeparators(p[1..]) else p
  }

  /** `strstr` */
  function Find(p: string, pattern: string): (at: Option<string>)
    ensures at.Some? ==> pattern <= at.value && |at.value| <= |p|
  {
    if pattern <= p then Some(p) else if At(p, 0) == '\0' then None else Find(p[1..], pattern)
  }

  /** `json_field`: where the value of the first mention of the key starts. */
  function Field(doc: string, key: string): Option<string> {
    var quoted := "\"" + key + "\"";
    var pattern := if |quoted| < PATTERN_LEN then quoted else quoted[..PATTERN_LEN - 1];
    var hit := Find(doc, pattern);
    if hit.None? then None
    else
      var colon := Find(hit.value[|pattern|..], ":");
      if colon.None? then None else Some(SkipSpaces(colon.value[1..]))
  }

  // ---------------------------------------------------------------- numbers

  /** The value of a digit in some base, 36 for what is no digit. */
  function DigitValue(c: char): nat {
    if '0' <= c <= '9' then c as int - 48
    else if 'A' <= c <= 'Z' then c as int - 55
    else if 'a' <= c <= 'z' then c as int - 87
    else 36
  }

  datatype Digits = Digits(value: nat, rest: string)

  function ScanDigits(p: string, base: nat, acc: nat): (d: Digits)
    requires base <= 36
    ensures |d.rest| <= |p|
    decreases |p|
  {
    if DigitValue(At(p, 0)) < base then ScanDigits(p[1..], base, acc * base + DigitValue(p[0])) else Digits(acc, p)
  }

  datatype Conversion = NoNumber | TooLarge | Converted(value: U64, rest: string)

  /** `strtoul` with base 0: spaces, a sign, then a hexadecimal, octal or decimal number. */
  function Strtoul(p: string): (c: Conversion)
    ensures c.Converted? ==> |c.rest| < |p|
  {
    Signed(SkipSpaces(p))
  }

  function Signed(q: string): (c: Conversion)
    ensures c.Converted? ==> |c.rest| < |q|
  {
    var digits := Unsigned(if At(q, 0) == '+' || At(q, 0) == '-' then q[1..] else q);
    if digits.None? then NoNumber
    else if digits.value.value > U64_MAX then TooLarge
    else
      var n := digits.value.value;
      Converted(if At(q, 0) == '-' && n > 0 then U64_MAX + 1 - n else n, digits.value.rest)
  }

  function Unsigned(d: string): (digits: Option<Digits>)
    ensures digits.Some? ==> |digits.value.rest| < |d|
  {
    var hex := At(d, 0) == '0' && (At(d, 1) == 'x' || At(d, 1) == 'X') && DigitValue(At(d, 2)) < 16;
    var first := if hex then d[2..] else d;
    var digits := ScanDigits(first, if hex then 16 else if At(d, 0) == '0' then 8 else 10, 0);
    if |digits.rest| == |first| then None else Some(digits)
  }

  /** The elements of an array of numbers, after those already found. */
  function ScanNumbers(p: string, max: nat, found: seq<nat>): (r: Scan<nat>)
    requires |found| <= max
    ensures r.Ok? ==> |r.values| <= max && found <= r.values
    ensures r.Ok? ==> forall i | |found| <= i < |r.values| :: r.values[i] <= U32_MAX
    decreases |p|
  {
    if At(p, 0) == '\0' then Fail(Invalid)
    else
      var q := SkipSeparators(p);
      if At(q, 0) == ']' then Ok(found)
      else if |found| >= max then Fail(NoSpace)
      else
        match Strtoul(q)
        case Converted(v, rest) => if v > U32_MAX then Fail(Invalid) else ScanNumbers(rest, max, found + [v])
        case NoNumber => Fail(Invalid)
        case TooLarge => Fail(Invalid)
  }

  function NumberArray(doc: string, key: string, max: nat): (r: Scan<nat>)
    ensures r.Ok? ==> |r.values| <= max && forall i | 0 <= i < |r.values| :: r.values[i] <= U32_MAX
  {
    match Field(doc, key)
    case None => Ok([])
    case Some(p) => if At(p, 0) != '[' then Fail(Invalid) else ScanNumbers(p[1..], max, [])
  }

  /** What a scanner leaves in its buffer and in its counter. */
  ghost predicate Delivers<T>(r: Scan<T>, error: Option<ScanError>, count: nat, out: seq<T>)
    requires count <= |out|
  {
    match r
    case Ok(values) => error == None && count == |values| && out[..count] == values
    case Fail(e) => error == Some(e) && count == 0
  }

  method SkipOver(p: string) returns (q: string)
    ensures q == SkipSeparators(p)
  {
    q := p;
    while IsSeparator(At(q, 0))
      invariant SkipSeparators(p) == SkipSeparators(q)
      decreases |q|
    {
      q := q[1..];
    }
  }

  /** The loop of `json_get_u32_array`, from behind the opening bracket. */
  method TakeNumbers(start: string, out: array<nat>) returns (error: Option<ScanError>, count: nat)
    modifies out
    ensures count <= out.Length && Delivers(ScanNumbers(start, out.Length, []), error, count, out[..])
  {
    var p, n := start, 0;
    while At(p, 0) != '\0'
      invariant 0 <= n <= out.Length
      invariant ScanNumbers(p, out.Length, out[..n]) == ScanNumbers(start, out.Length, [])
      decreases |p|
    {
      p := SkipOver(p);
      if At(p, 0) == ']' {
        return None, n;
      }
      if n >= out.Length {
        return Some(NoSpace), 0;
      }
      var number := Strtoul(p);
      if !number.Converted? || number.value > U32_MAX {
        return Some(Invalid), 0;
      }
      out[n] := number.value;
      assert out[..n + 1] == out[..n] + [number.value];
      n := n + 1;
      p := number.rest;
    }
    return Some(Invalid), 0;
  }

  /** `json_get_u32_array` */
  method GetU32Array(doc: string, key: string, out: array<nat>) returns (error: Option<ScanError>, count: nat)
    modifies out
    ensures count <= out.Length && Delivers(NumberArray(doc, key, out.Length), error, count, out[..])
  {
    var p := Field(doc, key);
    if p.None? {
      return None, 0;
    }
    if At(p.value, 0) != '[' {
      return Some(Invalid), 0;
    }
    error, count := TakeNumbers(p.value[1..], out);
  }

  // ---------------------------------------------------------------- strings

  /** One string up to its closing quote, a byte short of the buffer; a backslash takes the next byte as it is. */
  function ScanString(p: string, found: string): (r: (string, string))
    requires |found| < COMM_LEN
    ensures |r.0| < COMM_LEN && |r.1| <= |p|
    decreases |p|
  {
    if At(p, 0) == '\0' || At(p, 0) == '\"' || |found| + 1 >= COMM_LEN then (found, p)
    else if At(p, 0) == '\\' && At(p, 1) != '\0' then ScanString(p[2..], found + [p[1]])
    else ScanString(p[1..], found + [p[0]])
  }

  function ScanStrings(p: string, max: nat, found: seq<string>): (r: Scan<string>)
    requires |found| <= max
    ensures r.Ok? ==> |r.values| <= max && found <= r.values
    ensures r.Ok? ==> forall i | |found| <= i < |r.values| :: |r.values[i]| < COMM_LEN
    decreases |p|
  {
    if At(p, 0) == '\0' then Fail(Invalid)
    else
      var q := SkipSeparators(p);
      if At(q, 0) == ']' then Ok(found)
      else if At(q, 0) != '\"' || |found| >= max then Fail(Invalid)
      else
        var (text, rest) := ScanString(q[1..], []);
        if At(rest, 0) != '\"' then Fail(Invalid) else ScanStrings(rest[1..], max, found + [text])
  }

  function StringArray(doc: string, key: string, max: nat): (r: Scan<string>)
    ensures r.Ok? ==> |r.values| <= max && forall i | 0 <= i < |r.values| :: |r.values[i]| < COMM_LEN
  {
    match Field(doc, key)
    case None => Ok([])
    case Some(p) => if At(p, 0) != '[' then Fail(Invalid) else ScanStrings(p[1..], max, [])
  }

  method TakeString(start: string) returns (text: string, p: string)
    ensures (text, p) == ScanString(start, [])
  {
    text, p := [], start;
    while At(p, 0) != '\0' && At(p, 0) != '\"' && |text| + 1 < COMM_LEN
      invariant |text| < COMM_LEN && ScanString(start, []) == ScanString(p, text)
      decreases |p|
    {
      if At(p, 0) == '\\' && At(p, 1) != '\0' {
        p := p[1..];
      }
      text := text + [p[0]];
      p := p[1..];
    }
  }

  /** The loop of `json_get_string_array`, from behind the opening bracket. */
  method TakeStrings(start: string, out: array<string>) returns (error: Option<ScanError>, count: nat)
    modifies out
    ensures count <= out.Length && Delivers(ScanStrings(start, out.Length, []), error, count, out[..])
  {
    var p, n := start, 0;
    while At(p, 0) != '\0'
      invariant 0 <= n <= out.Length
      invariant ScanStrings(p, out.Length, out[..n]) == ScanStrings(start, out.Length, [])
      decreases |p|
    {
      p := SkipOver(p);
      if At(p, 0) == ']' {
        return None, n;
      }
      if At(p, 0) != '\"' || n >= out.Length {
        return Some(Invalid), 0;
      }
      var text, rest := TakeString(p[1..]);
      if At(rest, 0) != '\"' {
        return Some(Invalid), 0;
      }
      out[n] := text;
      assert out[..n + 1] == out[..n] + [text];
      n := n + 1;
      p := rest[1..];
    }
    return Some(Invalid), 0;
  }

  /** `json_get_string_array` */
  method GetStringArray(doc: string, key: string, out: array<string>) returns (error: Option<ScanError>, count: nat)
    modifies out
    ensures count <= out.Length && Delivers(StringArray(doc, key, out.Length), error, count, out[..])
  {
    var p := Field(doc, key);
    if p.None? {
      return None, 0;
    }
    if At(p.value, 0) != '[' {
      return Some(Invalid), 0;
    }
    error, count := TakeStrings(p.value[1..], out);
  }

  // ---------------------------------------------------------------- scanning undoes printing

  /** What stands between elements: blanks, control characters that space, and commas. */
  predicate Separators(sep: string) {
    forall i | 0 <= i < |sep| :: sep[i] in SPACES + {','}
  }

  predicate Spaces(text: string) {
    Separators(text) && ',' !in text
  }

  lemma Separates(sep: string)
    ensures Separators(sep) <==> forall i | 0 <= i < |sep| :: IsSeparator(sep[i])
    ensures Spaces(sep) <==> forall i | 0 <= i < |sep| :: IsSpace(sep[i])
  {
    if forall i | 0 <= i < |sep| :: IsSeparator(sep[i]) {
      forall i | 0 <= i < |sep|
        ensures sep[i] in SPACES + {','}
      {
        SeparatorIsListed(sep[i]);
      }
    }
  }

  lemma SeparatorIsListed(c: char)
    ensures IsSeparator(c) <==> c in SPACES + {','}
    ensures IsSpace(c) <==> IsSeparator(c) && c != ','
  {
    SpaceIsListed(c);
  }

  lemma {:induction false} SkipsSeparators(sep: string, rest: string)
    requires Separators(sep) && !IsSeparator(At(rest, 0))
    ensures SkipSeparators(sep + rest) == rest
  {
    Separates(sep);
    if sep == [] {
      assert sep + rest == rest;
    } else {
      assert (sep + rest)[1..] == sep[1..] + rest;
      SkipsSeparators(sep[1..], rest);
    }
  }

  lemma {:induction false} SkipsSpaces(spaces: string, rest: string)
    requires Spaces(spaces) && !IsSpace(At(rest, 0))
    ensures SkipSpaces(spaces + rest) == rest
  {
    Separates(spaces);
    if spaces == [] {
      assert spaces + rest == rest;
    } else {
      assert (spaces + rest)[1..] == spaces[1..] + rest;
      SkipsSpaces(spaces[1..], rest);
    }
  }

  /** The elements of an array, each after its separators, then separators, the closing bracket and whatever follows. */
  function Listed(texts: seq<string>, seps: seq<string>, end: string): string
    requires |texts| == |seps|
  {
    if texts == [] then end else seps[0] + (texts[0] + Listed(texts[1..], seps[1..], end))
  }

  /** Any spaces and commas may stand before elements. */
  predicate Separated(seps: seq<string>) {
    forall i | 0 <= i < |seps| :: Separators(seps[i])
  }

  /** Separators and the closing bracket. */
  ghost predicate Closing(end: string) {
    exists tail, rest :: Separators(tail) && end == tail + ("]" + rest)
  }

  lemma ClosingFound(end: string)
    requires Closing(end)
    ensures At(end, 0) != '\0' && At(SkipSeparators(end), 0) == ']'
    ensures IsSeparator(end[0]) || end[0] == ']'
  {
    var tail, rest :| Separators(tail) && end == tail + ("]" + rest);
    SkipsSeparators(tail, "]" + rest);
  }

  // ---------------------------------------------------------------- printed numbers

  function DigitChar(d: nat): (c: char)
    requires d < 16
    ensures DigitValue(c) == d && (c == '0' <==> d == 0) && (d < 10 ==> '0' <= c <= '9')
    ensures !IsSpace(c) && c != '+' && c != '-' && c != 'x' && c != 'X'
  {
    if d < 10 then (48 + d) as char else (87 + d) as char
  }

  /** A number printed in some base, without leading zeros. */
  function Numeral(n: nat, base: nat): (text: string)
    requires 2 <= base <= 16
    ensures |text| > 0 && (exists d | 0 <= d < base :: text[0] == DigitChar(d)) && (text[0] == '0' <==> n == 0)
  {
    if n < base then [DigitChar(n)] else Numeral(n / base, base) + [DigitChar(n % base)]
  }

  function Decimal(n: nat): (text: string)
    ensures |text| > 0 && '0' <= text[0] <= '9' && (text[0] == '0' <==> n == 0)
  {
    Numeral(n, 10)
  }

  lemma OneDigit(d: nat, rest: string, base: nat, acc: nat)
    requires d < base <= 16
    ensures ScanDigits([DigitChar(d)] + rest, base, acc) == ScanDigits(rest, base, acc * base + d)
  {
    assert ([DigitChar(d)] + rest)[1..] == rest;
  }

  lemma Divided(n: nat, base: nat)
    requires 2 <= base <= n
    ensures n / base < n && n / base * base + n % base == n && n % base < base
  {
    var high := n / base;
    assert high * base <= n;
    if high >= n {
      assert high * base >= 2 * high by { Grows(high, base); }
    }
  }

  lemma {:induction false} Grows(high: nat, base: nat)
    requires base >= 2
    ensures high * base >= 2 * high
  {
    assert high * base == 2 * high + high * (base - 2);
  }

  lemma {:induction false} DigitsOfNumeral(n: nat, base: nat, rest: string)
    requires 2 <= base <= 16
    ensures ScanDigits(Numeral(n, base) + rest, base, 0) == ScanDigits(rest, base, n)
    decreases n
  {
    if n < base {
      OneDigit(n, rest, base, 0);
    } else {
      Divided(n, base);
      var high, low := n / base, n % base;
      var last := [DigitChar(low)];
      assert Numeral(n, base) + rest == Numeral(high, base) + (last + rest);
      DigitsOfNumeral(high, base, last + rest);
      OneDigit(low, rest, base, high);
    }
  }

  /** What may follow a number. */
  predicate Ends(c: char) {
    IsSeparator(c) || c == ']'
  }

  /** `strtoul` reads back a plain decimal, whatever its size. */
  lemma StrtoulOfDecimal(n: nat, rest: string)
    requires Ends(At(rest, 0))
    ensures Strtoul(Decimal(n) + rest) == if n > U64_MAX then TooLarge else Converted(n, rest)
  {
    var p := Decimal(n) + rest;
    assert At(p, 0) == Decimal(n)[0];
    assert DigitValue(At(rest, 0)) == 36;
    if n == 0 {
      assert p[1..] == rest;
      assert ScanDigits(p, 8, 0) == ScanDigits(rest, 8, 0) == Digits(0, rest);
    } else {
      DigitsOfNumeral(n, 10, rest);
      assert ScanDigits(rest, 10, n) == Digits(n, rest);
    }
  }

  /** How base 0 tells a base. */
  function Prefix(base: nat): string {
    if base == 16 then "0x" else if base == 8 then "0" else ""
  }

  lemma UnsignedReads(base: nat, n: nat, rest: string)
    requires base == 8 || base == 16 || (base == 10 && n > 0)
    requires DigitValue(At(rest, 0)) >= base
    ensures var d := Prefix(base) + (Numeral(n, base) + rest);
            Unsigned(d) == Some(Digits(n, rest)) && !IsSpace(At(d, 0)) && At(d, 0) != '+' && At(d, 0) != '-'
  {
    var numeral := Numeral(n, base) + rest;
    var d := Prefix(base) + numeral;
    DigitsOfNumeral(n, base, rest);
    assert ScanDigits(rest, base, n) == Digits(n, rest);
    assert At(numeral, 0) == Numeral(n, base)[0];
    if base == 16 {
      assert At(d, 2) == numeral[0] && d[2..] == numeral;
    } else if base == 8 {
      assert At(d, 1) == numeral[0] && d[1..] == numeral;
    } else {
      assert d == numeral;
    }
  }

  lemma SignedReads(sign: string, d: string, digits: Digits)
    requires sign == "" || sign == "+" || sign == "-"
    requires Unsigned(d) == Some(digits) && !IsSpace(At(d, 0)) && At(d, 0) != '+' && At(d, 0) != '-'
    ensures !IsSpace(At(sign + d, 0))
    ensures Signed(sign + d) ==
            if digits.value > U64_MAX then TooLarge
            else Converted(if sign == "-" && digits.value > 0 then U64_MAX + 1 - digits.value else digits.value,
                           digits.rest)
  {
    if sign == "" {
      assert sign + d == d;
    } else {
      assert (sign + d)[1..] == d && At(sign + d, 0) == sign[0];
    }
  }

  /** `strtoul` reads back any number of any size after spaces and a sign, in decimal, octal or hexadecimal; a minus
      sign negates in 64-bit arithmetic. */
  lemma StrtoulReads(spaces: string, sign: string, base: nat, n: nat, rest: string)
    requires Spaces(spaces) && (sign == "" || sign == "+" || sign == "-")
    requires base == 8 || base == 16 || (base == 10 && n > 0)
    requires DigitValue(At(rest, 0)) >= base
    ensures Strtoul(spaces + (sign + (Prefix(base) + (Numeral(n, base) + rest)))) ==
            if n > U64_MAX then TooLarge
            else Converted(if sign == "-" && n > 0 then U64_MAX + 1 - n else n, rest)
  {
    var d := Prefix(base) + (Numeral(n, base) + rest);
    UnsignedReads(base, n, rest);
    SignedReads(sign, d, Digits(n, rest));
    SkipsSpaces(spaces, sign + d);
  }

  function Decimals(values: seq<nat>): (texts: seq<string>)
    ensures |texts| == |values|
  {
    if values == [] then [] else [Decimal(values[0])] + Decimals(values[1..])
  }

  /** Between two numbers there is at least one separator. */
  predicate Apart(seps: seq<string>) {
    forall i | 1 <= i < |seps| :: seps[i] != []
  }

  /** The outcome that the scanner should have on a list of numbers. */
  function NumbersOutcome(found: seq<nat>, values: seq<nat>, max: nat): Scan<nat> {
    if exists i | 0 <= i < |values| && |found| + i < max :: values[i] > U32_MAX then Fail(Invalid)
    else if |found| + |values| > max then Fail(NoSpace)
    else Ok(found + values)
  }

  lemma OutcomeStep(found: seq<nat>, values: seq<nat>, max: nat)
    requires values != [] && |found| < max
    ensures NumbersOutcome(found, values, max) ==
            if values[0] > U32_MAX then Fail(Invalid) else NumbersOutcome(found + [values[0]], values[1..], max)
  {
    assert found + [values[0]] + values[1..] == found + values;
    if values[0] <= U32_MAX && exists i | 0 <= i < |values| && |found| + i < max :: values[i] > U32_MAX {
      var i :| 0 <= i < |values| && |found| + i < max && values[i] > U32_MAX;
      assert values[1..][i - 1] > U32_MAX;
    }
  }

  /** What follows a number ends it. */
  lemma NumberEnds(texts: seq<string>, seps: seq<string>, end: string)
    requires |texts| == |seps| && Separated(seps) && (seps != [] ==> seps[0] != []) && Closing(end)
    ensures Ends(At(Listed(texts, seps, end), 0))
  {
    ClosingFound(end);
  }

  /** One turn of the scanner's loop on a printed number. */
  lemma NumberTaken(sep: string, value: nat, rest: string, max: nat, found: seq<nat>)
    requires Separators(sep) && Ends(At(rest, 0)) && |found| <= max
    ensures ScanNumbers(sep + (Decimal(value) + rest), max, found) ==
            if |found| >= max then Fail(NoSpace)
            else if value > U32_MAX then Fail(Invalid)
            else ScanNumbers(rest, max, found + [value])
  {
    var q := Decimal(value) + rest;
    assert At(q, 0) == Decimal(value)[0];
    SkipsSeparators(sep, q);
    assert At(sep + q, 0) == (if sep == [] then q[0] else sep[0]);
    StrtoulOfDecimal(value, rest);
  }

  lemma {:induction false} ScansNumbers(values: seq<nat>, seps: seq<string>, end: string, max: nat, found: seq<nat>)
    requires |values| == |seps| && Separated(seps) && Apart(seps) && Closing(end) && |found| <= max
    ensures ScanNumbers(Listed(Decimals(values), seps, end), max, found) == NumbersOutcome(found, values, max)
    decreases |values|
  {
    if values == [] {
      ClosingFound(end);
      assert found + values == found;
    } else {
      var others := Decimals(values[1..]);
      NumberEnds(others, seps[1..], end);
      NumberTaken(seps[0], values[0], Listed(others, seps[1..], end), max, found);
      if |found| < max {
        OutcomeStep(found, values, max);
        if values[0] <= U32_MAX {
          ScansNumbers(values[1..], seps[1..], end, max, found + [values[0]]);
        }
      }
    }
  }

  // ---------------------------------------------------------------- printed strings

  function EscapedChar(c: char): string {
    if c == '\"' || c == '\\' then ['\\', c] else [c]
  }

  function Escaped(text: string): string {
    if text == [] then [] else EscapedChar(text[0]) + Escaped(text[1..])
  }

  function Quoted(text: string, rest: string): string {
    "\"" + (Escaped(text) + ("\"" + rest))
  }

  /** Quoted elements, each after its separators. */
  function ListedStrings(texts: seq<string>, seps: seq<string>, end: string): string
    requires |texts| == |seps|
  {
    if texts == [] then end else seps[0] + Quoted(texts[0], ListedStrings(texts[1..], seps[1..], end))
  }

  predicate Terminated(text: string) {
    forall i | 0 <= i < |text| :: text[i] != '\0'
  }

  lemma CharTaken(c: char, rest: string, found: string)
    requires c != '\0' && |found| < COMM_LEN
    ensures var p := EscapedChar(c) + rest;
            ScanString(p, found) == if |found| + 1 >= COMM_LEN then (found, p) else ScanString(rest, found + [c])
    ensures At(EscapedChar(c) + rest, 0) != '\"'
  {
    var p := EscapedChar(c) + rest;
    assert p[|EscapedChar(c)|..] == rest;
  }

  /** A printed string is read back whole, or the scan stops short of its closing quote. */
  lemma {:induction false} ScansEscaped(text: string, rest: string, found: string)
    requires Terminated(text) && |found| < COMM_LEN && At(rest, 0) == '\"'
    ensures var r := ScanString(Escaped(text) + rest, found);
            if |found| + |text| < COMM_LEN then r == (found + text, rest) else At(r.1, 0) != '\"'
    decreases |text|
  {
    if text == [] {
      assert Escaped(text) + rest == rest && found + text == found;
    } else {
      var c, others := text[0], Escaped(text[1..]) + rest;
      assert Escaped(text) + rest == EscapedChar(c) + others;
      CharTaken(c, others, found);
      if |found| + 1 < COMM_LEN {
        ScansEscaped(text[1..], rest, found + [c]);
        assert found + [c] + text[1..] == found + text;
      }
    }
  }

  predicate Names(texts: seq<string>) {
    forall i | 0 <= i < |texts| :: |texts[i]| < COMM_LEN
  }

  function StringsOutcome(found: seq<string>, texts: seq<string>, max: nat): Scan<string> {
    if |found| + |texts| <= max && Names(texts) then Ok(found + texts) else Fail(Invalid)
  }

  lemma StringsStep(found: seq<string>, texts: seq<string>, max: nat)
    requires texts != []
    ensures StringsOutcome(found, texts, max) ==
            if |found| >= max || |texts[0]| >= COMM_LEN then Fail(Invalid)
            else StringsOutcome(found + [texts[0]], texts[1..], max)
  {
    assert found + [texts[0]] + texts[1..] == found + texts;
    assert Names(texts) <==> |texts[0]| < COMM_LEN && Names(texts[1..]) by {
      if |texts[0]| < COMM_LEN && Names(texts[1..]) {
        assert forall i | 1 <= i < |texts| :: texts[i] == texts[1..][i - 1];
      }
    }
  }

  /** One turn of the scanner's loop on a printed string. */
  lemma StringTaken(sep: string, text: string, rest: string, max: nat, found: seq<string>)
    requires Separators(sep) && Terminated(text) && |found| <= max
    ensures ScanStrings(sep + Quoted(text, rest), max, found) ==
            if |found| >= max || |text| >= COMM_LEN then Fail(Invalid) else ScanStrings(rest, max, found + [text])
  {
    var q := Quoted(text, rest);
    SkipsSeparators(sep, q);
    assert At(sep + q, 0) == (if sep == [] then q[0] else sep[0]);
    ScansEscaped(text, "\"" + rest, []);
    assert [] + text == text;
    assert ("\"" + rest)[1..] == rest;
  }

  lemma {:induction false} ScansStrings(texts: seq<string>, seps: seq<string>, end: string, max: nat,
                                        found: seq<string>)
    requires |texts| == |seps| && Separated(seps) && Closing(end) && |found| <= max
    requires forall i | 0 <= i < |texts| :: Terminated(texts[i])
    ensures ScanStrings(ListedStrings(texts, seps, end), max, found) == StringsOutcome(found, texts, max)
    decreases |texts|
  {
    if texts == [] {
      ClosingFound(end);
      assert found + texts == found;
    } else {
      StringTaken(seps[0], texts[0], ListedStrings(texts[1..], seps[1..], end), max, found);
      StringsStep(found, texts, max);
      if |found| < max && |texts[0]| < COMM_LEN {
        ScansStrings(texts[1..], seps[1..], end, max, found + [texts[0]]);
      }
    }
  }

  // ---------------------------------------------------------------- whole documents

  /** The document `{"key":` spaces, then the value and whatever follows. */
  function Document(key: string, spaces: string, value: string): string {
    "{" + ("\"" + key + "\"" + (":" + (spaces + value)))
  }

  /** The scanner finds the value. */
  lemma FieldOfDocument(key: string, spaces: string, value: string)
    requires |key| + 2 < PATTERN_LEN && Spaces(spaces) && !IsSpace(At(value, 0))
    ensures Field(Document(key, spaces, value), key) == Some(value)
  {
    var pattern, colon := "\"" + key + "\"", ":" + (spaces + value);
    var doc := Document(key, spaces, value);
    assert doc[0] == '{' && pattern[0] == '\"';
    assert doc[1..] == pattern + colon && pattern <= doc[1..];
    assert Find(doc, pattern) == Some(pattern + colon);
    assert (pattern + colon)[|pattern|..] == colon;
    assert colon[1..] == spaces + value && ":" <= colon;
    SkipsSpaces(spaces, value);
  }

  /** Reading back any printed list of numbers, of any size and in any number, from a document that starts with it. */
  lemma NumbersRoundTrip(key: string, spaces: string, values: seq<nat>, seps: seq<string>, end: string, max: nat)
    requires |key| + 2 < PATTERN_LEN && Spaces(spaces)
    requires |values| == |seps| && Separated(seps) && Apart(seps) && Closing(end)
    ensures NumberArray(Document(key, spaces, "[" + Listed(Decimals(values), seps, end)), key, max) ==
            NumbersOutcome([], values, max)
  {
    var elements := Listed(Decimals(values), seps, end);
    FieldOfDocument(key, spaces, "[" + elements);
    assert ("[" + elements)[1..] == elements;
    ScansNumbers(values, seps, end, max, []);
  }

  /** The list itself comes back exactly when it fits the buffer and every number 32 bits. */
  lemma NumbersComeBackIff(values: seq<nat>, max: nat)
    ensures NumbersOutcome([], values, max) == Ok(values) <==>
            |values| <= max && forall i | 0 <= i < |values| :: values[i] <= U32_MAX
  {
    assert [] + values == values;
  }

  /** Reading back any printed list of strings: it comes back whole if it fits and each string has at most 15 bytes,
      and is refused otherwise. */
  lemma StringsRoundTrip(key: string, spaces: string, texts: seq<string>, seps: seq<string>, end: string, max: nat)
    requires |key| + 2 < PATTERN_LEN && Spaces(spaces)
    requires |texts| == |seps| && Separated(seps) && Closing(end) && forall i | 0 <= i < |texts| :: Terminated(texts[i])
    ensures StringArray(Document(key, spaces, "[" + ListedStrings(texts, seps, end)), key, max) ==
            if |texts| <= max && Names(texts) then Ok(texts) else Fail(Invalid)
  {
    var elements := ListedStrings(texts, seps, end);
    FieldOfDocument(key, spaces, "[" + elements);
    assert ("[" + elements)[1..] == elements;
    ScansStrings(texts, seps, end, max, []);
    assert [] + texts == texts;
  }

  // ---------------------------------------------------------------- what is not there, or not as it should be

  /** The pattern stands at position `i`, with no terminator before. */
  ghost predicate StandsAt(p: string, pattern: string, i: nat)
    requires i <= |p|
  {
    pattern <= p[i..] && forall j | 0 <= j < i :: p[j] != '\0'
  }

  /** `strstr` finds the first place where the pattern stands, and nothing only if it stands nowhere. */
  lemma {:induction false} FindsFirst(p: string, pattern: string)
    ensures var at := Find(p, pattern);
            if at.Some? then
              exists i :: 0 <= i <= |p| && StandsAt(p, pattern, i) && at.value == p[i..]
                          && forall j | 0 <= j < i :: !(pattern <= p[j..])
            else forall i | 0 <= i <= |p| :: !StandsAt(p, pattern, i)
    decreases |p|
  {
    if pattern <= p {
      assert p[0..] == p && StandsAt(p, pattern, 0);
    } else if At(p, 0) == '\0' {
      forall i | 0 <= i <= |p|
        ensures !StandsAt(p, pattern, i)
      {
        if i == 0 { assert p[0..] == p; }
      }
    } else {
      FindsFirst(p[1..], pattern);
      assert forall i | 0 <= i < |p| :: p[1..][i..] == p[i + 1..];
      var at := Find(p, pattern);
      if at.Some? {
        var i :| 0 <= i <= |p[1..]| && StandsAt(p[1..], pattern, i) && at.value == p[1..][i..]
                 && forall j | 0 <= j < i :: !(pattern <= p[1..][j..]);
        FoundLater(p, pattern, i);
      } else {
        NotFoundLater(p, pattern);
      }
    }
  }

  lemma FoundLater(p: string, pattern: string, i: nat)
    requires |p| > 0 && p[0] != '\0' && !(pattern <= p) && i <= |p[1..]| && StandsAt(p[1..], pattern, i)
    requires forall j | 0 <= j < i :: !(pattern <= p[1..][j..])
    ensures StandsAt(p, pattern, i + 1) && p[1..][i..] == p[i + 1..]
    ensures forall j | 0 <= j < i + 1 :: !(pattern <= p[j..])
  {
    forall j | 0 <= j < i + 1
      ensures !(pattern <= p[j..])
      ensures p[j] != '\0'
    {
      if j == 0 {
        assert p[0..] == p;
      } else {
        assert p[1..][j - 1..] == p[j..] && p[1..][j - 1] == p[j];
      }
    }
  }

  lemma NotFoundLater(p: string, pattern: string)
    requires |p| > 0 && p[0] != '\0' && !(pattern <= p)
    requires forall i | 0 <= i <= |p[1..]| :: !StandsAt(p[1..], pattern, i)
    ensures forall i | 0 <= i <= |p| :: !StandsAt(p, pattern, i)
  {
    forall i | 0 <= i <= |p|
      ensures !StandsAt(p, pattern, i)
    {
      if i == 0 {
        assert p[0..] == p;
      } else {
        StandsLater(p, pattern, i - 1);
      }
    }
  }

  lemma StandsLater(p: string, pattern: string, i: nat)
    requires i < |p|
    ensures StandsAt(p, pattern, i + 1) ==> StandsAt(p[1..], pattern, i)
  {
    assert p[1..][i..] == p[i + 1..];
    assert forall j | 0 <= j < i :: p[1..][j] == p[j + 1];
  }

  lemma {:induction false} FindsNoColon(p: string)
    requires ':' !in p
    ensures Find(p, ":").None?
  {
    var colon := ":";
    assert colon[0] == ':' && (p != [] ==> p[0] in p && p[0] != colon[0]);
    if p != [] { FindsNoColon(p[1..]); }
  }

  /** A document that does not mention the key in quotes, or no colon behind it, has an empty array. */
  lemma AbsentKeyIsEmpty(doc: string, key: string, max: nat)
    requires |key| + 2 < PATTERN_LEN
    requires forall i | 0 <= i <= |doc| :: StandsAt(doc, "\"" + key + "\"", i) ==> ':' !in doc[i + |key| + 2..]
    ensures NumberArray(doc, key, max) == Ok([]) && StringArray(doc, key, max) == Ok([])
  {
    var pattern := "\"" + key + "\"";
    FindsFirst(doc, pattern);
    var hit := Find(doc, pattern);
    if hit.Some? {
      var i :| 0 <= i <= |doc| && StandsAt(doc, pattern, i) && hit.value == doc[i..];
      var rest := hit.value[|pattern|..];
      assert rest == doc[i + |key| + 2..];
      FindsNoColon(rest);
    }
  }

  /** A value that is no array is refused. */
  lemma NoArrayIsInvalid(key: string, spaces: string, value: string, max: nat)
    requires |key| + 2 < PATTERN_LEN && Spaces(spaces) && !IsSpace(At(value, 0)) && At(value, 0) != '['
    ensures NumberArray(Document(key, spaces, value), key, max) == Fail(Invalid)
    ensures StringArray(Document(key, spaces, value), key, max) == Fail(Invalid)
  {
    FieldOfDocument(key, spaces, value);
  }

  /** Behind a number, or at the start, nothing but a separator, a bracket or a number is read: anything else, or the
      end of the text, makes the array invalid. */
  lemma StrayIsInvalid(sep: string, rest: string, max: nat, found: seq<nat>)
    requires Separators(sep) && |found| < max
    requires At(rest, 0) !in SPACES + {',', ']', '+', '-'}
    requires !('0' <= At(rest, 0) <= '9')
    ensures ScanNumbers(sep + rest, max, found) == Fail(Invalid)
  {
    SeparatorIsListed(At(rest, 0));
    SkipsSeparators(sep, rest);
    if sep + rest != [] && At(sep + rest, 0) != '\0' {
      assert DigitValue(At(rest, 0)) >= 10;
      NoDigits(rest);
    }
  }

  lemma NoDigits(rest: string)
    requires DigitValue(At(rest, 0)) >= 10 && !IsSpace(At(rest, 0)) && At(rest, 0) != '+' && At(rest, 0) != '-'
    ensures Strtoul(rest) == NoNumber
  {
    assert At(rest, 0) != '0';
  }

  /** The same for strings: an element that does not start with a quote is refused. */
  lemma StrayStringIsInvalid(sep: string, rest: string, max: nat, found: seq<string>)
    requires Separators(sep) && |found| <= max
    requires At(rest, 0) !in SPACES + {',', ']', '\"'}
    ensures ScanStrings(sep + rest, max, found) == Fail(Invalid)
  {
    SeparatorIsListed(At(rest, 0));
    SkipsSeparators(sep, rest);
  }

  /** A backslash takes the next byte as it is, whatever it is. */
  lemma BackslashTakesNext(c: char, rest: string, found: string)
    requires c != '\0' && |found| + 1 < COMM_LEN
    ensures ScanString(['\\', c] + rest, found) == ScanString(rest, found + [c])
  {
    var p := ['\\', c] + rest;
    assert p[2..] == rest;
  }

  /** Capital letters are digits like small ones, in the prefix too. */
  lemma CapitalsCount(c: char, digits: string)
    requires 'A' <= c <= 'Z'
    ensures DigitValue(c) == DigitValue((c as int + 32) as char) == 10 + (c as int - 'A' as int)
    ensures Unsigned("0X" + digits) == (if DigitValue(At(digits, 0)) < 16 then Unsigned("0x" + digits)
                                        else Some(Digits(0, "X" + digits)))
  {
    var big, small := "0X" + digits, "0x" + digits;
    assert big[2..] == small[2..] == digits && At(big, 2) == At(small, 2) == At(digits, 0);
    assert big[1..] == "X" + digits;
    assert ScanDigits(big, 8, 0) == ScanDigits(big[1..], 8, 0) == Digits(0, big[1..]);
  }
}
