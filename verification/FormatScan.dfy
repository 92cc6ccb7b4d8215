/**
 * The scan of a printf format for strings bounded by a `*` precision, against
 * a grammar of conversions (a subset of section 7.21.6.1 of ISO/IEC 9899:2011).
 */
module FormatScan {
  import opened Bytes

  const MASK_BITS: nat := 32

  // ---- The grammar ----

  /** A width or precision: taken from an argument, or the digits written, possibly none. */
  datatype Amount = Star | Digits(digits: string)

  /** What stands between `%` and the conversion character. */
  datatype Spec = Spec(flags: string, width: Amount, precision: Option<Amount>, length: string)

  datatype Item =
    | Literal(c: char)
    | Percent
    | Conversion(spec: Spec, conv: char)
    | Unfinished(spec: Spec)             // the format ends before the conversion character

  predicate IsFlag(c: char) { c == '-' || c == '+' || c == ' ' || c == '#' || c == '0' }

  predicate IsDigit(c: char) { '0' <= c <= '9' }

  function RenderAmount(a: Amount): string {
    match a case Star => "*" case Digits(d) => d
  }

  function RenderPrecision(p: Option<Amount>): string {
    match p case None => "" case Some(a) => "." + RenderAmount(a)
  }

  function RenderSpec(s: Spec): string {
    s.flags + RenderAmount(s.width) + RenderPrecision(s.precision) + s.length
  }

  function RenderItem(i: Item): string {
    match i
    case Literal(c) => [c]
    case Percent => "%%"
    case Conversion(spec, conv) => "%" + RenderSpec(spec) + [conv]
    case Unfinished(spec) => "%" + RenderSpec(spec)
  }

  function Render(items: seq<Item>): string {
    if items == [] then "" else RenderItem(items[0]) + Render(items[1..])
  }

  // ---- The parser ----

  function FlagLen(s: string): (n: nat)
    ensures n <= |s|
  {
    if s != "" && IsFlag(s[0]) then 1 + FlagLen(s[1..]) else 0
  }

  function DigitLen(s: string): (n: nat)
    ensures n <= |s|
  {
    if s != "" && IsDigit(s[0]) then 1 + DigitLen(s[1..]) else 0
  }

  function At(s: string, i: nat): char {
    if i < |s| then s[i] else '\0'
  }

  function LengthLen(s: string): (n: nat)
    ensures n <= 2
  {
    var c := At(s, 0);
    if c == 'h' then (if At(s, 1) == 'h' then 2 else 1)
    else if c == 'l' then (if At(s, 1) == 'l' then 2 else 1)
    else if c == 'j' || c == 'z' || c == 't' || c == 'L' then 1
    else 0
  }

  lemma LengthFits(s: string)
    ensures LengthLen(s) <= |s|
  {
  }

  function AmountLen(s: string): (n: nat)
    ensures n <= |s|
  {
    if At(s, 0) == '*' then 1 else DigitLen(s)
  }

  function AmountAt(s: string): Amount {
    if At(s, 0) == '*' then Star else Digits(s[..DigitLen(s)])
  }

  function PrecisionLen(s: string): (n: nat)
    ensures n <= |s|
  {
    if At(s, 0) == '.' then 1 + AmountLen(s[1..]) else 0
  }

  function PrecisionAt(s: string): Option<Amount> {
    if At(s, 0) == '.' then Some(AmountAt(s[1..])) else None
  }

  function SpecAt(s: string): Spec {
    var r1 := s[FlagLen(s)..];
    var r2 := r1[AmountLen(r1)..];
    var r3 := r2[PrecisionLen(r2)..];
    LengthFits(r3);
    Spec(s[..FlagLen(s)], AmountAt(r1), PrecisionAt(r2), r3[..LengthLen(r3)])
  }

  function AfterSpec(s: string): (r: string)
    ensures |r| <= |s|
  {
    var r1 := s[FlagLen(s)..];
    var r2 := r1[AmountLen(r1)..];
    var r3 := r2[PrecisionLen(r2)..];
    LengthFits(r3);
    r3[LengthLen(r3)..]
  }

  function Parse(s: string): seq<Item>
    decreases |s|
  {
    if s == "" then []
    else if s[0] != '%' then [Literal(s[0])] + Parse(s[1..])
    else if At(s, 1) == '%' then [Percent] + Parse(s[2..])
    else
      var rest := AfterSpec(s[1..]);
      if rest == "" then [Unfinished(SpecAt(s[1..]))]
      else [Conversion(SpecAt(s[1..]), rest[0])] + Parse(rest[1..])
  }

  lemma RenderAmountAt(s: string)
    ensures RenderAmount(AmountAt(s)) + s[AmountLen(s)..] == s
  {
    hide DigitLen;
    if At(s, 0) != '*' {
      assert s[..DigitLen(s)] + s[DigitLen(s)..] == s;
    }
  }

  lemma RenderPrecisionAt(s: string)
    ensures RenderPrecision(PrecisionAt(s)) + s[PrecisionLen(s)..] == s
  {
    hide AmountAt, AmountLen, RenderAmount;
    if At(s, 0) == '.' {
      RenderAmountAt(s[1..]);
      assert s[1..][AmountLen(s[1..])..] == s[PrecisionLen(s)..];
      assert s == "." + s[1..];
    }
  }

  lemma RenderSpecAt(s: string)
    ensures RenderSpec(SpecAt(s)) + AfterSpec(s) == s
  {
    hide AmountAt, AmountLen, RenderAmount, PrecisionAt, PrecisionLen, RenderPrecision, FlagLen, LengthLen;
    var r1 := s[FlagLen(s)..];
    var r2 := r1[AmountLen(r1)..];
    var r3 := r2[PrecisionLen(r2)..];
    LengthFits(r3);
    RenderAmountAt(r1);
    RenderPrecisionAt(r2);
    assert r3[..LengthLen(r3)] + r3[LengthLen(r3)..] == r3;
    Rejoin(s[..FlagLen(s)], RenderAmount(AmountAt(r1)), RenderPrecision(PrecisionAt(r2)), r3[..LengthLen(r3)],
           r3[LengthLen(r3)..]);
    assert s[..FlagLen(s)] + r1 == s;
  }

  lemma Rejoin(a: string, b: string, c: string, d: string, e: string)
    ensures a + b + c + d + e == a + (b + (c + (d + e)))
  {
  }

  /** Nothing of the format is lost or invented. */
  lemma {:induction false} ParseRenders(s: string)
    ensures Render(Parse(s)) == s
    decreases |s|
  {
    hide RenderSpec, SpecAt, AfterSpec;
    if s == "" {
    } else if s[0] != '%' {
      ParseRenders(s[1..]);
    } else if At(s, 1) == '%' {
      ParseRenders(s[2..]);
      assert s == "%%" + s[2..];
    } else {
      RenderSpecAt(s[1..]);
      var rest := AfterSpec(s[1..]);
      if rest == "" {
        assert Parse(s)[1..] == [];
      } else {
        ParseRenders(rest[1..]);
        assert s == "%" + RenderSpec(SpecAt(s[1..])) + [rest[0]] + rest[1..];
      }
    }
  }

  // ---- Which arguments are bounded strings ----

  /** One argument of the call, in the order conversions consume them. */
  datatype Use = WidthUse | PrecisionUse | ValueUse(conv: char, starPrecision: bool)

  function SpecUses(s: Spec): seq<Use> {
    (if s.width.Star? then [WidthUse] else []) + (if s.precision == Some(Star) then [PrecisionUse] else [])
  }

  function Uses(items: seq<Item>): seq<Use> {
    if items == [] then []
    else
      (match items[0]
       case Conversion(spec, conv) => SpecUses(spec) + [ValueUse(conv, spec.precision == Some(Star))]
       case Unfinished(spec) => SpecUses(spec)
       case _ => [])
      + Uses(items[1..])
  }

  /** Argument k is the value of an `s` conversion whose precision is the argument before it. */
  predicate BoundedString(uses: seq<Use>, k: int) {
    0 <= k < |uses| && uses[k] == ValueUse('s', true)
  }

  ghost predicate Contains(s: string, sub: string) {
    exists i :: OccursAt(s, sub, i)
  }

  predicate OccursAt(s: string, sub: string, i: int) {
    0 <= i <= |s| - |sub| && s[i..i + |sub|] == sub
  }

  ghost function MarkedArgs(format: string, argCount: nat): set<nat> {
    if argCount == 0 || !Contains(format, "%.*s") then {}
    else set k: nat | k < argCount && k < 32 && BoundedString(Uses(Parse(format)), k)
  }

  // ---- The grammar is unambiguous ----

  /** What may follow: the first character after a part, if any, must not be taken for more of that part. */
  predicate SpecOk(s: Spec, next: Option<char>) {
    && AreFlags(s.flags)
    && AmountOk(s.width) && (s.width.Digits? && s.width.digits != "" ==> s.width.digits[0] !in "-+ #0")
    && (s.precision.Some? ==> AmountOk(s.precision.value))
    && IsLength(s.length)
    && (next.Some? ==> NextOk(s, next.value))
  }

  predicate AreFlags(flags: string) {
    forall c :: c in flags ==> c in "-+ #0"
  }

  predicate IsLength(length: string) {
    length in {"", "h", "hh", "l", "ll", "j", "z", "t", "L"}
  }

  /** The character does not make a longer length of this one. */
  predicate EndsLength(length: string, c: char) {
    && (length == "" ==> !(c in "hljztL"))
    && (length == "h" ==> c != 'h')
    && (length == "l" ==> c != 'l')
  }

  predicate AmountOk(a: Amount) {
    a.Digits? ==> forall c :: c in a.digits ==> '0' <= c <= '9'
  }

  predicate NextOk(s: Spec, c: char) {
    && EndsLength(s.length, c)
    && (s.length == "" ==>
          if s.precision.None? then c != '.' && EndsAmount(s.width, c) && (s.width == Digits("") ==> c !in "-+ #0")
          else EndsAmount(s.precision.value, c))
  }

  predicate EndsAmount(a: Amount, c: char) {
    a.Digits? ==> !('0' <= c <= '9') && (a.digits == "" ==> c != '*')
  }

  predicate ItemsOk(items: seq<Item>) {
    items != [] ==>
      && (match items[0]
          case Literal(c) => c != '%'
          case Percent => true
          case Conversion(spec, conv) =>
            SpecOk(spec, Some(conv)) && !(RenderSpec(spec) == "" && conv == '%')
          case Unfinished(spec) => SpecOk(spec, None) && |items| == 1)
      && ItemsOk(items[1..])
  }

  /** The flags of the standard. */
  lemma FlagChars()
    ensures forall c: char :: IsFlag(c) <==> c in "-+ #0"
  {
  }

  lemma {:induction false} FlagLenOf(flags: string, r: string)
    requires AreFlags(flags) && !(r != "" && IsFlag(r[0]))
    ensures FlagLen(flags + r) == |flags|
  {
    if flags == "" {
      assert flags + r == r;
    } else {
      assert (flags + r)[1..] == flags[1..] + r;
      assert flags[0] in flags && IsFlag(flags[0]) by { FlagChars(); }
      FlagLenOf(flags[1..], r);
    }
  }

  lemma {:induction false} DigitLenOf(digits: string, r: string)
    requires (forall c :: c in digits ==> IsDigit(c)) && !(r != "" && IsDigit(r[0]))
    ensures DigitLen(digits + r) == |digits|
  {
    if digits == "" {
      assert digits + r == r;
    } else {
      assert (digits + r)[1..] == digits[1..] + r;
      DigitLenOf(digits[1..], r);
    }
  }

  lemma AmountOf(a: Amount, r: string)
    requires AmountOk(a) && (r != "" ==> EndsAmount(a, r[0]))
    ensures AmountAt(RenderAmount(a) + r) == a && AmountLen(RenderAmount(a) + r) == |RenderAmount(a)|
  {
    hide DigitLen;
    if a.Digits? {
      DigitLenOf(a.digits, r);
      assert a.digits != "" ==> a.digits[0] in a.digits;
      assert (a.digits + r)[..|a.digits|] == a.digits;
    }
  }

  lemma PrecisionOf(p: Option<Amount>, r: string)
    requires p.Some? ==> AmountOk(p.value) && (r != "" ==> EndsAmount(p.value, r[0]))
    requires p.None? ==> !(r != "" && r[0] == '.')
    ensures PrecisionAt(RenderPrecision(p) + r) == p && PrecisionLen(RenderPrecision(p) + r) == |RenderPrecision(p)|
  {
    hide AmountAt, AmountLen, RenderAmount;
    if p.Some? {
      AmountOf(p.value, r);
      assert (RenderPrecision(p) + r)[1..] == RenderAmount(p.value) + r;
    } else {
      assert "" + r == r;
    }
  }

  lemma LengthOf(length: string, r: string)
    requires length in {"", "h", "hh", "l", "ll", "j", "z", "t", "L"}
    requires length == "" ==> !(r != "" && r[0] in "hljztL")
    requires length == "h" ==> !(r != "" && r[0] == 'h')
    requires length == "l" ==> !(r != "" && r[0] == 'l')
    ensures LengthLen(length + r) == |length|
  {
  }

  /** The character after the rendered width, precision or length, and what it cannot be. */
  lemma TailsAreDistinct(s: Spec, next: Option<char>, rest: string)
    requires SpecOk(s, next) && (next.None? ==> rest == "")
    ensures var r3 := s.length + (if next.Some? then [next.value] else []) + rest;
            var r2 := RenderPrecision(s.precision) + r3;
            var r1 := RenderAmount(s.width) + r2;
            && (r3 != "" && s.precision.None? ==> r3[0] != '.')
            && (r3 != "" && s.precision.Some? ==> EndsAmount(s.precision.value, r3[0]))
            && (r2 != "" ==> EndsAmount(s.width, r2[0]))
            && !(r1 != "" && IsFlag(r1[0]))
  {
    hide AmountOk;
  }

  lemma Cut(a: string, b: string)
    ensures (a + b)[..|a|] == a && (a + b)[|a|..] == b
  {
  }

  lemma SpecFromParts(s: Spec, r1: string, r2: string, r3: string, tail: string)
    requires r1 == RenderAmount(s.width) + r2 && r2 == RenderPrecision(s.precision) + r3 && r3 == s.length + tail
    requires FlagLen(s.flags + r1) == |s.flags|
    requires AmountAt(r1) == s.width && AmountLen(r1) == |RenderAmount(s.width)|
    requires PrecisionAt(r2) == s.precision && PrecisionLen(r2) == |RenderPrecision(s.precision)|
    requires LengthLen(r3) == |s.length|
    ensures SpecAt(s.flags + r1) == s && AfterSpec(s.flags + r1) == tail
  {
    hide AmountAt, AmountLen, RenderAmount, PrecisionAt, PrecisionLen, RenderPrecision, FlagLen, LengthLen;
    Cut(s.flags, r1);
    Cut(RenderAmount(s.width), r2);
    Cut(RenderPrecision(s.precision), r3);
    Cut(s.length, tail);
  }

  lemma SpecOf(s: Spec, next: Option<char>, rest: string)
    requires SpecOk(s, next) && (next.None? ==> rest == "")
    ensures var tail := (if next.Some? then [next.value] else []) + rest;
            SpecAt(RenderSpec(s) + tail) == s && AfterSpec(RenderSpec(s) + tail) == tail
  {
    TailsAreDistinct(s, next, rest);
    hide AmountAt, AmountLen, RenderAmount, PrecisionAt, PrecisionLen, RenderPrecision, FlagLen, LengthLen, EndsAmount,
      AmountOk, IsFlag, SpecAt, AfterSpec;
    var tail := (if next.Some? then [next.value] else []) + rest;
    var r3 := s.length + tail;
    var r2 := RenderPrecision(s.precision) + r3;
    var r1 := RenderAmount(s.width) + r2;
    assert r3 == s.length + (if next.Some? then [next.value] else []) + rest;
    FlagLenOf(s.flags, r1);
    AmountOf(s.width, r2);
    PrecisionOf(s.precision, r3);
    LengthOf(s.length, tail);
    SpecFromParts(s, r1, r2, r3, tail);
    Rejoin(s.flags, RenderAmount(s.width), RenderPrecision(s.precision), s.length, tail);
  }

  lemma NoPercentFirst(s: Spec, next: Option<char>)
    requires SpecOk(s, next)
    ensures RenderSpec(s) != "" ==> RenderSpec(s)[0] != '%'
  {
    if s.flags != "" {
      assert s.flags[0] in s.flags;
    } else if RenderAmount(s.width) != "" && s.width.Digits? {
      assert s.width.digits[0] in s.width.digits;
    }
  }

  lemma ConversionParses(spec: Spec, conv: char, rest: string)
    requires SpecOk(spec, Some(conv)) && !(RenderSpec(spec) == "" && conv == '%')
    ensures Parse("%" + RenderSpec(spec) + [conv] + rest) == [Conversion(spec, conv)] + Parse(rest)
  {
    hide SpecAt, AfterSpec, RenderSpec, SpecOk;
    var body := RenderSpec(spec) + ([conv] + rest);
    var s := "%" + RenderSpec(spec) + [conv] + rest;
    assert s == "%" + body;
    assert s[1..] == body;
    SpecOf(spec, Some(conv), rest);
    NoPercentFirst(spec, Some(conv));
    assert At(s, 1) == body[0];
    assert ([conv] + rest)[1..] == rest;
  }

  lemma UnfinishedParses(spec: Spec)
    requires SpecOk(spec, None)
    ensures Parse("%" + RenderSpec(spec)) == [Unfinished(spec)]
  {
    hide SpecAt, AfterSpec, RenderSpec, SpecOk;
    var s := "%" + RenderSpec(spec);
    assert s[1..] == RenderSpec(spec) && RenderSpec(spec) + ([] + "") == RenderSpec(spec);
    SpecOf(spec, None, "");
    NoPercentFirst(spec, None);
    if RenderSpec(spec) != "" { assert At(s, 1) == RenderSpec(spec)[0]; }
  }

  /** Every list of items the grammar allows is parsed back: no format has two readings. */
  lemma {:induction false} RenderParses(items: seq<Item>)
    requires ItemsOk(items)
    ensures Parse(Render(items)) == items
  {
    hide SpecAt, AfterSpec, RenderSpec, SpecOk;
    if items != [] {
      var rest := Render(items[1..]);
      RenderParses(items[1..]);
      match items[0]
      case Literal(c) => assert Render(items)[1..] == rest;
      case Percent => assert Render(items)[2..] == rest;
      case Conversion(spec, conv) => ConversionParses(spec, conv, rest);
      case Unfinished(spec) =>
        UnfinishedParses(spec);
        assert items[1..] == [] && Render(items) == "%" + RenderSpec(spec);
    }
  }

  lemma {:induction false} FlagsEnd(s: string)
    ensures AreFlags(s[..FlagLen(s)]) && !(s[FlagLen(s)..] != "" && IsFlag(s[FlagLen(s)]))
  {
    if s != "" && IsFlag(s[0]) {
      FlagsEnd(s[1..]);
      assert s[..FlagLen(s)] == [s[0]] + s[1..][..FlagLen(s[1..])];
    }
  }

  lemma {:induction false} DigitsEnd(s: string)
    ensures (forall c :: c in s[..DigitLen(s)] ==> IsDigit(c)) && !(s[DigitLen(s)..] != "" && IsDigit(s[DigitLen(s)]))
  {
    if s != "" && IsDigit(s[0]) {
      DigitsEnd(s[1..]);
      assert s[..DigitLen(s)] == [s[0]] + s[1..][..DigitLen(s[1..])];
    }
  }

  lemma AmountEnds(s: string)
    ensures AmountOk(AmountAt(s))
    ensures var rest := s[AmountLen(s)..]; rest != "" ==> EndsAmount(AmountAt(s), rest[0])
  {
    hide DigitLen;
    DigitsEnd(s);
  }

  function First(s: string): Option<char> {
    if s == "" then None else Some(s[0])
  }

  lemma SpecOkFromParts(s: Spec, r1: string, r2: string, r3: string, r4: string)
    requires AreFlags(s.flags)
    requires AmountOk(s.width) && (s.width.Digits? && s.width.digits != "" ==> !IsFlag(s.width.digits[0]))
    requires s.precision.Some? ==> AmountOk(s.precision.value) && (r3 != "" ==> EndsAmount(s.precision.value, r3[0]))
    requires s.precision.None? ==> r3 == r2 && (r2 != "" ==> r2[0] != '.')
    requires IsLength(s.length) && (s.length == "" ==> r4 == r3) && (r4 != "" ==> EndsLength(s.length, r4[0]))
    requires r2 != "" ==> EndsAmount(s.width, r2[0])
    requires s.width == Digits("") ==> r2 == r1
    requires !(r1 != "" && IsFlag(r1[0]))
    ensures SpecOk(s, First(r4))
  {
    FlagChars();
    hide AmountOk, EndsAmount, IsFlag, AreFlags, IsLength, EndsLength;
  }

  lemma SpecAtOk(s: string)
    ensures SpecOk(SpecAt(s), First(AfterSpec(s)))
  {
    hide FlagLen, AmountLen, AmountAt, PrecisionLen, PrecisionAt, LengthLen, EndsAmount, AmountOk, SpecOk, IsFlag,
      AreFlags, IsLength, EndsLength;
    var r1 := s[FlagLen(s)..];
    var r2 := r1[AmountLen(r1)..];
    var r3 := r2[PrecisionLen(r2)..];
    LengthFits(r3);
    var r4 := r3[LengthLen(r3)..];
    FlagsEnd(s);
    AmountEnds(r1);
    WidthOk(r1);
    if AmountAt(r1) == Digits("") { NoWidth(r1); }
    PrecisionOk(r2);
    LengthOk(r3);
    SpecOkFromParts(SpecAt(s), r1, r2, r3, r4);
  }

  lemma NoWidth(r: string)
    requires AmountAt(r) == Digits("")
    ensures r[AmountLen(r)..] == r
  {
    assert |r[..DigitLen(r)]| == DigitLen(r);
  }

  lemma WidthOk(r: string)
    requires !(r != "" && IsFlag(r[0]))
    ensures AmountAt(r).Digits? && AmountAt(r).digits != "" ==> !IsFlag(AmountAt(r).digits[0])
  {
  }

  lemma PrecisionOk(r: string)
    ensures PrecisionAt(r).Some? ==>
              AmountOk(PrecisionAt(r).value)
              && var rest := r[PrecisionLen(r)..]; rest != "" ==> EndsAmount(PrecisionAt(r).value, rest[0])
    ensures PrecisionAt(r).None? ==> r[PrecisionLen(r)..] == r && (r != "" ==> r[0] != '.')
  {
    hide AmountLen, AmountAt, EndsAmount, AmountOk;
    if At(r, 0) == '.' {
      AmountEnds(r[1..]);
      assert r[PrecisionLen(r)..] == r[1..][AmountLen(r[1..])..];
    }
  }

  lemma LengthOk(r: string)
    ensures LengthLen(r) <= |r| && (r[..LengthLen(r)] == "" ==> r[LengthLen(r)..] == r)
    ensures var length, next := r[..LengthLen(r)], First(r[LengthLen(r)..]);
            IsLength(length) && (next.Some? ==> EndsLength(length, next.value))
  {
    var n := LengthLen(r);
    LengthFits(r);
    if n == 1 { assert r[..1] == [r[0]]; }
    if n == 2 { assert r[..2] == [r[0], r[1]]; }
  }

  /** The parser's readings are exactly the lists of items the grammar allows. */
  lemma {:induction false} ParseIsOk(s: string)
    ensures ItemsOk(Parse(s))
    decreases |s|
  {
    hide SpecAt, AfterSpec, SpecOk, RenderSpec;
    if s == "" {
    } else if s[0] != '%' {
      ParseIsOk(s[1..]);
      assert Parse(s)[1..] == Parse(s[1..]);
    } else if At(s, 1) == '%' {
      ParseIsOk(s[2..]);
      assert Parse(s)[1..] == Parse(s[2..]);
    } else {
      var rest := AfterSpec(s[1..]);
      SpecAtOk(s[1..]);
      RenderSpecAt(s[1..]);
      if rest == "" {
        assert Parse(s)[1..] == [];
      } else {
        ParseIsOk(rest[1..]);
        assert Parse(s)[1..] == Parse(rest[1..]);
        assert RenderSpec(SpecAt(s[1..])) == "" ==> rest == s[1..];
      }
    }
  }

  // ---- The scan ----

  /** A C string: the text and its NUL, and nothing a scan may touch behind it. */
  predicate IsCText(m: string) {
    m != "" && m[|m| - 1] == '\0' && '\0' !in m[..|m| - 1]
  }

  function Rest(m: string, p: nat): string
    requires p < |m|
  {
    m[p..|m| - 1]
  }

  lemma RestStep(m: string, p: nat)
    requires p < |m| - 1
    ensures Rest(m, p) != "" && Rest(m, p)[0] == m[p] && Rest(m, p)[1..] == Rest(m, p + 1)
  {
  }

  lemma RestAt(m: string, p: nat)
    requires IsCText(m) && p < |m|
    ensures At(Rest(m, p), 0) == m[p] && (m[p] == '\0' <==> p == |m| - 1) && (Rest(m, p) == "" <==> p == |m| - 1)
    ensures p < |m| - 1 ==> At(Rest(m, p), 1) == m[p + 1]
  {
    if p < |m| - 1 { assert m[p] == m[..|m| - 1][p]; }
  }

  lemma RestDrop(m: string, p: nat, n: nat)
    requires p + n < |m|
    ensures Rest(m, p)[n..] == Rest(m, p + n)
  {
  }

  method SkipFlags(m: string, start: nat) returns (p: nat)
    requires IsCText(m) && start < |m|
    ensures p < |m| && p == start + FlagLen(Rest(m, start))
  {
    p := start;
    while IsFlag(m[p])
      invariant start <= p < |m| && p + FlagLen(Rest(m, p)) == start + FlagLen(Rest(m, start))
      decreases |m| - p
    {
      RestAt(m, p);
      RestStep(m, p);
      p := p + 1;
    }
    RestAt(m, p);
  }

  method SkipInteger(m: string, start: nat) returns (p: nat)
    requires IsCText(m) && start < |m|
    ensures p < |m| && p == start + DigitLen(Rest(m, start))
  {
    p := start;
    while '0' <= m[p] <= '9'
      invariant start <= p < |m| && p + DigitLen(Rest(m, p)) == start + DigitLen(Rest(m, start))
      decreases |m| - p
    {
      RestAt(m, p);
      RestStep(m, p);
      p := p + 1;
    }
    RestAt(m, p);
  }

  method SkipLength(m: string, start: nat) returns (p: nat)
    requires IsCText(m) && start < |m|
    ensures p < |m| && p == start + LengthLen(Rest(m, start))
  {
    RestAt(m, start);
    match m[start]
    case 'h' => p := start + (if m[start + 1] == 'h' then 2 else 1);
    case 'l' => p := start + (if m[start + 1] == 'l' then 2 else 1);
    case 'j' => p := start + 1;
    case 'z' => p := start + 1;
    case 't' => p := start + 1;
    case 'L' => p := start + 1;
    case _ => p := start;
  }

  /** A width, or a precision behind its dot. */
  method SkipAmount(m: string, start: nat) returns (p: nat, star: bool)
    requires IsCText(m) && start < |m|
    ensures p < |m| && p == start + AmountLen(Rest(m, start)) && (star <==> AmountAt(Rest(m, start)).Star?)
  {
    RestAt(m, start);
    star := m[start] == '*';
    if star {
      p := start + 1;
    } else {
      p := SkipInteger(m, start);
    }
  }

  method SkipPrecision(m: string, start: nat) returns (p: nat, star: bool)
    requires IsCText(m) && start < |m|
    ensures p < |m| && p == start + PrecisionLen(Rest(m, start)) && (star <==> PrecisionAt(Rest(m, start)) == Some(Star))
  {
    hide AmountAt, AmountLen, Rest, IsCText;
    RestAt(m, start);
    if m[start] == '.' {
      RestStep(m, start);
      p, star := SkipAmount(m, start + 1);
    } else {
      p, star := start, false;
    }
  }

  lemma SpecPieces(m: string, start: nat, p1: nat, p2: nat, p3: nat, end: nat)
    requires start < |m| && start <= p1 <= p2 <= p3 <= end < |m|
    requires p1 == start + FlagLen(Rest(m, start)) && p2 == p1 + AmountLen(Rest(m, p1))
    requires p3 == p2 + PrecisionLen(Rest(m, p2)) && end == p3 + LengthLen(Rest(m, p3))
    ensures AfterSpec(Rest(m, start)) == Rest(m, end)
    ensures SpecAt(Rest(m, start)).width == AmountAt(Rest(m, p1))
    ensures SpecAt(Rest(m, start)).precision == PrecisionAt(Rest(m, p2))
  {
    hide FlagLen, AmountLen, LengthLen, PrecisionLen, AmountAt, PrecisionAt, Rest;
    RestDrop(m, start, p1 - start);
    RestDrop(m, p1, p2 - p1);
    RestDrop(m, p2, p3 - p2);
    RestDrop(m, p3, end - p3);
  }

  /** From behind the `%` up to the conversion character, counting the arguments consumed on the way. */
  method ScanSpec(m: string, start: nat, firstArg: nat) returns (p: nat, argIndex: nat, precisionStar: bool)
    requires IsCText(m) && start < |m|
    ensures start <= p < |m| && Rest(m, p) == AfterSpec(Rest(m, start))
    ensures argIndex == firstArg + |SpecUses(SpecAt(Rest(m, start)))|
    ensures precisionStar <==> SpecAt(Rest(m, start)).precision == Some(Star)
  {
    hide FlagLen, AmountLen, LengthLen, PrecisionLen, AmountAt, PrecisionAt, Rest, IsCText, SpecAt, AfterSpec;
    argIndex := firstArg;
    var widthStar;
    p := SkipFlags(m, start);
    ghost var p1 := p;
    p, widthStar := SkipAmount(m, p);
    if widthStar {
      argIndex := argIndex + 1;
    }
    ghost var p2 := p;
    p, precisionStar := SkipPrecision(m, p);
    if precisionStar {
      argIndex := argIndex + 1;
    }
    ghost var p3 := p;
    p := SkipLength(m, p);
    SpecPieces(m, start, p1, p2, p3, p);
  }

  function Bit(conv: char, starPrecision: bool, value: nat, argCount: nat): set<nat> {
    if conv == 's' && starPrecision && value < argCount && value < MASK_BITS then {value} else {}
  }

  /** The bits that the remaining items set when the next argument has the given index. */
  function Marked(items: seq<Item>, argIndex: nat, argCount: nat): set<nat> {
    if items == [] then {}
    else
      match items[0]
      case Conversion(spec, conv) =>
        var value := argIndex + |SpecUses(spec)|;
        Bit(conv, spec.precision == Some(Star), value, argCount) + Marked(items[1..], value + 1, argCount)
      case Unfinished(_) => {}
      case _ => Marked(items[1..], argIndex, argCount)
  }

  lemma UsesSplit(head: seq<Use>, last: Use, tail: seq<Use>, j: int)
    requires forall u :: u in head ==> !u.ValueUse?
    ensures BoundedString(head + [last] + tail, j)
            <==> (j == |head| && last == ValueUse('s', true)) || BoundedString(tail, j - |head| - 1)
  {
    var all := head + [last] + tail;
    if 0 <= j < |head| { assert all[j] == head[j] && head[j] in head; }
  }

  lemma UsesOfUnfinished(head: seq<Use>, j: int)
    requires forall u :: u in head ==> !u.ValueUse?
    ensures !BoundedString(head, j)
  {
    if 0 <= j < |head| { assert head[j] in head; }
  }

  lemma SpecUsesAreNotValues(s: Spec)
    ensures forall u :: u in SpecUses(s) ==> !u.ValueUse?
  {
  }

  lemma {:induction false} MarkedAre(items: seq<Item>, a: nat, argCount: nat, k: nat)
    requires forall i :: 0 <= i < |items| - 1 ==> !items[i].Unfinished?
    ensures k in Marked(items, a, argCount) <==> k < argCount && k < MASK_BITS && BoundedString(Uses(items), k - a)
    decreases items
  {
    hide SpecUses;
    if items != [] {
      match items[0]
      case Conversion(spec, conv) =>
        MarkedAre(items[1..], a + |SpecUses(spec)| + 1, argCount, k);
        SpecUsesAreNotValues(spec);
        UsesSplit(SpecUses(spec), ValueUse(conv, spec.precision == Some(Star)), Uses(items[1..]), k - a);
      case Unfinished(spec) =>
        SpecUsesAreNotValues(spec);
        UsesOfUnfinished(SpecUses(spec), k - a);
        assert items[1..] == [] && Uses(items) == SpecUses(spec);
      case _ =>
        MarkedAre(items[1..], a, argCount, k);
        assert Uses(items) == Uses(items[1..]);
    }
  }

  lemma {:induction false} UnfinishedIsLast(s: string)
    ensures forall i :: 0 <= i < |Parse(s)| - 1 ==> !Parse(s)[i].Unfinished?
    decreases |s|
  {
    hide SpecAt, AfterSpec;
    if s == "" {
    } else if s[0] != '%' {
      UnfinishedIsLast(s[1..]);
    } else if At(s, 1) == '%' {
      UnfinishedIsLast(s[2..]);
    } else if AfterSpec(s[1..]) != "" {
      UnfinishedIsLast(AfterSpec(s[1..])[1..]);
    }
  }

  method Strstr(m: string, sub: string) returns (found: bool)
    requires IsCText(m)
    ensures found <==> Contains(Rest(m, 0), sub)
  {
    var i := 0;
    while i + |sub| <= |m| - 1
      invariant forall j :: 0 <= j < i ==> !OccursAt(Rest(m, 0), sub, j)
      decreases |m| - i
    {
      assert Rest(m, 0)[i..i + |sub|] == m[i..i + |sub|];
      if m[i..i + |sub|] == sub {
        assert OccursAt(Rest(m, 0), sub, i);
        return true;
      }
      i := i + 1;
    }
    return false;
  }

  /** The mask of arguments that are bounded strings; only looked for when the format has a literal `%.*s`. */
  method MarkPrecisionStringArgs(format: Option<string>, argCount: nat) returns (mask: set<nat>)
    requires format.Some? ==> IsCText(format.value)
    ensures mask == if format.None? then {} else MarkedArgs(format.value[..|format.value| - 1], argCount)
  {
    if format.None? || argCount == 0 {
      return {};
    }
    var present := Strstr(format.value, "%.*s");
    if !present {
      return {};
    }
    mask := ScanItems(format.value, argCount);
    assert Rest(format.value, 0) == format.value[..|format.value| - 1];
    ReadMarks(format.value, argCount);
  }

  lemma ReadMarks(m: string, argCount: nat)
    requires IsCText(m) && argCount != 0 && Contains(Rest(m, 0), "%.*s")
    ensures Marked(Parse(Rest(m, 0)), 0, argCount) == MarkedArgs(Rest(m, 0), argCount)
  {
    hide Rest, Parse, Marked, Uses, Contains, BoundedString;
    var text := Rest(m, 0);
    UnfinishedIsLast(text);
    forall k: nat ensures k in Marked(Parse(text), 0, argCount) <==> k in MarkedArgs(text, argCount) {
      MarkedAre(Parse(text), 0, argCount, k);
    }
  }

  lemma StepLiteral(m: string, p: nat, argIndex: nat, argCount: nat)
    requires IsCText(m) && p < |m| && m[p] != '\0' && m[p] != '%'
    ensures p + 1 < |m|
    ensures Marked(Parse(Rest(m, p)), argIndex, argCount) == Marked(Parse(Rest(m, p + 1)), argIndex, argCount)
  {
    RestAt(m, p);
    RestStep(m, p);
    hide SpecAt, AfterSpec, Rest, IsCText;
  }

  lemma StepPercent(m: string, p: nat, argIndex: nat, argCount: nat)
    requires IsCText(m) && p + 1 < |m| && m[p] == '%' && m[p + 1] == '%'
    ensures p + 2 < |m|
    ensures Marked(Parse(Rest(m, p)), argIndex, argCount) == Marked(Parse(Rest(m, p + 2)), argIndex, argCount)
  {
    RestAt(m, p);
    RestAt(m, p + 1);
    RestDrop(m, p, 2);
    hide SpecAt, AfterSpec, Rest, IsCText;
  }

  lemma StepSpec(m: string, p: nat, q: nat, argIndex: nat, argCount: nat)
    requires IsCText(m) && p + 1 < |m| && m[p] == '%' && m[p + 1] != '%'
    requires p < q < |m| && Rest(m, q) == AfterSpec(Rest(m, p + 1))
    ensures m[q] == '\0' ==> Marked(Parse(Rest(m, p)), argIndex, argCount) == {}
    ensures m[q] != '\0' ==>
              var spec := SpecAt(Rest(m, p + 1));
              var value := argIndex + |SpecUses(spec)|;
              && q + 1 < |m|
              && Marked(Parse(Rest(m, p)), argIndex, argCount)
                 == Bit(m[q], spec.precision == Some(Star), value, argCount)
                    + Marked(Parse(Rest(m, q + 1)), value + 1, argCount)
  {
    hide SpecAt, AfterSpec, Rest, IsCText, SpecUses, Bit, Parse, Marked, At;
    RestAt(m, p);
    RestStep(m, p);
    RestAt(m, q);
    if m[q] != '\0' { RestStep(m, q); }
    MarkedSpec(Rest(m, p), argIndex, argCount);
  }

  lemma MarkedSpec(s: string, argIndex: nat, argCount: nat)
    requires s != "" && s[0] == '%' && At(s, 1) != '%'
    ensures var rest, spec := AfterSpec(s[1..]), SpecAt(s[1..]);
            var value := argIndex + |SpecUses(spec)|;
            Marked(Parse(s), argIndex, argCount)
            == if rest == "" then {}
               else Bit(rest[0], spec.precision == Some(Star), value, argCount) + Marked(Parse(rest[1..]), value + 1, argCount)
  {
    hide SpecAt, AfterSpec, SpecUses, Bit;
    var rest := AfterSpec(s[1..]);
    if rest != "" {
      assert Parse(s)[1..] == Parse(rest[1..]);
    }
  }

  /** One item: where the next one starts, and the bits this one sets. */
  method ScanItem(m: string, start: nat, firstArg: nat, argCount: nat)
    returns (p: nat, argIndex: nat, bits: set<nat>)
    requires IsCText(m) && start < |m| && m[start] != '\0'
    ensures start < p < |m|
    ensures Marked(Parse(Rest(m, start)), firstArg, argCount) == bits + Marked(Parse(Rest(m, p)), argIndex, argCount)
  {
    hide SpecAt, AfterSpec, SpecUses, Rest, IsCText, Parse, Marked;
    p, argIndex, bits := start, firstArg, {};
    if m[p] != '%' {
      StepLiteral(m, p, argIndex, argCount);
      p := p + 1;
      return;
    }
    RestAt(m, p);
    if m[p + 1] == '%' {
      StepPercent(m, p, argIndex, argCount);
      p := p + 2;
      return;
    }
    var value, precisionStar;
    p, value, precisionStar := ScanSpec(m, p + 1, argIndex);
    StepSpec(m, start, p, argIndex, argCount);
    if m[p] == '\0' {
      NothingMarked(m, p, argIndex, argCount);
      return;
    }
    argIndex := value + 1;
    bits := if m[p] == 's' && precisionStar && value < argCount && value < MASK_BITS then {value} else {};
    p := p + 1;
  }

  method ScanItems(m: string, argCount: nat) returns (mask: set<nat>)
    requires IsCText(m)
    ensures mask == Marked(Parse(Rest(m, 0)), 0, argCount)
  {
    assert m != "";
    hide Rest, IsCText, Parse, Marked;
    mask := {};
    var argIndex: nat, p: nat := 0, 0;
    while m[p] != '\0'
      invariant p < |m| && IsCText(m)
      invariant mask + Marked(Parse(Rest(m, p)), argIndex, argCount) == Marked(Parse(Rest(m, 0)), 0, argCount)
      decreases |m| - p
    {
      var bits;
      p, argIndex, bits := ScanItem(m, p, argIndex, argCount);
      mask := mask + bits;
    }
    NothingMarked(m, p, argIndex, argCount);
  }

  lemma NothingMarked(m: string, p: nat, argIndex: nat, argCount: nat)
    requires IsCText(m) && p < |m| && m[p] == '\0'
    ensures Marked(Parse(Rest(m, p)), argIndex, argCount) == {}
  {
    RestAt(m, p);
  }

  const FLAGGED := Spec("-", Digits(""), Some(Star), "")

  lemma FlaggedFormat()
    ensures ItemsOk([Conversion(FLAGGED, 's')]) && Render([Conversion(FLAGGED, 's')]) == "%-.*s"
  {
    var items := [Conversion(FLAGGED, 's')];
    assert items[1..] == [] && ItemsOk([]) && Render([]) == "";
    assert "-" + "" + "." + "*" + "" == "-.*";
    assert RenderItem(items[0]) == "%-.*s";
  }

  lemma FlaggedUses()
    ensures Uses([Conversion(FLAGGED, 's')]) == [PrecisionUse, ValueUse('s', true)]
  {
    assert [Conversion(FLAGGED, 's')][1..] == [] && Uses([]) == [];
  }

  /** A bounded string with flags before its precision is missed, unless the format has the literal text elsewhere. */
  lemma FlaggedPrecisionIsMissed()
    ensures BoundedString(Uses(Parse("%-.*s")), 1) && MarkedArgs("%-.*s", 2) == {}
  {
    hide Parse, Uses, ItemsOk, Render, Contains;
    FlaggedFormat();
    RenderParses([Conversion(FLAGGED, 's')]);
    FlaggedUses();
    NoLiteral();
  }

  lemma NoLiteral()
    ensures !Contains("%-.*s", "%.*s")
  {
    var s, sub := "%-.*s", "%.*s";
    forall i ensures !OccursAt(s, sub, i) {
      if 0 <= i <= 1 { assert s[i..i + 4][0] == s[i] && s[i..i + 4][1] == s[i + 1]; }
    }
  }

  const STARS := Spec("", Star, Some(Star), "")

  lemma StarsFormat()
    ensures ItemsOk([Conversion(STARS, 's'), Percent]) && Render([Conversion(STARS, 's'), Percent]) == "%*.*s%%"
  {
    var items := [Conversion(STARS, 's'), Percent];
    assert items[1..] == [Percent] && items[1..][1..] == [] && ItemsOk([]) && Render([]) == "";
    assert "" + "*" + ".*" + "" == "*.*" && "." + "*" == ".*";
    assert RenderItem(items[0]) == "%*.*s";
    assert Render([Percent]) == "%%";
    assert "%*.*s" + "%%" == "%*.*s%%";
  }

  lemma StarsUses()
    ensures Uses([Conversion(STARS, 's'), Percent]) == [WidthUse, PrecisionUse, ValueUse('s', true)]
  {
    var items := [Conversion(STARS, 's'), Percent];
    assert items[1..] == [Percent] && [Percent][1..] == [] && Uses([]) == [];
    assert Uses([Percent]) == [];
  }

  /** The arguments of a format with a star width and a star precision, in the order of their use. */
  lemma KnownUses()
    ensures Uses(Parse("%*.*s%%")) == [WidthUse, PrecisionUse, ValueUse('s', true)]
  {
    hide Parse, Uses, ItemsOk, Render;
    StarsFormat();
    RenderParses([Conversion(STARS, 's'), Percent]);
    StarsUses();
  }

  /** Every bounded string within reach of the mask is marked if and only if the format has the literal text or none. */
  lemma MarksAreCompleteIff(format: string, argCount: nat)
    ensures (forall k :: k in MarkedArgs(format, argCount) <==>
                         0 <= k < argCount && k < 32 && BoundedString(Uses(Parse(format)), k))
            <==> Contains(format, "%.*s")
                 || forall k :: 0 <= k < argCount && k < 32 ==> !BoundedString(Uses(Parse(format)), k)
  {
    hide Parse, Uses, BoundedString, Contains;
  }
}
