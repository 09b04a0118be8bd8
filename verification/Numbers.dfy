/** Printing numbers into a fixed buffer, and parsing them back. */
module Numbers {
  import opened Mmu
  import opened Strings

  const DIGITS: string := "0123456789abcdef"
  const CAPITALS: string := "0123456789ABCDEF"
  const BUFSZ: nat := 32

  /** The bases in use: octal to parse, decimal and hexadecimal for both. */
  type Base = b: nat | b == 8 || b == 10 || b == 16 witness 10

  // Arithmetic by cases, so that the solver meets constant divisors and factors only.

  function Quot(n: nat, base: Base): (q: nat)
    ensures n >= base ==> q < n
  {
    if base == 8 then n / 8 else if base == 10 then n / 10 else n / 16
  }

  function Rem(n: nat, base: Base): (r: nat)
    ensures r < base
  {
    if base == 8 then n % 8 else if base == 10 then n % 10 else n % 16
  }

  function Times(n: int, base: Base): (m: int)
    ensures n >= 0 ==> m >= 0
  {
    if base == 8 then n * 8 else if base == 10 then n * 10 else n * 16
  }

  lemma QuotRem(n: nat, base: Base)
    ensures Quot(n, base) == n / base && Rem(n, base) == n % base && Times(n, base) == n * base
    ensures Times(Quot(n, base), base) + Rem(n, base) == n
  {
    if base == 8 {
    } else if base == 10 {
    } else {
    }
  }

  // ------------------------------------------------------------- printing

  /** The numeral of n, most significant digit first. */
  function Numeral(n: nat, base: Base): (s: string)
    ensures |s| >= 1
  {
    if n < base then [DIGITS[n]] else Numeral(Quot(n, base), base) + [DIGITS[Rem(n, base)]]
  }

  /** The digits in the order the printing loop finds them. */
  function LowFirst(n: nat, base: Base): (s: string)
    ensures |s| >= 1
  {
    if n < base then [DIGITS[n]] else [DIGITS[Rem(n, base)]] + LowFirst(Quot(n, base), base)
  }

  lemma ReversedAppend<T>(s: seq<T>, x: T)
    ensures Reversed([x] + s) == Reversed(s) + [x]
  {
    assert ([x] + s)[1..] == s;
  }

  lemma {:induction false} NumeralReversed(n: nat, base: Base)
    ensures Reversed(LowFirst(n, base)) == Numeral(n, base)
  {
    hide Quot, Rem;
    if n >= base {
      NumeralReversed(Quot(n, base), base);
      ReversedAppend(LowFirst(Quot(n, base), base), DIGITS[Rem(n, base)]);
    } else {
      ReversedAppend([], DIGITS[n]);
      assert [DIGITS[n]] + [] == [DIGITS[n]];
    }
  }

  function Pow(base: Base, k: nat): nat {
    if k == 0 then 1 else Times(Pow(base, k - 1), base)
  }

  lemma {:induction false} NumeralLength(n: nat, base: Base, k: nat)
    requires 1 <= k && n < Pow(base, k)
    ensures |LowFirst(n, base)| <= k
  {
    if n >= base {
      assert Pow(base, 1) == Times(Pow(base, 0), base);
      assert Quot(n, base) < Pow(base, k - 1);
      NumeralLength(Quot(n, base), base, k - 1);
    }
  }

  /** A 32-bit number in decimal or hexadecimal has at most ten digits. */
  lemma FitsBuffer(n: Word, base: Base)
    requires base != 8
    ensures |LowFirst(n, base)| <= 10
  {
    assert Pow(10, 10) == 1_0000_000_000 by {
      assert Pow(10, 1) == 10 && Pow(10, 2) == 100 && Pow(10, 3) == 1000 && Pow(10, 4) == 10000 && Pow(10, 5) == 100000;
      assert Pow(10, 6) == 1000000 && Pow(10, 7) == 10000000 && Pow(10, 8) == 100000000 && Pow(10, 9) == 1000000000;
    }
    assert Pow(16, 8) == 0x1_0000_0000 by {
      assert Pow(16, 1) == 16 && Pow(16, 2) == 256 && Pow(16, 3) == 4096 && Pow(16, 4) == 0x1_0000;
      assert Pow(16, 5) == 0x10_0000 && Pow(16, 6) == 0x100_0000 && Pow(16, 7) == 0x1000_0000;
    }
    NumeralLength(n, base, if base == 10 then 10 else 8);
  }

  /** toupper as the library has it: its range test is always true, so it shifts every character. */
  function ToUpper(c: char): char {
    if c >= 'a' || c <= 'z' then ((c as int + 224) % 256) as char else c
  }

  /** The numeral as print_uint shows it. */
  function Shown(s: string, upper: bool): (r: string)
    ensures |r| == |s|
  {
    seq(|s|, k requires 0 <= k < |s| => if upper then ToUpper(s[k]) else s[k])
  }

  lemma ShownAppend(s: string, c: char, upper: bool)
    ensures Shown(s + [c], upper) == Shown(s, upper) + [if upper then ToUpper(c) else c]
  {
  }

  lemma ShownLower(s: string)
    ensures Shown(s, false) == s
  {
  }

  lemma {:induction false} ShownReversed(s: string, upper: bool)
    ensures Reversed(Shown(s, upper)) == Shown(Reversed(s), upper)
  {
    forall k: nat | k < |s| ensures Reversed(Shown(s, upper))[k] == Shown(Reversed(s), upper)[k] {
      ReversedIndex(Shown(s, upper), k);
      ReversedIndex(s, k);
    }
  }

  /** In upper case the letters come out right, and the decimal digits as control characters. */
  lemma DigitShown(d: nat)
    requires d < 16
    ensures ToUpper(DIGITS[d]) != '\0' && DIGITS[d] != '\0'
    ensures d >= 10 ==> ToUpper(DIGITS[d]) == CAPITALS[d]
    ensures d < 10 ==> ToUpper(DIGITS[d]) == (16 + d) as char
  {
  }

  /** The numeral of n with capital letters, which upper case asks for. */
  function CapitalNumeral(n: nat, base: Base): (s: string)
    ensures |s| >= 1
  {
    if n < base then [CAPITALS[n]] else CapitalNumeral(Quot(n, base), base) + [CAPITALS[Rem(n, base)]]
  }

  /** No digit of n in this base is below ten. */
  predicate LettersOnly(n: nat, base: Base) {
    if n < base then n >= 10 else Rem(n, base) >= 10 && LettersOnly(Quot(n, base), base)
  }

  /** Upper case is right for exactly the numbers whose numeral has no decimal digit; so never in base 10. */
  lemma {:induction false} UpperRight(n: nat, base: Base)
    ensures |CapitalNumeral(n, base)| == |Numeral(n, base)|
    ensures Shown(Numeral(n, base), true) == CapitalNumeral(n, base) <==> LettersOnly(n, base)
    ensures base == 10 ==> !LettersOnly(n, base)
  {
    hide Quot, Rem, Shown, ToUpper;
    var d := if n < base then n else Rem(n, base);
    DigitShown(d);
    assert ToUpper(DIGITS[d]) == CAPITALS[d] <==> d >= 10 by {
      assert d < 10 ==> CAPITALS[d] == (48 + d) as char;
    }
    if n >= base {
      UpperRight(Quot(n, base), base);
      ShownAppend(Numeral(Quot(n, base), base), DIGITS[d], true);
      LastEqual(Shown(Numeral(Quot(n, base), base), true), ToUpper(DIGITS[d]), CapitalNumeral(Quot(n, base), base), CAPITALS[d]);
    } else {
      ShownAppend([], DIGITS[d], true);
      ShownNone(true);
      assert [] + [DIGITS[d]] == Numeral(n, base) && [] + [CAPITALS[d]] == CapitalNumeral(n, base);
      LastEqual(Shown([], true), ToUpper(DIGITS[d]), [], CAPITALS[d]);
    }
  }

  lemma LastEqual(s: string, c: char, t: string, d: char)
    requires |s| == |t|
    ensures s + [c] == t + [d] <==> s == t && c == d
  {
    assert (s + [c])[..|s|] == s && (t + [d])[..|t|] == t && (s + [c])[|s|] == c && (t + [d])[|t|] == d;
  }

  lemma {:induction false} NonZeroDigits(n: nat, base: Base, upper: bool, k: nat)
    requires k < |LowFirst(n, base)|
    ensures Shown(LowFirst(n, base), upper)[k] != '\0'
  {
    hide Quot, Rem, ToUpper;
    if n >= base && k > 0 {
      NonZeroDigits(Quot(n, base), base, upper, k - 1);
    } else {
      DigitShown(if n < base then n else Rem(n, base));
    }
  }

  /** print_uint: the numeral, terminated, in the 32-byte buffer. */
  method PrintUint(n: Word, base: Base, upper: bool) returns (buf: array<char>, len: nat)
    requires base == 10 || base == 16
    ensures buf.Length == BUFSZ && Terminated(buf[..], len)
    ensures buf[..len] == Shown(Numeral(n, base), upper)
  {
    hide Quot, Rem, LowFirst, Numeral, Reversed, Shown, ToUpper;
    buf := new char[BUFSZ](_ => 'x');
    var i: nat, m: nat, more := 0, n, true;
    ghost var found: string := [];
    FitsBuffer(n, base);
    ShownNone(upper);
    while more
      invariant (more ==> i + |LowFirst(m, base)| <= 10) && (!more ==> i <= 10)
      invariant buf.Length == BUFSZ && buf[..i] == Shown(found, upper)
      invariant found + (if more then LowFirst(m, base) else []) == LowFirst(n, base)
      decreases more, m
    {
      ghost var done := buf[..i];
      var c := DIGITS[Rem(m, base)];
      buf[i] := if upper then ToUpper(c) else c;
      assert buf[..i + 1] == done + [if upper then ToUpper(c) else c];
      ShownAppend(found, c, upper);
      found := found + [c];
      LastDigit(m, base);
      i := i + 1;
      m := Quot(m, base);
      more := m != 0;
    }
    ghost var digits := buf[..i];
    assert found + [] == found;
    buf[i] := '\0';
    assert buf[..i] == digits == Shown(LowFirst(n, base), upper);
    forall k | 0 <= k < i ensures buf[..][k] != '\0' {
      NonZeroDigits(n, base, upper, k);
      assert buf[..][k] == digits[k];
    }
    StrRev(buf, i);
    NumeralReversed(n, base);
    ShownReversed(LowFirst(n, base), upper);
    len := i;
    assert buf[..len] == Reversed(digits);
  }

  lemma ShownNone(upper: bool)
    ensures Shown([], upper) == []
  {
  }

  lemma LastDigit(m: nat, base: Base)
    ensures LowFirst(m, base) == [DIGITS[Rem(m, base)]] + if Quot(m, base) != 0 then LowFirst(Quot(m, base), base) else []
    ensures Quot(m, base) != 0 ==> Quot(m, base) < m
  {
    assert m < base ==> Rem(m, base) == m && Quot(m, base) == 0;
    assert m >= base ==> Quot(m, base) != 0;
  }

  // -------------------------------------------------------------- parsing

  predicate IsSpace(c: char) {
    c == ' ' || c == '\t' || c == '\n' || c == 11 as char || c == 12 as char || c == '\r'
  }

  predicate IsDigit(c: char, base: Base) {
    if base == 8 then '0' <= c <= '7'
    else '0' <= c <= '9' || (base == 16 && ('a' <= c <= 'f' || 'A' <= c <= 'F'))
  }

  function DigitValue(c: char): nat
    requires IsDigit(c, 16)
  {
    if '0' <= c <= '9' then (c - '0') as int else if 'a' <= c <= 'f' then (c - 'a') as int + 10 else (c - 'A') as int + 10
  }

  /** The first position from p on that holds no space. */
  function SkipSpaces(s: string, len: nat, p: nat): (q: nat)
    requires Terminated(s, len) && p <= len
    ensures p <= q <= len && !IsSpace(s[q]) && forall i :: p <= i < q ==> IsSpace(s[i])
    decreases len - p
  {
    if IsSpace(s[p]) then SkipSpaces(s, len, p + 1) else p
  }

  function RunEnd(s: string, len: nat, p: nat, base: Base): (q: nat)
    requires Terminated(s, len) && p <= len
    ensures p <= q <= len && !IsDigit(s[q], base) && forall i :: p <= i < q ==> IsDigit(s[i], base)
    decreases len - p
  {
    if IsDigit(s[p], base) then RunEnd(s, len, p + 1, base) else p
  }

  predicate AllDigits(ds: string, base: Base) {
    forall i :: 0 <= i < |ds| ==> IsDigit(ds[i], base) && IsDigit(ds[i], 16)
  }

  function ValueOf(ds: string, base: Base): nat
    requires AllDigits(ds, base)
  {
    if ds == [] then 0 else Times(ValueOf(ds[..|ds| - 1], base), base) + DigitValue(ds[|ds| - 1])
  }

  /** The 32-bit long a value wraps to. */
  function Long(x: int): int {
    (x + 0x8000_0000) % 0x1_0000_0000 - 0x8000_0000
  }

  datatype Start = Start(neg: bool, base: Base, p: nat)

  /** Where the digits begin, in which base, after blanks, a sign, blanks again and a prefix. */
  function Prefix(s: string, len: nat): (r: Start)
    requires Terminated(s, len)
    ensures r.p <= len
  {
    var p := SkipSpaces(s, len, 0);
    var signed := s[p] == '+' || s[p] == '-';
    var q := SkipSpaces(s, len, if signed then p + 1 else p);
    if s[q] == '0' && s[q + 1] == 'x' then Start(s[p] == '-', 16, q + 2)
    else if s[q] == '0' then Start(s[p] == '-', 8, q + 1)
    else Start(s[p] == '-', 10, q)
  }

  lemma LongStep(a: int, base: Base, d: nat)
    ensures Long(Times(Long(a), base) + d) == Long(Times(a, base) + d)
  {
    hide Long;
    var k := Wraps(a);
    LongShift(Times(Long(a), base) + d, Times(k, base));
  }

  lemma Wraps(a: int) returns (k: int)
    ensures a == Long(a) + k * 0x1_0000_0000
  {
    k := (a + 0x8000_0000) / 0x1_0000_0000;
  }

  lemma LongShift(x: int, k: int)
    ensures Long(x + k * 0x1_0000_0000) == Long(x)
  {
    var y := x + 0x8000_0000;
    var q := y / 0x1_0000_0000;
    assert y == q * 0x1_0000_0000 + y % 0x1_0000_0000;
    var z := y + k * 0x1_0000_0000;
    assert z == (q + k) * 0x1_0000_0000 + y % 0x1_0000_0000;
    assert (z / 0x1_0000_0000 - (q + k)) * 0x1_0000_0000 == y % 0x1_0000_0000 - z % 0x1_0000_0000;
  }

  /** The prefix that follows, read off its first two characters. */
  lemma PrefixThere(s: string, len: nat, y: nat, neg: bool, st: Start)
    requires Terminated(s, len) && y <= len && st.p == (if st.base == 16 then 2 else if st.base == 8 then 1 else 0) && y + st.p <= len
    requires var p := SkipSpaces(s, len, 0);
             && (s[p] == '-' <==> neg) && SkipSpaces(s, len, if s[p] == '+' || s[p] == '-' then p + 1 else p) == y
    requires (s[y] == '0' <==> st.base != 10) && (s[y] == '0' ==> y < len && (s[y + 1] == 'x' <==> st.base == 16))
    ensures Prefix(s, len) == Start(neg, st.base, y + st.p)
  {
    hide IsSpace;
  }

  /** strtol: the value of the longest run of digits after the prefix, wrapped to a long, and where the run ends. */
  method Strtol(s: string, ghost len: nat) returns (k: int, end: nat)
    requires Terminated(s, len)
    ensures var st := Prefix(s, len);
            && end == RunEnd(s, len, st.p, st.base)
            && AllDigits(s[st.p..end], st.base)
            && k == Long(if st.neg then 0 - ValueOf(s[st.p..end], st.base) else ValueOf(s[st.p..end], st.base))
  {
    hide Long, ValueOf, AllDigits, IsDigit, IsSpace, RunEnd, SkipSpaces, Prefix;
    var p := SkipBlanks(s, 0, len);
    var neg := s[p] == '-';
    if s[p] == '+' || s[p] == '-' {
      p := p + 1;
    }
    p := SkipBlanks(s, p, len);
    ghost var y := p;
    var base: Base := 10;
    if s[p] == '0' && s[p + 1] == 'x' {
      p, base := p + 2, 16;
    } else if s[p] == '0' {
      p, base := p + 1, 8;
    }
    PrefixThere(s, len, y, neg, Start(neg, base, p - y));
    ghost var start := p;
    k, end := ParseRun(s, p, base, len);
    if neg {
      LongNeg(ValueOf(s[start..end], base));
      k := Long(-k);
    }
  }

  /** The digits of one base, accumulated in a long. */
  method ParseRun(s: string, from: nat, base: Base, ghost len: nat) returns (k: int, p: nat)
    requires Terminated(s, len) && from <= len
    ensures p == RunEnd(s, len, from, base) && AllDigits(s[from..p], base)
    ensures k == Long(ValueOf(s[from..p], base))
  {
    hide Long, Times, DigitValue, IsDigit;
    k, p := 0, from;
    assert s[from..from] == [];
    SmallLong(0);
    while IsDigit(s[p], base)
      invariant from <= p <= len && AllDigits(s[from..p], base)
      invariant RunEnd(s, len, from, base) == RunEnd(s, len, p, base)
      invariant k == Long(ValueOf(s[from..p], base))
      decreases len - p
    {
      HexDigit(s[p], base);
      NotTerminator(s, len, p, base);
      OneMore(s, from, p, base);
      LongStep(ValueOf(s[from..p], base), base, DigitValue(s[p]));
      k := Long(Times(k, base) + DigitValue(s[p]));
      p := p + 1;
    }
  }

  lemma HexDigit(c: char, base: Base)
    requires IsDigit(c, base)
    ensures IsDigit(c, 16)
  {
  }

  lemma NotTerminator(s: string, len: nat, p: nat, base: Base)
    requires Terminated(s, len) && p <= len && IsDigit(s[p], base)
    ensures p < len
  {
  }

  lemma OneMore(s: string, from: nat, p: nat, base: Base)
    requires from <= p < |s| && AllDigits(s[from..p], base) && IsDigit(s[p], base) && IsDigit(s[p], 16)
    ensures AllDigits(s[from..p + 1], base)
    ensures ValueOf(s[from..p + 1], base) == Times(ValueOf(s[from..p], base), base) + DigitValue(s[p])
  {
    hide IsDigit, DigitValue, Times;
    var t := s[from..p + 1];
    assert t == s[from..p] + [s[p]];
    assert t[..|t| - 1] == s[from..p];
  }

  lemma LongNeg(a: int)
    ensures Long(-Long(a)) == Long(-a)
  {
    var k := Wraps(a);
    LongShift(-Long(a), -k);
  }

  method SkipBlanks(s: string, from: nat, ghost len: nat) returns (p: nat)
    requires Terminated(s, len) && from <= len
    ensures p == SkipSpaces(s, len, from)
  {
    p := from;
    while IsSpace(s[p])
      invariant from <= p <= len && SkipSpaces(s, len, from) == SkipSpaces(s, len, p)
      decreases len - p
    {
      p := p + 1;
    }
  }

  // ------------------------------------------------------------- round trip

  /** The digits are those of the two tables, and their values their places in them. */
  lemma DigitTable(c: char, base: Base)
    ensures IsDigit(c, base) <==> exists d: nat :: d < base && (c == DIGITS[d] || c == CAPITALS[d])
    ensures forall d: nat :: d < 16 && (c == DIGITS[d] || c == CAPITALS[d]) ==> IsDigit(c, 16) && DigitValue(c) == d
  {
    if IsDigit(c, base) {
      HexDigit(c, base);
      assert c == DIGITS[DigitValue(c)] || c == CAPITALS[DigitValue(c)];
    }
  }

  lemma DigitBack(d: nat, base: Base, upper: bool)
    requires d < base
    ensures var c := if upper then CAPITALS[d] else DIGITS[d];
            && IsDigit(c, base) && IsDigit(c, 16) && DigitValue(c) == d && (c == '0' <==> d == 0)
            && !IsSpace(c) && c != '+' && c != '-' && c != 'x'
  {
    DigitTable(if upper then CAPITALS[d] else DIGITS[d], base);
  }

  /** The numeral of n with small or capital letters. */
  function Spelt(n: nat, base: Base, upper: bool): string {
    if upper then CapitalNumeral(n, base) else Numeral(n, base)
  }

  lemma SpeltParts(n: nat, base: Base, upper: bool)
    ensures |Spelt(n, base, upper)| >= 1
    ensures n < base ==> Spelt(n, base, upper) == [if upper then CAPITALS[n] else DIGITS[n]]
    ensures n >= base ==>
              Spelt(n, base, upper) == Spelt(Quot(n, base), base, upper) + [if upper then CAPITALS[Rem(n, base)] else DIGITS[Rem(n, base)]]
  {
  }

  lemma {:induction false} NumeralDigits(n: nat, base: Base, upper: bool)
    ensures AllDigits(Spelt(n, base, upper), base)
  {
    hide Spelt, IsDigit, Quot, Rem;
    SpeltParts(n, base, upper);
    if n >= base {
      NumeralDigits(Quot(n, base), base, upper);
      DigitBack(Rem(n, base), base, upper);
    } else {
      DigitBack(n, base, upper);
    }
  }

  /** The value of the numeral of n, in small or capital letters, is n. */
  lemma {:induction false} NumeralValue(n: nat, base: Base, upper: bool)
    ensures AllDigits(Spelt(n, base, upper), base) && ValueOf(Spelt(n, base, upper), base) == n
  {
    hide Quot, Rem, Times, DigitValue, Spelt, IsDigit;
    NumeralDigits(n, base, upper);
    QuotRem(n, base);
    SpeltParts(n, base, upper);
    var s := Spelt(n, base, upper);
    if n >= base {
      NumeralValue(Quot(n, base), base, upper);
      DigitBack(Rem(n, base), base, upper);
      assert s[..|s| - 1] == Spelt(Quot(n, base), base, upper);
    } else {
      DigitBack(n, base, upper);
      assert s[..0] == [];
    }
  }

  lemma {:induction false} LeadingDigit(n: nat, base: Base, upper: bool)
    ensures var c := Spelt(n, base, upper)[0];
            (c == '0' <==> n == 0) && !IsSpace(c) && c != '+' && c != '-' && c != 'x' && IsDigit(c, base)
  {
    hide Quot, Rem, Spelt, IsDigit, IsSpace;
    SpeltParts(n, base, upper);
    QuotRem(n, base);
    if n >= base {
      assert n / base >= 1;
      SpeltParts(Quot(n, base), base, upper);
      LeadingDigit(Quot(n, base), base, upper);
    } else {
      DigitBack(n, base, upper);
    }
  }

  lemma {:induction false} RunToEnd(s: string, len: nat, p: nat, base: Base)
    requires Terminated(s, len) && p <= len && forall i :: p <= i < len ==> IsDigit(s[i], base)
    ensures RunEnd(s, len, p, base) == len
    decreases len - p
  {
    if p < len {
      RunToEnd(s, len, p + 1, base);
    }
  }

  /** How a number may be written: in decimal, or after a prefix that names the base. */
  datatype Form = Decimal | Octal | Hex(upper: bool)

  function FormText(n: nat, form: Form): string {
    match form
    case Decimal => Numeral(n, 10)
    case Octal => "0" + Numeral(n, 8)
    case Hex(upper) => "0x" + Spelt(n, 16, upper)
  }

  const BLANKS: string := [' ', '\t', '\n', 11 as char, 12 as char, '\r']

  predicate Blank(b: string) {
    forall i :: 0 <= i < |b| ==> b[i] in BLANKS
  }

  predicate Sign(g: string) {
    g == "" || g == "+" || g == "-"
  }

  /** Blanks, a sign or none, blanks, and a number. */
  function Text(b1: string, g: string, b2: string, n: nat, form: Form): string {
    b1 + g + b2 + FormText(n, form)
  }

  lemma BlankTable(c: char)
    ensures IsSpace(c) <==> c in BLANKS
  {
    assert BLANKS[3] == 11 as char && BLANKS[4] == 12 as char;
  }

  lemma {:induction false} SkipsBlanks(s: string, len: nat, p: nat, q: nat)
    requires Terminated(s, len) && p <= q <= len && (forall i :: p <= i < q ==> s[i] in BLANKS) && !IsSpace(s[q])
    ensures SkipSpaces(s, len, p) == q
    decreases q - p
  {
    if p < q {
      BlankTable(s[p]);
      SkipsBlanks(s, len, p + 1, q);
    }
  }

  /** Where each form starts its digits, and what they are. */
  function DigitsOf(n: nat, form: Form): Start {
    match form
    case Decimal => if n == 0 then Start(false, 8, 1) else Start(false, 10, 0)
    case Octal => Start(false, 8, 1)
    case Hex(_) => Start(false, 16, 2)
  }

  ghost predicate PartsOk(n: nat, form: Form) {
    var f, st := FormText(n, form), DigitsOf(n, form);
    && st.p <= |f| && 1 <= |f| && !IsSpace(f[0]) && f[0] != '+' && f[0] != '-'
    && AllDigits(f[st.p..], st.base) && ValueOf(f[st.p..], st.base) == n
    && (f[0] == '0' <==> st.base != 10)
    && (f[0] == '0' && |f| > 1 ==> (f[1] == 'x' <==> st.base == 16))
    && (st.base == 16 ==> |f| > 1)
  }

  lemma DecimalParts(n: nat)
    ensures PartsOk(n, Decimal)
  {
    hide Spelt, IsDigit, Numeral, DigitValue, AllDigits, ValueOf, IsSpace;
    SpeltIsNumeral(n, 10);
    LeadingDigit(n, 10, false);
    NumeralValue(n, 10, false);
    assert Numeral(n, 10)[0..] == Numeral(n, 10);
    if n == 0 {
      SpeltParts(0, 10, false);
      EmptyDigits();
      assert "0"[1..] == [];
    }
  }

  lemma OctalParts(n: nat)
    ensures PartsOk(n, Octal)
  {
    hide Spelt, IsDigit, Numeral, DigitValue, AllDigits, ValueOf;
    SpeltIsNumeral(n, 8);
    LeadingDigit(n, 8, false);
    NumeralValue(n, 8, false);
    assert ("0" + Numeral(n, 8))[1..] == Numeral(n, 8);
  }

  lemma HexParts(n: nat, upper: bool)
    ensures PartsOk(n, Hex(upper))
  {
    hide Spelt, IsDigit, Numeral, DigitValue, AllDigits, ValueOf;
    NumeralValue(n, 16, upper);
    assert ("0x" + Spelt(n, 16, upper))[2..] == Spelt(n, 16, upper);
  }

  lemma FormParts(n: nat, form: Form)
    ensures PartsOk(n, form)
  {
    hide PartsOk;
    match form {
      case Decimal => DecimalParts(n);
      case Octal => OctalParts(n);
      case Hex(upper) => HexParts(n, upper);
    }
  }

  lemma SpeltIsNumeral(n: nat, base: Base)
    ensures Spelt(n, base, false) == Numeral(n, base)
  {
  }

  lemma EmptyDigits()
    ensures AllDigits([], 8) && ValueOf([], 8) == 0
  {
  }

  /** The blanks and the sign of a text are skipped, and the sign noted. */
  lemma TextStart(b1: string, g: string, b2: string, f: string, s: string, len: nat)
    requires Terminated(s, len) && s[..len] == b1 + g + b2 + f && Blank(b1) && Sign(g) && Blank(b2)
    requires 1 <= |f| && !IsSpace(f[0]) && f[0] != '+' && f[0] != '-'
    ensures var p := SkipSpaces(s, len, 0);
            && (s[p] == '+' || s[p] == '-' <==> g != "") && (s[p] == '-' <==> g == "-")
            && SkipSpaces(s, len, if g != "" then p + 1 else p) == |b1| + |g| + |b2|
  {
    hide IsSpace;
    var y := |b1| + |g| + |b2|;
    TextAt(b1, g, b2, f, s, len);
    SignChars();
    SkipsBlanks(s, len, 0, if g == "" then y else |b1|);
    SkipsBlanks(s, len, if g == "" then y else |b1| + 1, y);
  }

  /** Every text of a number is parsed to its end, its value and its sign, in the base its form names. */
  lemma TextBack(b1: string, g: string, b2: string, n: nat, form: Form, s: string, len: nat)
    requires Terminated(s, len) && s[..len] == Text(b1, g, b2, n, form) && Blank(b1) && Sign(g) && Blank(b2)
    ensures var st := Prefix(s, len);
            && RunEnd(s, len, st.p, st.base) == len && AllDigits(s[st.p..len], st.base)
            && (st.neg <==> g == "-") && ValueOf(s[st.p..len], st.base) == n
  {
    hide IsSpace, IsDigit, FormText, DigitValue, AllDigits, ValueOf, SkipSpaces, Blank, Sign, Prefix, RunEnd;
    var f, st := FormText(n, form), DigitsOf(n, form);
    var y := |b1| + |g| + |b2|;
    FormParts(n, form);
    TextStart(b1, g, b2, f, s, len);
    TextAt(b1, g, b2, f, s, len);
    PrefixThere(s, len, y, g == "-", st);
    DigitsAt(s, len, y, f, st.p);
    DigitsAll(f[st.p..], st.base);
    RunToEnd(s, len, y + st.p, st.base);
  }

  lemma DigitsAt(s: string, len: nat, y: nat, f: string, p: nat)
    requires Terminated(s, len) && len == y + |f| && p <= |f| && forall i :: y <= i < len ==> s[i] == f[i - y]
    ensures s[y + p..len] == f[p..] && forall i :: y + p <= i < len ==> s[i] == f[p..][i - y - p]
  {
  }

  lemma DigitsAll(ds: string, base: Base)
    requires AllDigits(ds, base)
    ensures forall i :: 0 <= i < |ds| ==> IsDigit(ds[i], base)
  {
  }

  lemma SignChars()
    ensures !IsSpace('+') && !IsSpace('-') && '+' !in BLANKS && '-' !in BLANKS
  {
    BlankTable('+');
    BlankTable('-');
  }

  /** The text, place by place. */
  lemma TextAt(b1: string, g: string, b2: string, f: string, s: string, len: nat)
    requires Terminated(s, len) && s[..len] == b1 + g + b2 + f
    ensures var x := |b1| + |g|;
            && len == x + |b2| + |f|
            && (forall i :: 0 <= i < |b1| ==> s[i] == b1[i])
            && (forall i :: 0 <= i < |g| ==> s[|b1| + i] == g[i])
            && (forall i :: x <= i < x + |b2| ==> s[i] == b2[i - x])
            && (forall i :: x + |b2| <= i < len ==> s[i] == f[i - x - |b2|])
  {
    assert forall i :: 0 <= i < len ==> s[i] == s[..len][i];
  }

  /** strtol of any such text is the number with its sign, and ends at the terminator. */
  method ParseText(b1: string, g: string, b2: string, n: nat, form: Form, s: string, ghost len: nat) returns (k: int, end: nat)
    requires Terminated(s, len) && s[..len] == Text(b1, g, b2, n, form) && Blank(b1) && Sign(g) && Blank(b2)
    requires n < 0x8000_0000 || (n == 0x8000_0000 && g == "-")
    ensures k == (if g == "-" then 0 - n else n) && end == len
  {
    hide Long, Text, Prefix, ValueOf, AllDigits, Blank, Sign, IsDigit, RunEnd;
    TextBack(b1, g, b2, n, form, s, len);
    SmallLong(if g == "-" then 0 - n else n);
    k, end := Strtol(s, len);
  }

  lemma SmallLong(n: int)
    requires -0x8000_0000 <= n < 0x8000_0000
    ensures Long(n) == n
  {
  }

  /** What print_uint prints, strtol reads back, up to the terminator: in decimal, and in hexadecimal after "0x". */
  method PrintAndParse(n: Word, hex: bool) returns (k: int, end: nat, len: nat)
    requires n < 0x8000_0000
    ensures k == n && end == len
    ensures len == |Numeral(n, if hex then 16 else 10)| + if hex then 2 else 0
  {
    hide Spelt, FormText, Numeral, Shown, Blank, Sign;
    var base: Base := if hex then 16 else 10;
    var buf, l := PrintUint(n, base, false);
    ShownLower(Numeral(n, base));
    var s: string := if hex then "0x" + buf[..] else buf[..];
    len := if hex then l + 2 else l;
    assert buf[..][..l] == buf[..l];
    PlainText(n, hex);
    k, end := ParseText("", "", "", n, if hex then Hex(false) else Decimal, s, len);
  }

  lemma PlainText(n: nat, hex: bool)
    ensures Text("", "", "", n, if hex then Hex(false) else Decimal) == if hex then "0x" + Numeral(n, 16) else Numeral(n, 10)
    ensures Blank("") && Sign("")
  {
  }
}
