/** Decimal numerals and '|'-separated fields, as Go's strconv, fmt and strings.SplitN treat them. */
module Text {
  datatype Option<+T> = None | Some(value: T)

  /** Go's int64; strconv.Atoi and ParseInt(s, 10, 64) refuse anything outside it. */
  type Int64 = n: int | -0x8000_0000_0000_0000 <= n < 0x8000_0000_0000_0000

  /** A task priority: a non-negative number, rounding being made explicit where the program rounds. */
  type Priority = r: real | r >= 0.0

  // ---------- natural numbers ----------

  predicate IsDigit(c: char) {
    '0' <= c <= '9'
  }

  predicate AllDigits(s: string) {
    forall i :: 0 <= i < |s| ==> IsDigit(s[i])
  }

  function DigitChar(d: nat): (c: char)
    requires d < 10
    ensures IsDigit(c) && DigitVal(c) == d
  {
    ('0' as int + d) as char
  }

  function DigitVal(c: char): nat
    requires IsDigit(c)
  {
    c as int - '0' as int
  }

  function NatStr(n: nat): string {
    if n < 10 then [DigitChar(n)] else NatStr(n / 10) + [DigitChar(n % 10)]
  }

  function DigitsVal(s: string): nat
    requires AllDigits(s)
  {
    if s == [] then 0 else DigitsVal(s[..|s| - 1]) * 10 + DigitVal(s[|s| - 1])
  }

  /** No superfluous leading zero. */
  predicate CanonicalNat(s: string) {
    |s| >= 1 && AllDigits(s) && (|s| == 1 || s[0] != '0')
  }

  lemma {:induction false} NatStrReads(n: nat)
    ensures CanonicalNat(NatStr(n)) && DigitsVal(NatStr(n)) == n
    ensures n > 0 ==> NatStr(n)[0] != '0'
  {
    var s := NatStr(n);
    if n >= 10 {
      NatStrReads(n / 10);
      assert s[..|s| - 1] == NatStr(n / 10);
      assert s[0] == NatStr(n / 10)[0];
    }
  }

  lemma {:induction false} DigitsPositive(s: string)
    requires AllDigits(s) && |s| >= 1 && s[0] != '0'
    ensures DigitsVal(s) > 0
  {
    if |s| > 1 {
      DigitsPositive(s[..|s| - 1]);
    }
  }

  lemma {:induction false} NatStrWrites(s: string)
    requires CanonicalNat(s)
    ensures NatStr(DigitsVal(s)) == s
  {
    var t, d := s[..|s| - 1], DigitVal(s[|s| - 1]);
    assert DigitChar(d) == s[|s| - 1];
    if |s| == 1 {
      assert t == [] && DigitsVal(s) == d;
    } else {
      NatStrWrites(t);
      DigitsPositive(t);
      assert DigitsVal(s) / 10 == DigitsVal(t) && DigitsVal(s) % 10 == d;
      assert s == t + [s[|s| - 1]];
    }
  }

  // ---------- signed integers ----------

  function IntStr(n: int): string {
    if n < 0 then "-" + NatStr(-n) else NatStr(n)
  }

  /** strconv.Atoi and strconv.ParseInt(_, 10, 64): optional sign, digits, in range. */
  function ParseInt(s: string): (r: Option<Int64>) {
    var signed := |s| >= 1 && (s[0] == '-' || s[0] == '+');
    var digits := if signed then s[1..] else s;
    if digits == [] || !AllDigits(digits) then None
    else
      var magnitude: int := DigitsVal(digits);
      var n: int := if signed && s[0] == '-' then 0 - magnitude else magnitude;
      if -0x8000_0000_0000_0000 <= n < 0x8000_0000_0000_0000 then Some(n) else None
  }

  predicate CanonicalInt(s: string) {
    CanonicalNat(s) || (|s| >= 2 && s[0] == '-' && s[1] != '0' && CanonicalNat(s[1..]))
  }

  lemma NaturalReads(n: nat)
    requires n < 0x8000_0000_0000_0000
    ensures ParseInt(NatStr(n)) == Some(n) && CanonicalInt(NatStr(n))
  {
    NatStrReads(n);
    assert IsDigit(NatStr(n)[0]);
  }

  lemma NegativeReads(n: nat)
    requires 0 < n <= 0x8000_0000_0000_0000
    ensures ParseInt("-" + NatStr(n)) == Some(0 - n) && CanonicalInt("-" + NatStr(n))
  {
    NatStrReads(n);
    var s := "-" + NatStr(n);
    assert s[1..] == NatStr(n) && s[0] == '-';
  }

  lemma IntStrReads(n: Int64)
    ensures ParseInt(IntStr(n)) == Some(n) && CanonicalInt(IntStr(n))
  {
    var k: int := n;
    if k < 0 {
      NegativeReads(-k);
    } else {
      NaturalReads(k);
    }
  }

  lemma NaturalWrites(s: string)
    requires ParseInt(s).Some? && CanonicalNat(s)
    ensures IntStr(ParseInt(s).value) == s
  {
    assert IsDigit(s[0]);
    NatStrWrites(s);
  }

  lemma NegativeWrites(s: string)
    requires ParseInt(s).Some? && |s| >= 2 && s[0] == '-' && s[1] != '0' && CanonicalNat(s[1..])
    ensures IntStr(ParseInt(s).value) == s
  {
    var digits := s[1..];
    NatStrWrites(digits);
    DigitsPositive(digits);
    assert ParseInt(s).value == 0 - DigitsVal(digits);
    assert s == "-" + digits;
  }

  /** Re-printing a parsed integer gives the same text exactly for canonical numerals. */
  lemma IntStrWrites(s: string)
    requires ParseInt(s).Some?
    ensures IntStr(ParseInt(s).value) == s <==> CanonicalInt(s)
  {
    if CanonicalNat(s) {
      NaturalWrites(s);
    } else if CanonicalInt(s) {
      NegativeWrites(s);
    }
    IntStrReads(ParseInt(s).value);
  }

  // ---------- four-decimal numbers ----------

  function RoundHalfEven(y: real): (n: int)
    ensures y >= 0.0 ==> n >= 0
  {
    var f := y.Floor;
    var rest := y - f as real;
    if rest < 0.5 || (rest == 0.5 && f % 2 == 0) then f else f + 1
  }

  function Scale4(x: Priority): nat {
    RoundHalfEven(x * 10000.0)
  }

  /** The value that survives printing with "%.4f". */
  function Round4(x: Priority): Priority {
    Scale4(x) as real / 10000.0
  }

  function Pad4(k: nat): string
    requires k < 10000
  {
    [DigitChar(k / 1000), DigitChar(k / 100 % 10), DigitChar(k / 10 % 10), DigitChar(k % 10)]
  }

  /** fmt.Sprintf("%.4f", x). */
  function Fixed4(x: Priority): string {
    PointStr(Scale4(x))
  }

  /** The number n / 10000 written with four decimals. */
  function PointStr(n: nat): string {
    NatStr(n / 10000) + "." + Pad4(n % 10000)
  }

  /** n with the decimal point moved k places to the left. */
  function Shifted(n: nat, k: nat): Priority {
    if k == 0 then n as real else Shifted(n, k - 1) / 10.0
  }

  function IndexOf(s: string, c: char): (i: nat)
    ensures i <= |s| && (i < |s| ==> s[i] == c)
    ensures forall j :: 0 <= j < i ==> s[j] != c
  {
    if s == [] || s[0] == c then 0 else 1 + IndexOf(s[1..], c)
  }

  /** strconv.ParseFloat on plain unsigned decimals: digits with at most one point. */
  function ParseDecimal(s: string): Option<Priority> {
    var dot := IndexOf(s, '.');
    var whole := s[..dot];
    var fraction := if dot == |s| then [] else s[dot + 1..];
    if AllDigits(whole) && AllDigits(fraction) && |whole| + |fraction| > 0
    then Some(Shifted(DigitsVal(whole + fraction), |fraction|))
    else None
  }

  predicate Canonical4(s: string) {
    |s| >= 6 && s[|s| - 5] == '.' && CanonicalNat(s[..|s| - 5]) && AllDigits(s[|s| - 4..])
  }

  lemma DigitsValSnoc(s: string, c: char)
    requires AllDigits(s) && IsDigit(c)
    ensures AllDigits(s + [c]) && DigitsVal(s + [c]) == DigitsVal(s) * 10 + DigitVal(c)
  {
    assert (s + [c])[..|s|] == s;
  }

  lemma DigitsValPlus4(s: string, f: string)
    requires AllDigits(s) && AllDigits(f) && |f| == 4
    ensures AllDigits(s + f) && AllDigits([f[0], f[1], f[2], f[3]])
    ensures DigitsVal(s + f) == DigitsVal(s) * 10000 + DigitVal(f[0]) * 1000 + DigitVal(f[1]) * 100 + DigitVal(f[2]) * 10 + DigitVal(f[3])
  {
    DigitsValSnoc(s, f[0]);
    DigitsValSnoc(s + [f[0]], f[1]);
    DigitsValSnoc(s + [f[0]] + [f[1]], f[2]);
    DigitsValSnoc(s + [f[0]] + [f[1]] + [f[2]], f[3]);
    assert s + f == s + [f[0]] + [f[1]] + [f[2]] + [f[3]];
  }

  lemma PadDigits(k: nat)
    requires k < 10000
    ensures AllDigits(Pad4(k))
    ensures DigitVal(Pad4(k)[0]) * 1000 + DigitVal(Pad4(k)[1]) * 100 + DigitVal(Pad4(k)[2]) * 10 + DigitVal(Pad4(k)[3]) == k
  {
    assert k / 100 == k / 1000 * 10 + k / 100 % 10;
    assert k / 10 == k / 100 * 10 + k / 10 % 10;
  }

  lemma ShiftedBy4(n: nat)
    ensures Shifted(n, 4) == n as real / 10000.0
  {
    assert Shifted(n, 1) == n as real / 10.0;
    assert Shifted(n, 2) == n as real / 100.0;
    assert Shifted(n, 3) == n as real / 1000.0;
  }

  lemma FirstAt(s: string, c: char, i: nat)
    requires i < |s| && s[i] == c && c !in s[..i]
    ensures IndexOf(s, c) == i
  {
    forall j | 0 <= j < i
      ensures s[j] != c
    {
      assert s[j] in s[..i];
    }
  }

  lemma SplitAtPoint(whole: string, fraction: string)
    requires AllDigits(whole)
    ensures IndexOf(whole + "." + fraction, '.') == |whole|
  {
    var s := whole + "." + fraction;
    assert s[..|whole|] == whole;
    FirstAt(s, '.', |whole|);
  }

  lemma ParsePoint(whole: string, fraction: string)
    requires AllDigits(whole) && AllDigits(fraction) && |fraction| == 4
    ensures AllDigits(whole + fraction)
    ensures ParseDecimal(whole + "." + fraction) == Some(DigitsVal(whole + fraction) as real / 10000.0)
  {
    var s := whole + "." + fraction;
    SplitAtPoint(whole, fraction);
    assert s[..|whole|] == whole && s[|whole| + 1..] == fraction;
    ShiftedBy4(DigitsVal(whole + fraction));
  }

  lemma ScaleExact(n: nat)
    ensures Scale4(n as real / 10000.0) == n
  {
    assert n as real / 10000.0 * 10000.0 == n as real;
    assert (n as real).Floor == n;
  }

  lemma PadValue(whole: string, k: nat)
    requires AllDigits(whole) && k < 10000
    ensures AllDigits(whole + Pad4(k)) && DigitsVal(whole + Pad4(k)) == DigitsVal(whole) * 10000 + k
  {
    PadDigits(k);
    DigitsValPlus4(whole, Pad4(k));
  }

  lemma PointForm(whole: string, fraction: string)
    requires CanonicalNat(whole) && AllDigits(fraction) && |fraction| == 4
    ensures Canonical4(whole + "." + fraction)
  {
    var s := whole + "." + fraction;
    assert |s| == |whole| + 5 && s[|whole|] == '.';
    assert s[..|s| - 5] == whole && s[|s| - 4..] == fraction;
  }

  lemma PointOfParts(whole: string, fraction: string, n: nat)
    requires CanonicalNat(whole) && AllDigits(fraction) && |fraction| == 4 && AllDigits(whole + fraction) && DigitsVal(whole + fraction) == n
    ensures ParseDecimal(whole + "." + fraction) == Some(n as real / 10000.0) && Canonical4(whole + "." + fraction)
  {
    ParsePoint(whole, fraction);
    PointForm(whole, fraction);
  }

  lemma PointReads(n: nat)
    ensures ParseDecimal(PointStr(n)) == Some(n as real / 10000.0) && Canonical4(PointStr(n))
  {
    var q, k := n / 10000, n % 10000;
    assert q * 10000 + k == n;
    NatStrReads(q);
    PadDigits(k);
    PadValue(NatStr(q), k);
    PointOfParts(NatStr(q), Pad4(k), n);
  }

  lemma Fixed4Parses(x: Priority)
    ensures ParseDecimal(Fixed4(x)) == Some(Round4(x))
  {
    var n := Scale4(x);
    PointReads(n);
    assert Fixed4(x) == PointStr(n) && Round4(x) == n as real / 10000.0;
  }

  lemma Fixed4IsCanonical(x: Priority)
    ensures Canonical4(Fixed4(x))
  {
    PointReads(Scale4(x));
  }

  lemma Fixed4Rounds(x: Priority)
    ensures Scale4(Round4(x)) == Scale4(x)
  {
    ScaleExact(Scale4(x));
  }

  lemma Fixed4Reads(x: Priority)
    ensures ParseDecimal(Fixed4(x)) == Some(Round4(x)) && Canonical4(Fixed4(x))
    ensures Fixed4(Round4(x)) == Fixed4(x)
  {
    Fixed4Parses(x);
    Fixed4IsCanonical(x);
    Fixed4Rounds(x);
  }

  lemma PadOfDigits(f: string)
    requires AllDigits(f) && |f| == 4
    ensures var k := DigitVal(f[0]) * 1000 + DigitVal(f[1]) * 100 + DigitVal(f[2]) * 10 + DigitVal(f[3]);
      k < 10000 && Pad4(k) == f
  {
    var k := DigitVal(f[0]) * 1000 + DigitVal(f[1]) * 100 + DigitVal(f[2]) * 10 + DigitVal(f[3]);
    assert k / 1000 == DigitVal(f[0]);
    assert k / 100 == DigitVal(f[0]) * 10 + DigitVal(f[1]);
    assert k / 10 == DigitVal(f[0]) * 100 + DigitVal(f[1]) * 10 + DigitVal(f[2]);
    forall i | 0 <= i < 4
      ensures Pad4(k)[i] == f[i]
    {
      assert DigitVal(Pad4(k)[i]) == DigitVal(f[i]);
    }
  }

  /** Re-printing a parsed decimal gives the same text exactly for canonical four-decimal numerals. */
  lemma Fixed4Writes(s: string)
    requires ParseDecimal(s).Some?
    ensures Fixed4(ParseDecimal(s).value) == s <==> Canonical4(s)
  {
    if Canonical4(s) {
      CanonicalWrites(s);
    }
    Fixed4Reads(ParseDecimal(s).value);
  }

  lemma CanonicalWrites(s: string)
    requires Canonical4(s)
    ensures ParseDecimal(s).Some? && Fixed4(ParseDecimal(s).value) == s
  {
    var whole, fraction := s[..|s| - 5], s[|s| - 4..];
    assert s == whole + "." + fraction;
    PartsWrite(whole, fraction);
  }

  lemma PartsWrite(whole: string, fraction: string)
    requires CanonicalNat(whole) && AllDigits(fraction) && |fraction| == 4
    ensures var r := ParseDecimal(whole + "." + fraction); r.Some? && Fixed4(r.value) == whole + "." + fraction
  {
    ParsePoint(whole, fraction);
    PointWrites(whole, fraction);
    ScaleExact(DigitsVal(whole + fraction));
  }

  lemma PointWrites(whole: string, fraction: string)
    requires CanonicalNat(whole) && AllDigits(fraction) && |fraction| == 4
    ensures AllDigits(whole + fraction) && PointStr(DigitsVal(whole + fraction)) == whole + "." + fraction
  {
    DigitsValPlus4(whole, fraction);
    PadOfDigits(fraction);
    var n, w := DigitsVal(whole + fraction), DigitsVal(whole);
    var k := n - w * 10000;
    assert 0 <= k < 10000;
    assert n / 10000 == w && n % 10000 == k;
    NatStrWrites(whole);
  }

  /** strings.HasPrefix. */
  predicate HasPrefix(s: string, prefix: string) {
    |prefix| <= |s| && s[..|prefix|] == prefix
  }

  // ---------- fields separated by '|' ----------

  function Join(fields: seq<string>): string
    requires |fields| >= 1
  {
    if |fields| == 1 then fields[0] else fields[0] + "|" + Join(fields[1..])
  }

  /** strings.SplitN(s, "|", n) for n >= 1: the n-th piece keeps any further separators. */
  function SplitN(s: string, n: nat): (fields: seq<string>)
    requires n >= 1
    ensures 1 <= |fields| <= n
    decreases |s|
  {
    var i := IndexOf(s, '|');
    if n == 1 || i == |s| then [s] else [s[..i]] + SplitN(s[i + 1..], n - 1)
  }

  predicate PipeFree(s: string) {
    '|' !in s
  }

  predicate AllPipeFree(fields: seq<string>) {
    forall i :: 0 <= i < |fields| ==> PipeFree(fields[i])
  }

  lemma {:induction false} SplitJoin(fields: seq<string>, n: nat)
    requires 1 <= |fields| <= n && AllPipeFree(fields)
    ensures SplitN(Join(fields), n) == fields
  {
    if |fields| == 1 {
      NoPipe(fields[0]);
    } else {
      var rest := Join(fields[1..]);
      CutFirst(fields[0], rest);
      SplitJoin(fields[1..], n - 1);
      assert fields == [fields[0]] + fields[1..];
    }
  }

  lemma NoPipe(s: string)
    requires PipeFree(s)
    ensures IndexOf(s, '|') == |s|
  {
  }

  lemma CutFirst(first: string, rest: string)
    requires PipeFree(first)
    ensures var s := first + "|" + rest;
      var i := IndexOf(s, '|'); i == |first| < |s| && s[..i] == first && s[i + 1..] == rest
  {
    var s := first + "|" + rest;
    assert s[..|first|] == first;
    FirstAt(s, '|', |first|);
  }

  /** Splitting loses nothing, and every piece but a last n-th one is free of separators. */
  lemma {:induction false} JoinSplit(s: string, n: nat)
    requires n >= 1
    ensures Join(SplitN(s, n)) == s
    ensures forall k :: 0 <= k < |SplitN(s, n)| && (k < n - 1) ==> PipeFree(SplitN(s, n)[k])
    decreases |s|
  {
    var i := IndexOf(s, '|');
    if n > 1 && i < |s| {
      JoinSplit(s[i + 1..], n - 1);
      var rest := SplitN(s[i + 1..], n - 1);
      assert SplitN(s, n)[1..] == rest;
      assert s == s[..i] + "|" + s[i + 1..];
    }
  }

  /** No list of separator-free pieces joins to the same text with fewer pieces, and none but one with as many. */
  lemma {:induction false} JoinUnique(pieces: seq<string>, fields: seq<string>)
    requires |pieces| >= 1 && |fields| >= 1 && AllPipeFree(pieces) && Join(pieces) == Join(fields)
    ensures |pieces| >= |fields| && (|pieces| == |fields| ==> pieces == fields)
    decreases |pieces|
  {
    var cut := IndexOf(fields[0], '|');
    if |pieces| == 1 {
      if |fields| > 1 {
        SeparatorInside(fields);
      }
    } else if cut == |fields[0]| {
      if |fields| == 1 {
        SeparatorInside(pieces);
      } else {
        CutFirst(pieces[0], Join(pieces[1..]));
        CutFirst(fields[0], Join(fields[1..]));
        JoinUnique(pieces[1..], fields[1..]);
        assert fields == [fields[0]] + fields[1..] && pieces == [pieces[0]] + pieces[1..];
      }
    } else {
      // the first field holds a separator of its own: the first piece ends there
      var rest := [fields[0][cut + 1..]] + fields[1..];
      PieceEndsAtCut(fields, cut);
      CutFirst(pieces[0], Join(pieces[1..]));
      CutFirst(fields[0][..cut], Join(rest));
      JoinUnique(pieces[1..], rest);
    }
  }

  lemma SeparatorInside(fields: seq<string>)
    requires |fields| > 1
    ensures !PipeFree(Join(fields))
  {
    assert Join(fields)[|fields[0]|] == '|';
  }

  lemma PieceEndsAtCut(fields: seq<string>, cut: nat)
    requires |fields| >= 1 && cut < |fields[0]| && fields[0][cut] == '|'
    ensures Join(fields) == fields[0][..cut] + "|" + Join([fields[0][cut + 1..]] + fields[1..])
  {
    var f := fields[0];
    var rest := [f[cut + 1..]] + fields[1..];
    assert f == f[..cut] + "|" + f[cut + 1..];
    if |fields| > 1 {
      assert rest[1..] == fields[1..];
      var tail := "|" + Join(fields[1..]);
      assert Join(fields) == f + tail;
      assert Join(rest) == f[cut + 1..] + tail;
      assert f + tail == f[..cut] + "|" + (f[cut + 1..] + tail);
    }
  }
}
