/** The few string operations of Go's `strconv` and `strings` packages that the platform relies on. */
module Text {

  datatype Option<+T> = None | Some(value: T)

  const INT64_MIN: int := -0x8000_0000_0000_0000
  const INT64_MAX: int := 0x7fff_ffff_ffff_ffff
  const UINT64_MAX: int := 0xffff_ffff_ffff_ffff

  predicate IsInt64(n: int) {
    INT64_MIN <= n <= INT64_MAX
  }

  // ----- printing: the %d verb -----

  predicate IsDigit(c: char) {
    '0' <= c <= '9'
  }

  function Digit(d: nat): char
    requires d < 10
  {
    ('0' as int + d) as char
  }

  function FormatNat(n: nat): string {
    if n < 10 then [Digit(n)] else FormatNat(n / 10) + [Digit(n % 10)]
  }

  function FormatInt(n: int): string {
    if n < 0 then "-" + FormatNat(-n) else FormatNat(n)
  }

  // ----- parsing: strconv.ParseInt(s, 10, 64) and strconv.Atoi -----

  /** On a range error ParseInt still returns the nearest int64; on a syntax error it returns 0. */
  datatype Parsed = Value(value: int) | SyntaxError | RangeError(nearest: int)

  /** The digit loop of ParseUint: it stops at the first bad character or the first overflow. */
  function ParseUintFrom(s: string, acc: nat): (r: Parsed)
    ensures r.Value? ==> r.value >= acc
  {
    if s == "" then Value(acc)
    else if !IsDigit(s[0]) then SyntaxError
    else
      var next := acc * 10 + (s[0] as int - '0' as int);
      if next > UINT64_MAX then RangeError(UINT64_MAX) else ParseUintFrom(s[1..], next)
  }

  function Unsigned(s: string): string {
    if s != "" && (s[0] == '-' || s[0] == '+') then s[1..] else s
  }

  function ParseInt(s: string): Parsed {
    if Unsigned(s) == "" then SyntaxError
    else
      var negative := s[0] == '-';
      match ParseUintFrom(Unsigned(s), 0)
      case SyntaxError => SyntaxError
      case RangeError(_) => RangeError(if negative then INT64_MIN else INT64_MAX)
      case Value(u) =>
        if !negative && u > INT64_MAX then RangeError(INT64_MAX)
        else if negative && u > -INT64_MIN then RangeError(INT64_MIN)
        else Value(if negative then -u else u)
  }

  /** The first result of ParseInt when the caller drops the error. */
  function ParseIntOrDefault(s: string): int {
    match ParseInt(s)
    case Value(n) => n
    case SyntaxError => 0
    case RangeError(n) => n
  }

  function Atoi(s: string): Option<int> {
    match ParseInt(s)
    case Value(n) => Some(n)
    case _ => None
  }

  // ----- what a numeral denotes, without any machine width -----

  predicate AllDigits(s: string) {
    forall i :: 0 <= i < |s| ==> IsDigit(s[i])
  }

  /** One digit or more, behind at most one sign. */
  predicate IsNumeral(s: string) {
    if s != "" && s[0] in {'+', '-'} then |s| > 1 && AllDigits(s[1..]) else s != "" && AllDigits(s)
  }

  function NatValue(s: string): nat
    requires AllDigits(s)
  {
    if s == "" then 0
    else NatValue(s[..|s| - 1]) * 10 + (s[|s| - 1] as int - '0' as int)
  }

  function NumeralValue(s: string): int
    requires IsNumeral(s)
  {
    var magnitude: int := if s[0] in {'+', '-'} then NatValue(s[1..]) else NatValue(s);
    if s[0] == '-' then -magnitude else magnitude
  }

  lemma {:induction false} ParseUintSnoc(s: string, c: char, acc: nat)
    ensures ParseUintFrom(s + [c], acc) ==
            match ParseUintFrom(s, acc)
            case Value(u) => ParseUintFrom([c], u)
            case error => error
  {
    if s == "" {
      assert s + [c] == [c];
    } else {
      assert (s + [c])[1..] == s[1..] + [c];
      var next := acc * 10 + (s[0] as int - '0' as int);
      if IsDigit(s[0]) && next <= UINT64_MAX {
        ParseUintSnoc(s[1..], c, next);
      }
    }
  }

  /** On digits the bounded loop computes the unbounded value, or reports that it does not fit. */
  lemma {:induction false} ParseUintDigits(s: string)
    requires AllDigits(s)
    ensures ParseUintFrom(s, 0) == if NatValue(s) <= UINT64_MAX then Value(NatValue(s)) else RangeError(UINT64_MAX)
  {
    if s != "" {
      var init, c := s[..|s| - 1], s[|s| - 1];
      assert s == init + [c];
      ParseUintSnoc(init, c, 0);
      ParseUintDigits(init);
      if NatValue(init) <= UINT64_MAX {
        var next := NatValue(init) * 10 + (c as int - '0' as int);
        assert [c][1..] == "";
        assert ParseUintFrom([c], NatValue(init)) == if next > UINT64_MAX then RangeError(UINT64_MAX) else Value(next);
      }
    }
  }

  lemma {:induction false} ParseUintAccepts(s: string, acc: nat)
    requires ParseUintFrom(s, acc).Value?
    ensures AllDigits(s)
  {
    if s != "" {
      ParseUintAccepts(s[1..], acc * 10 + (s[0] as int - '0' as int));
      assert forall i :: 1 <= i < |s| ==> s[i] == s[1..][i - 1];
    }
  }

  /** Atoi accepts exactly the signed decimal numerals whose value is an int64, and returns that value. */
  lemma AtoiMeaning(s: string, n: int)
    ensures Atoi(s) == Some(n) <==> IsNumeral(s) && NumeralValue(s) == n && IsInt64(n)
  {
    var digits := Unsigned(s);
    if AllDigits(digits) {
      ParseUintDigits(digits);
    } else if ParseUintFrom(digits, 0).Value? {
      ParseUintAccepts(digits, 0);
    }
  }

  lemma {:induction false} FormatNatIsNumeral(n: nat)
    ensures FormatNat(n) != "" && AllDigits(FormatNat(n)) && NatValue(FormatNat(n)) == n
  {
    if n < 10 {
      assert [Digit(n)][..0] == "";
    } else {
      FormatNatIsNumeral(n / 10);
      var init := FormatNat(n / 10);
      assert FormatNat(n) == init + [Digit(n % 10)];
      assert FormatNat(n)[..|FormatNat(n)| - 1] == init;
    }
  }

  /** A printed number is a numeral with no blank, comma or letter in it. */
  lemma FormatIntIsNumeral(n: int)
    ensures FormatInt(n) != "" && IsNumeral(FormatInt(n)) && NumeralValue(FormatInt(n)) == n
    ensures forall i :: 0 <= i < |FormatInt(n)| ==> IsDigit(FormatInt(n)[i]) || FormatInt(n)[i] == '-'
  {
    if n < 0 {
      FormatNatIsNumeral(-n);
      assert ("-" + FormatNat(-n))[1..] == FormatNat(-n);
    } else {
      FormatNatIsNumeral(n);
      assert IsDigit(FormatNat(n)[0]);
    }
  }

  /** Printing then parsing is the identity on int64, and an error on every other integer. */
  lemma AtoiFormatInt(n: int)
    ensures Atoi(FormatInt(n)) == if IsInt64(n) then Some(n) else None
  {
    FormatIntIsNumeral(n);
    AtoiMeaning(FormatInt(n), n);
    match Atoi(FormatInt(n)) {
      case None =>
      case Some(m) => AtoiMeaning(FormatInt(n), m);
    }
  }

  lemma ParseIntFormatInt(n: int)
    requires IsInt64(n)
    ensures ParseIntOrDefault(FormatInt(n)) == n
  {
    AtoiFormatInt(n);
  }

  /** When the error is dropped, a numeral out of range reads as the nearest int64. */
  lemma ParseIntOrDefaultMeaning(s: string)
    requires IsNumeral(s)
    ensures var n := NumeralValue(s);
            ParseIntOrDefault(s) == if n < INT64_MIN then INT64_MIN else if n > INT64_MAX then INT64_MAX else n
  {
    ParseUintDigits(Unsigned(s));
  }

  // ----- strings.Split, strings.TrimSpace, strings.Contains -----

  function Split(s: string, sep: char): (parts: seq<string>)
    ensures |parts| >= 1
    ensures sep !in s ==> parts == [s]
  {
    if s == "" then [""]
    else
      var rest := Split(s[1..], sep);
      assert s == [s[0]] + s[1..];
      if s[0] == sep then [""] + rest else [[s[0]] + rest[0]] + rest[1..]
  }

  lemma {:induction false} SplitPair(a: string, b: string, sep: char)
    requires sep !in a && sep !in b
    ensures Split(a + [sep] + b, sep) == [a, b]
  {
    var s := a + [sep] + b;
    if a == "" {
      assert s[1..] == b;
    } else {
      assert s[1..] == a[1..] + [sep] + b;
      SplitPair(a[1..], b, sep);
      assert [a[0]] + a[1..] == a;
    }
  }

  /** unicode.IsSpace. */
  predicate IsSpace(c: char) {
    || '\U{9}' <= c <= '\U{D}'
    || c in {' ', '\U{85}', '\U{A0}', '\U{1680}', '\U{2028}', '\U{2029}', '\U{202F}', '\U{205F}', '\U{3000}'}
    || '\U{2000}' <= c <= '\U{200A}'
  }

  /** The characters with the property White_Space, one by one. */
  const BLANKS: set<char> :=
    {'\t', '\n', '\U{B}', '\U{C}', '\r', ' ', '\U{85}', '\U{A0}', '\U{1680}', '\U{2000}', '\U{2001}', '\U{2002}',
     '\U{2003}', '\U{2004}', '\U{2005}', '\U{2006}', '\U{2007}', '\U{2008}', '\U{2009}', '\U{200A}', '\U{2028}',
     '\U{2029}', '\U{202F}', '\U{205F}', '\U{3000}'}

  predicate Blank(s: string) {
    forall i :: 0 <= i < |s| ==> s[i] in BLANKS
  }

  lemma SpaceIsBlank(c: char)
    ensures IsSpace(c) <==> c in BLANKS
  {
  }

  predicate AllSpace(s: string) {
    forall i :: 0 <= i < |s| ==> IsSpace(s[i])
  }

  lemma AllSpaceIsBlank(s: string)
    ensures AllSpace(s) <==> Blank(s)
  {
    forall i | 0 <= i < |s| ensures IsSpace(s[i]) <==> s[i] in BLANKS {
      SpaceIsBlank(s[i]);
    }
    hide IsSpace;
  }

  function TrimLeft(s: string): string {
    if s != "" && IsSpace(s[0]) then TrimLeft(s[1..]) else s
  }

  function TrimRight(s: string): string {
    if s != "" && IsSpace(s[|s| - 1]) then TrimRight(s[..|s| - 1]) else s
  }

  function TrimSpace(s: string): string {
    TrimRight(TrimLeft(s))
  }

  lemma {:induction false} TrimLeftPadded(pad: string, core: string)
    requires AllSpace(pad)
    requires core != "" && !IsSpace(core[0])
    ensures TrimLeft(pad + core) == core
  {
    if pad == "" {
      assert pad + core == core;
    } else {
      assert (pad + core)[1..] == pad[1..] + core;
      TrimLeftPadded(pad[1..], core);
    }
  }

  lemma {:induction false} TrimRightPadded(core: string, pad: string)
    requires AllSpace(pad)
    requires core != "" && !IsSpace(core[|core| - 1])
    ensures TrimRight(core + pad) == core
  {
    if pad == "" {
      assert core + pad == core;
    } else {
      assert (core + pad)[..|core + pad| - 1] == core + pad[..|pad| - 1];
      TrimRightPadded(core, pad[..|pad| - 1]);
    }
  }

  lemma TrimSpacePadded(left: string, core: string, right: string)
    requires AllSpace(left) && AllSpace(right)
    requires core != "" && !IsSpace(core[0]) && !IsSpace(core[|core| - 1])
    ensures TrimSpace(left + core + right) == core
  {
    assert left + core + right == left + (core + right);
    TrimLeftPadded(left, core + right);
    TrimRightPadded(core, right);
  }

  lemma {:induction false} TrimLeftSplits(s: string) returns (pad: string)
    ensures s == pad + TrimLeft(s) && AllSpace(pad)
    ensures TrimLeft(s) != "" ==> !IsSpace(TrimLeft(s)[0])
  {
    if s != "" && IsSpace(s[0]) {
      var rest := TrimLeftSplits(s[1..]);
      pad := [s[0]] + rest;
    } else {
      pad := "";
    }
  }

  lemma {:induction false} TrimRightSplits(s: string) returns (pad: string)
    ensures s == TrimRight(s) + pad && AllSpace(pad)
  {
    if s != "" && IsSpace(s[|s| - 1]) {
      var rest := TrimRightSplits(s[..|s| - 1]);
      pad := rest + [s[|s| - 1]];
    } else {
      pad := "";
    }
  }

  /** What is trimmed off on either side is blank. */
  lemma TrimSpaceSplits(s: string) returns (left: string, right: string)
    ensures s == left + TrimSpace(s) + right && Blank(left) && Blank(right)
  {
    left := TrimLeftSplits(s);
    right := TrimRightSplits(TrimLeft(s));
    AllSpaceIsBlank(left);
    AllSpaceIsBlank(right);
  }

  predicate Contains(s: string, part: string) {
    exists i :: 0 <= i <= |s| - |part| && s[i..][..|part|] == part
  }

  /** A text contains another exactly when it is that text with something before and something behind it. */
  lemma ContainsMeaning(s: string, part: string)
    ensures Contains(s, part) <==> exists before: string, behind: string :: before + part + behind == s
  {
    if Contains(s, part) {
      var i :| 0 <= i <= |s| - |part| && s[i..][..|part|] == part;
      assert s[..i] + part + s[i..][|part|..] == s;
    }
    if before: string, behind: string :| before + part + behind == s {
      assert s[|before|..][..|part|] == part;
    }
  }

  // ----- len(s): the number of UTF-8 bytes -----

  function RuneLen(c: char): nat {
    if c < '\U{80}' then 1 else if c < '\U{800}' then 2 else if c < '\U{10000}' then 3 else 4
  }

  /** The least number of bytes whose 7, 11, 16 or 21 free bits hold the code point. */
  lemma RuneLenMeaning(c: char)
    ensures 1 <= RuneLen(c) <= 4
    ensures RuneLen(c) <= 1 <==> c as int < 128
    ensures RuneLen(c) <= 2 <==> c as int < 2048
    ensures RuneLen(c) <= 3 <==> c as int < 65_536
  {
  }

  function ByteLen(s: string): nat {
    if s == "" then 0 else ByteLen(s[..|s| - 1]) + RuneLen(s[|s| - 1])
  }

  lemma {:induction false} ByteLenConcat(a: string, b: string)
    ensures ByteLen(a + b) == ByteLen(a) + ByteLen(b)
  {
    if b == "" {
      assert a + b == a;
    } else {
      assert (a + b)[..|a + b| - 1] == a + b[..|b| - 1];
      ByteLenConcat(a, b[..|b| - 1]);
    }
  }
}
