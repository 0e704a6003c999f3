/** The string primitives the views use: `trim`, `includes`, `replace` of the
    first match, `slice(-n)`, the `\D` strip, `Number.prototype.toString` on
    whole numbers and `parseInt` without a radix. */
module Text {
  import opened Types
  import Seqs

  /** JavaScript's WhiteSpace and LineTerminator characters: what `trim` and
      `parseInt` skip. */
  predicate IsSpace(c: char) {
    || c in {'\t', '\n', '\U{B}', '\U{C}', '\r', ' ', '\U{A0}', '\U{1680}',
             '\U{2028}', '\U{2029}', '\U{202F}', '\U{205F}', '\U{3000}', '\U{FEFF}'}
    || ('\U{2000}' <= c <= '\U{200A}')
  }

  predicate IsBlank(s: string) {
    forall i :: 0 <= i < |s| ==> IsSpace(s[i])
  }

  /** `s` without its leading white space. */
  function TrimStart(s: string): (r: string)
    ensures |r| <= |s| && r == s[|s| - |r|..]
    ensures r == [] || !IsSpace(r[0])
    ensures IsBlank(s[..|s| - |r|])
  {
    if s != [] && IsSpace(s[0]) then
      var r := TrimStart(s[1..]);
      var cut := s[1..][..|s| - 1 - |r|];
      var head := [s[0]] + cut;
      assert s[..|s| - |r|] == head;
      assert IsBlank(head) by {
        forall i | 0 <= i < |head| ensures IsSpace(head[i]) {
          if i > 0 { assert head[i] == cut[i - 1]; }
        }
      }
      r
    else s
  }

  /** `s` without its trailing white space. */
  function TrimEnd(s: string): (r: string)
    ensures |r| <= |s| && r == s[..|r|]
    ensures r == [] || !IsSpace(r[|r| - 1])
    ensures IsBlank(s[|r|..])
  {
    if s != [] && IsSpace(s[|s| - 1]) then
      var r := TrimEnd(s[..|s| - 1]);
      var cut := s[..|s| - 1][|r|..];
      var tail := cut + [s[|s| - 1]];
      assert s[|r|..] == tail;
      assert IsBlank(tail) by {
        forall i | 0 <= i < |tail| ensures IsSpace(tail[i]) {
          if i < |cut| { assert tail[i] == cut[i]; }
        }
      }
      r
    else s
  }

  /** `String.prototype.trim`: a middle slice of `s` that neither starts nor
      ends with white space, everything cut off being white space. */
  function Trim(s: string): (r: string)
    ensures |r| <= |s|
    ensures r != [] ==> !IsSpace(r[0]) && !IsSpace(r[|r| - 1])
    ensures exists i :: Middle(s, r, i)
  {
    TrimIsMiddle(s);
    TrimEnd(TrimStart(s))
  }

  lemma TrimIsMiddle(s: string)
    ensures exists i :: Middle(s, TrimEnd(TrimStart(s)), i)
  {
    var t := TrimStart(s);
    var r := TrimEnd(t);
    CutsCompose(s, t, r, |s| - |t|);
  }

  /** `r` is the part of `s` from `i` on, with only white space before and after it. */
  predicate Middle(s: string, r: string, i: nat) {
    i <= |s| - |r| && r == s[i..i + |r|] && IsBlank(s[..i]) && IsBlank(s[i + |r|..])
  }

  /** Cutting white space off the front and then off the back leaves a
      middle slice with white space on either side. */
  lemma CutsCompose(s: string, t: string, r: string, i: nat)
    requires i <= |s| && t == s[i..] && IsBlank(s[..i])
    requires |r| <= |t| && r == t[..|r|] && IsBlank(t[|r|..])
    ensures Middle(s, r, i)
  {
    assert s[i + |r|..] == t[|r|..];
  }

  /** The guard `!s.trim()` holds exactly of the strings made of white space only. */
  lemma TrimEmptyIffBlank(s: string)
    ensures Trim(s) == [] <==> IsBlank(s)
  {
    var t := TrimStart(s);
    if t == [] {
      assert s[..|s|] == s;
    } else {
      assert t[0] == s[|s| - |t|];
      assert t[0..] == t;
    }
  }

  /** `s` occurs in `text` starting at position `i`. */
  predicate OccursAt(text: string, s: string, i: int) {
    0 <= i && i + |s| <= |text| && text[i..i + |s|] == s
  }

  /** `String.prototype.includes`: `s` occurs somewhere in `text`. */
  function Includes(text: string, s: string): (b: bool)
    ensures b <==> exists i :: OccursAt(text, s, i)
    decreases |text|
  {
    if |s| <= |text| && text[..|s|] == s then
      assert OccursAt(text, s, 0);
      true
    else if text == [] then
      assert forall i :: !OccursAt(text, s, i);
      false
    else
      var b := Includes(text[1..], s);
      assert forall i :: OccursAt(text[1..], s, i) <==> OccursAt(text, s, i + 1) by {
        forall i ensures OccursAt(text[1..], s, i) <==> OccursAt(text, s, i + 1) {
          if 0 <= i && i + |s| <= |text| - 1 {
            assert text[1..][i..i + |s|] == text[i + 1..i + 1 + |s|];
          }
        }
      }
      assert !OccursAt(text, s, 0);
      assert b <==> exists i :: OccursAt(text, s, i) by {
        if exists i :: OccursAt(text, s, i) {
          var i :| OccursAt(text, s, i);
          assert i != 0;
          assert OccursAt(text[1..], s, i - 1);
        }
      }
      b
  }

  /** A string with a character that `text` lacks does not occur in `text`. */
  lemma MissingCharExcludes(text: string, s: string, k: nat)
    requires k < |s| && s[k] !in text
    ensures !Includes(text, s)
  {
    forall i | 0 <= i && i + |s| <= |text| ensures !OccursAt(text, s, i) {
      assert text[i..i + |s|][k] == text[i + k];
      assert text[i + k] in text;
    }
  }

  /** The first position of `c` in `s`, if any. */
  function IndexOf(s: string, c: char): (r: Option<nat>)
    ensures r.None? <==> c !in s
    ensures r.Some? ==> r.value < |s| && s[r.value] == c && c !in s[..r.value]
  {
    if s == [] then None
    else if s[0] == c then Some(0)
    else
      match IndexOf(s[1..], c)
      case None => None
      case Some(k) =>
        assert s[..k + 1] == [s[0]] + s[1..][..k];
        Some(k + 1)
  }

  /** `s.replace(a, b)` with a one-character string pattern: only the first
      occurrence of `a` becomes `b`. */
  function ReplaceFirst(s: string, a: char, b: char): (r: string)
    ensures |r| == |s|
    ensures a !in s ==> r == s
    ensures a in s ==> forall i :: 0 <= i < |s| && i != IndexOf(s, a).value ==> r[i] == s[i]
    ensures a in s ==> r[IndexOf(s, a).value] == b
  {
    match IndexOf(s, a)
    case None => s
    case Some(k) => s[..k] + [b] + s[k + 1..]
  }

  /** The replacement lands on the first occurrence and nowhere else. */
  lemma ReplaceFirstSplit(pre: string, post: string, a: char, b: char)
    requires a !in pre
    ensures ReplaceFirst(pre + [a] + post, a, b) == pre + [b] + post
  {
    var s := pre + [a] + post;
    var k := IndexOf(s, a).value;
    assert s[|pre|] == a;
    assert s[..|pre|] == pre;
    assert k == |pre|;
    assert s[..k] == pre && s[k + 1..] == post;
  }

  /** `s.slice(-n)` for a positive `n`: the last `n` characters, or all of `s` when it is shorter. */
  function TakeLast(s: string, n: nat): (r: string)
    requires n > 0
    ensures |r| == if |s| < n then |s| else n
    ensures s == s[..|s| - |r|] + r
  {
    if |s| <= n then s else s[|s| - n..]
  }

  predicate IsDigit(c: char) {
    '0' <= c <= '9'
  }

  predicate IsDigits(s: string) {
    forall i :: 0 <= i < |s| ==> IsDigit(s[i])
  }

  /** `s.replace(/\D/g, '')`: the decimal digits of `s`, in order. */
  function DigitsOnly(s: string): (r: string)
    ensures IsDigits(r)
    ensures |r| <= |s|
    ensures forall i :: 0 <= i < |s| && IsDigit(s[i]) ==> s[i] in r
    ensures forall i :: 0 <= i < |r| ==> r[i] in s
    ensures IsDigits(s) ==> r == s
  {
    var r := Seqs.Filter(IsDigit, s);
    assert IsDigits(s) ==> r == s by {
      if IsDigits(s) {
        Seqs.FilterAll(IsDigit, s);
      }
    }
    r
  }

  /** Stripping works piece by piece: the digits of a concatenation are the
      digits of each part, in order, each as often as it occurs. */
  lemma DigitsOnlyConcat(a: string, b: string)
    ensures DigitsOnly(a + b) == DigitsOnly(a) + DigitsOnly(b)
  {
    Seqs.FilterConcat(IsDigit, a, b);
  }

  /** A non-digit is dropped, a digit kept. */
  lemma DigitsOnlyOne(c: char)
    ensures DigitsOnly([c]) == if IsDigit(c) then [c] else []
  {
    assert [c][1..] == [];
  }

  function DigitChar(d: nat): (c: char)
    requires d < 10
    ensures IsDigit(c)
  {
    (48 + d) as char
  }

  /** The value of a digit in base 36, the way `parseInt` reads it. */
  function DigitValue(c: char): nat {
    if '0' <= c <= '9' then c as int - 48
    else if 'a' <= c <= 'z' then c as int - 87
    else if 'A' <= c <= 'Z' then c as int - 55
    else 36
  }

  predicate IsDigitIn(c: char, radix: nat) {
    DigitValue(c) < radix
  }

  /** `n.toString()` for a natural number `n`: decimal digits without leading zeros. */
  function Decimal(n: nat): string {
    if n < 10 then [DigitChar(n)] else Decimal(n / 10) + [DigitChar(n % 10)]
  }

  /** A decimal numeral is a non-empty run of digits that starts with 0 only for zero. */
  lemma {:induction false} DecimalDigits(n: nat)
    ensures |Decimal(n)| >= 1 && IsDigits(Decimal(n))
    ensures Decimal(n)[0] == '0' ==> n == 0
  {
    if n >= 10 {
      DecimalDigits(n / 10);
      assert Decimal(n)[0] == Decimal(n / 10)[0];
    }
  }

  /** `i.toString()` for a whole number `i`. */
  function IntText(i: int): string {
    if i >= 0 then Decimal(i) else ['-'] + Decimal(-i)
  }

  /** The text of a whole number is all digits exactly when the number is not negative. */
  lemma IntTextDigits(i: int)
    ensures |IntText(i)| >= 1
    ensures i >= 0 <==> IsDigits(IntText(i))
  {
    if i >= 0 {
      DecimalDigits(i);
    } else {
      DecimalDigits(-i);
      assert !IsDigit(IntText(i)[0]);
    }
  }

  /** The number a run of digits of the given radix denotes, most significant first. */
  function ValueOf(s: string, radix: nat): nat {
    if s == [] then 0
    else ValueOf(s[..|s| - 1], radix) * radix + DigitValue(s[|s| - 1])
  }

  /** The length of the longest prefix of `s` made of digits of the given radix. */
  function DigitRun(s: string, radix: nat): (k: nat)
    ensures k <= |s|
    ensures forall i :: 0 <= i < k ==> IsDigitIn(s[i], radix)
    ensures k < |s| ==> !IsDigitIn(s[k], radix)
  {
    if s != [] && IsDigitIn(s[0], radix) then 1 + DigitRun(s[1..], radix) else 0
  }

  /** The sign `parseInt` reads in front of the digits (whether it is a
      minus), and what follows it. */
  function ReadSign(t: string): (bool, string) {
    if t != [] && t[0] == '-' then (true, t[1..])
    else if t != [] && t[0] == '+' then (false, t[1..])
    else (false, t)
  }

  /** The unsigned part of `parseInt`: a `0x`/`0X` prefix switches to base 16,
      and the longest run of digits that follows is the value; no digits is NaN. */
  function ReadMagnitude(u: string): Option<nat>
  {
    if |u| >= 2 && u[0] == '0' && (u[1] == 'x' || u[1] == 'X') then
      var k := DigitRun(u[2..], 16);
      if k == 0 then None else Some(ValueOf(u[2..][..k], 16))
    else
      var k := DigitRun(u, 10);
      if k == 0 then None else Some(ValueOf(u[..k], 10))
  }

  /** `parseInt` on text without leading white space: one sign, then the magnitude. */
  function ParseTrimmed(t: string): Option<int> {
    var (minus, u) := ReadSign(t);
    match ReadMagnitude(u)
    case None => None
    case Some(m) => Some(if minus then -(m as int) else m)
  }

  /** `parseInt(s)` with no radix argument, `None` standing for NaN: leading
      white space is skipped and one sign is read before the magnitude. */
  function ParseInt(s: string): Option<int> {
    ParseTrimmed(TrimStart(s))
  }

  /** Text of white space only is NaN. */
  lemma ParseIntBlank(s: string)
    requires IsBlank(s)
    ensures ParseInt(s).None?
  {
  }

  /** `parseInt(s) || 0`: NaN (and zero) become zero. */
  function ParseIntOrZero(s: string): int {
    ParseInt(s).GetOr(0)
  }

  lemma {:induction false} ValueOfDecimal(n: nat)
    ensures ValueOf(Decimal(n), 10) == n
  {
    if n >= 10 {
      var d := Decimal(n / 10);
      assert (d + [DigitChar(n % 10)])[..|d|] == d;
      ValueOfDecimal(n / 10);
    }
  }

  lemma {:induction false} DigitRunAll(s: string, radix: nat)
    requires forall i :: 0 <= i < |s| ==> IsDigitIn(s[i], radix)
    ensures DigitRun(s, radix) == |s|
  {
    if s != [] {
      DigitRunAll(s[1..], radix);
    }
  }

  lemma MagnitudeOfDigits(d: string)
    requires |d| >= 1 && IsDigits(d)
    ensures ReadMagnitude(d) == Some(ValueOf(d, 10))
  {
    assert forall j :: 0 <= j < |d| ==> IsDigitIn(d[j], 10);
    DigitRunAll(d, 10);
    assert d[..|d|] == d;
  }

  lemma TrimStartKeeps(s: string)
    requires s != [] && !IsSpace(s[0])
    ensures TrimStart(s) == s
  {
  }

  /** The magnitude of a decimal numeral is the number it writes. */
  lemma MagnitudeOfDecimal(n: nat)
    ensures ReadMagnitude(Decimal(n)) == Some(n)
  {
    DecimalDigits(n);
    ValueOfDecimal(n);
    MagnitudeOfDigits(Decimal(n));
  }

  /** Text that starts with a digit is read as its magnitude. */
  lemma ParseIntPlain(u: string, m: nat)
    requires u != [] && IsDigit(u[0]) && ReadMagnitude(u) == Some(m)
    ensures ParseInt(u) == Some(m)
  {
    assert !IsSpace(u[0]);
    TrimStartKeeps(u);
    assert ReadSign(u) == (false, u);
  }

  /** A minus sign in front of a magnitude negates it. */
  lemma ParseTrimmedMinus(u: string, m: nat)
    requires ReadMagnitude(u) == Some(m)
    ensures ParseTrimmed(['-'] + u) == Some(-(m as int))
  {
    assert (['-'] + u)[1..] == u;
  }

  /** Text that starts with a sign is read from its first character on. */
  lemma ParseIntOfSigned(s: string)
    requires s != [] && (s[0] == '-' || s[0] == '+')
    ensures ParseInt(s) == ParseTrimmed(s)
  {
    assert !IsSpace(s[0]);
    TrimStartKeeps(s);
  }

  /** A minus sign in front of a magnitude, with nothing before it. */
  lemma ParseIntMinus(u: string, m: nat)
    requires ReadMagnitude(u) == Some(m)
    ensures ParseInt(['-'] + u) == Some(-(m as int))
  {
    ParseTrimmedMinus(u, m);
    ParseIntOfSigned(['-'] + u);
  }

  lemma ParseIntDecimal(n: nat)
    ensures ParseInt(Decimal(n)) == Some(n)
  {
    DecimalDigits(n);
    MagnitudeOfDecimal(n);
    ParseIntPlain(Decimal(n), n);
  }

  lemma ParseIntMinusDecimal(n: nat)
    ensures ParseInt(['-'] + Decimal(n)) == Some(-(n as int))
  {
    MagnitudeOfDecimal(n);
    ParseIntMinus(Decimal(n), n);
  }

  lemma ParseIntTextNegative(i: int)
    requires i < 0
    ensures ParseInt(IntText(i)) == Some(i)
  {
    var n: nat := -i;
    var t := ['-'] + Decimal(n);
    assert IntText(i) == t;
    ParseIntMinusDecimal(n);
    assert ParseInt(t) == Some(i);
  }

  /** `parseInt` reads back what `toString` writes for every whole number. */
  lemma ParseIntText(i: int)
    ensures ParseInt(IntText(i)) == Some(i)
  {
    if i >= 0 {
      ParseIntDecimal(i);
      assert IntText(i) == Decimal(i);
    } else {
      ParseIntTextNegative(i);
    }
  }

  /** White space in front of the text is what `TrimStart` drops first. */
  lemma TrimStartSkips(c: char, s: string)
    requires IsSpace(c)
    ensures TrimStart([c] + s) == TrimStart(s)
  {
    assert ([c] + s)[1..] == s;
  }

  /** White space in front of the number does not change what `parseInt` reads. */
  lemma ParseIntSkipsSpace(c: char, s: string)
    requires IsSpace(c)
    ensures ParseInt([c] + s) == ParseInt(s)
  {
    TrimStartSkips(c, s);
  }
}
