/** The pieces of JavaScript's string library that the job parser and the
    job controller rely on: `trim`, `toLowerCase` (ASCII part), `includes`,
    `split` on a one-character separator, `replace(/[^0-9]/g, '')`,
    `parseInt` without a radix and `Number.prototype.toString`. */
module JsText {
  import opened Wrappers

  // ---------------------------------------------------------------------------
  // Whitespace and trim
  // ---------------------------------------------------------------------------

  /** The WhiteSpace and LineTerminator code points of ECMAScript: what
      `String.prototype.trim` strips and what the regular-expression class
      `\s` matches. */
  predicate IsWhitespace(c: char) {
    || c == ' ' || c == '\t' || c == '\n' || c == '\U{B}' || c == '\U{C}' || c == '\r'
    || c == '\U{A0}' || c == '\U{1680}' || ('\U{2000}' <= c <= '\U{200A}')
    || c == '\U{2028}' || c == '\U{2029}' || c == '\U{202F}' || c == '\U{205F}'
    || c == '\U{3000}' || c == '\U{FEFF}'
  }

  predicate AllWhitespace(s: string) {
    forall i :: 0 <= i < |s| ==> IsWhitespace(s[i])
  }

  /** End of the run of whitespace that starts at `i` (`\s*`, greedy):
      the first index from `i` on that is not whitespace, or `|s|`. */
  function SpaceRunEnd(s: string, i: nat): (j: nat)
    requires i <= |s|
    ensures i <= j <= |s|
    ensures forall k :: i <= k < j ==> IsWhitespace(s[k])
    ensures j == |s| || !IsWhitespace(s[j])
    decreases |s| - i
  {
    if i < |s| && IsWhitespace(s[i]) then SpaceRunEnd(s, i + 1) else i
  }

  /** `s.trimStart()`: `s` from its first non-whitespace character on. */
  function TrimStart(s: string): string {
    s[SpaceRunEnd(s, 0)..]
  }

  /** `s.trim()`: `s` with whitespace removed from both ends, one character
      at a time, until neither end is whitespace. */
  function Trim(s: string): (r: string)
    ensures |r| <= |s|
    ensures forall c :: c in r ==> c in s
  {
    if s != [] && IsWhitespace(s[0]) then Trim(s[1..])
    else if s != [] && IsWhitespace(s[|s| - 1]) then Trim(s[..|s| - 1])
    else s
  }

  /** `r` is `s[a..a + |r|]` and everything around it in `s` is whitespace. */
  predicate CutAt(s: string, r: string, a: int) {
    && 0 <= a && a + |r| <= |s| && r == s[a..a + |r|]
    && (forall k :: 0 <= k < a ==> IsWhitespace(s[k]))
    && (forall k :: a + |r| <= k < |s| ==> IsWhitespace(s[k]))
  }

  /** What trimming keeps is a contiguous part of `s` that neither starts nor
      ends with whitespace, and what it cuts off on either side is whitespace
      only. */
  lemma {:induction false} TrimCut(s: string)
    ensures Trim(s) == [] || (!IsWhitespace(Trim(s)[0]) && !IsWhitespace(Trim(s)[|Trim(s)| - 1]))
    ensures exists a :: CutAt(s, Trim(s), a)
  {
    var r := Trim(s);
    if s != [] && IsWhitespace(s[0]) {
      var t := s[1..];
      TrimCut(t);
      var a :| CutAt(t, r, a);
      assert r == s[a + 1..a + 1 + |r|];
      forall k | 0 <= k < a + 1 ensures IsWhitespace(s[k]) {
        if k > 0 { assert s[k] == t[k - 1]; }
      }
      assert CutAt(s, r, a + 1);
    } else if s != [] && IsWhitespace(s[|s| - 1]) {
      var t := s[..|s| - 1];
      TrimCut(t);
      var a :| CutAt(t, r, a);
      assert r == s[a..a + |r|];
      forall k | a + |r| <= k < |s| ensures IsWhitespace(s[k]) {
        if k < |s| - 1 { assert s[k] == t[k]; }
      }
      assert CutAt(s, r, a);
    } else {
      assert CutAt(s, r, 0);
    }
  }

  /** A string trims to nothing exactly when it is all whitespace. */
  lemma {:induction false} TrimEmptyIff(s: string)
    ensures Trim(s) == [] <==> AllWhitespace(s)
  {
    TrimCut(s);
    var a :| CutAt(s, Trim(s), a);
    if Trim(s) != [] {
      assert Trim(s)[0] == s[a];
    }
  }

  /** Trimming twice is trimming once. */
  lemma {:induction false} TrimIdempotent(s: string)
    ensures Trim(Trim(s)) == Trim(s)
  {
    TrimCut(s);
  }

  // ---------------------------------------------------------------------------
  // Case folding and substring search
  // ---------------------------------------------------------------------------

  /** `toLowerCase` on one character, for the ASCII letters. */
  function LowerChar(c: char): (r: char)
    ensures ('A' <= c <= 'Z') ==> 'a' <= r <= 'z'
    ensures !('A' <= c <= 'Z') ==> r == c
  {
    if 'A' <= c <= 'Z' then (c as int - 'A' as int + 'a' as int) as char else c
  }

  /** `s.toLowerCase()` restricted to ASCII letters; length is kept and every
      character is folded on its own. */
  function ToLower(s: string): (r: string)
    ensures |r| == |s|
    ensures forall i :: 0 <= i < |s| ==> r[i] == LowerChar(s[i])
  {
    if s == [] then [] else [LowerChar(s[0])] + ToLower(s[1..])
  }

  predicate StartsWith(s: string, prefix: string) {
    |prefix| <= |s| && s[..|prefix|] == prefix
  }

  /** `s.includes(t)`: `t` occurs in `s` at some position. */
  predicate Contains(s: string, t: string)
    decreases |s|
  {
    StartsWith(s, t) || (|s| > 0 && Contains(s[1..], t))
  }

  predicate OccursAt(s: string, t: string, i: int) {
    0 <= i && i + |t| <= |s| && s[i..i + |t|] == t
  }

  /** `includes` searches every position: it holds exactly when `t` occurs
      at some index of `s`. */
  lemma {:induction false} ContainsIff(s: string, t: string)
    ensures Contains(s, t) <==> exists i :: OccursAt(s, t, i)
    decreases |s|
  {
    if StartsWith(s, t) {
      assert OccursAt(s, t, 0);
    } else if |s| == 0 {
      assert forall i :: !OccursAt(s, t, i);
    } else {
      ContainsIff(s[1..], t);
      if exists i :: OccursAt(s[1..], t, i) {
        var i :| OccursAt(s[1..], t, i);
        assert s[1..][i..i + |t|] == s[i + 1..i + 1 + |t|];
        assert OccursAt(s, t, i + 1);
      }
      if exists i :: OccursAt(s, t, i) {
        var i :| OccursAt(s, t, i);
        assert i != 0;
        assert s[1..][i - 1..i - 1 + |t|] == s[i..i + |t|];
        assert OccursAt(s[1..], t, i - 1);
      }
    }
  }

  // ---------------------------------------------------------------------------
  // split on a one-character separator
  // ---------------------------------------------------------------------------

  /** Number of occurrences of `c` in `s`. */
  function Count(s: string, c: char): nat {
    if s == [] then 0 else (if s[0] == c then 1 else 0) + Count(s[1..], c)
  }

  /** `s.split(sep)` for a one-character separator: the pieces between the
      separators, in order; the empty string gives one empty piece. */
  function Split(s: string, sep: char): (pieces: seq<string>)
    ensures |pieces| == Count(s, sep) + 1
    ensures forall i :: 0 <= i < |pieces| ==> sep !in pieces[i]
  {
    if s == [] then [""]
    else
      var rest := Split(s[1..], sep);
      if s[0] == sep then [""] + rest
      else [[s[0]] + rest[0]] + rest[1..]
  }

  /** `pieces.join(sep)`. */
  function Join(pieces: seq<string>, sep: char): string {
    if |pieces| <= 1 then (if pieces == [] then "" else pieces[0])
    else pieces[0] + [sep] + Join(pieces[1..], sep)
  }

  /** Joining the pieces back with the separator gives the original string,
      so `split` loses nothing but the separators. */
  lemma {:induction false} JoinSplit(s: string, sep: char)
    ensures Join(Split(s, sep), sep) == s
  {
    if s != [] {
      var rest := Split(s[1..], sep);
      JoinSplit(s[1..], sep);
      if s[0] == sep {
        assert Split(s, sep) == [""] + rest;
        assert ([""] + rest)[1..] == rest;
      } else {
        var pieces := Split(s, sep);
        assert pieces == [[s[0]] + rest[0]] + rest[1..];
        if |rest| == 1 {
          assert pieces == [[s[0]] + rest[0]];
        } else {
          assert pieces[1..] == rest[1..];
          assert Join(rest, sep) == rest[0] + [sep] + Join(rest[1..], sep);
        }
      }
    }
  }

  /** A string without the separator splits into itself alone. */
  lemma {:induction false} SplitNoSeparator(a: string, sep: char)
    requires sep !in a
    ensures Split(a, sep) == [a]
  {
    if a != [] {
      SplitNoSeparator(a[1..], sep);
      assert [a[0]] + a[1..] == a;
    }
  }

  /** The text before the first separator is the first piece, and the rest
      splits on its own. */
  lemma {:induction false} SplitAtFirst(a: string, sep: char, b: string)
    requires sep !in a
    ensures Split(a + [sep] + b, sep) == [a] + Split(b, sep)
  {
    var s := a + [sep] + b;
    if a == [] {
      assert s[1..] == b;
    } else {
      assert s[1..] == a[1..] + [sep] + b;
      SplitAtFirst(a[1..], sep, b);
      assert [a[0]] + a[1..] == a;
    }
  }

  // ---------------------------------------------------------------------------
  // Digits
  // ---------------------------------------------------------------------------

  /** `\d` and `[0-9]`. */
  predicate IsDigit(c: char) {
    '0' <= c <= '9'
  }

  predicate AllDigits(s: string) {
    forall i :: 0 <= i < |s| ==> IsDigit(s[i])
  }

  /** `s.replace(/[^0-9]/g, '')`: the digits of `s`, in order. */
  function StripNonDigits(s: string): (r: string)
    ensures |r| <= |s|
    ensures AllDigits(r)
    ensures AllDigits(s) ==> r == s
    ensures r == [] <==> forall i :: 0 <= i < |s| ==> !IsDigit(s[i])
  {
    if s == [] then []
    else if IsDigit(s[0]) then [s[0]] + StripNonDigits(s[1..])
    else
      assert forall i :: 0 <= i < |s[1..]| ==> s[1..][i] == s[i + 1];
      StripNonDigits(s[1..])
  }

  /** One character is kept exactly when it is a digit. */
  lemma StripNonDigitsChar(c: char)
    ensures StripNonDigits([c]) == if IsDigit(c) then [c] else []
  {
    assert [c][1..] == [];
  }

  /** Stripping works piece by piece: the digits of `a + b` are the digits of
      `a` followed by the digits of `b`. Together with `StripNonDigitsChar`
      this fixes the result as the input's digits, in order. */
  lemma {:induction false} StripNonDigitsAppend(a: string, b: string)
    ensures StripNonDigits(a + b) == StripNonDigits(a) + StripNonDigits(b)
    decreases |a|
  {
    if a == [] {
      assert a + b == b;
    } else {
      assert (a + b)[0] == a[0];
      assert (a + b)[1..] == a[1..] + b;
      StripNonDigitsAppend(a[1..], b);
    }
  }

  // ---------------------------------------------------------------------------
  // parseInt and toString
  // ---------------------------------------------------------------------------

  /** Whether `c` is a digit of the given radix (10 or 16), case-insensitive. */
  predicate IsRadixDigit(c: char, radix: nat) {
    IsDigit(c) || (radix == 16 && ('a' <= LowerChar(c) <= 'f'))
  }

  function DigitValue(c: char): nat {
    if IsDigit(c) then c as int - '0' as int
    else if 'a' <= LowerChar(c) <= 'f' then LowerChar(c) as int - 'a' as int + 10
    else 0
  }

  /** The longest prefix of `s` made of digits of `radix`. */
  function DigitPrefix(s: string, radix: nat): (z: string)
    ensures |z| <= |s| && z == s[..|z|]
    ensures forall i :: 0 <= i < |z| ==> IsRadixDigit(z[i], radix)
    ensures |z| == |s| || !IsRadixDigit(s[|z|], radix)
  {
    if |s| > 0 && IsRadixDigit(s[0], radix) then [s[0]] + DigitPrefix(s[1..], radix) else []
  }

  /** The number that a digit string denotes in `radix`, most significant first. */
  function NumeralValue(digits: string, radix: nat): nat {
    if digits == [] then 0
    else NumeralValue(digits[..|digits| - 1], radix) * radix + DigitValue(digits[|digits| - 1])
  }

  /** The longest digit prefix of `s` in `radix`, read as a number; `None`
      when `s` does not start with a digit. */
  function ReadDigits(s: string, radix: nat): Option<nat> {
    var z := DigitPrefix(s, radix);
    if z == [] then None else Some(NumeralValue(z, radix))
  }

  /** The unsigned part of `parseInt`: hexadecimal after a `0x`/`0X` prefix,
      decimal otherwise. */
  function ParseUnsigned(u: string): Option<nat> {
    if |u| >= 2 && u[0] == '0' && (u[1] == 'x' || u[1] == 'X') then ReadDigits(u[2..], 16)
    else ReadDigits(u, 10)
  }

  /** `parseInt(s)` with no radix: skip leading whitespace, take an optional
      sign, then read the unsigned part. `None` is `NaN` (no digit at all). */
  function ParseInt(s: string): Option<int> {
    var t := TrimStart(s);
    var signed := |t| > 0 && (t[0] == '-' || t[0] == '+');
    var negative := |t| > 0 && t[0] == '-';
    match ParseUnsigned(if signed then t[1..] else t)
    case Some(v) => Some(if negative then -(v as int) else v as int)
    case None => None
  }

  function DigitChar(d: nat): (c: char)
    requires d < 10
    ensures IsDigit(c) && DigitValue(c) == d
  {
    ('0' as int + d) as char
  }

  /** Decimal digits of a natural number, without leading zeros. */
  function NatToString(n: nat): (s: string)
    ensures |s| >= 1 && AllDigits(s)
    ensures n > 0 ==> s[0] != '0'
    ensures n == 0 ==> s == "0"
  {
    if n < 10 then [DigitChar(n)] else NatToString(n / 10) + [DigitChar(n % 10)]
  }

  /** `n.toString()` for an integer: an optional minus sign, then decimal digits. */
  function IntToString(n: int): string {
    if n < 0 then "-" + NatToString(-n) else NatToString(n)
  }

  lemma {:induction false} NatToStringValue(n: nat)
    ensures NumeralValue(NatToString(n), 10) == n
  {
    var s := NatToString(n);
    if n >= 10 {
      NatToStringValue(n / 10);
      assert s[..|s| - 1] == NatToString(n / 10);
    }
  }

  /** A digit string read as a longest digit prefix is read whole. */
  lemma DigitPrefixOfDigits(s: string, radix: nat)
    requires AllDigits(s)
    ensures DigitPrefix(s, radix) == s
  {
  }

  /** A string that starts with something other than whitespace is its own `trimStart`. */
  lemma TrimStartKeeps(s: string)
    requires |s| >= 1 && !IsWhitespace(s[0])
    ensures TrimStart(s) == s
  {
    assert SpaceRunEnd(s, 0) == 0;
  }

  /** A digit string is read as decimal, whole. */
  lemma ParseUnsignedOfDigits(digits: string)
    requires |digits| >= 1 && AllDigits(digits)
    ensures ParseUnsigned(digits) == Some(NumeralValue(digits, 10))
  {
    DigitPrefixOfDigits(digits, 10);
    assert !(|digits| >= 2 && (digits[1] == 'x' || digits[1] == 'X')) by {
      if |digits| >= 2 { assert IsDigit(digits[1]); }
    }
  }

  /** `parseInt` reads a digit string as its decimal value. */
  lemma ParseIntOfDigits(digits: string)
    requires |digits| >= 1 && AllDigits(digits)
    ensures ParseInt(digits) == Some(NumeralValue(digits, 10))
  {
    ParseUnsignedOfDigits(digits);
    TrimStartKeeps(digits);
  }

  /** A text that starts with '-' and no whitespace is read as the negated
      unsigned number after the sign. */
  lemma ParseIntOfSigned(t: string)
    requires |t| >= 1 && t[0] == '-' && TrimStart(t) == t
    ensures ParseInt(t) == match ParseUnsigned(t[1..]) case Some(v) => Some(-(v as int)) case None => None
  {
  }

  /** `parseInt` reads a minus sign and a digit string as the negated value. */
  lemma ParseIntOfNegative(signed: string, digits: string)
    requires |digits| >= 1 && AllDigits(digits) && signed == "-" + digits
    ensures ParseInt(signed) == Some(-(NumeralValue(digits, 10) as int))
  {
    assert |signed| >= 1 && signed[0] == '-' && signed[1..] == digits;
    TrimStartKeeps(signed);
    ParseUnsignedOfDigits(digits);
    ParseIntOfSigned(signed);
  }

  /** What `toString` writes, `parseInt` reads back: a counter stored as a
      string keeps its value. */
  lemma ParseIntToString(n: int)
    ensures ParseInt(IntToString(n)) == Some(n)
  {
    var digits := NatToString(if n < 0 then -n else n);
    NatToStringValue(if n < 0 then -n else n);
    if n < 0 {
      ParseIntOfNegative(IntToString(n), digits);
    } else {
      ParseIntOfDigits(digits);
    }
  }
}
