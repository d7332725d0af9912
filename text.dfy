/**
 * The three QString services the data side of the tool relies on:
 * `split` on a single separator character (empty parts kept, as with Qt's
 * default), `toInt` in base 10 (with and without the `ok` flag) and
 * `QString::number` for an int.
 */
module Text {
  import opened Wrappers

  /** Bounds of a 32-bit C++ `int`. */
  const IntMin: int := -0x8000_0000
  const IntMax: int := 0x7FFF_FFFF

  predicate InInt32(x: int) {
    IntMin <= x <= IntMax
  }

  // ---------------------------------------------------------------------------
  // Splitting on one separator
  // ---------------------------------------------------------------------------

  /** The parts of `s` between occurrences of `sep`; empty parts are kept, so
      there is always at least one part and none contains `sep`. */
  function Split(s: string, sep: char): (parts: seq<string>)
    ensures |parts| >= 1
    ensures forall i :: 0 <= i < |parts| ==> sep !in parts[i]
  {
    if |s| == 0 then [""]
    else
      var rest := Split(s[1..], sep);
      if s[0] == sep then [""] + rest
      else [[s[0]] + rest[0]] + rest[1..]
  }

  /** The parts glued back together with `sep` between neighbours. */
  function Join(parts: seq<string>, sep: char): string
    requires |parts| >= 1
  {
    if |parts| == 1 then parts[0]
    else parts[0] + [sep] + Join(parts[1..], sep)
  }

  /** Number of occurrences of `c` in `s`. */
  function Occurrences(s: string, c: char): nat {
    if |s| == 0 then 0
    else (if s[0] == c then 1 else 0) + Occurrences(s[1..], c)
  }

  /** Splitting loses no character: joining the parts gives the input back. */
  lemma {:induction false} JoinSplit(s: string, sep: char)
    ensures Join(Split(s, sep), sep) == s
  {
    if |s| > 0 {
      JoinSplit(s[1..], sep);
      var rest := Split(s[1..], sep);
      if s[0] == sep {
        assert Split(s, sep)[1..] == rest;
      } else if |rest| == 1 {
        assert Join(Split(s, sep), sep) == [s[0]] + rest[0];
        assert s == [s[0]] + s[1..];
      } else {
        var parts := Split(s, sep);
        assert parts[1..] == rest[1..];
        assert Join(parts, sep) == [s[0]] + (rest[0] + [sep] + Join(rest[1..], sep));
        assert s == [s[0]] + s[1..];
      }
    }
  }

  /** There is one part more than there are separators. */
  lemma {:induction false} SplitLength(s: string, sep: char)
    ensures |Split(s, sep)| == Occurrences(s, sep) + 1
  {
    if |s| > 0 {
      SplitLength(s[1..], sep);
    }
  }

  /** A separator-free prefix becomes the first part. */
  lemma {:induction false} SplitAfterPart(w: string, rest: string, sep: char)
    requires sep !in w
    ensures Split(w + [sep] + rest, sep) == [w] + Split(rest, sep)
  {
    if |w| == 0 {
      assert w + [sep] + rest == [sep] + rest;
      assert ([sep] + rest)[1..] == rest;
    } else {
      var s := w + [sep] + rest;
      assert s[1..] == w[1..] + [sep] + rest;
      SplitAfterPart(w[1..], rest, sep);
      assert [w[0]] + w[1..] == w;
    }
  }

  /** A separator-free string is a single part. */
  lemma {:induction false} SplitSinglePart(w: string, sep: char)
    requires sep !in w
    ensures Split(w, sep) == [w]
  {
    if |w| > 0 {
      SplitSinglePart(w[1..], sep);
      assert [w[0]] + w[1..] == w;
    }
  }

  /** Joining separator-free parts and splitting again gives the parts back. */
  lemma {:induction false} SplitJoin(parts: seq<string>, sep: char)
    requires |parts| >= 1
    requires forall i :: 0 <= i < |parts| ==> sep !in parts[i]
    ensures Split(Join(parts, sep), sep) == parts
  {
    if |parts| == 1 {
      SplitSinglePart(parts[0], sep);
    } else {
      SplitJoin(parts[1..], sep);
      SplitAfterPart(parts[0], Join(parts[1..], sep), sep);
      assert [parts[0]] + parts[1..] == parts;
    }
  }

  // ---------------------------------------------------------------------------
  // QString::toInt (base 10)
  // ---------------------------------------------------------------------------

  /** The ASCII characters QChar::isSpace accepts. */
  predicate IsSpace(c: char) {
    c == ' ' || c == '\t' || c == '\n' || c == '\r' || c == '\U{B}' || c == '\U{C}'
  }

  predicate IsDigit(c: char) {
    '0' <= c <= '9'
  }

  predicate AllDigits(s: string) {
    forall i :: 0 <= i < |s| ==> IsDigit(s[i])
  }

  /** Drops leading white space. */
  function TrimStart(s: string): string {
    if |s| > 0 && IsSpace(s[0]) then TrimStart(s[1..]) else s
  }

  /** Drops trailing white space. */
  function TrimEnd(s: string): string {
    if |s| > 0 && IsSpace(s[|s| - 1]) then TrimEnd(s[..|s| - 1]) else s
  }

  function Trim(s: string): string {
    TrimEnd(TrimStart(s))
  }

  /** Decimal value of a digit string (most significant digit first). */
  function DigitsValue(s: string): nat
    requires AllDigits(s)
  {
    if |s| == 0 then 0
    else 10 * DigitsValue(s[..|s| - 1]) + (s[|s| - 1] as int - '0' as int)
  }

  /** An optionally signed, non-empty run of decimal digits, as an integer. */
  function ParseSigned(t: string): Option<int> {
    if |t| > 0 && (t[0] == '-' || t[0] == '+') then
      var digits := t[1..];
      if |digits| > 0 && AllDigits(digits) then
        Some(if t[0] == '-' then 0 - DigitsValue(digits) else DigitsValue(digits))
      else None
    else if |t| > 0 && AllDigits(t) then Some(DigitsValue(t))
    else None
  }

  /** `QString::toInt(&ok)`: surrounding white space is ignored, the rest must
      be a signed decimal that fits an int; None is the `ok == false` case. */
  function ToIntChecked(s: string): (r: Option<int>)
    ensures r.Some? ==> InInt32(r.value)
  {
    match ParseSigned(Trim(s))
    case Some(v) => if InInt32(v) then Some(v) else None
    case None => None
  }

  /** Trimming only removes white space: what is left comes from `s`, and
      every character of `s` that is gone was white space. */
  lemma {:induction false} TrimStartKeeps(s: string)
    ensures forall c :: c in TrimStart(s) ==> c in s
    ensures forall i :: 0 <= i < |s| ==> IsSpace(s[i]) || s[i] in TrimStart(s)
  {
    if |s| > 0 && IsSpace(s[0]) {
      TrimStartKeeps(s[1..]);
      forall i | 0 <= i < |s|
        ensures IsSpace(s[i]) || s[i] in TrimStart(s)
      {
        if i > 0 {
          assert s[i] == s[1..][i - 1];
        }
      }
    }
  }

  lemma {:induction false} TrimEndKeeps(s: string)
    ensures forall c :: c in TrimEnd(s) ==> c in s
    ensures forall i :: 0 <= i < |s| ==> IsSpace(s[i]) || s[i] in TrimEnd(s)
  {
    if |s| > 0 && IsSpace(s[|s| - 1]) {
      var init := s[..|s| - 1];
      TrimEndKeeps(init);
      forall i | 0 <= i < |s|
        ensures IsSpace(s[i]) || s[i] in TrimEnd(s)
      {
        if i < |s| - 1 {
          assert s[i] == init[i];
        }
      }
    }
  }

  /** What the parser accepts is made of digits and signs and ends in a digit. */
  lemma ParseSignedAccepts(t: string)
    requires ParseSigned(t).Some?
    ensures |t| > 0 && IsDigit(t[|t| - 1])
    ensures forall c :: c in t ==> IsDigit(c) || c == '-' || c == '+'
  {
    if t[0] == '-' || t[0] == '+' {
      assert t == [t[0]] + t[1..];
    }
  }

  /** `toInt` refuses text holding anything besides white space, digits and
      signs, and text holding no digit at all (empty, blank or a bare sign). */
  lemma ToIntCheckedRefuses(s: string)
    ensures (exists i :: 0 <= i < |s| && !(IsDigit(s[i]) || IsSpace(s[i]) || s[i] == '-' || s[i] == '+'))
      ==> ToIntChecked(s) == None
    ensures (forall i :: 0 <= i < |s| ==> !IsDigit(s[i])) ==> ToIntChecked(s) == None
  {
    var t := Trim(s);
    if ParseSigned(t).Some? {
      TrimStartKeeps(s);
      TrimEndKeeps(TrimStart(s));
      ParseSignedAccepts(t);
      var last := t[|t| - 1];
      assert last in t;
      assert last in s;
      var j :| 0 <= j < |s| && s[j] == last;
      assert IsDigit(s[j]);
      forall i | 0 <= i < |s|
        ensures IsDigit(s[i]) || IsSpace(s[i]) || s[i] == '-' || s[i] == '+'
      {
        if !IsSpace(s[i]) {
          assert s[i] in TrimStart(s);
          assert s[i] in t;
        }
      }
    }
  }

  /** `QString::toInt()` without the flag: a failed conversion yields 0. */
  function ToInt(s: string): (r: int)
    ensures InInt32(r)
    ensures ToIntChecked(s) == Some(r) || (ToIntChecked(s) == None && r == 0)
  {
    match ToIntChecked(s)
    case Some(v) => v
    case None => 0
  }

  // ---------------------------------------------------------------------------
  // QString::number(int)
  // ---------------------------------------------------------------------------

  function DigitChar(d: nat): (c: char)
    requires d < 10
    ensures IsDigit(c) && c as int - '0' as int == d
  {
    ('0' as int + d) as char
  }

  /** Decimal digits of `n`, without leading zeros. */
  function FormatNat(n: nat): (s: string)
    ensures |s| > 0 && AllDigits(s)
    ensures DigitsValue(s) == n
  {
    if n < 10 then [DigitChar(n)]
    else
      var s := FormatNat(n / 10) + [DigitChar(n % 10)];
      assert s[..|s| - 1] == FormatNat(n / 10);
      s
  }

  /** `QString::number(x)`: a minus sign for negative values, then the digits. */
  function FormatInt(x: int): (s: string)
    ensures |s| > 0 && IsDigit(s[|s| - 1])
    ensures forall i :: 0 <= i < |s| ==> IsDigit(s[i]) || (i == 0 && s[i] == '-')
    ensures ',' !in s && ';' !in s
  {
    if x < 0 then "-" + FormatNat(-x) else FormatNat(x)
  }

  /** A member reset to 0 is written as "0". */
  lemma FormatIntZero()
    ensures FormatInt(0) == "0"
  {
  }

  /** The text `QString::number` writes for an int reads back as that int. */
  lemma FormatIntRoundTrip(x: int)
    requires InInt32(x)
    ensures ToIntChecked(FormatInt(x)) == Some(x)
  {
    var s := FormatInt(x);
    assert TrimStart(s) == s by { assert !IsSpace(s[0]); }
    assert TrimEnd(s) == s by { assert !IsSpace(s[|s| - 1]); }
    if x < 0 {
      var digits := FormatNat(-x);
      assert s[1..] == digits;
      assert DigitsValue(digits) == -x;
      assert ParseSigned(s) == Some(x);
    } else {
      assert s == FormatNat(x);
      assert ParseSigned(s) == Some(x);
    }
  }
}
