/** String helpers with the behaviour of the JavaScript built-ins the source calls:
    `trim`, `split`, `join`, `toLowerCase`, `String(n)`, `parseInt(s, 10)`, `parseFloat`,
    `Number(s)` and `lastIndexOf`. */
module Text {
  import opened Wrappers

  /** The characters JavaScript's `\s` and `String.prototype.trim` treat as white space
      (WhiteSpace and LineTerminator of ECMA-262). */
  predicate IsSpace(c: char) {
    c == '\t' || c == '\n' || c == '\U{000B}' || c == '\U{000C}' || c == '\r' || c == ' '
    || c == '\U{00A0}' || c == '\U{1680}' || ('\U{2000}' <= c <= '\U{200A}')
    || c == '\U{2028}' || c == '\U{2029}' || c == '\U{202F}' || c == '\U{205F}'
    || c == '\U{3000}' || c == '\U{FEFF}'
  }

  /** The characters a regular-expression `.` does not match. */
  predicate IsLineTerminator(c: char) {
    c == '\n' || c == '\r' || c == '\U{2028}' || c == '\U{2029}'
  }

  /** The first position at or after `i` that holds no white space, or |s|. */
  function SkipSpace(s: string, i: nat): (k: nat)
    requires i <= |s|
    ensures i <= k <= |s| && (k < |s| ==> !IsSpace(s[k]))
    decreases |s| - i
  {
    if i == |s| || !IsSpace(s[i]) then i else SkipSpace(s, i + 1)
  }

  /** The position just past the last non-space character in s[lo..j], or `lo`. */
  function SkipSpaceBack(s: string, lo: nat, j: nat): (k: nat)
    requires lo <= j <= |s|
    ensures lo <= k <= j && (k > lo ==> !IsSpace(s[k - 1]))
  {
    if j == lo || !IsSpace(s[j - 1]) then j else SkipSpaceBack(s, lo, j - 1)
  }

  /** Everything SkipSpace steps over is white space. */
  lemma {:induction false} SkipSpaceSkipsSpace(s: string, i: nat)
    requires i <= |s|
    ensures forall j :: i <= j < SkipSpace(s, i) ==> IsSpace(s[j])
    decreases |s| - i
  {
    if i < |s| && IsSpace(s[i]) {
      SkipSpaceSkipsSpace(s, i + 1);
    }
  }

  /** Everything SkipSpaceBack steps over is white space. */
  lemma {:induction false} SkipSpaceBackSkipsSpace(s: string, lo: nat, j: nat)
    requires lo <= j <= |s|
    ensures forall m :: SkipSpaceBack(s, lo, j) <= m < j ==> IsSpace(s[m])
  {
    if j > lo && IsSpace(s[j - 1]) {
      SkipSpaceBackSkipsSpace(s, lo, j - 1);
    }
  }

  /** `trimStart`: `s` without its leading white space. */
  function TrimStart(s: string): (r: string)
    ensures |r| <= |s| && r == s[|s| - |r|..]
    ensures r == [] || !IsSpace(r[0])
  {
    s[SkipSpace(s, 0)..]
  }

  /** `String.prototype.trim`: the text between the leading and the trailing white space. */
  function Trim(s: string): (r: string)
    ensures |r| <= |s|
    ensures r == [] || (!IsSpace(r[0]) && !IsSpace(r[|r| - 1]))
  {
    var a := SkipSpace(s, 0);
    s[a..SkipSpaceBack(s, a, |s|)]
  }

  /** Trimming leaves nothing exactly when the text is all white space. */
  lemma TrimEmpty(s: string)
    ensures (forall c :: c in s ==> IsSpace(c)) <==> Trim(s) == []
  {
    var a := SkipSpace(s, 0);
    SkipSpaceSkipsSpace(s, 0);
    if Trim(s) == [] {
      assert SkipSpaceBack(s, a, |s|) == a;
      SkipSpaceBackSkipsSpace(s, a, |s|);
      forall c | c in s ensures IsSpace(c) {
        var i :| 0 <= i < |s| && s[i] == c;
      }
    } else {
      assert s[a] == Trim(s)[0];
    }
  }

  /** Trimming keeps a character out. */
  lemma TrimWithin(s: string, c: char)
    requires c !in s
    ensures c !in Trim(s)
  {
    var a := SkipSpace(s, 0);
    var b := SkipSpaceBack(s, a, |s|);
    assert forall x :: x in s[a..b] ==> x in s;
  }

  /** Text without white space at either end is its own trim; in particular trimming twice
      is trimming once. */
  lemma TrimTrimmed(s: string)
    requires s == [] || (!IsSpace(s[0]) && !IsSpace(s[|s| - 1]))
    ensures Trim(s) == s
  {
    if s != [] {
      assert SkipSpace(s, 0) == 0;
      assert SkipSpaceBack(s, 0, |s|) == |s|;
    }
  }

  /** `Array.prototype.join`. */
  function Join(parts: seq<string>, sep: string): (r: string)
    ensures parts == [] ==> r == []
    ensures |parts| == 1 ==> r == parts[0]
  {
    if parts == [] then []
    else if |parts| == 1 then parts[0]
    else parts[0] + sep + Join(parts[1..], sep)
  }

  /** `String.prototype.split` on a one-character separator: the pieces between the
      separators, one more than there are separators. */
  function Split(s: string, sep: char): (r: seq<string>)
    ensures |r| >= 1
    ensures forall i :: 0 <= i < |r| ==> sep !in r[i]
    ensures Join(r, [sep]) == s
  {
    if s == [] then [[]]
    else
      var rest := Split(s[1..], sep);
      if s[0] == sep then
        assert [sep] + Join(rest, [sep]) == s;
        [[]] + rest
      else
        var r := [[s[0]] + rest[0]] + rest[1..];
        assert r[1..] == rest[1..];
        assert Join(r, [sep]) == s by {
          if |rest| == 1 {
            assert Join(rest, [sep]) == rest[0];
          } else {
            assert Join(rest, [sep]) == rest[0] + [sep] + Join(rest[1..], [sep]);
          }
        }
        r
  }

  /** ASCII lower-casing. `toLowerCase` also maps other scripts; only the ASCII letters
      can turn into the ASCII words this model compares against. */
  function ToLowerAscii(s: string): (r: string)
    ensures |r| == |s|
    ensures forall i :: 0 <= i < |s| ==> r[i] == LowerChar(s[i])
  {
    if s == [] then [] else [LowerChar(s[0])] + ToLowerAscii(s[1..])
  }

  function LowerChar(c: char): char {
    if 'A' <= c <= 'Z' then (c as int - 'A' as int + 'a' as int) as char else c
  }

  predicate IsDigit(c: char) {
    '0' <= c <= '9'
  }

  function DigitValue(c: char): nat
    requires IsDigit(c)
  {
    c as int - '0' as int
  }

  /** The value of a non-empty run of decimal digits. */
  function DigitsValue(d: string): nat
    requires forall i :: 0 <= i < |d| ==> IsDigit(d[i])
  {
    if d == [] then 0 else DigitsValue(d[..|d| - 1]) * 10 + DigitValue(d[|d| - 1])
  }

  /** The decimal digits of `n`, most significant first. */
  function NatToString(n: nat): (r: string)
    ensures |r| >= 1
    ensures forall i :: 0 <= i < |r| ==> IsDigit(r[i])
    ensures DigitsValue(r) == n
  {
    var d := ['0' + (n % 10) as char];
    if n < 10 then d
    else
      var r := NatToString(n / 10) + d;
      assert r[..|r| - 1] == NatToString(n / 10);
      r
  }

  /** `String(n)` for an integer. */
  function IntToString(n: int): (r: string)
    ensures |r| >= 1
    ensures r[0] == '-' <==> n < 0
  {
    if n >= 0 then NatToString(n) else "-" + NatToString(-n)
  }

  /** Length of the run of digits at the start of `s`. */
  function DigitRun(s: string): (k: nat)
    ensures k <= |s|
    ensures forall i :: 0 <= i < k ==> IsDigit(s[i])
    ensures k < |s| ==> !IsDigit(s[k])
  {
    if s == [] || !IsDigit(s[0]) then 0 else 1 + DigitRun(s[1..])
  }

  /** An optional sign: +1 or -1, and how many characters it took. */
  function Sign(s: string): (r: (int, nat))
    ensures r.1 <= 1 && r.1 <= |s|
    ensures r.0 == 1 || r.0 == -1
  {
    if s != [] && s[0] == '-' then (-1, 1)
    else if s != [] && s[0] == '+' then (1, 1)
    else (1, 0)
  }

  /** `parseInt(s, 10)`: leading white space, an optional sign, then the longest run of
      digits; None (NaN) when there is no digit. */
  function ParseInt(s: string): (r: Option<int>)
    ensures r.Some? ==> exists k :: 0 <= k < |s| && IsDigit(s[k])
  {
    var t := TrimStart(s);
    var (sign, n) := Sign(t);
    var k := DigitRun(t[n..]);
    if k == 0 then None
    else
      assert IsDigit(t[n..][0]) && t[n..][0] == s[|s| - |t| + n];
      Some(sign * DigitsValue(t[n..][..k]))
  }

  /** ParseInt reads back what IntToString writes. */
  lemma ParseIntOfString(n: int)
    ensures ParseInt(IntToString(n)) == Some(n)
  {
    var s := IntToString(n);
    var d := NatToString(if n >= 0 then n else -n);
    DigitRunAll(d);
    assert d[..|d|] == d;
    if n >= 0 {
      assert s == d;
      assert !IsSpace(s[0]) && TrimStart(s) == s;
      assert Sign(s) == (1, 0);
      assert s[0..] == d;
    } else {
      assert s == "-" + d;
      assert !IsSpace(s[0]) && TrimStart(s) == s;
      assert Sign(s) == (-1, 1);
      assert s[1..] == d;
    }
  }

  lemma DigitRunAll(s: string)
    requires forall i :: 0 <= i < |s| ==> IsDigit(s[i])
    ensures DigitRun(s) == |s|
  {
    if s != [] {
      DigitRunAll(s[1..]);
    }
  }

  function Pow10(e: nat): (r: real)
    ensures r >= 1.0
  {
    if e == 0 then 1.0 else 10.0 * Pow10(e - 1)
  }

  /** The value of `d1.d2` for digit runs `d1` and `d2`. */
  function DecimalValue(d1: string, d2: string): real
    requires forall i :: 0 <= i < |d1| ==> IsDigit(d1[i])
    requires forall i :: 0 <= i < |d2| ==> IsDigit(d2[i])
  {
    DigitsValue(d1) as real + DigitsValue(d2) as real / Pow10(|d2|)
  }

  /** The longest decimal literal at the start of `t`: optional sign, digits, optional
      fraction, optional exponent. Returns the value and the length it took. */
  function ScanDecimal(t: string): (r: Option<(real, nat)>)
    ensures r.Some? ==> 0 < r.value.1 <= |t|
  {
    var (sign, n) := Sign(t);
    var a := t[n..];
    var k1 := DigitRun(a);
    var hasDot := k1 < |a| && a[k1] == '.';
    var b := if hasDot then a[k1 + 1..] else [];
    var k2 := DigitRun(b);
    if k1 == 0 && k2 == 0 then None
    else
      var mantissa := sign as real * DecimalValue(a[..k1], b[..k2]);
      var used := n + k1 + (if hasDot then 1 + k2 else 0);
      var rest := t[used..];
      var exp := ScanExponent(rest);
      match exp
      case None => Some((mantissa, used))
      case Some((e, m)) =>
        Some((if e >= 0 then mantissa * Pow10(e) else mantissa / Pow10(-e), used + m))
  }

  /** An exponent part `e`/`E`, optional sign, at least one digit. */
  function ScanExponent(t: string): (r: Option<(int, nat)>)
    ensures r.Some? ==> 0 < r.value.1 <= |t|
  {
    if t == [] || (t[0] != 'e' && t[0] != 'E') then None
    else
      var (sign, n) := Sign(t[1..]);
      var a := t[1 + n..];
      var k := DigitRun(a);
      if k == 0 then None else Some((sign * DigitsValue(a[..k]), 1 + n + k))
  }

  /** `parseFloat(s)`: the longest decimal literal after leading white space; None (NaN)
      when there is none. */
  function ParseFloat(s: string): (r: Option<real>)
  {
    match ScanDecimal(TrimStart(s))
    case None => None
    case Some((v, _)) => Some(v)
  }

  /** `Number(s)` on decimal text: white space around is ignored, the empty string is 0,
      and anything but one whole decimal literal is NaN (None). */
  function Number(s: string): (r: Option<real>)
    ensures Trim(s) == [] ==> r == Some(0.0)
  {
    var t := Trim(s);
    if t == [] then Some(0.0)
    else
      match ScanDecimal(t)
      case Some((v, k)) => if k == |t| then Some(v) else None
      case None => None
  }

  /** Whether `sub` occurs in `s` at position `i`. */
  predicate OccursAt(s: string, sub: string, i: int) {
    0 <= i && i + |sub| <= |s| && s[i..i + |sub|] == sub
  }

  /** `String.prototype.lastIndexOf`: the last position where `sub` occurs, or -1. */
  function LastIndexOf(s: string, sub: string): (i: int)
    ensures i >= -1
    ensures i >= 0 ==> OccursAt(s, sub, i)
    ensures forall j :: i < j <= |s| - |sub| ==> !OccursAt(s, sub, j)
  {
    LastIndexOfFrom(s, sub, |s| - |sub|)
  }

  function LastIndexOfFrom(s: string, sub: string, j: int): (i: int)
    requires j <= |s| - |sub|
    ensures i == -1 || 0 <= i <= j
    ensures i >= 0 ==> OccursAt(s, sub, i)
    ensures forall k :: i < k <= j ==> !OccursAt(s, sub, k)
    decreases j + 1
  {
    if j < 0 then -1
    else if OccursAt(s, sub, j) then j
    else LastIndexOfFrom(s, sub, j - 1)
  }
}
