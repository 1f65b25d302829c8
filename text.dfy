/** Strings as the app's JavaScript sees them: decimal digits, zero padding, splitting and
    joining on a separator, the whitespace of `String.prototype.trim` and of the regular
    expression class `\s`, and lower-casing. */
module Text {

  datatype Option<+T> = None | Some(value: T)

  predicate IsDigit(c: char) {
    '0' <= c <= '9'
  }

  predicate AllDigits(s: string) {
    forall i :: 0 <= i < |s| ==> IsDigit(s[i])
  }

  function DigitChar(n: nat): (c: char)
    requires n < 10
    ensures IsDigit(c) && c as int - '0' as int == n
  {
    ('0' as int + n) as char
  }

  function DigitValue(c: char): (n: nat)
    requires IsDigit(c)
    ensures n < 10 && DigitChar(n) == c
  {
    c as int - '0' as int
  }

  /** The decimal numeral of `n`, without leading zeros ("0" for zero). */
  function Decimal(n: nat): (s: string)
    ensures 1 <= |s| && AllDigits(s)
    ensures n < 10 <==> |s| == 1
    decreases n
  {
    if n < 10 then [DigitChar(n)] else Decimal(n / 10) + [DigitChar(n % 10)]
  }

  /** The value of a digit string read left to right onto `acc`. */
  function ReadDigits(acc: nat, s: string): nat
    requires AllDigits(s)
    decreases |s|
  {
    if s == [] then acc else ReadDigits(acc * 10 + DigitValue(s[0]), s[1..])
  }

  /** `s` read as a non-empty decimal numeral (leading zeros allowed). */
  function ParseNat(s: string): (r: Option<nat>)
    ensures r.Some? <==> s != [] && AllDigits(s)
  {
    if s != [] && AllDigits(s) then Some(ReadDigits(0, s)) else None
  }

  /** `s` preceded by as many '0' as it takes to reach `width` characters. */
  function PadZeros(s: string, width: nat): (r: string)
    ensures |r| == if |s| < width then width else |s|
    ensures r[|r| - |s|..] == s
    ensures forall i :: 0 <= i < |r| - |s| ==> r[i] == '0'
    decreases width
  {
    if |s| < width then ['0'] + PadZeros(s, width - 1) else s
  }

  /** Index of the first `c` in `s`. */
  function IndexOf(s: string, c: char): (i: nat)
    requires c in s
    ensures i < |s| && s[i] == c && c !in s[..i]
  {
    if s[0] == c then 0 else 1 + IndexOf(s[1..], c)
  }

  /** `s` cut at every `sep`, like `String.prototype.split` with a one-character string. */
  function Split(s: string, sep: char): (r: seq<string>)
    ensures |r| >= 1
    ensures forall k :: 0 <= k < |r| ==> sep !in r[k]
    decreases |s|
  {
    if sep !in s then [s]
    else
      var i := IndexOf(s, sep);
      [s[..i]] + Split(s[i + 1..], sep)
  }

  /** The parts glued with `sep` between neighbours, like `Array.prototype.join`. */
  function Join(parts: seq<string>, sep: char): (r: string)
    decreases |parts|
  {
    if parts == [] then ""
    else if |parts| == 1 then parts[0]
    else parts[0] + [sep] + Join(parts[1..], sep)
  }

  /** The whitespace that `\s` matches and `trim()` removes: ECMAScript WhiteSpace and
      LineTerminator code points. */
  predicate IsJsSpace(c: char) {
    c == '\t' || c == '\n' || c == '\U{000B}' || c == '\U{000C}' || c == '\r' || c == ' '
    || c == '\U{00A0}' || c == '\U{1680}' || ('\U{2000}' <= c <= '\U{200A}')
    || c == '\U{2028}' || c == '\U{2029}' || c == '\U{202F}' || c == '\U{205F}'
    || c == '\U{3000}' || c == '\U{FEFF}'
  }

  function TrimStart(s: string): (r: string)
    ensures |r| <= |s|
    ensures r != [] ==> !IsJsSpace(r[0])
    ensures forall i :: 0 <= i < |s| - |r| ==> IsJsSpace(s[i])
  {
    if s != [] && IsJsSpace(s[0]) then TrimStart(s[1..]) else s
  }

  function TrimEnd(s: string): (r: string)
    ensures |r| <= |s|
    ensures r != [] ==> !IsJsSpace(r[|r| - 1])
    ensures forall i :: |r| <= i < |s| ==> IsJsSpace(s[i])
  {
    if s != [] && IsJsSpace(s[|s| - 1]) then TrimEnd(s[..|s| - 1]) else s
  }

  /** What `TrimStart` leaves is a suffix of its argument. */
  lemma {:induction false} TrimStartSuffix(s: string)
    ensures TrimStart(s) == s[|s| - |TrimStart(s)|..]
    decreases |s|
  {
    if s != [] && IsJsSpace(s[0]) {
      TrimStartSuffix(s[1..]);
      assert s[1..][|s[1..]| - |TrimStart(s[1..])|..] == s[|s| - |TrimStart(s)|..];
    }
  }

  /** What `TrimEnd` leaves is a prefix of its argument. */
  lemma {:induction false} TrimEndPrefix(s: string)
    ensures TrimEnd(s) == s[..|TrimEnd(s)|]
    decreases |s|
  {
    if s != [] && IsJsSpace(s[|s| - 1]) {
      TrimEndPrefix(s[..|s| - 1]);
      assert s[..|s| - 1][..|TrimEnd(s)|] == s[..|TrimEnd(s)|];
    }
  }

  /** `String.prototype.trim`. */
  function Trim(s: string): string {
    TrimEnd(TrimStart(s))
  }

  /** Upper-case letters that `toLowerCase` maps one-to-one: A-Z and the Latin-1 capitals
      U+00C0..U+00DE except the multiplication sign U+00D7. */
  predicate IsUpper(c: char) {
    ('A' <= c <= 'Z') || ('\U{00C0}' <= c <= '\U{00DE}' && c != '\U{00D7}')
  }

  function LowerChar(c: char): (r: char)
    ensures !IsUpper(r)
    ensures !IsUpper(c) ==> r == c
    ensures IsJsSpace(r) <==> IsJsSpace(c)
  {
    if IsUpper(c) then (c as int + 32) as char else c
  }

  /** `String.prototype.toLowerCase` on the letters of `IsUpper`. */
  function Lower(s: string): (r: string)
    ensures |r| == |s|
    ensures forall i :: 0 <= i < |s| ==> r[i] == LowerChar(s[i])
  {
    seq(|s|, i requires 0 <= i < |s| => LowerChar(s[i]))
  }

  // ---------------------------------------------------------------------------------------
  // Lemmas

  /** Reading a concatenation reads the first part, then the second. */
  lemma {:induction false} ReadDigitsAppend(acc: nat, a: string, b: string)
    requires AllDigits(a) && AllDigits(b)
    ensures AllDigits(a + b)
    ensures ReadDigits(acc, a + b) == ReadDigits(ReadDigits(acc, a), b)
    decreases |a|
  {
    assert AllDigits(a + b) by {
      forall i | 0 <= i < |a + b| ensures IsDigit((a + b)[i]) {
        if i < |a| { assert (a + b)[i] == a[i]; } else { assert (a + b)[i] == b[i - |a|]; }
      }
    }
    if a != [] {
      assert (a + b)[0] == a[0];
      assert (a + b)[1..] == a[1..] + b;
      var acc' := acc * 10 + DigitValue(a[0]);
      assert ReadDigits(acc, a + b) == ReadDigits(acc', a[1..] + b);
      assert ReadDigits(acc, a) == ReadDigits(acc', a[1..]);
      ReadDigitsAppend(acc', a[1..], b);
    } else {
      assert a + b == b;
    }
  }

  /** Leading zeros do not change the value read from zero. */
  lemma {:induction false} ReadDigitsZeros(z: string, s: string)
    requires forall i :: 0 <= i < |z| ==> z[i] == '0'
    requires AllDigits(s)
    ensures AllDigits(z + s)
    ensures ReadDigits(0, z + s) == ReadDigits(0, s)
    decreases |z|
  {
    assert AllDigits(z);
    ReadDigitsAppend(0, z, s);
    if z != [] {
      assert ReadDigits(0, z) == ReadDigits(0, z[1..]);
      ReadDigitsZeros(z[1..], []);
      assert z[1..] + [] == z[1..];
    }
  }

  /** Reading back a decimal numeral gives the number. */
  lemma {:induction false} DecimalRoundTrip(n: nat)
    ensures ParseNat(Decimal(n)) == Some(n)
    decreases n
  {
    if n >= 10 {
      var c := DigitChar(n % 10);
      DecimalRoundTrip(n / 10);
      ReadDigitsAppend(0, Decimal(n / 10), [c]);
      assert ReadDigits(n / 10, [c]) == ReadDigits((n / 10) * 10 + n % 10, []);
    } else {
      assert ReadDigits(0, [DigitChar(n)]) == ReadDigits(n, []);
    }
  }

  /** Reading back a zero-padded decimal numeral gives the number. */
  lemma PaddedRoundTrip(n: nat, width: nat)
    ensures ParseNat(PadZeros(Decimal(n), width)) == Some(n)
  {
    PaddedReadsSame(Decimal(n), width);
    DecimalRoundTrip(n);
  }

  /** Zero padding does not change what a numeral reads as. */
  lemma PaddedReadsSame(d: string, width: nat)
    requires d != [] && AllDigits(d)
    ensures ParseNat(PadZeros(d, width)) == ParseNat(d)
  {
    var p := PadZeros(d, width);
    var z := p[..|p| - |d|];
    assert p == z + d;
    ReadDigitsZeros(z, d);
  }

  /** Cutting `a + [sep] + b` gives `a` first when `a` holds no `sep`. */
  lemma SplitCons(a: string, b: string, sep: char)
    requires sep !in a
    ensures Split(a + [sep] + b, sep) == [a] + Split(b, sep)
  {
    var s := a + [sep] + b;
    assert s[|a|] == sep;
    var i := IndexOf(s, sep);
    assert i == |a|;
    assert s[..i] == a;
    assert s[i + 1..] == b;
  }

  /** Two fields free of `sep` around one `sep` cut back into the two fields. */
  lemma SplitTwo(a: string, b: string, sep: char)
    requires sep !in a && sep !in b
    ensures Split(a + [sep] + b, sep) == [a, b]
  {
    SplitCons(a, b, sep);
  }

  /** Three fields free of `sep`, separated by `sep`, cut back into the three fields. */
  lemma SplitThree(a: string, b: string, c: string, sep: char)
    requires sep !in a && sep !in b && sep !in c
    ensures Split(a + [sep] + b + [sep] + c, sep) == [a, b, c]
  {
    var t := b + [sep] + c;
    assert a + [sep] + b + [sep] + c == a + [sep] + t;
    SplitCons(a, t, sep);
    SplitTwo(b, c, sep);
  }

  /** Splitting undoes joining when no part holds the separator. */
  lemma {:induction false} SplitJoin(parts: seq<string>, sep: char)
    requires |parts| >= 1
    requires forall k :: 0 <= k < |parts| ==> sep !in parts[k]
    ensures Split(Join(parts, sep), sep) == parts
    decreases |parts|
  {
    if |parts| > 1 {
      var rest := parts[1..];
      assert forall k :: 0 <= k < |rest| ==> sep !in rest[k];
      SplitJoin(rest, sep);
      var tail := Join(rest, sep);
      assert Join(parts, sep) == parts[0] + [sep] + tail;
      assert sep !in parts[0];
      SplitCons(parts[0], tail, sep);
      assert [parts[0]] + rest == parts;
    }
  }

  /** A joined string holds the separator only where the join put it, when no part holds it. */
  lemma {:induction false} JoinFree(parts: seq<string>, sep: char, c: char)
    requires c != sep
    requires forall k :: 0 <= k < |parts| ==> c !in parts[k]
    ensures c !in Join(parts, sep)
    decreases |parts|
  {
    if |parts| > 1 {
      JoinFree(parts[1..], sep, c);
    }
  }

  /** A count of cents splits into whole units and a remainder below 100. */
  lemma HundredsSplit(m: nat)
    ensures m / 100 * 100 + m % 100 == m && m % 100 < 100
  {
  }
}
