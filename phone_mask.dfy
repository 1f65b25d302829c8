/** The Brazilian phone mask of the profile and sign-up forms: every keystroke replaces the
    field by its digits laid out as "(dd) ddddd-dddd", with the area code in parentheses once
    a third digit is typed and a hyphen before the last four digits once a seventh is. */
module PhoneMask {
  import opened Text

  /** `value.replace(/\D/g, "")`: the decimal digits, in order. */
  function Digits(s: string): (r: string)
    ensures AllDigits(r) && |r| <= |s|
    decreases |s|
  {
    if s == [] then []
    else (if IsDigit(s[0]) then [s[0]] else []) + Digits(s[1..])
  }

  /** `value.replace(/^(\d{2})(\d)/g, "($1) $2")`: three leading digits get the first two
      put in parentheses and followed by a space. */
  function AreaCode(v: string): string {
    if |v| >= 3 && IsDigit(v[0]) && IsDigit(v[1]) && IsDigit(v[2]) then "(" + v[..2] + ") " + v[2..]
    else v
  }

  /** `value.replace(/(\d)(\d{4})$/, "$1-$2")`: when the text ends in five digits, a hyphen
      goes before the last four. */
  function LineHyphen(v: string): string {
    if |v| >= 5 && AllDigits(v[|v| - 5..]) then v[..|v| - 4] + "-" + v[|v| - 4..]
    else v
  }

  /** `handlePhoneChange` and the sign-up form's inline `onChange`. */
  function Mask(s: string): string {
    LineHyphen(AreaCode(Digits(s)))
  }

  /** The characters a masked number may hold. */
  predicate IsMaskChar(c: char) {
    IsDigit(c) || c == '(' || c == ')' || c == ' ' || c == '-'
  }

  // ---------------------------------------------------------------------------------------
  // Lemmas: digits

  /** Stripping non-digits distributes over concatenation. */
  lemma {:induction false} DigitsAppend(a: string, b: string)
    ensures Digits(a + b) == Digits(a) + Digits(b)
    decreases |a|
  {
    if a != [] {
      assert (a + b)[1..] == a[1..] + b;
      DigitsAppend(a[1..], b);
    } else {
      assert a + b == b;
    }
  }

  /** A string of digits is its own digits. */
  lemma {:induction false} DigitsOfDigits(d: string)
    requires AllDigits(d)
    ensures Digits(d) == d
    decreases |d|
  {
    if d != [] {
      DigitsOfDigits(d[1..]);
      assert d == [d[0]] + d[1..];
    }
  }

  /** A string with no digit strips to nothing. */
  lemma {:induction false} DigitsOfNone(s: string)
    requires forall i :: 0 <= i < |s| ==> !IsDigit(s[i])
    ensures Digits(s) == []
    decreases |s|
  {
    if s != [] {
      DigitsOfNone(s[1..]);
    }
  }

  // ---------------------------------------------------------------------------------------
  // Lemmas: the layout, by the number of digits typed

  /** The layout of a string of digits by their number: as they are up to two digits, the
      first two in parentheses from three digits on, and a hyphen before the last four from
      seven digits on. */
  function Layout(d: string): string {
    if |d| < 3 then d
    else if |d| < 7 then "(" + d[..2] + ") " + d[2..]
    else "(" + d[..2] + ") " + d[2..|d| - 4] + "-" + d[|d| - 4..]
  }

  /** From three to six digits only the area code is set off. */
  lemma StepsArea(d: string)
    requires AllDigits(d) && 3 <= |d| < 7
    ensures LineHyphen(AreaCode(d)) == Layout(d)
  {
    var v := "(" + d[..2] + ") " + d[2..];
    assert AreaCode(d) == v;
    assert v[4] == ' ';
    assert v[|v| - 5..][4 - (|v| - 5)] == ' ';
    assert !AllDigits(v[|v| - 5..]);
  }

  /** From seven digits on the hyphen goes in as well. */
  lemma StepsFull(d: string)
    requires AllDigits(d) && |d| >= 7
    ensures LineHyphen(AreaCode(d)) == Layout(d)
  {
    var v := "(" + d[..2] + ") " + d[2..];
    assert AreaCode(d) == v;
    assert v[|v| - 5..] == d[|d| - 5..];
    assert v[..|v| - 4] == "(" + d[..2] + ") " + d[2..|d| - 4];
    assert v[|v| - 4..] == d[|d| - 4..];
  }

  /** The two regular-expression replacements lay the digits out by their number. */
  lemma MaskIsLayout(s: string)
    ensures Mask(s) == Layout(Digits(s))
  {
    var d := Digits(s);
    if 3 <= |d| < 7 {
      StepsArea(d);
    } else if |d| >= 7 {
      StepsFull(d);
    }
  }

  /** A character that is not a digit does not occur in a string of digits. */
  lemma NotInDigits(d: string, c: char)
    requires AllDigits(d) && !IsDigit(c)
    ensures c !in d
  {
    assert forall i :: 0 <= i < |d| ==> d[i] != c;
  }

  /** Digits after a head with no digit. */
  lemma DigitsAfterNone(h: string, t: string, d: string)
    requires forall i :: 0 <= i < |h| ==> !IsDigit(h[i])
    requires Digits(t) == d
    ensures Digits(h + t) == d
  {
    DigitsAppend(h, t);
    DigitsOfNone(h);
    assert [] + d == d;
  }

  /** Digits before a tail with no digit. */
  lemma DigitsBeforeNone(h: string, t: string, d: string)
    requires forall i :: 0 <= i < |t| ==> !IsDigit(t[i])
    requires Digits(h) == d
    ensures Digits(h + t) == d
  {
    DigitsAppend(h, t);
    DigitsOfNone(t);
    assert d + [] == d;
  }

  /** The digits of the area-code layout. */
  lemma AreaLayoutDigits(a: string, b: string)
    requires AllDigits(a) && AllDigits(b)
    ensures Digits("(" + a + ") " + b) == a + b
  {
    var p := "(" + a;
    var q := p + ") ";
    DigitsOfDigits(a);
    DigitsOfDigits(b);
    DigitsAfterNone("(", a, a);
    DigitsBeforeNone(p, ") ", a);
    DigitsAppend(q, b);
  }

  /** The digits of the full layout. */
  lemma FullLayoutDigits(a: string, b: string, c: string)
    requires AllDigits(a) && AllDigits(b) && AllDigits(c)
    ensures Digits("(" + a + ") " + b + "-" + c) == a + b + c
  {
    var q := "(" + a + ") " + b;
    var r := q + "-";
    AreaLayoutDigits(a, b);
    DigitsOfDigits(c);
    DigitsBeforeNone(q, "-", a + b);
    DigitsAppend(r, c);
  }

  /** The layout keeps exactly the digits. */
  lemma LayoutDigits(d: string)
    requires AllDigits(d)
    ensures Digits(Layout(d)) == d
  {
    if |d| < 3 {
      DigitsOfDigits(d);
    } else if |d| < 7 {
      AreaLayoutDigits(d[..2], d[2..]);
      assert d == d[..2] + d[2..];
    } else {
      var a, b, c := d[..2], d[2..|d| - 4], d[|d| - 4..];
      FullLayoutDigits(a, b, c);
      assert d == a + b + c;
    }
  }

  /** A head of mask characters and a tail of digits. */
  lemma LayoutChars(h: string, t: string)
    requires forall i :: 0 <= i < |h| ==> IsMaskChar(h[i])
    requires AllDigits(t)
    ensures forall i :: 0 <= i < |h + t| ==> IsMaskChar((h + t)[i])
  {
    forall i | 0 <= i < |h + t| ensures IsMaskChar((h + t)[i]) {
      if i >= |h| {
        assert (h + t)[i] == t[i - |h|];
      }
    }
  }

  /** The layout holds only mask characters. */
  lemma LayoutMaskChars(d: string)
    requires AllDigits(d)
    ensures forall i :: 0 <= i < |Layout(d)| ==> IsMaskChar(Layout(d)[i])
  {
    if 3 <= |d| < 7 {
      var h := "(" + d[..2] + ") ";
      LayoutChars("(", d[..2]);
      LayoutChars(h, d[2..]);
    } else if |d| >= 7 {
      var h0 := "(" + d[..2] + ") ";
      var h1 := h0 + d[2..|d| - 4] + "-";
      LayoutChars("(", d[..2]);
      LayoutChars(h0, d[2..|d| - 4]);
      LayoutChars(h1, d[|d| - 4..]);
    }
  }

  /** The layout's opening parenthesis and hyphen appear by the number of digits. */
  lemma LayoutMarks(d: string)
    requires AllDigits(d)
    ensures '(' in Layout(d) <==> |d| >= 3
    ensures '-' in Layout(d) <==> |d| >= 7
  {
    if |d| < 3 {
      NotInDigits(d, '(');
      NotInDigits(d, '-');
    } else if |d| < 7 {
      var a, b := d[..2], d[2..];
      NotInDigits(a, '-');
      NotInDigits(b, '-');
      assert Layout(d)[0] == '(';
    } else {
      var a, b, c := d[..2], d[2..|d| - 4], d[|d| - 4..];
      assert Layout(d)[0] == '(';
      assert Layout(d) == ("(" + a + ") " + b) + "-" + c;
    }
  }

  // ---------------------------------------------------------------------------------------
  // Lemmas: what the mask promises

  /** The mask keeps exactly the digits typed, in order. */
  lemma MaskDigits(s: string)
    ensures Digits(Mask(s)) == Digits(s)
  {
    MaskIsLayout(s);
    LayoutDigits(Digits(s));
  }

  /** Masking a masked number changes nothing. */
  lemma MaskIdempotent(s: string)
    ensures Mask(Mask(s)) == Mask(s)
  {
    MaskDigits(s);
  }

  /** A masked number holds only digits, parentheses, a space and a hyphen. */
  lemma MaskChars(s: string)
    ensures forall i :: 0 <= i < |Mask(s)| ==> IsMaskChar(Mask(s)[i])
  {
    MaskIsLayout(s);
    LayoutMaskChars(Digits(s));
  }

  /** The area code's parenthesis appears exactly when at least three digits were typed, and
      the hyphen exactly when at least seven were. */
  lemma MaskMarks(s: string)
    ensures '(' in Mask(s) <==> |Digits(s)| >= 3
    ensures '-' in Mask(s) <==> |Digits(s)| >= 7
  {
    MaskIsLayout(s);
    LayoutMarks(Digits(s));
  }

  /** The mask adds three characters for the area code and one for the hyphen: the eleven
      digits of a mobile number take the field's fifteen characters. */
  lemma MaskLength(s: string)
    ensures |Mask(s)| == |Digits(s)| + (if |Digits(s)| >= 3 then 3 else 0) + (if |Digits(s)| >= 7 then 1 else 0)
  {
    MaskIsLayout(s);
  }
}
