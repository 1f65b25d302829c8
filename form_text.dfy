/** The strings the ledger's handlers build: the slug of a category name, `String(id)` of a
    row id, `Number.prototype.toString` of an amount, and the `YYYY-MM-DD` date of
    `toISOString().split('T')[0]`. */
module FormText {
  import opened Text
  import opened Calendar

  // ---------------------------------------------------------------------------------------
  // Slugs

  /** `s.replace(/\s+/g, '_')`: every maximal run of whitespace becomes one '_'. */
  function UnderscoreRuns(s: string): (r: string)
    ensures |r| <= |s|
    ensures forall i :: 0 <= i < |r| ==> !IsJsSpace(r[i])
    ensures r == [] <==> s == []
    decreases |s|
  {
    if s == [] then []
    else if IsJsSpace(s[0]) then "_" + UnderscoreRuns(TrimStart(s[1..]))
    else [s[0]] + UnderscoreRuns(s[1..])
  }

  /** `name.toLowerCase().replace(/\s+/g, '_')`. */
  function Slug(name: string): string {
    UnderscoreRuns(Lower(name))
  }

  predicate NoUpper(s: string) {
    forall i :: 0 <= i < |s| ==> !IsUpper(s[i])
  }

  predicate NoSpace(s: string) {
    forall i :: 0 <= i < |s| ==> !IsJsSpace(s[i])
  }

  /** The slug of each word, lower-cased. */
  function LowerAll(words: seq<string>): (r: seq<string>)
    ensures |r| == |words| && forall k :: 0 <= k < |words| ==> r[k] == Lower(words[k])
  {
    seq(|words|, k requires 0 <= k < |words| => Lower(words[k]))
  }

  // ---------------------------------------------------------------------------------------
  // Numbers and dates as text

  /** `String(n)`. */
  function IntText(n: int): (s: string)
    ensures s != []
  {
    if n < 0 then "-" + Decimal(-n) else Decimal(n)
  }

  /** `Number.prototype.toString` of `m` cents, `m >= 0`: the whole part, then, when the cents
      are not zero, '.' and the cents without a trailing zero. */
  function MagnitudeText(m: nat): (s: string)
    ensures s != [] && IsDigit(s[0])
  {
    WholeAndCents(m / 100, m % 100)
  }

  /** The text of `whole` units and `c` cents. */
  function WholeAndCents(whole: nat, c: nat): (s: string)
    ensures s != [] && IsDigit(s[0])
  {
    Decimal(whole) + CentsText(c)
  }

  /** The fraction part of an amount's text for `c` cents, `c < 100`: nothing for whole
      amounts, otherwise '.' and the fraction digits. */
  function CentsText(c: nat): string {
    if c == 0 then "" else "." + FractionDigits(c)
  }

  /** One digit when the cents are a multiple of ten (0.5), otherwise two (0.05, 0.25). */
  function FractionDigits(c: nat): string {
    if c % 10 == 0 then Decimal(c / 10) else PadZeros(Decimal(c), 2)
  }

  /** `amount.toString()` for an amount of `c` cents. */
  function AmountText(c: int): (s: string)
    ensures s != []
  {
    if c < 0 then "-" + MagnitudeText(-c) else MagnitudeText(c)
  }

  /** A decimal number text with at most two decimals back to cents. */
  function ParseNumberText(s: string): Option<int> {
    if s != [] && s[0] == '-' then
      match ParseMagnitudeText(s[1..])
      case Some(m) => Some(-(m as int))
      case None => None
    else ParseMagnitudeText(s)
  }

  /** Digits, then optionally '.' and one or two digits, back to cents. */
  function ParseMagnitudeText(s: string): Option<int> {
    var parts := Split(s, '.');
    if |parts| == 1 then
      match ParseNat(parts[0])
      case Some(w) => Some(w * 100)
      case None => None
    else if |parts| == 2 then
      match (ParseNat(parts[0]), ReadFraction(parts[1]))
      case (Some(w), Some(f)) => Some(w * 100 + f)
      case _ => None
    else None
  }

  /** One or two fraction digits as cents: "5" is 50, "05" is 5. */
  function ReadFraction(f: string): Option<int> {
    if 1 <= |f| <= 2 then
      match ParseNat(f)
      case Some(v) => Some(if |f| == 1 then v * 10 else v)
      case None => None
    else None
  }

  /** `d.toISOString().split('T')[0]` for a moment of the UTC day `d`. */
  function IsoDate(d: Date): string
    requires ValidDate(d)
  {
    PadZeros(Decimal(d.year), 4) + "-" + PadZeros(Decimal(d.month), 2) + "-" + PadZeros(Decimal(d.day), 2)
  }

  /** A `YYYY-MM-DD` text back to a calendar day. */
  function ParseIsoDate(s: string): Option<Date> {
    var parts := Split(s, '-');
    if |parts| != 3 then None
    else match (ParseNat(parts[0]), ParseNat(parts[1]), ParseNat(parts[2]))
      case (Some(y), Some(m), Some(d)) => Some(Date(y, m, d))
      case _ => None
  }

  // ---------------------------------------------------------------------------------------
  // Lemmas: slugs

  /** A string without whitespace is left as it is. */
  lemma {:induction false} UnderscoreRunsNoSpace(s: string)
    requires NoSpace(s)
    ensures UnderscoreRuns(s) == s
    decreases |s|
  {
    if s != [] {
      assert NoSpace(s[1..]);
      UnderscoreRunsNoSpace(s[1..]);
    }
  }

  /** Replacing runs keeps a string free of capitals. */
  lemma {:induction false} UnderscoreRunsNoUpper(s: string)
    requires NoUpper(s)
    ensures NoUpper(UnderscoreRuns(s))
    decreases |s|
  {
    if s != [] {
      var t := s[1..];
      NoUpperSuffix(s, 1);
      if IsJsSpace(s[0]) {
        var rest := TrimStart(t);
        var k := |t| - |rest|;
        TrimStartSuffix(t);
        assert rest == t[k..];
        NoUpperSuffix(t, k);
        UnderscoreRunsNoUpper(rest);
        assert UnderscoreRuns(s) == "_" + UnderscoreRuns(rest);
        NoUpperCons('_', UnderscoreRuns(rest));
      } else {
        UnderscoreRunsNoUpper(t);
        assert UnderscoreRuns(s) == [s[0]] + UnderscoreRuns(t);
        NoUpperCons(s[0], UnderscoreRuns(t));
      }
    }
  }

  /** A character that is not a capital, followed by a string free of capitals. */
  lemma NoUpperCons(c: char, s: string)
    requires !IsUpper(c) && NoUpper(s)
    ensures NoUpper([c] + s)
  {
    forall i | 0 <= i < |[c] + s| ensures !IsUpper(([c] + s)[i]) {
      if i > 0 {
        assert ([c] + s)[i] == s[i - 1];
      }
    }
  }

  /** A suffix of a string free of capitals is free of capitals. */
  lemma NoUpperSuffix(s: string, k: nat)
    requires NoUpper(s) && k <= |s|
    ensures NoUpper(s[k..])
  {
    forall i | 0 <= i < |s[k..]| ensures !IsUpper(s[k..][i]) {
      assert s[k..][i] == s[k + i];
    }
  }

  /** A slug holds no whitespace and no capital, is empty exactly when the name is, and is no
      longer than the name. */
  lemma SlugShape(name: string)
    ensures NoSpace(Slug(name)) && NoUpper(Slug(name))
    ensures Slug(name) == [] <==> name == []
    ensures |Slug(name)| <= |name|
  {
    UnderscoreRunsNoUpper(Lower(name));
  }

  /** The slug of a slug is the slug. */
  lemma SlugIdempotent(name: string)
    ensures Slug(Slug(name)) == Slug(name)
  {
    var s := Slug(name);
    SlugShape(name);
    assert Lower(s) == s;
    UnderscoreRunsNoSpace(s);
  }

  /** A text made only of whitespace. */
  predicate Blank(g: string) {
    forall i :: 0 <= i < |g| ==> IsJsSpace(g[i])
  }

  /** What a whitespace run at either end of a name becomes: one '_', or nothing. */
  function Mark(g: string): string {
    if g == [] then "" else "_"
  }

  /** The words with the whitespace run `gaps[k]` between `words[k]` and `words[k + 1]`. */
  function Interleave(words: seq<string>, gaps: seq<string>): string
    decreases |words|
  {
    if words == [] then ""
    else if |words| == 1 || gaps == [] then words[0]
    else words[0] + gaps[0] + Interleave(words[1..], gaps[1..])
  }

  /** Words separated by whitespace runs, then whitespace: each run becomes one '_'. */
  lemma {:induction false} UnderscoreRunsWords(words: seq<string>, gaps: seq<string>, trail: string)
    requires |words| >= 1 && |gaps| == |words| - 1
    requires forall k :: 0 <= k < |words| ==> words[k] != [] && NoSpace(words[k])
    requires forall k :: 0 <= k < |gaps| ==> gaps[k] != [] && Blank(gaps[k])
    requires Blank(trail)
    ensures UnderscoreRuns(Interleave(words, gaps) + trail) == Join(words, '_') + Mark(trail)
    decreases |words|
  {
    if |words| == 1 {
      WordThenTrail(words[0], trail);
    } else {
      var tail := Interleave(words[1..], gaps[1..]);
      var rest := tail + trail;
      assert Interleave(words, gaps) + trail == words[0] + gaps[0] + rest;
      InterleaveStart(words[1..], gaps[1..]);
      assert rest[0] == tail[0];
      WordThenGap(words[0], gaps[0], rest);
      UnderscoreRunsWords(words[1..], gaps[1..], trail);
      assert Join(words, '_') + Mark(trail) == words[0] + "_" + (Join(words[1..], '_') + Mark(trail));
    }
  }

  /** Interleaved text starts with the first word's first character. */
  lemma InterleaveStart(words: seq<string>, gaps: seq<string>)
    requires |words| >= 1 && words[0] != []
    ensures Interleave(words, gaps) != [] && Interleave(words, gaps)[0] == words[0][0]
  {
  }

  /** A text of whitespace trims to nothing. */
  lemma {:induction false} TrimBlank(g: string)
    requires Blank(g)
    ensures TrimStart(g) == []
    decreases |g|
  {
    if g != [] {
      assert Blank(g[1..]);
      TrimBlank(g[1..]);
    }
  }

  /** A non-empty text of whitespace becomes a single '_'. */
  lemma BlankRuns(g: string)
    requires Blank(g)
    ensures UnderscoreRuns(g) == Mark(g)
  {
    if g != [] {
      assert Blank(g[1..]);
      TrimBlank(g[1..]);
    }
  }

  /** A word followed by whitespace: the whitespace becomes one '_'. */
  lemma {:induction false} WordThenTrail(word: string, trail: string)
    requires NoSpace(word) && Blank(trail)
    ensures UnderscoreRuns(word + trail) == word + Mark(trail)
    decreases |word|
  {
    if word == [] {
      assert word + trail == trail;
      BlankRuns(trail);
    } else {
      assert (word + trail)[1..] == word[1..] + trail;
      assert NoSpace(word[1..]);
      WordThenTrail(word[1..], trail);
    }
  }

  /** A word, a whitespace gap and a text starting with a non-space. */
  lemma {:induction false} WordThenGap(word: string, gap: string, rest: string)
    requires NoSpace(word) && gap != [] && forall i :: 0 <= i < |gap| ==> IsJsSpace(gap[i])
    requires rest != [] && !IsJsSpace(rest[0])
    ensures UnderscoreRuns(word + gap + rest) == word + "_" + UnderscoreRuns(rest)
    decreases |word|
  {
    if word == [] {
      assert word + gap + rest == gap + rest;
      GapThenText(gap, rest);
    } else {
      assert (word + gap + rest)[1..] == word[1..] + gap + rest;
      assert NoSpace(word[1..]);
      WordThenGap(word[1..], gap, rest);
    }
  }

  lemma GapThenText(gap: string, rest: string)
    requires gap != [] && forall i :: 0 <= i < |gap| ==> IsJsSpace(gap[i])
    requires rest != [] && !IsJsSpace(rest[0])
    ensures UnderscoreRuns(gap + rest) == "_" + UnderscoreRuns(rest)
  {
    var s := gap + rest;
    assert s != [] && s[0] == gap[0] && IsJsSpace(s[0]);
    assert s[1..] == gap[1..] + rest;
    TrimGap(gap[1..], rest);
    assert UnderscoreRuns(s) == "_" + UnderscoreRuns(TrimStart(s[1..]));
  }

  lemma {:induction false} TrimGap(gap: string, rest: string)
    requires forall i :: 0 <= i < |gap| ==> IsJsSpace(gap[i])
    requires rest != [] && !IsJsSpace(rest[0])
    ensures TrimStart(gap + rest) == rest
    decreases |gap|
  {
    if gap == [] {
      assert gap + rest == rest;
    } else {
      assert (gap + rest)[1..] == gap[1..] + rest;
      TrimGap(gap[1..], rest);
    }
  }

  /** A name made of words separated by whitespace runs, with optional whitespace before
      the first word and after the last, has as slug the lower-cased words joined by '_',
      with one more '_' for each end that has whitespace: "Pet\t Shop" gives "pet_shop" and
      " Casa Nova " gives "_casa_nova_". */
  lemma SlugOfWords(lead: string, words: seq<string>, gaps: seq<string>, trail: string)
    requires |words| >= 1 && |gaps| == |words| - 1
    requires forall k :: 0 <= k < |words| ==> words[k] != [] && NoSpace(words[k])
    requires forall k :: 0 <= k < |gaps| ==> gaps[k] != [] && Blank(gaps[k])
    requires Blank(lead) && Blank(trail)
    ensures Slug(lead + Interleave(words, gaps) + trail)
         == Mark(lead) + Join(LowerAll(words), '_') + Mark(trail)
  {
    var lw := LowerAll(words);
    LowerName(lead, words, gaps, trail);
    forall k | 0 <= k < |lw| ensures lw[k] != [] && NoSpace(lw[k]) {
    }
    RunsOfName(lead, lw, gaps, trail);
  }

  /** Lower-casing a name leaves its whitespace and lowers each word. */
  lemma LowerName(lead: string, words: seq<string>, gaps: seq<string>, trail: string)
    requires forall k :: 0 <= k < |gaps| ==> Blank(gaps[k])
    requires Blank(lead) && Blank(trail)
    ensures Lower(lead + Interleave(words, gaps) + trail)
         == lead + Interleave(LowerAll(words), gaps) + trail
  {
    LowerInterleave(words, gaps);
    LowerBlank(lead);
    LowerBlank(trail);
    LowerAppend(lead, Interleave(words, gaps));
    LowerAppend(lead + Interleave(words, gaps), trail);
  }

  /** The underscore runs of words with whitespace at both ends. */
  lemma RunsOfName(lead: string, words: seq<string>, gaps: seq<string>, trail: string)
    requires |words| >= 1 && |gaps| == |words| - 1
    requires forall k :: 0 <= k < |words| ==> words[k] != [] && NoSpace(words[k])
    requires forall k :: 0 <= k < |gaps| ==> gaps[k] != [] && Blank(gaps[k])
    requires Blank(lead) && Blank(trail)
    ensures UnderscoreRuns(lead + Interleave(words, gaps) + trail)
         == Mark(lead) + Join(words, '_') + Mark(trail)
  {
    UnderscoreRunsWords(words, gaps, trail);
    InterleaveStart(words, gaps);
    LeadThenWords(lead, Interleave(words, gaps), trail, Join(words, '_'));
  }

  /** Whitespace before words that end in whitespace: each end gives at most one '_'. */
  lemma LeadThenWords(lead: string, mid: string, trail: string, joined: string)
    requires Blank(lead)
    requires mid != [] && !IsJsSpace(mid[0])
    requires UnderscoreRuns(mid + trail) == joined + Mark(trail)
    ensures UnderscoreRuns(lead + mid + trail) == Mark(lead) + joined + Mark(trail)
  {
    var rest := mid + trail;
    assert rest[0] == mid[0];
    LeadThen(lead, rest, joined + Mark(trail));
    assert lead + mid + trail == lead + rest;
  }

  /** Whitespace before a text starting with a non-space becomes at most one '_'. */
  lemma LeadThen(lead: string, rest: string, runs: string)
    requires Blank(lead)
    requires rest != [] && !IsJsSpace(rest[0]) && UnderscoreRuns(rest) == runs
    ensures UnderscoreRuns(lead + rest) == Mark(lead) + runs
  {
    if lead == [] {
      assert lead + rest == rest;
    } else {
      GapThenText(lead, rest);
    }
  }

  /** Lower-casing distributes over concatenation. */
  lemma LowerAppend(a: string, b: string)
    ensures Lower(a + b) == Lower(a) + Lower(b)
  {
  }

  /** Whitespace has no capitals to lower. */
  lemma LowerBlank(g: string)
    requires Blank(g)
    ensures Lower(g) == g
  {
    forall i | 0 <= i < |g| ensures LowerChar(g[i]) == g[i] {
      assert !IsUpper(g[i]);
    }
  }

  /** Lower-casing commutes with interleaving words and whitespace runs. */
  lemma {:induction false} LowerInterleave(words: seq<string>, gaps: seq<string>)
    requires forall k :: 0 <= k < |gaps| ==> Blank(gaps[k])
    ensures Lower(Interleave(words, gaps)) == Interleave(LowerAll(words), gaps)
    decreases |words|
  {
    if |words| > 1 && gaps != [] {
      LowerInterleave(words[1..], gaps[1..]);
      assert LowerAll(words)[1..] == LowerAll(words[1..]);
      var a, b := words[0], Interleave(words[1..], gaps[1..]);
      LowerBlank(gaps[0]);
      assert Lower(a + gaps[0] + b) == Lower(a) + gaps[0] + Lower(b);
    }
  }

  // ---------------------------------------------------------------------------------------
  // Lemmas: numbers and dates

  /** A digit string holds no '.', '-' or ','. */
  lemma DigitsHaveNoMarks(s: string)
    requires AllDigits(s)
    ensures '.' !in s && '-' !in s && ',' !in s
  {
    assert forall i :: 0 <= i < |s| ==> IsDigit(s[i]);
  }

  /** Zero padding keeps a digit string a digit string. */
  lemma PaddedDigits(s: string, width: nat)
    requires AllDigits(s)
    ensures AllDigits(PadZeros(s, width))
  {
    var r := PadZeros(s, width);
    forall i | 0 <= i < |r| ensures IsDigit(r[i]) {
      if i >= |r| - |s| {
        assert r[i] == r[|r| - |s|..][i - (|r| - |s|)];
      }
    }
  }

  /** Cents below a hundred print as two digits that read back. */
  lemma TwoDigitCents(c: nat)
    requires c < 100
    ensures |PadZeros(Decimal(c), 2)| == 2 && '.' !in PadZeros(Decimal(c), 2)
    ensures ParseNat(PadZeros(Decimal(c), 2)) == Some(c)
  {
    DecimalLength(c);
    PaddedDigits(Decimal(c), 2);
    DigitsHaveNoMarks(PadZeros(Decimal(c), 2));
    PaddedRoundTrip(c, 2);
  }

  /** The fraction digits of non-zero cents hold no '.' and read back as the cents. */
  lemma FractionDigitsRead(c: nat)
    requires 0 < c < 100
    ensures '.' !in FractionDigits(c) && ReadFraction(FractionDigits(c)) == Some(c)
  {
    if c % 10 == 0 {
      var t := Decimal(c / 10);
      assert |t| == 1 && '.' !in t && ParseNat(t) == Some(c / 10) by {
        DecimalLength(c / 10);
        DecimalRoundTrip(c / 10);
        DigitsHaveNoMarks(t);
      }
      assert (c / 10) * 10 == c;
    } else {
      TwoDigitCents(c);
    }
  }

  /** Any whole part followed by the text of `c` cents reads back as whole and cents. */
  lemma CentsReadBack(w: string, whole: nat, c: nat)
    requires '.' !in w && ParseNat(w) == Some(whole) && c < 100
    ensures ParseMagnitudeText(w + CentsText(c)) == Some(whole * 100 + c)
  {
    if c == 0 {
      assert w + CentsText(c) == w;
      NoFraction(w, whole);
    } else {
      var f := FractionDigits(c);
      assert '.' !in f && ReadFraction(f) == Some(c) by {
        FractionDigitsRead(c);
      }
      FractionRoundTrip(w, CentsText(c), f, whole, c);
    }
  }

  lemma NoFraction(w: string, whole: nat)
    requires '.' !in w && ParseNat(w) == Some(whole)
    ensures ParseMagnitudeText(w) == Some(whole * 100)
  {
    assert Split(w, '.') == [w];
  }

  /** A whole part, then '.' and the fraction digits, read back as cents. */
  lemma FractionRoundTrip(w: string, tail: string, f: string, whole: nat, frac: int)
    requires tail == "." + f
    requires '.' !in w && '.' !in f
    requires ParseNat(w) == Some(whole) && ReadFraction(f) == Some(frac)
    ensures ParseMagnitudeText(w + tail) == Some(whole * 100 + frac)
  {
    assert w + tail == w + "." + f;
    SplitTwo(w, f, '.');
  }

  /** A printed magnitude reads back as the magnitude. */
  lemma MagnitudeTextRoundTrip(m: nat)
    ensures ParseMagnitudeText(MagnitudeText(m)) == Some(m)
  {
    var whole, c := m / 100, m % 100;
    assert whole * 100 + c == m && c < 100 by {
      HundredsSplit(m);
    }
    WholeAndCentsRoundTrip(whole, c);
    var r := ParseMagnitudeText(MagnitudeText(m));
    assert r.Some? && r.value == m;
  }

  lemma WholeAndCentsRoundTrip(whole: nat, c: nat)
    requires c < 100
    ensures ParseMagnitudeText(WholeAndCents(whole, c)) == Some(whole * 100 + c)
  {
    var w := Decimal(whole);
    assert '.' !in w && ParseNat(w) == Some(whole) by {
      DigitsHaveNoMarks(w);
      DecimalRoundTrip(whole);
    }
    CentsReadBack(w, whole, c);
  }

  /** The text of an amount reads back as the amount, to the cent. */
  lemma AmountTextRoundTrip(c: int)
    ensures ParseNumberText(AmountText(c)) == Some(c)
  {
    var m: nat := if c < 0 then -c else c;
    MagnitudeTextRoundTrip(m);
    SignedText(MagnitudeText(m), m);
    assert AmountText(c) == if c < 0 then "-" + MagnitudeText(m) else MagnitudeText(m);
  }

  /** A magnitude text that starts with a digit reads as itself, and with '-' in front as its
      negation. */
  lemma SignedText(body: string, m: int)
    requires body != [] && IsDigit(body[0]) && ParseMagnitudeText(body) == Some(m)
    ensures ParseNumberText(body) == Some(m)
    ensures ParseNumberText("-" + body) == Some(-m)
  {
    assert ("-" + body)[1..] == body;
  }

  /** A text that cuts at '-' into three numerals reads as the day they name. */
  lemma IsoFields(s: string, yy: string, mm: string, dd: string, year: nat, month: nat, day: nat)
    requires Split(s, '-') == [yy, mm, dd]
    requires ParseNat(yy) == Some(year) && ParseNat(mm) == Some(month) && ParseNat(dd) == Some(day)
    ensures ParseIsoDate(s) == Some(Date(year, month, day))
  {
  }

  /** The ISO date of a day reads back as that day, and is ten characters long. */
  lemma IsoDateRoundTrip(d: Date)
    requires ValidDate(d)
    ensures ParseIsoDate(IsoDate(d)) == Some(d)
    ensures |IsoDate(d)| == 10
  {
    var yy, mm, dd := PadZeros(Decimal(d.year), 4), PadZeros(Decimal(d.month), 2), PadZeros(Decimal(d.day), 2);
    assert |Decimal(d.year)| <= 4 by {
      DecimalLength(d.year);
    }
    assert |Decimal(d.month)| <= 2 && |Decimal(d.day)| <= 2 by {
      DecimalLength(d.month);
      DecimalLength(d.day);
    }
    assert '-' !in yy && '-' !in mm && '-' !in dd by {
      PaddedDigits(Decimal(d.year), 4);
      PaddedDigits(Decimal(d.month), 2);
      PaddedDigits(Decimal(d.day), 2);
      DigitsHaveNoMarks(yy);
      DigitsHaveNoMarks(mm);
      DigitsHaveNoMarks(dd);
    }
    SplitThree(yy, mm, dd, '-');
    assert ParseNat(yy) == Some(d.year) by {
      PaddedRoundTrip(d.year, 4);
    }
    assert ParseNat(mm) == Some(d.month) by {
      PaddedRoundTrip(d.month, 2);
    }
    assert ParseNat(dd) == Some(d.day) by {
      PaddedRoundTrip(d.day, 2);
    }
    IsoFields(IsoDate(d), yy, mm, dd, d.year, d.month, d.day);
  }

  /** Numbers below 10^k have at most k digits. */
  lemma {:induction false} DecimalLength(n: nat)
    ensures n < 10 ==> |Decimal(n)| == 1
    ensures n < 100 ==> |Decimal(n)| <= 2
    ensures n < 10000 ==> |Decimal(n)| <= 4
    decreases n
  {
    if n >= 10 {
      DecimalLength(n / 10);
    }
  }
}
