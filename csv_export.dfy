/** The CSV export of the filtered transactions: a header line and one line per transaction,
    fields separated by ';' and lines by '\n'; dates in the pt-BR day/month/year form and
    amounts with two decimals and a decimal comma. */
module CsvExport {
  import opened Text
  import opened Calendar
  import opened Domain

  const Header: seq<string> := ["Data", "Descricao", "Categoria", "Tipo", "Valor"]

  /** `new Date(tx.date + 'T12:00:00').toLocaleDateString('pt-BR')`: two-digit day and month,
      the year as a plain number; a date that is not a real calendar day prints
      "Invalid Date". */
  function FormatDate(d: Date): string {
    if ValidDate(d) then
      PadZeros(Decimal(d.day), 2) + "/" + PadZeros(Decimal(d.month), 2) + "/" + Decimal(d.year)
    else "Invalid Date"
  }

  /** `amount.toFixed(2).replace('.', ',')` for an amount of `c` cents: a minus sign for a
      negative amount, then the printed magnitude. */
  function FormatAmount(c: int): string {
    if c < 0 then "-" + Magnitude(-c) else Magnitude(c)
  }

  /** The whole part, a decimal comma and the cents as two digits. */
  function Magnitude(m: nat): (s: string)
    ensures s != [] && IsDigit(s[0])
  {
    CommaCents(m / 100, m % 100)
  }

  /** The text of `whole` units and `c` cents with a decimal comma. */
  function CommaCents(whole: nat, c: nat): (s: string)
    ensures s != [] && IsDigit(s[0])
  {
    Decimal(whole) + "," + PadZeros(Decimal(c), 2)
  }

  function KindText(k: Kind): string {
    if k == Income then "Entrada" else "Saida"
  }

  /** The five fields of a transaction's line. */
  function Row(cats: CategoryTable, tx: Transaction): (r: seq<string>)
    ensures |r| == 5
  {
    [FormatDate(tx.date), tx.title, LabelOrOther(cats, tx.category), KindText(tx.kind), FormatAmount(tx.amount)]
  }

  /** A transaction's line: its fields joined with ';'. */
  function RowLine(cats: CategoryTable, tx: Transaction): string {
    Join(Row(cats, tx), ';')
  }

  /** `headers.join(';')`. */
  const HeaderLine: string := Join(Header, ';')

  /** One line per transaction, in list order; a transaction whose title and label are free
      of ';' and '\n' gives a line without a newline that splits back into its fields. */
  function RowLines(cats: CategoryTable, txs: seq<Transaction>): (ls: seq<string>)
    ensures |ls| == |txs|
    ensures forall i :: 0 <= i < |txs| ==> ls[i] == RowLine(cats, txs[i])
    ensures forall i :: 0 <= i < |txs| && PlainText(cats, txs[i]) ==>
              '\n' !in ls[i] && Split(ls[i], ';') == Row(cats, txs[i])
  {
    RowsSplitBack(cats, txs);
    seq(|txs|, i requires 0 <= i < |txs| => RowLine(cats, txs[i]))
  }

  /** Every plain transaction's line splits back into its fields. */
  lemma RowsSplitBack(cats: CategoryTable, txs: seq<Transaction>)
    ensures forall i :: 0 <= i < |txs| && PlainText(cats, txs[i]) ==>
              '\n' !in RowLine(cats, txs[i]) && Split(RowLine(cats, txs[i]), ';') == Row(cats, txs[i])
  {
    forall i | 0 <= i < |txs| && PlainText(cats, txs[i])
      ensures '\n' !in RowLine(cats, txs[i]) && Split(RowLine(cats, txs[i]), ';') == Row(cats, txs[i])
    {
      RowSplitsBack(cats, txs[i]);
    }
  }

  /** The lines of the file: the header, then one line per transaction. */
  function Lines(cats: CategoryTable, txs: seq<Transaction>): seq<string> {
    [HeaderLine] + RowLines(cats, txs)
  }

  /** `exportToCSV`: nothing when the filtered list is empty, otherwise the file's text. */
  function ExportCsv(cats: CategoryTable, filtered: seq<Transaction>): (r: Option<string>)
    ensures r.None? <==> filtered == []
  {
    if |filtered| == 0 then None else Some(Join(Lines(cats, filtered), '\n'))
  }

  // ---------------------------------------------------------------------------------------
  // Reading the file back

  /** A dd/mm/yyyy field back to a calendar day. */
  function ParseDate(s: string): Option<Date> {
    var parts := Split(s, '/');
    if |parts| != 3 then None
    else match (ParseNat(parts[0]), ParseNat(parts[1]), ParseNat(parts[2]))
      case (Some(d), Some(m), Some(y)) => Some(Date(y, m, d))
      case _ => None
  }

  /** An amount field back to cents: an optional '-', then the magnitude. */
  function ParseAmount(s: string): Option<int> {
    if s != [] && s[0] == '-' then
      match ParseMagnitude(s[1..])
      case Some(m) => Some(-(m as int))
      case None => None
    else
      match ParseMagnitude(s)
      case Some(m) => Some(m)
      case None => None
  }

  /** The whole part, ',' and exactly two digits of cents, back to cents. */
  function ParseMagnitude(s: string): Option<nat> {
    var parts := Split(s, ',');
    if |parts| != 2 || |parts[1]| != 2 then None
    else match (ParseNat(parts[0]), ParseNat(parts[1]))
      case (Some(w), Some(f)) => Some(w * 100 + f)
      case _ => None
  }

  function ParseKind(s: string): Option<Kind> {
    if s == "Entrada" then Some(Income) else if s == "Saida" then Some(Expense) else None
  }

  // ---------------------------------------------------------------------------------------
  // Lemmas

  /** Zero padding keeps a digit string a digit string. */
  lemma PadDigits(s: string, width: nat)
    requires AllDigits(s)
    ensures AllDigits(PadZeros(s, width))
    ensures ';' !in PadZeros(s, width) && '\n' !in PadZeros(s, width) && ',' !in PadZeros(s, width)
    ensures '/' !in PadZeros(s, width)
  {
    var r := PadZeros(s, width);
    forall i | 0 <= i < |r| ensures IsDigit(r[i]) {
      if i >= |r| - |s| {
        assert r[i] == r[|r| - |s|..][i - (|r| - |s|)];
      }
    }
    DigitsPlain(r);
  }

  /** A decimal numeral holds none of the separators. */
  lemma DecimalPlain(n: nat)
    ensures ';' !in Decimal(n) && '\n' !in Decimal(n) && ',' !in Decimal(n) && '/' !in Decimal(n)
  {
    DigitsPlain(Decimal(n));
  }

  /** Digit strings joined by '/' hold neither separator of the file. */
  lemma SlashedDigitsPlain(dd: string, mm: string, yy: string)
    requires AllDigits(dd) && AllDigits(mm) && AllDigits(yy)
    ensures var s := dd + "/" + mm + "/" + yy; ';' !in s && '\n' !in s
  {
    DigitsPlain(dd);
    DigitsPlain(mm);
    DigitsPlain(yy);
  }

  /** A digit string holds none of the separators. */
  lemma DigitsPlain(s: string)
    requires AllDigits(s)
    ensures ';' !in s && '\n' !in s && ',' !in s && '/' !in s
  {
    assert forall i :: 0 <= i < |s| ==> IsDigit(s[i]);
  }

  /** The printed date holds neither separator of the file. */
  lemma DatePlain(d: Date)
    ensures ';' !in FormatDate(d) && '\n' !in FormatDate(d)
  {
    if ValidDate(d) {
      var dd, mm, yy := PadZeros(Decimal(d.day), 2), PadZeros(Decimal(d.month), 2), Decimal(d.year);
      assert AllDigits(dd) && AllDigits(mm) by {
        PadDigits(Decimal(d.day), 2);
        PadDigits(Decimal(d.month), 2);
      }
      SlashedDigitsPlain(dd, mm, yy);
    }
  }

  /** A printed magnitude holds neither separator of the file. */
  lemma MagnitudePlain(m: nat)
    ensures ';' !in Magnitude(m) && '\n' !in Magnitude(m)
  {
    var w, f := Decimal(m / 100), PadZeros(Decimal(m % 100), 2);
    assert AllDigits(f) by {
      PadDigits(Decimal(m % 100), 2);
    }
    DigitsPlain(w);
    DigitsPlain(f);
  }

  /** The printed amount holds neither separator of the file. */
  lemma AmountPlain(c: int)
    ensures ';' !in FormatAmount(c) && '\n' !in FormatAmount(c)
  {
    var m: nat := if c < 0 then -c else c;
    MagnitudePlain(m);
    assert FormatAmount(c) == if c < 0 then "-" + Magnitude(m) else Magnitude(m);
  }

  /** A printed date cuts at '/' into its day, month and year fields. */
  lemma DateSplits(d: Date)
    requires ValidDate(d)
    ensures Split(FormatDate(d), '/')
         == [PadZeros(Decimal(d.day), 2), PadZeros(Decimal(d.month), 2), Decimal(d.year)]
  {
    var dd, mm, yy := PadZeros(Decimal(d.day), 2), PadZeros(Decimal(d.month), 2), Decimal(d.year);
    assert AllDigits(dd) && AllDigits(mm) by {
      PadDigits(Decimal(d.day), 2);
      PadDigits(Decimal(d.month), 2);
    }
    DigitsPlain(dd);
    DigitsPlain(mm);
    DigitsPlain(yy);
    SplitThree(dd, mm, yy, '/');
  }

  /** A field that cuts at '/' into three numerals reads as the day they name. */
  lemma DateFields(s: string, dd: string, mm: string, yy: string, day: nat, month: nat, year: nat)
    requires Split(s, '/') == [dd, mm, yy]
    requires ParseNat(dd) == Some(day) && ParseNat(mm) == Some(month) && ParseNat(yy) == Some(year)
    ensures ParseDate(s) == Some(Date(year, month, day))
  {
  }

  /** Dates read back from their printed form. */
  lemma DateRoundTrip(d: Date)
    requires ValidDate(d)
    ensures ParseDate(FormatDate(d)) == Some(d)
  {
    var dd, mm, yy := PadZeros(Decimal(d.day), 2), PadZeros(Decimal(d.month), 2), Decimal(d.year);
    assert Split(FormatDate(d), '/') == [dd, mm, yy] by {
      DateSplits(d);
    }
    assert ParseNat(dd) == Some(d.day) by {
      PaddedRoundTrip(d.day, 2);
    }
    assert ParseNat(mm) == Some(d.month) by {
      PaddedRoundTrip(d.month, 2);
    }
    assert ParseNat(yy) == Some(d.year) by {
      DecimalRoundTrip(d.year);
    }
    DateFields(FormatDate(d), dd, mm, yy, d.day, d.month, d.year);
  }

  /** A two-digit field: the cents of an amount padded to two places. */
  lemma CentsField(c: nat)
    requires c < 100
    ensures |PadZeros(Decimal(c), 2)| == 2 && ',' !in PadZeros(Decimal(c), 2)
    ensures ParseNat(PadZeros(Decimal(c), 2)) == Some(c)
  {
    if c >= 10 {
      assert |Decimal(c / 10)| == 1;
    }
    PadDigits(Decimal(c), 2);
    PaddedRoundTrip(c, 2);
  }

  /** A field made of a whole part, ',' and two cents digits reads as their value. */
  lemma MagnitudeFields(s: string, w: string, f: string, whole: nat, cents: nat, m: nat)
    requires s == w + "," + f && ',' !in w && ',' !in f && |f| == 2
    requires ParseNat(w) == Some(whole) && ParseNat(f) == Some(cents) && m == whole * 100 + cents
    ensures ParseMagnitude(s) == Some(m)
  {
    SplitTwo(w, f, ',');
  }

  /** Whole units and cents read back from their printed form. */
  lemma CommaCentsRoundTrip(whole: nat, c: nat, m: nat)
    requires c < 100 && m == whole * 100 + c
    ensures ParseMagnitude(CommaCents(whole, c)) == Some(m)
  {
    var w, f := Decimal(whole), PadZeros(Decimal(c), 2);
    assert ',' !in w && ParseNat(w) == Some(whole) by {
      DecimalPlain(whole);
      DecimalRoundTrip(whole);
    }
    assert |f| == 2 && ',' !in f && ParseNat(f) == Some(c) by {
      CentsField(c);
    }
    MagnitudeFields(CommaCents(whole, c), w, f, whole, c, m);
  }

  /** A printed magnitude reads back as the magnitude. */
  lemma MagnitudeRoundTrip(m: nat)
    ensures ParseMagnitude(Magnitude(m)) == Some(m)
  {
    HundredsSplit(m);
    CommaCentsRoundTrip(m / 100, m % 100, m);
  }

  /** A magnitude that does not start with '-' reads as itself, and with a '-' in front as
      its negation. */
  lemma SignedFields(body: string, m: nat)
    requires body != [] && body[0] != '-' && ParseMagnitude(body) == Some(m)
    ensures ParseAmount(body) == Some(m)
    ensures ParseAmount("-" + body) == Some(-(m as int))
  {
    assert ("-" + body)[1..] == body;
  }

  /** Amounts read back from their printed form, to the cent. */
  lemma AmountRoundTrip(c: int)
    ensures ParseAmount(FormatAmount(c)) == Some(c)
  {
    var m: nat := if c < 0 then -c else c;
    MagnitudeRoundTrip(m);
    SignedFields(Magnitude(m), m);
  }

  lemma KindRoundTrip(k: Kind)
    ensures ParseKind(KindText(k)) == Some(k)
  {
  }

  /** The header line holds no line break. */
  lemma HeaderLinePlain()
    ensures '\n' !in HeaderLine
  {
    JoinFree(Header, ';', '\n');
  }

  /** The kind's text holds neither separator of the file. */
  lemma KindPlain(k: Kind)
    ensures ';' !in KindText(k) && '\n' !in KindText(k)
  {
  }

  /** Titles and category labels free of the file's separators. */
  predicate PlainText(cats: CategoryTable, tx: Transaction) {
    ';' !in tx.title && '\n' !in tx.title
    && ';' !in LabelOrOther(cats, tx.category) && '\n' !in LabelOrOther(cats, tx.category)
  }

  /** Fields free of `sep` and `nl`, joined with `sep`, hold no `nl` and cut back into the
      fields. */
  lemma JoinedFieldsSplitBack(r: seq<string>, sep: char, nl: char)
    requires |r| >= 1 && sep != nl
    requires forall k :: 0 <= k < |r| ==> sep !in r[k] && nl !in r[k]
    ensures nl !in Join(r, sep) && Split(Join(r, sep), sep) == r
  {
    JoinFree(r, sep, nl);
    SplitJoin(r, sep);
  }

  /** A transaction's line holds no line break and cuts back into its five fields. */
  lemma RowSplitsBack(cats: CategoryTable, tx: Transaction)
    requires PlainText(cats, tx)
    ensures '\n' !in RowLine(cats, tx) && Split(RowLine(cats, tx), ';') == Row(cats, tx)
  {
    var d, k, a := FormatDate(tx.date), KindText(tx.kind), FormatAmount(tx.amount);
    assert ';' !in d && '\n' !in d by {
      DatePlain(tx.date);
    }
    assert ';' !in k && '\n' !in k by {
      KindPlain(tx.kind);
    }
    assert ';' !in a && '\n' !in a by {
      AmountPlain(tx.amount);
    }
    FiveFieldsSplitBack(Row(cats, tx), d, tx.title, LabelOrOther(cats, tx.category), k, a);
  }

  /** Five fields free of ';' and '\n', joined with ';', hold no '\n' and cut back into the
      fields. */
  lemma FiveFieldsSplitBack(r: seq<string>, f0: string, f1: string, f2: string, f3: string, f4: string)
    requires r == [f0, f1, f2, f3, f4]
    requires ';' !in f0 && ';' !in f1 && ';' !in f2 && ';' !in f3 && ';' !in f4
    requires '\n' !in f0 && '\n' !in f1 && '\n' !in f2 && '\n' !in f3 && '\n' !in f4
    ensures '\n' !in Join(r, ';') && Split(Join(r, ';'), ';') == r
  {
    JoinedFieldsSplitBack(r, ';', '\n');
  }

  /** With titles and labels free of ';' and '\n', the file splits back into the header and
      one line per transaction, and each line into that transaction's five fields. */
  lemma ExportSplitsBack(cats: CategoryTable, filtered: seq<Transaction>)
    requires filtered != []
    requires forall tx :: tx in filtered ==> PlainText(cats, tx)
    ensures Split(ExportCsv(cats, filtered).value, '\n') == Lines(cats, filtered)
    ensures Lines(cats, filtered)[0] == Join(Header, ';')
    ensures forall i :: 0 <= i < |filtered| ==>
      Split(Lines(cats, filtered)[i + 1], ';') == Row(cats, filtered[i])
  {
    var ls := Lines(cats, filtered);
    var rows := RowLines(cats, filtered);
    assert |ls| == |filtered| + 1;
    HeaderLinePlain();
    forall i | 0 <= i < |filtered|
      ensures '\n' !in rows[i] && Split(rows[i], ';') == Row(cats, filtered[i])
    {
      assert filtered[i] in filtered;
      RowSplitsBack(cats, filtered[i]);
    }
    forall k | 0 <= k < |ls| ensures '\n' !in ls[k] {
      if k > 0 {
        assert ls[k] == rows[k - 1];
      }
    }
    SplitJoin(ls, '\n');
    forall i | 0 <= i < |filtered| ensures Split(ls[i + 1], ';') == Row(cats, filtered[i]) {
      assert ls[i + 1] == rows[i];
    }
  }
}
