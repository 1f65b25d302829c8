/** The records of the app (transactions, categories, chat messages, colour options) and the
    category map, a JavaScript object keyed by category key.

    A JavaScript object enumerates its string keys in insertion order, and assigning to an
    existing key keeps its place; the map is therefore an ordered list of entries with
    distinct keys, updated by `Put`. */
module Domain {
  import opened Text
  import opened Calendar

  datatype Kind = Income | Expense

  /** A row identifier as the store returns it: a number or a string. Strict equality
      (`!==`) never equates a number with a string. */
  datatype RowId = NumId(n: int) | StrId(s: string)

  /** A transaction; the amount is in integer cents. */
  datatype Transaction = Transaction(
    id: RowId, title: string, amount: int, kind: Kind, category: string, date: Date)

  /** A category; `labelText` is its `label` property. The app writes the icon under two
      property names: categories read back from the store carry `icon_name`, defaults and
      freshly saved ones carry `iconName`; an absent property is `None`. */
  datatype Category = Category(
    id: RowId, labelText: string, iconName: Option<string>, icon_name: Option<string>,
    color: string, bg: string, border: string, barColor: string, hex: string, kind: Kind)

  datatype ChatRole = User | Ai

  datatype ChatMessage = ChatMessage(role: ChatRole, text: string)

  datatype ColorOption = ColorOption(
    name: string, hex: string, tailwindText: string, tailwindBg: string,
    tailwindBorder: string, tailwindBar: string)

  datatype CategoryEntry = CategoryEntry(key: string, cat: Category)

  /** The category map in key-enumeration order. */
  type CategoryTable = seq<CategoryEntry>

  function Keys(t: CategoryTable): (ks: seq<string>)
    ensures |ks| == |t| && forall i :: 0 <= i < |t| ==> ks[i] == t[i].key
  {
    seq(|t|, i requires 0 <= i < |t| => t[i].key)
  }

  predicate DistinctKeys(t: CategoryTable) {
    forall i, j :: 0 <= i < j < |t| ==> t[i].key != t[j].key
  }

  /** `categories[k]`: the category stored under `k`, if any. */
  function Lookup(t: CategoryTable, k: string): (r: Option<Category>)
    ensures r.Some? <==> k in Keys(t)
    ensures r.Some? ==> exists i :: 0 <= i < |t| && t[i] == CategoryEntry(k, r.value)
    decreases |t|
  {
    if t == [] then None
    else if t[0].key == k then Some(t[0].cat)
    else
      var r := Lookup(t[1..], k);
      assert Keys(t) == [t[0].key] + Keys(t[1..]);
      assert r.Some? ==> exists i :: 0 <= i < |t[1..]| && t[1..][i] == CategoryEntry(k, r.value);
      r
  }

  /** `categories[k] = c`: overwrite in place when `k` is present, append otherwise. */
  function Put(t: CategoryTable, k: string, c: Category): (r: CategoryTable)
    decreases |t|
  {
    if t == [] then [CategoryEntry(k, c)]
    else if t[0].key == k then [CategoryEntry(k, c)] + t[1..]
    else [t[0]] + Put(t[1..], k, c)
  }

  /** `categories[k]?.label || 'Outros'`: the label, or "Outros" when the key is missing or
      its label is empty. */
  function LabelOrOther(t: CategoryTable, k: string): (r: string)
    ensures r != ""
    ensures Lookup(t, k).Some? && Lookup(t, k).value.labelText != "" ==> r == Lookup(t, k).value.labelText
    ensures Lookup(t, k).None? ==> r == "Outros"
  {
    match Lookup(t, k)
    case Some(c) => if c.labelText != "" then c.labelText else "Outros"
    case None => "Outros"
  }

  // ---------------------------------------------------------------------------------------
  // Lemmas

  /** After `Put`, the key reads the new category and every other key reads as before. */
  lemma {:induction false} PutLookup(t: CategoryTable, k: string, c: Category, k2: string)
    ensures Lookup(Put(t, k, c), k2) == if k2 == k then Some(c) else Lookup(t, k2)
    decreases |t|
  {
    if t != [] && t[0].key != k {
      PutLookup(t[1..], k, c, k2);
      assert ([t[0]] + Put(t[1..], k, c))[1..] == Put(t[1..], k, c);
    } else if t != [] {
      assert ([CategoryEntry(k, c)] + t[1..])[1..] == t[1..];
    }
  }

  /** `Put` keeps the key order: an existing key stays where it was, a new key goes last. */
  lemma {:induction false} PutKeys(t: CategoryTable, k: string, c: Category)
    ensures k in Keys(t) ==> Keys(Put(t, k, c)) == Keys(t)
    ensures k !in Keys(t) ==> Keys(Put(t, k, c)) == Keys(t) + [k]
    decreases |t|
  {
    if t != [] {
      var rest := t[1..];
      assert t == [t[0]] + rest;
      KeysCons(t[0], rest);
      if t[0].key != k {
        var p := Put(rest, k, c);
        PutKeys(rest, k, c);
        assert Put(t, k, c) == [t[0]] + p;
        KeysCons(t[0], p);
        assert k in Keys(t) <==> k in Keys(rest);
        if k !in Keys(rest) {
          assert [t[0].key] + (Keys(rest) + [k]) == ([t[0].key] + Keys(rest)) + [k];
        }
      } else {
        assert Put(t, k, c) == [CategoryEntry(k, c)] + rest;
        KeysCons(CategoryEntry(k, c), rest);
      }
    }
  }

  /** The keys of an entry followed by a table. */
  lemma KeysCons(e: CategoryEntry, t: CategoryTable)
    ensures Keys([e] + t) == [e.key] + Keys(t)
  {
  }

  /** `Put` keeps the keys distinct. */
  lemma PutDistinct(t: CategoryTable, k: string, c: Category)
    requires DistinctKeys(t)
    ensures DistinctKeys(Put(t, k, c))
  {
    PutKeys(t, k, c);
    var r := Put(t, k, c);
    assert Keys(r) == Keys(t) || Keys(r) == Keys(t) + [k];
    forall i, j | 0 <= i < j < |r| ensures r[i].key != r[j].key {
      assert Keys(r)[i] == r[i].key && Keys(r)[j] == r[j].key;
      if j == |t| {
        assert Keys(t)[i] == t[i].key;
      } else {
        assert Keys(t)[i] == t[i].key && Keys(t)[j] == t[j].key;
      }
    }
  }
}
