/** The dashboard state of a signed-in user and what each handler of the dashboard does to
    it, as functions from the state before to the state after. The calls to the store and to
    the assistant are not made here: their answers are parameters (`Outcome`, `ChatReply`,
    the AI draft), and the functions that build the requests say what would be sent. */
module LedgerStore {
  import opened Text
  import opened Calendar
  import opened Domain
  import opened Constants
  import opened FormText
  import opened LedgerView
  import opened StableSort

  /** The answer of a store call: the row it returned, or an error. */
  datatype Outcome<+T> = Ok(value: T) | Failed

  /** A row of the `categories` table as the store returns it; an absent or `null` property
      is `None`. */
  datatype CategoryRow = CategoryRow(
    id: RowId, labelText: string, icon_name: Option<string>, color: string, bg: string,
    border: string, bar_color: string, hex: string, kind: Kind, slug: Option<string>)

  /** The transaction form: `newTitle`, `newAmount`, `newType`, `newCategory`, `newDate`. */
  datatype TransactionForm = TransactionForm(
    title: string, amount: string, kind: Kind, category: string, date: string)

  /** The category editor: `editingCategoryId`, `customCatName`, `customCatIconName` (which
      can be `undefined`) and `customCatColor`. */
  datatype CategoryEditor = CategoryEditor(
    editingId: Option<string>, name: string, iconName: Option<string>, color: ColorOption)

  /** The row `handleAddTransaction` inserts; `amount` is `parseFloat(newAmount)`, `None` for
      a text that does not read as a number. */
  datatype InsertRequest = InsertRequest(
    userId: string, title: string, amount: Option<int>, kind: Kind, category: string, date: string)

  /** The row `handleSaveCategory` inserts. */
  datatype CategoryRequest = CategoryRequest(
    userId: string, labelText: string, icon_name: Option<string>, color: string, bg: string,
    border: string, bar_color: string, hex: string, kind: Kind, slug: string)

  /** What `smartParseTransaction` read from the user's sentence. A falsy property (an empty
      text, a zero or missing amount, a missing type) is represented as "" or `None`. */
  datatype Draft = Draft(
    title: string, amount: Option<int>, kind: Option<Kind>, category: string, date: string)

  /** One of the recent transactions sent to the assistant, with its category's label. */
  datatype ContextTx = ContextTx(title: string, amount: int, kind: Kind, category: string, date: Date)

  /** The arguments of `chatWithAssistant`. */
  datatype ChatRequest = ChatRequest(
    history: seq<ChatMessage>, message: string, balance: int, recent: seq<ContextTx>)

  /** The assistant's answer, or the exception it threw. */
  datatype ChatReply = Reply(text: string) | Threw

  datatype LedgerState = LedgerState(
    user: Option<string>,
    transactions: seq<Transaction>,
    categories: CategoryTable,
    form: TransactionForm,
    editor: CategoryEditor,
    aiInput: string, aiMode: bool, isAiLoading: bool,
    chatHistory: seq<ChatMessage>, chatInput: string, isChatLoading: bool,
    isModalOpen: bool, isCategoryManagerOpen: bool, isEditMode: bool)

  /** The assistant's greeting, character for character as App.tsx:76 writes it: the
      accented letters and the two emoji appear there garbled by a wrong encoding. */
  const Greeting: string :=
    "Ol\U{221A}\U{B0}! Sou o Rege, seu assistente financeiro. Como posso ajudar com suas finan\U{221A}\U{DF}as hoje? \U{F8FF}\U{FC}\U{A7}\U{F1}\U{F8FF}\U{FC}\U{ED}\U{221E}"

  /** The apology of App.tsx:406, with its garbled letters as written there. */
  const Apology: string := "Desculpe, tive um problema ao processar sua solicita\U{221A}\U{DF}\U{221A}\U{A3}o."

  // ---------------------------------------------------------------------------------------
  // Categories from rows

  /** A row id used as an object key: `String(id)`. */
  function IdKey(id: RowId): string {
    match id
    case NumId(n) => IntText(n)
    case StrId(s) => s
  }

  /** `row.slug || row.id`: the slug when it is a non-empty text, the id otherwise. */
  function RowKey(r: CategoryRow): string {
    if r.slug.Some? && r.slug.value != "" then r.slug.value else IdKey(r.id)
  }

  /** A fetched row as `fetchData` stores it: the icon under `icon_name`. */
  function FetchedCategory(r: CategoryRow): Category {
    Category(r.id, r.labelText, None, r.icon_name, r.color, r.bg, r.border, r.bar_color, r.hex, r.kind)
  }

  /** A freshly saved row as `handleSaveCategory` stores it: the icon under `iconName`. */
  function SavedCategory(r: CategoryRow): Category {
    Category(r.id, r.labelText, r.icon_name, None, r.color, r.bg, r.border, r.bar_color, r.hex, r.kind)
  }

  /** `{ ...t }` after `rows.forEach(c => catMap[c.slug || c.id] = ...)`. */
  function Overlay(t: CategoryTable, rows: seq<CategoryRow>): CategoryTable
    decreases |rows|
  {
    if rows == [] then t
    else
      var last := rows[|rows| - 1];
      Put(Overlay(t, rows[..|rows| - 1]), RowKey(last), FetchedCategory(last))
  }

  /** Row `i` is the last row stored under key `k`. */
  predicate LastRowAt(rows: seq<CategoryRow>, k: string, i: int) {
    0 <= i < |rows| && RowKey(rows[i]) == k && forall j :: i < j < |rows| ==> RowKey(rows[j]) != k
  }

  /** The table holds the keys `ks` first and in order, and no key twice. */
  predicate KeepsPrefix(t: CategoryTable, ks: seq<string>) {
    DistinctKeys(t) && |ks| <= |t| && Keys(t)[..|ks|] == ks
  }

  /** The category table keeps the default keys first; the form's default `food` and the
      display fallback `other` are then always present. */
  predicate KeepsDefaults(t: CategoryTable) {
    KeepsPrefix(t, DefaultKeys)
  }

  // ---------------------------------------------------------------------------------------
  // The initial state and the form reset

  /** The form as `resetForm` leaves it; `today` is the clock's UTC day as the text
      `new Date().toISOString().split('T')[0]`, that is `IsoDate` of that day. */
  function InitialForm(today: string): TransactionForm {
    TransactionForm("", "", Expense, "food", today)
  }

  /** `resetForm`. */
  function ResetForm(s: LedgerState, today: string): LedgerState {
    s.(form := InitialForm(today), aiInput := "", aiMode := true,
       isCategoryManagerOpen := false, isEditMode := false)
  }

  /** The editor as `openCategoryManager()` leaves it for a new category. */
  function BlankEditor(id: Option<string>): CategoryEditor {
    CategoryEditor(id, "", Some("Tag"), ColorPalette()[0])
  }

  /** The state of the `useState` hooks when the dashboard mounts. */
  function Initial(user: Option<string>, today: string): LedgerState {
    LedgerState(user, [], DefaultCategories(), InitialForm(today), BlankEditor(None),
      "", true, false, [ChatMessage(Ai, Greeting)], "", false, false, false, false)
  }

  // ---------------------------------------------------------------------------------------
  // fetchData

  /** `fetchData` with the two answers of the store. A non-empty category answer replaces
      the table by the defaults overlaid with the rows (whatever was saved before); an empty
      or failed one leaves it. A transaction answer replaces the list. */
  function AfterFetch(s: LedgerState, cats: Outcome<seq<CategoryRow>>, txs: Outcome<seq<Transaction>>): LedgerState {
    if s.user.None? then s
    else
      var s1 := if cats.Ok? && |cats.value| > 0
        then s.(categories := Overlay(DefaultCategories(), cats.value)) else s;
      if txs.Ok? then s1.(transactions := txs.value) else s1
  }

  // ---------------------------------------------------------------------------------------
  // handleAddTransaction and handleDelete

  /** `newTitle && newAmount && user`. */
  predicate CanAdd(s: LedgerState) {
    s.form.title != "" && s.form.amount != "" && s.user.Some?
  }

  function AddRequest(s: LedgerState): InsertRequest
    requires CanAdd(s)
  {
    InsertRequest(s.user.value, s.form.title, ParseNumberText(s.form.amount), s.form.kind,
      s.form.category, s.form.date)
  }

  /** `handleAddTransaction` with the store's answer: the returned row goes first, the form
      is reset and the modal closed. */
  function AfterAdd(s: LedgerState, out: Outcome<Transaction>, today: string): LedgerState {
    if !CanAdd(s) then s
    else match out
      case Ok(row) => ResetForm(s.(transactions := [row] + s.transactions, isModalOpen := false), today)
      case Failed => s
  }

  /** `transactions.filter(t => t.id !== id)`. */
  function RemoveId(ts: seq<Transaction>, id: RowId): (r: seq<Transaction>)
    ensures |r| <= |ts|
    decreases |ts|
  {
    if ts == [] then []
    else (if ts[0].id != id then [ts[0]] else []) + RemoveId(ts[1..], id)
  }

  /** `handleDelete` with whether the store reported an error. */
  function AfterDelete(s: LedgerState, id: RowId, ok: bool): LedgerState {
    if ok then s.(transactions := RemoveId(s.transactions, id)) else s
  }

  // ---------------------------------------------------------------------------------------
  // openCategoryManager and handleSaveCategory

  /** `openCategoryManager(id)`: an existing category fills the editor with its label, its
      `iconName` and the palette swatch of its hex; anything else gives a blank editor. */
  function AfterOpenEditor(s: LedgerState, id: Option<string>): LedgerState {
    var e :=
      if id.Some? && id.value != "" && Lookup(s.categories, id.value).Some? then
        var c := Lookup(s.categories, id.value).value;
        CategoryEditor(id, c.labelText, c.iconName, FindByHex(c.hex))
      else BlankEditor(id);
    s.(editor := e, isCategoryManagerOpen := true)
  }

  /** `customCatName && user`. */
  predicate CanSave(s: LedgerState) {
    s.editor.name != "" && s.user.Some?
  }

  /** The row `handleSaveCategory` inserts: the editor's name, icon and swatch, the
      transaction form's type, and the slug of the name. */
  function SaveRequest(s: LedgerState): CategoryRequest
    requires CanSave(s)
  {
    var c := s.editor.color;
    CategoryRequest(s.user.value, s.editor.name, s.editor.iconName, c.tailwindText, c.tailwindBg,
      c.tailwindBorder, c.tailwindBar, c.hex, s.form.kind, Slug(s.editor.name))
  }

  /** `handleSaveCategory` with the store's answer: the row is stored under its key, the key
      becomes the form's category and the manager closes. */
  function AfterSave(s: LedgerState, out: Outcome<CategoryRow>): LedgerState {
    if !CanSave(s) then s
    else match out
      case Ok(row) =>
        var key := RowKey(row);
        s.(categories := Put(s.categories, key, SavedCategory(row)),
           form := s.form.(category := key), isCategoryManagerOpen := false)
      case Failed => s
  }

  // ---------------------------------------------------------------------------------------
  // handleAiSmartAdd

  /** `aiInput.trim()` is not empty. */
  predicate CanSmartAdd(s: LedgerState) {
    Trim(s.aiInput) != ""
  }

  /** Each truthy property of the draft overwrites its form field; the amount is written as
      `amount.toString()`. */
  function MergeDraft(f: TransactionForm, d: Draft): TransactionForm {
    TransactionForm(
      if d.title != "" then d.title else f.title,
      if d.amount.Some? && d.amount.value != 0 then AmountText(d.amount.value) else f.amount,
      if d.kind.Some? then d.kind.value else f.kind,
      if d.category != "" then d.category else f.category,
      if d.date != "" then d.date else f.date)
  }

  /** `handleAiSmartAdd` with the draft read (`None` for `null`): a draft is merged into the
      form and switches the AI panel off; loading ends in every case. */
  function AfterSmartAdd(s: LedgerState, draft: Option<Draft>): LedgerState {
    if !CanSmartAdd(s) then s
    else match draft
      case Some(d) => s.(form := MergeDraft(s.form, d), aiMode := false, isAiLoading := false)
      case None => s.(isAiLoading := false)
  }

  // ---------------------------------------------------------------------------------------
  // handleSendChatMessage

  /** `chatInput.trim()` is not empty and no answer is awaited. */
  predicate CanChat(s: LedgerState) {
    Trim(s.chatInput) != "" && !s.isChatLoading
  }

  /** `transactions.slice(0, 10)` with each category key replaced by its label. */
  function Recent(cats: CategoryTable, ts: seq<Transaction>): (r: seq<ContextTx>)
    ensures |r| == if |ts| < 10 then |ts| else 10
  {
    var n := if |ts| < 10 then |ts| else 10;
    seq(n, i requires 0 <= i < n =>
      ContextTx(ts[i].title, ts[i].amount, ts[i].kind, LabelOrOther(cats, ts[i].category), ts[i].date))
  }

  /** The arguments of `chatWithAssistant`: the history as it was before the user's message
      (the closure's `chatHistory`), the trimmed message, the balance and the recent list. */
  function ChatRequestFor(s: LedgerState): ChatRequest {
    ChatRequest(s.chatHistory, Trim(s.chatInput), TotalBalance(s.transactions),
      Recent(s.categories, s.transactions))
  }

  /** The text of the assistant's message: its answer, or the apology when it threw. */
  function AnswerText(reply: ChatReply): string {
    match reply
    case Reply(t) => t
    case Threw => Apology
  }

  /** `handleSendChatMessage` with the assistant's reply. */
  function AfterChat(s: LedgerState, reply: ChatReply): LedgerState {
    if !CanChat(s) then s
    else
      s.(chatInput := "", isChatLoading := false,
         chatHistory := s.chatHistory + [ChatMessage(User, Trim(s.chatInput))] + [ChatMessage(Ai, AnswerText(reply))])
  }

  // =======================================================================================
  // Lemmas: categories

  /** The overlay reads, under a key, the last row stored under it. */
  lemma {:induction false} OverlayLast(t: CategoryTable, rows: seq<CategoryRow>, k: string, i: int)
    requires LastRowAt(rows, k, i)
    ensures Lookup(Overlay(t, rows), k) == Some(FetchedCategory(rows[i]))
    decreases |rows|
  {
    var n := |rows| - 1;
    var init := rows[..n];
    var o := Overlay(t, init);
    var last := rows[n];
    PutLookup(o, RowKey(last), FetchedCategory(last), k);
    if i < n {
      assert init[i] == rows[i];
      assert LastRowAt(init, k, i);
      OverlayLast(t, init, k, i);
    }
  }

  /** A key that no row is stored under reads as in the table overlaid. */
  lemma {:induction false} OverlayUntouched(t: CategoryTable, rows: seq<CategoryRow>, k: string)
    requires forall i :: 0 <= i < |rows| ==> RowKey(rows[i]) != k
    ensures Lookup(Overlay(t, rows), k) == Lookup(t, k)
    decreases |rows|
  {
    if rows != [] {
      var n := |rows| - 1;
      var init := rows[..n];
      var o := Overlay(t, init);
      var c := FetchedCategory(rows[n]);
      assert Overlay(t, rows) == Put(o, RowKey(rows[n]), c);
      assert RowKey(rows[n]) != k;
      PutLookup(o, RowKey(rows[n]), c, k);
      assert forall i :: 0 <= i < |init| ==> RowKey(init[i]) != k by {
        forall i | 0 <= i < |init| ensures RowKey(init[i]) != k {
          assert init[i] == rows[i];
        }
      }
      OverlayUntouched(t, init, k);
    }
  }

  /** `Put` keeps a prefix of keys, whatever key it writes. */
  lemma PutKeepsPrefix(t: CategoryTable, ks: seq<string>, k: string, c: Category)
    requires KeepsPrefix(t, ks)
    ensures KeepsPrefix(Put(t, k, c), ks)
  {
    PutKeys(t, k, c);
    PutDistinct(t, k, c);
    if k !in Keys(t) {
      assert (Keys(t) + [k])[..|ks|] == Keys(t)[..|ks|];
    }
  }

  /** Overlaying rows keeps a prefix of keys. */
  lemma {:induction false} OverlayKeepsPrefix(t: CategoryTable, ks: seq<string>, rows: seq<CategoryRow>)
    requires KeepsPrefix(t, ks)
    ensures KeepsPrefix(Overlay(t, rows), ks)
    decreases |rows|
  {
    if rows != [] {
      var n := |rows| - 1;
      OverlayKeepsPrefix(t, ks, rows[..n]);
      PutKeepsPrefix(Overlay(t, rows[..n]), ks, RowKey(rows[n]), FetchedCategory(rows[n]));
    }
  }

  /** Every key of a kept prefix is found. */
  lemma PrefixFound(t: CategoryTable, ks: seq<string>, j: int)
    requires KeepsPrefix(t, ks) && 0 <= j < |ks|
    ensures Lookup(t, ks[j]).Some?
  {
    assert Keys(t)[..|ks|][j] == ks[j];
    assert Keys(t)[j] == ks[j];
  }

  /** The default table keeps the default keys. */
  lemma DefaultsKeepDefaults()
    ensures KeepsDefaults(DefaultCategories())
  {
    DefaultKeysDistinct();
    DefaultKeysAre();
    var t := DefaultCategories();
    assert Keys(t)[..|t|] == Keys(t);
  }

  /** While the table keeps the defaults, `food` and `other` are found in it and every
      transaction has a category to display: its own or `other`. */
  lemma DisplayAlwaysFound(t: CategoryTable, key: string)
    requires KeepsDefaults(t)
    ensures Lookup(t, "food").Some? && Lookup(t, "other").Some?
    ensures DisplayCategory(t, key).Some?
  {
    assert DefaultKeys[3] == "food" && DefaultKeys[9] == "other";
    PrefixFound(t, DefaultKeys, 3);
    PrefixFound(t, DefaultKeys, 9);
  }

  /** Fetched categories carry their icon under `icon_name`, which the list does not read:
      every fetched category is drawn with the `Tag` icon, whatever its row says. */
  lemma FetchedIconShowsTag(r: CategoryRow)
    ensures FetchedCategory(r).iconName.None?
    ensures IconFor(FetchedCategory(r)) == "Tag"
  {
  }

  /** A saved category is drawn with its row's icon when the library knows it. */
  lemma SavedIconShows(r: CategoryRow)
    requires r.icon_name.Some? && r.icon_name.value in IconLibrary()
    ensures IconFor(SavedCategory(r)) == r.icon_name.value
  {
  }

  // =======================================================================================
  // Lemmas: transactions

  /** Removing by id distributes over concatenation, so the kept rows stay in order. */
  lemma {:induction false} RemoveIdAppend(a: seq<Transaction>, b: seq<Transaction>, id: RowId)
    ensures RemoveId(a + b, id) == RemoveId(a, id) + RemoveId(b, id)
    decreases |a|
  {
    if a != [] {
      var h := if a[0].id != id then [a[0]] else [];
      assert (a + b)[0] == a[0];
      assert (a + b)[1..] == a[1..] + b;
      assert RemoveId(a + b, id) == h + RemoveId(a[1..] + b, id);
      RemoveIdAppend(a[1..], b, id);
      assert RemoveId(a, id) == h + RemoveId(a[1..], id);
      assert h + (RemoveId(a[1..], id) + RemoveId(b, id)) == (h + RemoveId(a[1..], id)) + RemoveId(b, id);
    } else {
      assert a + b == b;
    }
  }

  /** Removing by id keeps exactly the rows with another id. */
  lemma {:induction false} RemoveIdMembers(ts: seq<Transaction>, id: RowId)
    ensures forall t :: t in RemoveId(ts, id) <==> t in ts && t.id != id
    decreases |ts|
  {
    if ts != [] {
      RemoveIdMembers(ts[1..], id);
      assert ts == [ts[0]] + ts[1..];
    }
  }

  /** Removing an id no row has changes nothing. */
  lemma {:induction false} RemoveAbsentId(ts: seq<Transaction>, id: RowId)
    requires forall i :: 0 <= i < |ts| ==> ts[i].id != id
    ensures RemoveId(ts, id) == ts
    decreases |ts|
  {
    if ts != [] {
      RemoveAbsentId(ts[1..], id);
    }
  }

  /** Removing twice is removing once. */
  lemma RemoveIdIdempotent(ts: seq<Transaction>, id: RowId)
    ensures RemoveId(RemoveId(ts, id), id) == RemoveId(ts, id)
  {
    var r := RemoveId(ts, id);
    RemoveIdMembers(ts, id);
    assert forall i :: 0 <= i < |r| ==> r[i].id != id by {
      forall i | 0 <= i < |r| ensures r[i].id != id {
        assert r[i] in r;
      }
    }
    RemoveAbsentId(r, id);
  }

  /** Deleting a freshly added row whose id is new gives back the list before the add. */
  lemma DeleteUndoesAdd(ts: seq<Transaction>, row: Transaction)
    requires forall i :: 0 <= i < |ts| ==> ts[i].id != row.id
    ensures RemoveId([row] + ts, row.id) == ts
  {
    RemoveIdAppend([row], ts, row.id);
    RemoveAbsentId(ts, row.id);
    assert RemoveId([row], row.id) == [];
  }

  /** An added row moves the balance by its amount: up for income, down for expense. */
  lemma AddShiftsBalance(ts: seq<Transaction>, row: Transaction)
    ensures TotalBalance([row] + ts) ==
      TotalBalance(ts) + (if row.kind == Income then row.amount else -row.amount)
  {
    TotalBalanceIsIncomeMinusExpense([row] + ts);
    TotalBalanceIsIncomeMinusExpense(ts);
    assert ([row] + ts)[1..] == ts;
  }

  // =======================================================================================
  // Lemmas: the handlers

  /** A successful add puts the returned row first, keeps the others in order, and resets
      the form to `food`, an empty title and amount and today's date. */
  lemma AddPrepends(s: LedgerState, row: Transaction, utcToday: Date)
    requires ValidDate(utcToday) && CanAdd(s)
    ensures AfterAdd(s, Ok(row), IsoDate(utcToday)).transactions[0] == row
    ensures AfterAdd(s, Ok(row), IsoDate(utcToday)).transactions[1..] == s.transactions
    ensures AfterAdd(s, Ok(row), IsoDate(utcToday)).form.category == "food"
    ensures AfterAdd(s, Ok(row), IsoDate(utcToday)).form.title == "" && AfterAdd(s, Ok(row), IsoDate(utcToday)).form.amount == ""
    ensures ParseIsoDate(AfterAdd(s, Ok(row), IsoDate(utcToday)).form.date) == Some(utcToday)
    ensures !AfterAdd(s, Ok(row), IsoDate(utcToday)).isModalOpen
  {
    IsoDateRoundTrip(utcToday);
  }

  /** A missing title, amount or user, or a store error, leaves the state as it was. */
  lemma AddNoOp(s: LedgerState, out: Outcome<Transaction>, today: string)
    requires !CanAdd(s) || out.Failed?
    ensures AfterAdd(s, out, today) == s
  {
  }

  /** Deleting keeps exactly the rows with another id, in order, and nothing else changes. */
  lemma DeleteKeepsOthers(s: LedgerState, id: RowId)
    ensures forall t :: t in AfterDelete(s, id, true).transactions <==> t in s.transactions && t.id != id
    ensures AfterDelete(s, id, true).categories == s.categories
    ensures AfterDelete(s, id, false) == s
  {
    RemoveIdMembers(s.transactions, id);
  }

  /** Adding a row with a new id and then deleting it restores the list. */
  lemma AddThenDelete(s: LedgerState, row: Transaction, today: string)
    requires CanAdd(s)
    requires forall i :: 0 <= i < |s.transactions| ==> s.transactions[i].id != row.id
    ensures AfterDelete(AfterAdd(s, Ok(row), today), row.id, true).transactions == s.transactions
  {
    DeleteUndoesAdd(s.transactions, row);
  }

  /** An empty or failed category fetch leaves the table as it was. */
  lemma FetchWithoutRows(s: LedgerState, txs: Outcome<seq<Transaction>>)
    ensures AfterFetch(s, Ok([]), txs).categories == s.categories
    ensures AfterFetch(s, Failed, txs).categories == s.categories
  {
  }

  /** After a fetch with rows, a key that no row uses reads as its default. */
  lemma FetchUntouchedKey(s: LedgerState, rows: seq<CategoryRow>, txs: Outcome<seq<Transaction>>, k: string)
    requires s.user.Some? && rows != []
    requires forall i :: 0 <= i < |rows| ==> RowKey(rows[i]) != k
    ensures Lookup(AfterFetch(s, Ok(rows), txs).categories, k) == Lookup(DefaultCategories(), k)
  {
    OverlayUntouched(DefaultCategories(), rows, k);
  }

  /** After a fetch, a key reads as the last row stored under it. */
  lemma FetchLastRow(s: LedgerState, rows: seq<CategoryRow>, txs: Outcome<seq<Transaction>>, k: string, i: int)
    requires s.user.Some? && LastRowAt(rows, k, i)
    ensures Lookup(AfterFetch(s, Ok(rows), txs).categories, k) == Some(FetchedCategory(rows[i]))
  {
    OverlayLast(DefaultCategories(), rows, k, i);
  }

  /** A fetch replaces the list by the store's answer, and without a user does nothing. */
  lemma FetchTransactions(s: LedgerState, cats: Outcome<seq<CategoryRow>>, txs: seq<Transaction>)
    ensures s.user.Some? ==> AfterFetch(s, cats, Ok(txs)).transactions == txs
    ensures s.user.Some? ==> AfterFetch(s, cats, Failed).transactions == s.transactions
    ensures s.user.None? ==> AfterFetch(s, cats, Ok(txs)) == s
  {
  }

  /** A successful save stores the row under its key, leaves every other key as it was,
      adds at most that one key, and selects it in the form. */
  lemma SaveStoresOneKey(s: LedgerState, row: CategoryRow, k: string)
    requires CanSave(s)
    ensures Lookup(AfterSave(s, Ok(row)).categories, RowKey(row)) == Some(SavedCategory(row))
    ensures k != RowKey(row) ==> Lookup(AfterSave(s, Ok(row)).categories, k) == Lookup(s.categories, k)
    ensures Keys(AfterSave(s, Ok(row)).categories) == Keys(s.categories) ||
      Keys(AfterSave(s, Ok(row)).categories) == Keys(s.categories) + [RowKey(row)]
    ensures AfterSave(s, Ok(row)).form.category == RowKey(row)
    ensures !AfterSave(s, Ok(row)).isCategoryManagerOpen
  {
    PutLookup(s.categories, RowKey(row), SavedCategory(row), RowKey(row));
    PutLookup(s.categories, RowKey(row), SavedCategory(row), k);
    PutKeys(s.categories, RowKey(row), SavedCategory(row));
  }

  /** When the store echoes the slug it was sent, the new key is the slug of the name: the
      name lower-cased with each run of whitespace made one '_'. */
  lemma SaveKeyIsSlug(s: LedgerState, row: CategoryRow)
    requires CanSave(s) && row.slug == Some(SaveRequest(s).slug)
    ensures AfterSave(s, Ok(row)).form.category == Slug(s.editor.name)
    ensures NoSpace(AfterSave(s, Ok(row)).form.category) && NoUpper(AfterSave(s, Ok(row)).form.category)
  {
    SlugShape(s.editor.name);
  }

  /** Opening the editor on a stored category fills it from the category; the swatch is the
      palette's one with that hex, or the first swatch. A fetched category has no `iconName`,
      so its editor shows no icon. */
  lemma OpenEditorFills(s: LedgerState, id: string)
    requires id != "" && Lookup(s.categories, id).Some?
    ensures AfterOpenEditor(s, Some(id)).editor.name == Lookup(s.categories, id).value.labelText
    ensures AfterOpenEditor(s, Some(id)).editor.iconName == Lookup(s.categories, id).value.iconName
    ensures forall i :: 0 <= i < |ColorPalette()| && ColorPalette()[i].hex == Lookup(s.categories, id).value.hex ==>
      AfterOpenEditor(s, Some(id)).editor.color == ColorPalette()[i]
    ensures AfterOpenEditor(s, Some(id)).isCategoryManagerOpen
  {
    forall i | 0 <= i < |ColorPalette()| && ColorPalette()[i].hex == Lookup(s.categories, id).value.hex
      ensures AfterOpenEditor(s, Some(id)).editor.color == ColorPalette()[i]
    {
      FindByHexUnique(i);
    }
  }

  /** A merge overwrites exactly the truthy fields of the draft. */
  lemma MergeDraftFields(f: TransactionForm, d: Draft)
    ensures MergeDraft(f, d).title == (if d.title != "" then d.title else f.title)
    ensures d.amount.Some? && d.amount.value != 0 ==>
      ParseNumberText(MergeDraft(f, d).amount) == d.amount
    ensures d.amount.None? || d.amount.value == 0 ==> MergeDraft(f, d).amount == f.amount
    ensures f.title != "" ==> MergeDraft(f, d).title != ""
    ensures f.amount != "" ==> MergeDraft(f, d).amount != ""
    ensures f.category != "" ==> MergeDraft(f, d).category != ""
    ensures f.date != "" ==> MergeDraft(f, d).date != ""
  {
    if d.amount.Some? && d.amount.value != 0 {
      AmountTextRoundTrip(d.amount.value);
    }
  }

  /** Merging the same draft twice is merging it once. */
  lemma MergeDraftIdempotent(f: TransactionForm, d: Draft)
    ensures MergeDraft(MergeDraft(f, d), d) == MergeDraft(f, d)
  {
  }

  /** A draft with nothing truthy leaves the form as it was. */
  lemma MergeEmptyDraft(f: TransactionForm)
    ensures MergeDraft(f, Draft("", None, None, "", "")) == f
  {
  }

  /** After a smart add with a non-zero amount, adding the transaction sends that amount. */
  lemma SmartAddThenAdd(s: LedgerState, d: Draft)
    requires CanSmartAdd(s) && s.user.Some? && d.amount.Some? && d.amount.value != 0
    requires d.title != "" || s.form.title != ""
    ensures CanAdd(AfterSmartAdd(s, Some(d)))
    ensures AddRequest(AfterSmartAdd(s, Some(d))).amount == d.amount
  {
    MergeDraftFields(s.form, d);
    AmountTextRoundTrip(d.amount.value);
  }

  /** A smart add always ends loading; only a draft switches the AI panel off; a blank
      input does nothing. */
  lemma SmartAddEnds(s: LedgerState, draft: Option<Draft>)
    ensures CanSmartAdd(s) ==> !AfterSmartAdd(s, draft).isAiLoading
    ensures CanSmartAdd(s) ==> (AfterSmartAdd(s, draft).aiMode <==> draft.None? && s.aiMode)
    ensures !CanSmartAdd(s) ==> AfterSmartAdd(s, draft) == s
    ensures AfterSmartAdd(s, draft).transactions == s.transactions
  {
  }

  /** Sending a message appends exactly two messages: the user's trimmed text, then the
      assistant's answer or the apology; the input is cleared and loading ends. */
  lemma ChatAppendsTwo(s: LedgerState, reply: ChatReply)
    requires CanChat(s)
    ensures |AfterChat(s, reply).chatHistory| == |s.chatHistory| + 2
    ensures AfterChat(s, reply).chatHistory[..|s.chatHistory|] == s.chatHistory
    ensures AfterChat(s, reply).chatHistory[|s.chatHistory|] == ChatMessage(User, Trim(s.chatInput))
    ensures AfterChat(s, reply).chatHistory[|s.chatHistory| + 1].role == Ai
    ensures reply.Threw? ==> AfterChat(s, reply).chatHistory[|s.chatHistory| + 1].text == Apology
    ensures reply.Reply? ==> AfterChat(s, reply).chatHistory[|s.chatHistory| + 1].text == reply.text
    ensures AfterChat(s, reply).chatInput == "" && !AfterChat(s, reply).isChatLoading
  {
  }

  /** A blank message, or one sent while an answer is awaited, changes nothing. */
  lemma ChatGuard(s: LedgerState, reply: ChatReply)
    requires !CanChat(s)
    ensures AfterChat(s, reply) == s
  {
  }

  /** The assistant sees the history without the new message, the balance of all
      transactions, and the first ten transactions (all of them when there are fewer), each
      with its category's label. */
  lemma ChatContext(s: LedgerState)
    ensures ChatRequestFor(s).history == s.chatHistory
    ensures ChatRequestFor(s).message == Trim(s.chatInput)
    ensures ChatRequestFor(s).balance == SumBy(s.transactions, IncomeAmount) - SumBy(s.transactions, ExpenseAmount)
    ensures |ChatRequestFor(s).recent| == if |s.transactions| < 10 then |s.transactions| else 10
    ensures forall i :: 0 <= i < |ChatRequestFor(s).recent| ==>
      Listed(s.categories, s.transactions[i], ChatRequestFor(s).recent[i])
  {
    TotalBalanceIsIncomeMinusExpense(s.transactions);
    RecentFields(s.categories, s.transactions);
  }

  /** `{ title, amount, type, category: categories[t.category]?.label || 'Outros', date }`. */
  predicate Listed(cats: CategoryTable, t: Transaction, c: ContextTx) {
    c.title == t.title && c.amount == t.amount && c.kind == t.kind && c.date == t.date
    && c.category == LabelOrOther(cats, t.category) && c.category != ""
  }

  /** The recent list is `slice(0, 10)`: the first ten transactions, or all when there are
      fewer, each with its fields and its category's label, never empty. */
  lemma RecentFields(cats: CategoryTable, ts: seq<Transaction>)
    ensures |Recent(cats, ts)| == if |ts| < 10 then |ts| else 10
    ensures forall i :: 0 <= i < |Recent(cats, ts)| ==> Listed(cats, ts[i], Recent(cats, ts)[i])
  {
    var r := Recent(cats, ts);
    forall i | 0 <= i < |r|
      ensures Listed(cats, ts[i], r[i])
    {
      assert r[i] == ContextTx(ts[i].title, ts[i].amount, ts[i].kind, LabelOrOther(cats, ts[i].category), ts[i].date);
    }
  }

  /** A fetch keeps the default keys in the category table. */
  lemma FetchKeepsDefaults(s: LedgerState, cats: Outcome<seq<CategoryRow>>, txs: Outcome<seq<Transaction>>)
    requires KeepsDefaults(s.categories)
    ensures KeepsDefaults(AfterFetch(s, cats, txs).categories)
  {
    if s.user.Some? && cats.Ok? && |cats.value| > 0 {
      DefaultsKeepDefaults();
      OverlayKeepsPrefix(DefaultCategories(), DefaultKeys, cats.value);
    }
  }

  /** A save keeps the default keys in the category table. */
  lemma SaveKeepsDefaults(s: LedgerState, row: Outcome<CategoryRow>)
    requires KeepsDefaults(s.categories)
    ensures KeepsDefaults(AfterSave(s, row).categories)
  {
    if CanSave(s) && row.Ok? {
      PutKeepsPrefix(s.categories, DefaultKeys, RowKey(row.value), SavedCategory(row.value));
    }
  }

  // =======================================================================================
  // Lemmas: what each handler leaves alone

  /** An add changes only the list, the modal and what `resetForm` resets. */
  lemma AddFrame(s: LedgerState, out: Outcome<Transaction>, today: string)
    ensures AfterAdd(s, out, today).(transactions := s.transactions, isModalOpen := s.isModalOpen,
      form := s.form, aiInput := s.aiInput, aiMode := s.aiMode,
      isCategoryManagerOpen := s.isCategoryManagerOpen, isEditMode := s.isEditMode) == s
  {
  }

  /** A delete changes only the list. */
  lemma DeleteFrame(s: LedgerState, id: RowId, ok: bool)
    ensures AfterDelete(s, id, ok).(transactions := s.transactions) == s
  {
  }

  /** Opening the manager changes only the editor and the manager's visibility. */
  lemma OpenEditorFrame(s: LedgerState, id: Option<string>)
    ensures AfterOpenEditor(s, id).(editor := s.editor, isCategoryManagerOpen := s.isCategoryManagerOpen) == s
  {
  }

  /** A save changes only the table, the form and the manager's visibility. */
  lemma SaveFrame(s: LedgerState, out: Outcome<CategoryRow>)
    ensures AfterSave(s, out).(categories := s.categories, form := s.form,
      isCategoryManagerOpen := s.isCategoryManagerOpen) == s
  {
  }

  /** A smart add changes only the form, the AI panel switch and its loading flag. */
  lemma SmartAddFrame(s: LedgerState, draft: Option<Draft>)
    ensures AfterSmartAdd(s, draft).(form := s.form, aiMode := s.aiMode, isAiLoading := s.isAiLoading) == s
  {
    var r := AfterSmartAdd(s, draft);
    if CanSmartAdd(s) && draft.Some? {
      assert r == s.(form := MergeDraft(s.form, draft.value), aiMode := false, isAiLoading := false);
    } else if CanSmartAdd(s) {
      assert r == s.(isAiLoading := false);
    }
  }

  /** Sending a message changes only the chat. */
  lemma ChatFrame(s: LedgerState, reply: ChatReply)
    ensures AfterChat(s, reply).(chatHistory := s.chatHistory, chatInput := s.chatInput,
      isChatLoading := s.isChatLoading) == s
  {
  }
}
