/** The dashboard as an object whose fields are its `useState` hooks. Each handler is a
    method that updates the fields as the handler does once the store's or the assistant's
    answer has arrived; the answer is a parameter and the request the handler would send is
    returned. Each method's new state is the corresponding `After…` function of the old one. */
module Dashboard {
  import opened Text
  import opened Calendar
  import opened Domain
  import opened Constants
  import opened LedgerStore
  import opened LedgerView

  /** `catData.forEach(c => catMap[c.slug || c.id] = ...)` on a copy of `base`. */
  method WriteRows(base: CategoryTable, rows: seq<CategoryRow>) returns (catMap: CategoryTable)
    ensures catMap == Overlay(base, rows)
  {
    catMap := base;
    var i := 0;
    while i < |rows|
      invariant 0 <= i <= |rows|
      invariant catMap == Overlay(base, rows[..i])
    {
      assert rows[..i + 1][..i] == rows[..i];
      catMap := Put(catMap, RowKey(rows[i]), FetchedCategory(rows[i]));
      i := i + 1;
    }
    assert rows[..i] == rows;
  }

  class Ledger {
    var user: Option<string>
    var transactions: seq<Transaction>
    var categories: CategoryTable
    var form: TransactionForm
    var editor: CategoryEditor
    var aiInput: string
    var aiMode: bool
    var isAiLoading: bool
    var chatHistory: seq<ChatMessage>
    var chatInput: string
    var isChatLoading: bool
    var isModalOpen: bool
    var isCategoryManagerOpen: bool
    var isEditMode: bool

    /** The fields as one value. */
    function State(): LedgerState
      reads this
    {
      LedgerState(user, transactions, categories, form, editor, aiInput, aiMode, isAiLoading,
        chatHistory, chatInput, isChatLoading, isModalOpen, isCategoryManagerOpen, isEditMode)
    }

    /** The dashboard as it mounts for `user`; `today` is the clock's UTC day as text. */
    constructor (user: Option<string>, today: string)
      ensures State() == Initial(user, today)
    {
      this.user := user;
      transactions := [];
      categories := DefaultCategories();
      form := InitialForm(today);
      editor := BlankEditor(None);
      aiInput, aiMode, isAiLoading := "", true, false;
      chatHistory, chatInput, isChatLoading := [ChatMessage(Ai, Greeting)], "", false;
      isModalOpen, isCategoryManagerOpen, isEditMode := false, false, false;
    }

    /** `fetchData` with the store's two answers: the rows are written one by one over a
        copy of the defaults. */
    method FetchData(cats: Outcome<seq<CategoryRow>>, txs: Outcome<seq<Transaction>>)
      modifies this`categories, this`transactions
      ensures categories == AfterFetch(old(State()), cats, txs).categories
      ensures transactions == AfterFetch(old(State()), cats, txs).transactions
    {
      if user.None? {
        return;
      }
      if cats.Ok? && |cats.value| > 0 {
        categories := WriteRows(DefaultCategories(), cats.value);
      }
      if txs.Ok? {
        transactions := txs.value;
      }
    }

    /** `handleAddTransaction` with the store's answer to the insert it returns. */
    method AddTransaction(out: Outcome<Transaction>, today: string) returns (request: Option<InsertRequest>)
      modifies this`transactions, this`isModalOpen, this`form, this`aiInput, this`aiMode,
        this`isCategoryManagerOpen, this`isEditMode
      ensures request == if CanAdd(old(State())) then Some(AddRequest(old(State()))) else None
      ensures transactions == AfterAdd(old(State()), out, today).transactions
      ensures isModalOpen == AfterAdd(old(State()), out, today).isModalOpen
      ensures form == AfterAdd(old(State()), out, today).form
      ensures aiInput == AfterAdd(old(State()), out, today).aiInput
      ensures aiMode == AfterAdd(old(State()), out, today).aiMode
      ensures isCategoryManagerOpen == AfterAdd(old(State()), out, today).isCategoryManagerOpen
      ensures isEditMode == AfterAdd(old(State()), out, today).isEditMode
    {
      if !CanAdd(State()) {
        return None;
      }
      request := Some(AddRequest(State()));
      if out.Ok? {
        transactions := [out.value] + transactions;
        ResetForm(today);
        isModalOpen := false;
      }
    }

    /** `resetForm`. */
    method ResetForm(today: string)
      modifies this`form, this`aiInput, this`aiMode, this`isCategoryManagerOpen, this`isEditMode
      ensures form == LedgerStore.ResetForm(old(State()), today).form
      ensures aiInput == LedgerStore.ResetForm(old(State()), today).aiInput
      ensures aiMode == LedgerStore.ResetForm(old(State()), today).aiMode
      ensures isCategoryManagerOpen == LedgerStore.ResetForm(old(State()), today).isCategoryManagerOpen
      ensures isEditMode == LedgerStore.ResetForm(old(State()), today).isEditMode
    {
      form := InitialForm(today);
      aiInput, aiMode := "", true;
      isCategoryManagerOpen, isEditMode := false, false;
    }

    /** `handleDelete` with whether the store reported an error. */
    method Delete(id: RowId, ok: bool)
      modifies this`transactions
      ensures transactions == AfterDelete(old(State()), id, ok).transactions
    {
      if ok {
        transactions := RemoveId(transactions, id);
      }
    }

    /** `openCategoryManager(id)`. */
    method OpenCategoryManager(id: Option<string>)
      modifies this`editor, this`isCategoryManagerOpen
      ensures editor == AfterOpenEditor(old(State()), id).editor
      ensures isCategoryManagerOpen == AfterOpenEditor(old(State()), id).isCategoryManagerOpen
    {
      if id.Some? && id.value != "" && Lookup(categories, id.value).Some? {
        var c := Lookup(categories, id.value).value;
        editor := CategoryEditor(id, c.labelText, c.iconName, FindByHex(c.hex));
      } else {
        editor := BlankEditor(id);
      }
      isCategoryManagerOpen := true;
    }

    /** `handleSaveCategory` with the store's answer to the insert it returns. */
    method SaveCategory(out: Outcome<CategoryRow>) returns (request: Option<CategoryRequest>)
      modifies this`categories, this`form, this`isCategoryManagerOpen
      ensures request == if CanSave(old(State())) then Some(SaveRequest(old(State()))) else None
      ensures categories == AfterSave(old(State()), out).categories
      ensures form == AfterSave(old(State()), out).form
      ensures isCategoryManagerOpen == AfterSave(old(State()), out).isCategoryManagerOpen
    {
      if !CanSave(State()) {
        return None;
      }
      request := Some(SaveRequest(State()));
      if out.Ok? {
        var key := RowKey(out.value);
        categories := Put(categories, key, SavedCategory(out.value));
        form := form.(category := key);
        isCategoryManagerOpen := false;
      }
    }

    /** `handleAiSmartAdd` with the draft read from the sentence; returns the text sent. */
    method SmartAdd(draft: Option<Draft>) returns (request: Option<string>)
      modifies this`form, this`aiMode, this`isAiLoading
      ensures request == if CanSmartAdd(old(State())) then Some(old(aiInput)) else None
      ensures form == AfterSmartAdd(old(State()), draft).form
      ensures aiMode == AfterSmartAdd(old(State()), draft).aiMode
      ensures isAiLoading == AfterSmartAdd(old(State()), draft).isAiLoading
    {
      if !CanSmartAdd(State()) {
        return None;
      }
      request := Some(aiInput);
      isAiLoading := true;
      if draft.Some? {
        form := MergeDraft(form, draft.value);
        aiMode := false;
      }
      isAiLoading := false;
    }

    /** `handleSendChatMessage` with the assistant's reply to the request it returns. */
    method SendChatMessage(reply: ChatReply) returns (request: Option<ChatRequest>)
      modifies this`chatHistory, this`chatInput, this`isChatLoading
      ensures request == if CanChat(old(State())) then Some(ChatRequestFor(old(State()))) else None
      ensures chatHistory == AfterChat(old(State()), reply).chatHistory
      ensures chatInput == AfterChat(old(State()), reply).chatInput
      ensures isChatLoading == AfterChat(old(State()), reply).isChatLoading
    {
      if !CanChat(State()) {
        return None;
      }
      var history := chatHistory;
      var userMsg := Trim(chatInput);
      chatInput := "";
      chatHistory := chatHistory + [ChatMessage(User, userMsg)];
      isChatLoading := true;
      request := Some(ChatRequest(history, userMsg, TotalBalance(transactions), Recent(categories, transactions)));
      chatHistory := chatHistory + [ChatMessage(Ai, AnswerText(reply))];
      isChatLoading := false;
    }
  }
}
