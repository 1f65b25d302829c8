# Rege Finance: a verified model of the dashboard's logic

Rege is a personal finance web app. A signed-in user records income and expense
transactions, files each one under a category, and sees a dashboard. The dashboard shows
the list of transactions for a chosen period, the period's income and expense, the overall
balance, a per-category breakdown of expenses, and a CSV export. An AI panel reads a
sentence into a draft transaction, and a chat assistant answers questions given the
balance and recent transactions. A profile dialog edits the user's name, phone and
password, and a sign-up page creates the account.

This project models that logic in Dafny and proves properties of it:

- **Records and the category map** (`Domain`, `Constants`). The category map is a
  JavaScript object, so it is an ordered list of entries with distinct keys. Writing to an
  existing key keeps its place; a new key goes at the end.
- **The derived views** (`LedgerView`, `StableSort`, `Calendar`):
  - the period filter, with ECMAScript's own day arithmetic;
  - the stable latest-first sort;
  - the balance and the period totals;
  - the expense breakdown and the top expense.
- **The CSV export** (`CsvExport`), with a parser that reads every field back.
- **The dashboard's handlers.** `LedgerStore` states each handler as a function from the
  state before to the state after. `Dashboard.Ledger` is a class whose fields are the
  `useState` hooks, with one method per handler.
- **The texts the handlers build** (`FormText`, `Text`): the category slug, `String(id)`,
  the `toString` of an amount and the ISO date of the form.
- **The phone mask** (`PhoneMask`), the **profile dialog** (`Profile`) and the **sign-up
  page** (`SignUp`).

The store (Supabase) and the assistant (Gemini) are not called. Each handler takes their
answer as a parameter (`Outcome`, `ChatReply`, `Draft`, `AuthAnswers`) and returns the
request it would send. The clock is a parameter too: the filter takes today's date as a
calendar day, and the form takes today's ISO date as text. All amounts are whole cents.

Modelling decisions that follow the code as written:

- **The "this_year" filter.** It is offered in the filter menu, but `filteredTransactions`
  has no branch for it. `parseInt("this_year")` is `NaN`, so the filter keeps every
  transaction (`WindowThisYear`).
- **The fetched icon is never drawn.** Categories read back by `fetchData` carry their
  icon under `icon_name`. Defaults and freshly saved categories carry it under
  `iconName`, and the list only reads `iconName`. A fetched category is therefore drawn
  with the `Tag` icon (`FetchedIconShowsTag`), and a saved one with its own icon
  (`SavedIconShows`).
- **The chat history.** The assistant receives the history as it was before the user's
  message, because the handler's closure holds the old `chatHistory`.
- **Garbled strings.** The assistant's greeting (App.tsx:76) and apology (App.tsx:406)
  have their accented letters and emoji garbled by a wrong encoding. The model's
  `Greeting` and `Apology` keep those characters exactly as written.
- **The assistant's failure path.** `ChatReply.Threw` stands for a call to the assistant
  that throws. The shipped `chatWithAssistant` (services/geminiService.ts:67-84) catches
  its own errors and returns a fallback text, so with that service every reply is a
  `Reply`, and the apology is not reached today. The model keeps the handler's `catch`
  branch because App.tsx:405-406 has it.

## Model

| member | source | states |
|---|---|---|
| Constants.IconLibrary | constants.tsx:11-16 | the icon library holds `Tag`, the list's fallback icon, and `MoreHorizontal` |
| Constants.DefaultCategories | constants.tsx:18-29 | ten default categories; `food` is the fourth key and `other` the last |
| Constants.DefaultKeysAre | constants.tsx:18-29 | the default keys, in their declaration order |
| Constants.DefaultKeysDistinct | constants.tsx:18-29 | no two default categories share a key |
| Constants.DefaultIdsAreKeys | constants.tsx:18-29 | each default category's id is its key |
| Constants.DefaultIncomeKinds | constants.tsx:18-29 | exactly `income` and `extra_income` are income categories |
| Constants.DefaultIconsUnderIconName | constants.tsx:18-29 | every default names its icon under `iconName`, not `icon_name`, and has a non-empty label |
| Constants.DefaultIconsInLibrary | constants.tsx:11-29 | every default's icon is a key of the icon library |
| Constants.FoodAndOtherAreDefaults | constants.tsx:21-28 | the form's default category `food` and the display fallback `other` are both found in the default table |
| Constants.ColorPalette | constants.tsx:31-42 | ten swatches with pairwise distinct hex values |
| Constants.FirstWithHex | App.tsx:280 | `find` returns a swatch exactly when one has the hex, and then the first such swatch |
| Constants.FindByHex | App.tsx:280 | the editor's swatch is always one of the palette |
| Constants.FindByHexUnique | App.tsx:280 | looking up a swatch's own hex finds that swatch |
| Constants.FindByHexFallback | App.tsx:280 | a hex that no swatch has falls back to the first swatch |
| Domain.Lookup | App.tsx:279 | `categories[k]` is found exactly when `k` is a key, and then it is the entry under `k` |
| Domain.PutLookup | App.tsx:136-147 | after `catMap[k] = c`, key `k` reads `c` and every other key reads as before |
| Domain.PutKeys | App.tsx:136-147 | writing an existing key keeps the key order; a new key is appended |
| Domain.PutDistinct | App.tsx:136-147 | writing a key keeps the keys distinct |
| Domain.LabelOrOther | App.tsx:400 | `categories[k]?.label \|\| 'Outros'` is never empty: it is the label when the key is found with a non-empty label, and "Outros" when it is missing |
| Calendar.DayNumberOrder | App.tsx:305-327 | on real calendar days, day numbers are ordered as the dates are, lexicographically |
| Calendar.DayNumberInjective | App.tsx:305-327 | distinct calendar days have distinct day numbers |
| Calendar.DayFromYearStep | App.tsx:305-327 | consecutive years start `DaysInYear` days apart |
| Calendar.NextMonthStart | App.tsx:313-319 | consecutive months start `DaysInMonth` days apart, across the new year too |
| LedgerView.FirstOfPrevMonthDay | App.tsx:317 | for every valid today, `new Date(y, getMonth() - 1, 1)` with ECMAScript's month normalisation is the first of the previous month: December 1 of the year before in January, the same year otherwise |
| Calendar.NoonVersusStart | App.tsx:305-327 | a day's noon is at or after a day's start exactly when the first day is not earlier |
| Calendar.NoonVersusEnd | App.tsx:305-327 | a day's noon is at or before a day's last millisecond exactly when the first day is not later |
| LedgerView.ParseIntDecimal | App.tsx:322 | `parseInt` reads a decimal numeral back |
| LedgerView.ParseIntWord | App.tsx:322 | a selector that starts with a letter is `NaN` |
| LedgerView.WindowAll | App.tsx:304 | "all" keeps every transaction |
| LedgerView.WindowThisYear | App.tsx:322-327 | "this_year" keeps every transaction |
| LedgerView.WindowToday | App.tsx:308-311 | "today" keeps exactly the transactions dated today |
| LedgerView.WindowCurrentMonth | App.tsx:312-315 | "current_month" keeps exactly this month's transactions up to and including today |
| LedgerView.WindowLastMonth | App.tsx:316-321 | "last_month" keeps exactly the previous calendar month's transactions; in January, December's |
| LedgerView.WindowDays | App.tsx:322-326 | a numeric selector `n` keeps exactly the transactions of the last `n` days, today included |
| LedgerView.KeepInWindow | App.tsx:303-327 | the kept transactions are exactly those inside the window, each at most as often as in the list |
| LedgerView.FilteredContents | App.tsx:303-328 | the filtered list holds exactly the window's transactions, each as often as in the window, in non-increasing date order |
| LedgerView.FilteredLatestFirst | App.tsx:328 | on real calendar days the filtered list runs from the latest date to the earliest |
| LedgerView.FilteredSameDayOrder | App.tsx:328 | transactions of the same day keep their list order (the sort is stable) |
| LedgerView.FilteredIdempotent | App.tsx:303-328 | filtering the filtered list again changes nothing |
| LedgerView.FilteredAll | App.tsx:303-328 | "all" shows every transaction, reordered only |
| LedgerView.TotalBalanceIsIncomeMinusExpense | App.tsx:330 | the balance is all income minus all expense |
| LedgerView.OfKindSum | App.tsx:331-332 | summing the transactions of one kind sums that kind's share of every transaction |
| LedgerView.PeriodIncomeIsWindowIncome | App.tsx:331 | the period income is the window's income, whatever the order |
| LedgerView.PeriodExpenseIsWindowExpense | App.tsx:332 | the period expense is the window's expense, whatever the order |
| LedgerView.AllPeriodsMakeTheBalance | App.tsx:330-332 | with "all", income minus expense is the balance |
| LedgerView.ExpensesOf | App.tsx:338-340 | the expenses under a key are exactly the list's expense transactions with that category |
| LedgerView.ExpenseSlicesMembers | App.tsx:334-342 | one slice per expense category, carrying that category's total |
| LedgerView.BreakdownMembers | App.tsx:334-344 | `expensesByCategory` holds exactly the expense categories with a positive total, each with its total and category |
| LedgerView.BreakdownLargestFirst | App.tsx:345 | `expensesByCategory` runs from the largest total to the smallest |
| LedgerView.BreakdownTiesInKeyOrder | App.tsx:345 | categories with equal totals keep their key order |
| LedgerView.TopExpenseIsLargest | App.tsx:349 | `topExpense` is null exactly when no expense category has a positive total, and otherwise a largest one in the breakdown |
| LedgerView.BreakdownCoversPeriodExpense | App.tsx:332-345 | when every expense is non-negative and filed under an expense category, the breakdown's totals add up to the period expense |
| LedgerView.SlicesSumIsExpense | App.tsx:334-342 | with distinct keys and categorised expenses, the slices' totals add up to the expense |
| LedgerView.HitsOnce | App.tsx:338-340 | with distinct keys, an expense filed under an expense category counts in exactly one total |
| LedgerView.HitsNone | App.tsx:338-340 | an income, or an expense under an unknown key, counts in no total |
| LedgerView.IconFor | App.tsx:644 | the icon drawn is always in the library; it is the category's `iconName` when the library knows it, and `Tag` when there is none |
| StableSort.Sort | App.tsx:328 | the sorted list is ordered by the key, descending, and is a permutation of the input |
| StableSort.SortStable | App.tsx:328 | elements with equal keys keep their relative order |
| StableSort.SortOfSorted | App.tsx:328 | an already sorted list is left as it is |
| StableSort.SortIdempotent | App.tsx:328 | sorting twice is sorting once |
| StableSort.SumSort | App.tsx:328-332 | sorting keeps every sum |
| CsvExport.ExportCsv | App.tsx:445-459 | there is no file exactly when the filtered list is empty |
| CsvExport.RowLines | App.tsx:448-459 | one line per filtered transaction, in list order; a transaction whose title and label hold no ';' or '\n' gives a line with no newline that splits back into its five fields |
| CsvExport.ExportSplitsBack | App.tsx:445-459 | the file splits at '\n' into the header and one line per transaction, and each line splits at ';' into that transaction's five fields when no title or label holds ';' or '\n' |
| CsvExport.DateRoundTrip | App.tsx:449 | the pt-BR date field reads back as the transaction's date |
| CsvExport.AmountRoundTrip | App.tsx:453 | the `toFixed(2)` amount with a decimal comma reads back as the amount, to the cent |
| CsvExport.KindRoundTrip | App.tsx:452 | "Entrada"/"Saida" reads back as the transaction's type |
| CsvExport.RowSplitsBack | App.tsx:448-454 | a row's line holds no newline and splits back into its fields |
| CsvExport.DatePlain | App.tsx:449 | a printed date holds neither ';' nor '\n' |
| CsvExport.AmountPlain | App.tsx:453 | a printed amount holds neither ';' nor '\n' |
| FormText.UnderscoreRuns | App.tsx:244 | replacing the whitespace runs leaves no whitespace, never lengthens, and is empty only for an empty text |
| FormText.SlugShape | App.tsx:244 | a slug has no whitespace and no capital, is empty exactly when the name is, and is never longer than the name |
| FormText.SlugIdempotent | App.tsx:244 | the slug of a slug is the slug |
| FormText.SlugOfWords | App.tsx:244 | for any non-empty words with a whitespace run of any length and kind between each pair, and optional whitespace before the first and after the last, the slug is the lower-cased words joined by single '_', with one leading and one trailing '_' exactly when the name has whitespace at that end |
| FormText.UnderscoreRunsNoSpace | App.tsx:244 | a text without whitespace is left as it is |
| FormText.AmountTextRoundTrip | App.tsx:364 | the draft amount's `toString()` reads back as the amount |
| FormText.IsoDateRoundTrip | App.tsx:353 | the form's `YYYY-MM-DD` date is ten characters and reads back as the day |
| Text.DecimalRoundTrip | App.tsx:136 | `String(n)` of a natural number reads back as `n` |
| Text.SplitJoin | App.tsx:456-459 | joining fields that are free of the separator and splitting again gives the fields back |
| Text.TrimStartSuffix | App.tsx:390 | `trim` drops only a leading run of whitespace |
| Text.TrimEndPrefix | App.tsx:390 | `trim` drops only a trailing run of whitespace |
| LedgerStore.OverlayLast | App.tsx:134-148 | after writing the fetched rows, a key reads the last row written under it |
| LedgerStore.OverlayUntouched | App.tsx:134-148 | a key that no row uses reads as in the table overlaid |
| LedgerStore.OverlayKeepsPrefix | App.tsx:134-148 | writing rows keeps every key of the table, in place |
| LedgerStore.DisplayAlwaysFound | App.tsx:643 | while the defaults are kept, `categories[tx.category] \|\| categories.other` always finds a category |
| LedgerStore.FetchKeepsDefaults | App.tsx:134-149 | a fetch keeps the default keys in the table |
| LedgerStore.SaveKeepsDefaults | App.tsx:254-268 | a save keeps the default keys in the table |
| LedgerStore.FetchWithoutRows | App.tsx:134 | an empty or failed category fetch leaves the table as it was |
| LedgerStore.FetchUntouchedKey | App.tsx:134-149 | after a fetch with rows, a key that no row uses reads as its default |
| LedgerStore.FetchLastRow | App.tsx:134-149 | after a fetch, a key reads the last row stored under `slug \|\| id` |
| LedgerStore.FetchTransactions | App.tsx:126-167 | a fetch replaces the list by the store's answer, keeps it on error, and without a user does nothing |
| LedgerStore.FetchedIconShowsTag | App.tsx:137-146 | a fetched category has no `iconName`, so it is drawn with `Tag` |
| LedgerStore.SavedIconShows | App.tsx:257-266 | a saved category is drawn with its row's icon when the library knows it |
| LedgerStore.AddPrepends | App.tsx:205-216 | a successful add puts the returned row first, keeps the others in order, resets the form to today's date and `food`, and closes the modal |
| LedgerStore.AddNoOp | App.tsx:189-205 | a missing title, amount or user, or a store error, leaves the state as it was |
| LedgerStore.AddShiftsBalance | App.tsx:206-213 | an added row moves the balance by its amount: up for income, down for expense |
| LedgerStore.AddFrame | App.tsx:205-216 | an add changes only the list, the modal and what `resetForm` resets |
| LedgerStore.RemoveIdMembers | App.tsx:226 | deleting keeps exactly the rows with another id |
| LedgerStore.RemoveIdAppend | App.tsx:226 | deleting distributes over concatenation, so the kept rows stay in order |
| LedgerStore.RemoveAbsentId | App.tsx:226 | deleting an id that no row has changes nothing |
| LedgerStore.RemoveIdIdempotent | App.tsx:226 | deleting twice is deleting once |
| LedgerStore.DeleteUndoesAdd | App.tsx:206-226 | deleting a freshly added row with a new id gives back the list before the add |
| LedgerStore.DeleteKeepsOthers | App.tsx:219-228 | a successful delete keeps exactly the other rows and the categories; a failed one changes nothing |
| LedgerStore.AddThenDelete | App.tsx:187-228 | adding a row with a new id and then deleting it restores the list |
| LedgerStore.DeleteFrame | App.tsx:219-228 | a delete changes only the list |
| LedgerStore.OpenEditorFills | App.tsx:276-288 | opening the manager on a stored category fills the editor with its label, its icon and its palette swatch, and shows the manager |
| LedgerStore.OpenEditorFrame | App.tsx:274-289 | opening the manager changes only the editor and the manager's visibility |
| LedgerStore.SaveStoresOneKey | App.tsx:254-270 | a successful save stores the row under `slug \|\| id`, leaves every other key and the key order as they were (or appends the new key), selects it in the form and closes the manager |
| LedgerStore.SaveKeyIsSlug | App.tsx:244-255 | when the store echoes the slug sent, the new key is the slug of the name: no whitespace, no capital |
| LedgerStore.SaveFrame | App.tsx:230-272 | a save changes only the table, the form and the manager's visibility |
| LedgerStore.MergeDraftFields | App.tsx:362-367 | a draft overwrites exactly its truthy fields, and never empties a filled field |
| LedgerStore.MergeDraftIdempotent | App.tsx:362-367 | applying the same draft twice is applying it once |
| LedgerStore.MergeEmptyDraft | App.tsx:362-367 | a draft with nothing truthy leaves the form as it was |
| LedgerStore.SmartAddThenAdd | App.tsx:364 | after a draft with a non-zero amount, adding the transaction sends that amount |
| LedgerStore.SmartAddEnds | App.tsx:358-372 | a smart add always ends loading; only a draft switches the AI panel off; a blank input changes nothing |
| LedgerStore.SmartAddFrame | App.tsx:357-373 | a smart add changes only the form, the panel switch and the loading flag |
| LedgerStore.ChatAppendsTwo | App.tsx:389-409 | a message appends exactly two entries, the user's trimmed text and then the assistant's answer text on a reply or the apology when the call throws, and clears the input and the loading flag |
| LedgerStore.ChatGuard | App.tsx:390 | a blank message, or one sent while an answer is awaited, changes nothing |
| LedgerStore.ChatContext | App.tsx:395-402 | the assistant gets the old history, the trimmed message, the balance as income minus expense, and exactly the first ten transactions (all when fewer), each with its title, amount, type, date and `categories[t.category]?.label \|\| 'Outros'` |
| LedgerStore.RecentFields | App.tsx:397-400 | `slice(0, 10)`: exactly the first ten transactions, or all when fewer, each with its title, amount, type and date and its category's label or 'Outros', never empty |
| LedgerStore.ChatFrame | App.tsx:389-410 | sending a message changes only the chat |
| Dashboard.WriteRows | App.tsx:135-148 | the loop over the fetched rows leaves the map the rows overlaid on the defaults |
| Dashboard.Ledger.constructor | App.tsx:41-78 | the dashboard mounts with the default categories, an empty list, the greeting and the form set to `food` and today |
| Dashboard.Ledger.FetchData | App.tsx:126-167 | the table and the list become those of `AfterFetch` |
| Dashboard.Ledger.AddTransaction | App.tsx:187-217 | returns the insert when title, amount and user are set; the list, the modal and the reset fields follow `AfterAdd` |
| Dashboard.Ledger.ResetForm | App.tsx:351-355 | the form, the AI input and panel, and the manager flags are reset |
| Dashboard.Ledger.Delete | App.tsx:219-228 | the list becomes that of `AfterDelete` |
| Dashboard.Ledger.OpenCategoryManager | App.tsx:274-289 | the editor and the manager's visibility follow `AfterOpenEditor` |
| Dashboard.Ledger.SaveCategory | App.tsx:230-272 | returns the insert when a name and a user are set; the table, the form and the manager follow `AfterSave` |
| Dashboard.Ledger.SmartAdd | App.tsx:357-373 | returns the text sent when the input is not blank; the form and the panel follow `AfterSmartAdd` |
| Dashboard.Ledger.SendChatMessage | App.tsx:389-410 | returns the assistant's request when the message is not blank and no answer is awaited; the chat follows `AfterChat` |
| PhoneMask.Digits | components/profile/ProfileModal.tsx:36 | the stripped text holds only digits and is never longer |
| PhoneMask.MaskIsLayout | components/profile/ProfileModal.tsx:35-40 | the two replacements lay the digits out by their number: as typed up to two, the area code in parentheses from three, a hyphen before the last four from seven |
| PhoneMask.MaskDigits | components/profile/ProfileModal.tsx:35-40 | the mask keeps exactly the digits typed, in order |
| PhoneMask.MaskIdempotent | components/profile/ProfileModal.tsx:35-40 | masking a masked number changes nothing |
| PhoneMask.MaskChars | components/profile/ProfileModal.tsx:35-40 | a masked number holds only digits, parentheses, spaces and a hyphen |
| PhoneMask.MaskMarks | components/profile/ProfileModal.tsx:37-38 | the parenthesis is there exactly from three digits, the hyphen exactly from seven |
| PhoneMask.MaskLength | components/profile/ProfileModal.tsx:35-40 | the mask adds three characters for the area code and one for the hyphen |
| Profile.ErrorText | components/profile/ProfileModal.tsx:93 | the error shown is never empty, and it is the error's message when that is not empty |
| Profile.Utf16Length | components/profile/ProfileModal.tsx:59 | the password's `length` lies between its number of characters and twice that |
| Profile.Utf16LengthBmp | components/profile/ProfileModal.tsx:59 | for characters of the basic plane, `length` is the number of characters |
| Profile.ProfileForm.constructor | components/profile/ProfileModal.tsx:14-20 | the dialog starts with empty fields, not loading and no message |
| Profile.ProfileForm.Load | components/profile/ProfileModal.tsx:22-31 | opening the dialog loads the user's email, name and phone and clears both passwords and the message |
| Profile.ProfileForm.ChangePhone | components/profile/ProfileModal.tsx:35-40 | the phone field becomes the mask of what was typed |
| Profile.ProfileForm.Save | components/profile/ProfileModal.tsx:42-97 | the calls made are those of `RunSave`; the parent is refreshed exactly on success; the message and passwords follow `AfterSave`; loading ends |
| Profile.ProfileUpdatedFirst | components/profile/ProfileModal.tsx:48-56 | the profile update is always the first call, and an error there stops the save with its message |
| Profile.EmptyPasswordNoChecks | components/profile/ProfileModal.tsx:59 | with no new password, only the profile is updated, and the save succeeds exactly when that update does |
| Profile.ShortPasswordRefused | components/profile/ProfileModal.tsx:60-62 | a new password shorter than six is refused, whatever the current password, before any sign-in |
| Profile.CurrentPasswordRequired | components/profile/ProfileModal.tsx:63-65 | a valid new password without the current one is refused before any sign-in |
| Profile.WrongCurrentPassword | components/profile/ProfileModal.tsx:68-75 | a failed sign-in refuses the change; the password is never updated |
| Profile.PasswordUpdateGuarded | components/profile/ProfileModal.tsx:57-81 | the password is updated only to the new password, after the profile update and a successful sign-in with a non-empty current password, for a new password of at least six code units |
| Profile.PasswordsClearedOnSuccess | components/profile/ProfileModal.tsx:86-89 | the password fields are cleared exactly after a successful save with a new password |
| Profile.SaveEndsWithMessage | components/profile/ProfileModal.tsx:83-95 | a save always ends loading with a non-empty message, a success message exactly on success, and keeps name, phone and email |
| SignUp.SignUpForm.constructor | components/auth/SignUpPage.tsx:14-20 | the page starts with empty fields, not loading and no error |
| SignUp.SignUpForm.ChangePhone | components/auth/SignUpPage.tsx:95-100 | the phone field becomes the mask of what was typed |
| SignUp.SignUpForm.Submit | components/auth/SignUpPage.tsx:21-52 | a sign-up call with the four fields is made exactly when all are filled; loading and the error line follow `AfterSubmit` |
| SignUp.MissingFieldRefused | components/auth/SignUpPage.tsx:23-26 | a missing field shows the fill-in message and changes nothing else |
| SignUp.KnownErrorsTranslated | components/auth/SignUpPage.tsx:43-48 | the service's two known messages are shown in Portuguese, and neither English text is ever shown |
| SignUp.OtherErrorsPassThrough | components/auth/SignUpPage.tsx:42-49 | any other message is shown unchanged |
| SignUp.SubmitOutcome | components/auth/SignUpPage.tsx:28-51 | with all fields filled, an error ends loading and shows the mapped message; success keeps loading on with an empty error |
| SignUp.ErrorShownIff | components/auth/SignUpPage.tsx:21-52 | an error line is shown exactly when a field is missing or the service answered with a non-empty message |

## Left out

- Floating point: amounts are whole cents. `parseFloat(newAmount)` is modelled only for texts of digits with up to two decimals; any other text is sent as no number.
- `toLocaleString`, time zones and daylight saving: day arithmetic uses ECMAScript's formulas on local days with no offset. `toISOString` is taken to give the same day as the filter's clock.
- The order of integer-like keys: JavaScript lists keys such as "12" before the other keys of an object. The model keeps insertion order for every key.
- `LowerChar`: only ASCII and Latin-1 capitals are lower-cased. Full Unicode case mapping is not modelled.
- The `maxLength` of the phone input: the mask is modelled on whatever text is typed.
- `parseInt` accepts a hexadecimal prefix; that is not modelled, and no filter selector uses it.
- The store and the assistant: Supabase and Gemini answers are parameters, and the requests are returned, not sent. `smartParseTransaction` throwing is treated like it returning `null`.
- Transaction types other than income and expense.
- LedgerView.WindowCurrentMonth, LedgerView.WindowLastMonth: `new Date(y, m, d)` reads a year from 0 to 99 as 1900 + y. The model does not, so for such a "today" the month windows differ from the browser's. No real clock gives such a date.
- The intermediate states of the handlers while they await an answer. For example, the chat input is cleared and the user's message shown before the reply arrives. Only the state after the handler finishes is modelled.
- Stale closures beyond the chat history: each handler reads the state as it began.
- UI-only state and effects: menus, toggles, the chart and its percentages, the daily quote and its cache, speech input, the PDF export, the CSV file download (App.tsx:461-468), `handleGenerateTips`, the login page and the legal pages.
- Dashboard.Ledger.FetchData: that the fetch leaves the other fields alone is given only by its `modifies` clause. No frame lemma about `AfterFetch` is stated; the field-level `modifies` clause is the frame.
- Dashboard.Ledger.AddTransaction: the form's date after a reset is today's ISO text passed in as a parameter; `AddPrepends` connects that text with the calendar day.

## Notes

- The filter selectors "7", "15" and "30" are fixed buttons read with `parseInt`; `WindowDays` covers every numeric selector value, not only these three.
- The CSV date pads the day and the month to two digits and prints the year as a plain number.
- The CSV's amount and the draft's amount follow `toFixed(2)` and `toString()` on whole cents. No rounding arises.
