# timberflow core, modelled in Dafny

timberflow is a browser ERP for a timber-roofing business. It consists of vanilla-JavaScript components and a hash-routed modular shell, plus two Python scripts that push the working tree to GitHub. This project models the logic under the user interface and proves properties of it:

- **The formula calculator.** It covers variable and constant substitution, the tokenizer, the shunting-yard conversion to postfix, the postfix stack machine, the parenthesis check, undefined-variable detection, and `evaluate`/`validate`.
- **The parsers and writers.** These are the two CSV line splitters, delimiter detection, header mapping, the CSV writers, file-type checks, the JSON key and depth walks, and the roof-design export helpers (variable names, material categories, result merging).
- **The hash router.** Segments are matched with `:param` wildcards, an exact key wins over a pattern, and the customer or product id is extracted.
- **The small stateful services.** These are the header command registry and its provider, the recent and pinned services, and the application shell's recent and pinned navigation lists.
- **The list views.** They cover pagination and the page window, sorting with nulls last, conjunctive filters, row selection and the select-all box, CSV export, the lookup field's keyboard index, and search relevance and its ordering.
- **The business rules.** These are the project, quote, tender and quote-reference numbers; the required-field and duplicate-key checks; product schema validation and clean-up; the customer status transitions and approval chain; quote line totals, subtotal and VAT; template item counts and nail consolidation; the formula editor's text splicing and cursor; and URL and phone clean-up.
- **The upload scripts.** They cover the skip patterns, the essential-directory rule, path normalisation, and the success-counted upload loop with its cap of 100.

Most source files are one Dafny module each, named after the file in Dafny's style, or after its directory where the file name is generic (`src/modules/customers/schema.js` is `CustomerSchema`, `src/modules/products/schema.js` is `ProductsSchema`, `src/modules/products/api.js` is `ProductsApi`). The exceptions:
- `utils/formula-calculator.js` is four modules: `FormulaCalculator` (tokens, operators, parentheses), `FormulaPostfix` (the shunting-yard conversion), `FormulaEvaluation` (the postfix stack machine) and `FormulaVariables` (variable substitution, evaluation and validation).
- `components/interactive-map.js` is `ClickableFields`, after the clickable phone, e-mail and website fields it adds.
- `components/power-apps-framework.js` is `PowerApps`, and `src/app/routes.jsx` is `Routes`.
- `upload_to_github.py` is `UploadToGithub`, plus `GithubUpload` for the single-file upload it shares with `upload_essentials.py`.

Shared helper modules hold the rest:
- `Basics`: Option and Result.
- `Text`: ASCII case mapping, `includes`, `trim`, split and join, `padStart`, number rendering, `parseInt`.
- `JsValues`: JavaScript values, truthiness, `String()`, `==` and `===`, and the insertion-ordered plain object.
- `Identified`: lists of objects keyed by `id`.
- `Sorting`: a stable sort standing in for `Array.prototype.sort`.
- `GithubUpload`: the single-file upload both scripts share.

Where the source updates an object in place, the model is a class whose methods are proved against functions of the old state. The source's loops are methods with loop invariants.

The clock, randomness, what `confirm` returns, what each network request comes to, and the DOM's nav items are all parameters. So is the directory listing the scripts walk.

JavaScript numbers are modelled as exact reals. Strings are sequences of characters.

## Model

| member | source | states |
|---|---|---|
| AppShell.WithoutTab | app.js:296 | An entry is in the filtered list iff it was in the old list and is for another tab; the list is never longer |
| AppShell.WithoutTabSingle | app.js:296 | One entry is dropped iff it is for the tab, and kept otherwise |
| AppShell.WithoutTabConcat | app.js:296 | Filtering a concatenation filters each part, so every entry for another tab is kept, in its old order |
| AppShell.WithoutTabUnique | app.js:296 | Filtering a tab out keeps the tabs of the recent list distinct |
| AppShell.RecentAfterProperties | app.js:295-315 | After a visit the recent list has at most 3 entries. A known tab comes first with its nav icon, text and time, and no other entry is for it. The rest is the old list without the tab, in its old order and cut to fit. For an unknown tab the list is only filtered and cut. The length is the smaller of 3 and the entries kept (plus the visited one). Tabs stay distinct |
| AppShell.FindTab | app.js:229 | findIndex: the first entry for the tab, or none when no entry is for it |
| AppShell.FindTabAppended | app.js:239-244 | A pushed entry for a tab that was absent is found at the end of the list |
| AppShell.TogglePinTwice | app.js:228-250 | Pinning a known, unpinned tab and toggling it again restores the pinned list exactly |
| AppShell.PinnedAfterProperties | app.js:228-250 | Toggling keeps the pinned tabs distinct: a pinned tab is unpinned, and an unpinned tab with a nav item becomes pinned |
| AppShell.Shell.constructor | app.js:3-24 | The active tab starts as 'my-dashboard' and both lists start empty |
| AppShell.Shell.AddToRecentActivity | app.js:295-315 | Sets the recent list to the visit's result and leaves the active tab and the pins alone |
| AppShell.Shell.TogglePin | app.js:228-250 | Sets the pinned list to the toggle's result and leaves the active tab and the recent list alone |
| AppShell.Shell.SwitchTab | app.js:144-173 | Makes the tab active and records the visit; the pins are unchanged |
| AppShell.GetAlertIcon | app.js:568-576 | 'success' gets 'check-circle', 'danger' 'exclamation-triangle', 'warning' 'exclamation-circle', and any other type 'info-circle' |
| AppShell.AlertIconsDistinct | app.js:568-576 | The four alert types get four different icons |
| CommandRegistry.Registry.constructor | src/platform/components/CommandRegistry.js:4-8 | The registry starts with no actions and no active component |
| CommandRegistry.Registry.Set | src/platform/components/CommandRegistry.js:11-15 | The actions become the given array, or the empty list when the argument is not an array, and the component becomes active |
| CommandRegistry.Registry.Clear | src/platform/components/CommandRegistry.js:18-24 | With no component id, or the active one, the registry is emptied and has no active component. Another component's clear changes nothing |
| CommandRegistry.Registry.AddAction | src/platform/components/CommandRegistry.js:52-59 | An action with a truthy id and label replaces every action with that id and goes last. Any other action leaves the list as it was |
| CommandRegistry.Registry.RemoveAction | src/platform/components/CommandRegistry.js:62-65 | The list becomes the old list without the actions of that id, in order |
| CommandRegistry.Registry.UpdateAction | src/platform/components/CommandRegistry.js:68-74 | The first action with the id becomes its spread with the updates. An unknown id changes nothing |
| CommandRegistry.AddedActionUnique | src/platform/components/CommandRegistry.js:52-59 | After an add, the new action is last and is the only one with its id |
| CommandRegistry.RemovedActionGone | src/platform/components/CommandRegistry.js:62-65 | After a remove no action has the id, and every action with another id is still there |
| CommandRegistry.UpdateTouchesOne | src/platform/components/CommandRegistry.js:68-74 | An update changes only the one action. Each of its properties is the update's value when the update has that key, else the old value |
| CommandRegistry.Provider.constructor | src/platform/components/CommandRegistry.js:95-99 | A provider starts live, for its component and registry |
| CommandRegistry.Provider.Destroy | src/platform/components/CommandRegistry.js:102-107 | Destroying clears the registry as the provider's component would, once: without an id or as the owner it empties it, and a component that does not own the registry leaves it as it was. A second destroy changes nothing |
| CommandRegistry.Provider.Set | src/platform/components/CommandRegistry.js:110-114 | A live provider sets the actions for its component; a destroyed one changes nothing |
| CommandRegistry.Provider.AddAction | src/platform/components/CommandRegistry.js:116-120 | A live provider adds an acceptable action as the registry does; a destroyed provider, or an action without a truthy id and label, changes nothing |
| CommandRegistry.Provider.RemoveAction | src/platform/components/CommandRegistry.js:122-126 | A live provider removes as the registry does; a destroyed one changes nothing |
| CommandRegistry.Provider.UpdateAction | src/platform/components/CommandRegistry.js:128-132 | A live provider updates the first action with the id as the registry does; a destroyed provider, or an unknown id, changes nothing |
| CustomerManager.KeepIfIsKeep | archive/monolith/components/customer-manager.js:910-924 | A filter applied only when its control is set is a filter by the test that lets everything through when the control is empty |
| CustomerManager.SearchHit | archive/monolith/components/customer-manager.js:902-907 | A true answer means some field in order is text holding the term. When every field is text there is no TypeError |
| CustomerManager.SearchHitText | archive/monolith/components/customer-manager.js:902-907 | When the fields are text, the short-circuit `\|\|` answers exactly whether some field, lower-cased, holds the term |
| CustomerManager.SearchStage | archive/monolith/components/customer-manager.js:900-908 | The search throws exactly when some customer's search throws |
| CustomerManager.SearchStageKeeps | archive/monolith/components/customer-manager.js:900-908 | When every customer's search fields are text, the search keeps exactly the matching customers, in order |
| CustomerManager.FilteredDataIsConjunction | archive/monolith/components/customer-manager.js:897-927 | The chained filters keep exactly the customers that pass the search and each filter whose control is set, in list order. Status 'active' wants isActive true; any other status wants false |
| CustomerManager.FindClash | archive/monolith/components/customer-manager.js:1002-1005 | It finds a customer with the same account number that is not the one being edited, or reports that none exists |
| CustomerManager.ValidateForm | archive/monolith/components/customer-manager.js:995-1013 | A missing account number, account name, company type or account type gives the required-fields message. Otherwise a clash gives the duplicate message, and only a form with neither problem is valid |
| CustomerManager.EditedCustomerNoSelfClash | archive/monolith/components/customer-manager.js:1004 | The customer being edited never clashes with itself |
| CustomerManager.ParentCandidates | archive/monolith/components/customer-manager.js:782-783 | The parent candidates are the customers other than the current one, no more than the list |
| CustomerManager.ParentAccounts | archive/monolith/components/customer-manager.js:782-784 | One name/value pair per candidate, both being the candidate's account name |
| CustomerManager.NotOwnParent | archive/monolith/components/customer-manager.js:783 | A customer is never offered as its own parent account |
| CustomerManager.EmptyCustomerDefaults | archive/monolith/components/customer-manager.js:1143-1154 | A new customer starts as a Prospect account and status, approval Pending, created today and active |
| CustomerManager.EmptyCustomerInvalid | archive/monolith/components/customer-manager.js:1132-1156 | The empty customer fails validation with the required-fields message |
| CustomerManager.MergeFields | archive/monolith/components/customer-manager.js:1102 | The spread merge takes each form field and keeps every other field of the customer. The keys are the union |
| CustomerManager.CreatedFields | archive/monolith/components/customer-manager.js:1106-1107 | A created customer gets the clock as its id and keeps every other form field |
| CustomerManager.Manager.constructor | archive/monolith/components/customer-manager.js:5-45 | The screen starts on the list view with no current or original customer, no unsaved changes and no search. When its container exists, init() loads the sample customers; without it the constructor returns early with no data |
| CustomerManager.Manager.NewCustomer | archive/monolith/components/customer-manager.js:929-935 | It opens an empty form with no current customer and no unsaved changes |
| CustomerManager.Manager.EditCustomer | archive/monolith/components/customer-manager.js:937-943 | It opens the form on the first customer with the id, or on none when the id is unknown. The form's listeners keep that customer as the undo copy, so the original equals the current customer |
| CustomerManager.Manager.DeleteCustomer | archive/monolith/components/customer-manager.js:945-952 | A confirmed delete of a known id removes exactly the customers with that id. Anything else changes nothing |
| CustomerManager.Manager.AutoSave | archive/monolith/components/customer-manager.js:1094-1116 | An edit spreads the form over the stored customer in place, or changes nothing when it has gone. A new customer is appended with the clock as id. Either way the save succeeds and clears the unsaved flag |
| CustomerManager.Manager.ShowList | archive/monolith/components/customer-manager.js:1195-1204 | It returns to the list and clears the current and original customer and the unsaved flag |
| CustomerSchema.FlaggedAreRequired | src/modules/customers/schema.js:3-107 | Every name the flagged-column list holds is that of a column flagged required |
| CustomerSchema.RequiredListMatchesColumns | src/modules/customers/schema.js:10-56 | The columns flagged required, in order, are exactly the validation's required list (lines 110-112) |
| CustomerSchema.EmailHasOneAt | src/modules/customers/schema.js:115 | A string the e-mail format accepts has exactly one '@', with something before and after it |
| CustomerSchema.AccountClosedTerminal | src/modules/customers/schema.js:138 | No transition leaves 'Account Closed' |
| CustomerSchema.CreditApprovedOnlyCloses | src/modules/customers/schema.js:137 | 'Credit Approved' can only move to 'Account Closed' |
| CustomerSchema.TransitionsWellFormed | src/modules/customers/schema.js:133-139 | The table has one row per customer status, in the status enumeration's order. Every target is a status other than the source |
| CustomerSchema.NoSelfTransition | src/modules/customers/schema.js:133-139 | No status may move to itself |
| CustomerSchema.ApprovalTerminals | src/modules/customers/schema.js:147-148 | 'Approved' and 'Rejected' have no next step |
| CustomerSchema.PendingApprovedInFour | src/modules/customers/schema.js:142-149 | From 'Pending' the chain reaches 'Approved' in exactly four steps and not sooner |
| CustomerSchema.WorkflowCoversStatuses | src/modules/customers/schema.js:142-149 | The workflow has one entry per approval status, in the enumeration's order (line 64) |
| EnhancedDataGrid.Fields | components/enhanced-data-grid.js:17 | The visible-column set holds exactly the configured columns' fields |
| EnhancedDataGrid.SearchFilter | components/enhanced-data-grid.js:373-382 | The search keeps exactly the rows in which some column's value, neither null nor undefined, holds the lower-cased term. The result is no longer than the data |
| EnhancedDataGrid.SearchFilterSingle | components/enhanced-data-grid.js:373-382 | One row is kept exactly when some column's value matches the term |
| EnhancedDataGrid.SearchFilterConcat | components/enhanced-data-grid.js:373-382 | The filter distributes over concatenation, so kept rows stay in data order with their repeats |
| EnhancedDataGrid.EmptySearchKeepsAll | components/enhanced-data-grid.js:374 | An empty search term keeps every row, in order |
| EnhancedDataGrid.NullRowNeverMatches | components/enhanced-data-grid.js:379 | A row whose columns are all null or undefined never matches a non-empty term |
| EnhancedDataGrid.KeepKeyed | components/enhanced-data-grid.js:390-391 | It splits rows by whether the sort field holds a value. Each part is exactly the rows on its side |
| EnhancedDataGrid.KeepKeyedSplits | components/enhanced-data-grid.js:390-391 | The keyed and unkeyed rows together are the rows, as a multiset |
| EnhancedDataGrid.GridSortNullsLast | components/enhanced-data-grid.js:385-402 | Sorting permutes the rows, and the rows with a sort value all come before the null and undefined ones |
| EnhancedDataGrid.KeyedComparatorConsistent | components/enhanced-data-grid.js:393-400 | When the keys are all numbers or all strings, the comparator, or its negation for 'desc', is a consistent order |
| EnhancedDataGrid.GridSortSorted | components/enhanced-data-grid.js:385-402 | The keyed part of the sorted rows is ordered by the comparator in the chosen direction |
| EnhancedDataGrid.ViewContents | components/enhanced-data-grid.js:371-403 | The filtered view is a permutation of the search result, so it holds exactly the matching rows |
| EnhancedDataGrid.RowIds | components/enhanced-data-grid.js:292 | Every row's id, of any type, is in the set, and every member of the set is some row's id |
| EnhancedDataGrid.SelectedRows | components/enhanced-data-grid.js:479 | Exactly the rows whose id is selected, in data order |
| EnhancedDataGrid.SelectedRowsConcat | components/enhanced-data-grid.js:479 | Selecting from two lists end to end gives the two selections end to end |
| EnhancedDataGrid.CountedCheckbox | components/enhanced-data-grid.js:429-430 | As written, the header checkbox compares sizes only. It is never both checked and indeterminate, and it is clear when nothing is selected |
| EnhancedDataGrid.CountedCheckboxHiddenSelection | components/enhanced-data-grid.js:429 | Counterexample: one hidden selected row shows a one-row view as all checked though that row is not selected |
| EnhancedDataGrid.HeaderCheckbox | components/enhanced-data-grid.js:429-430 | Corrected: checked iff the view is non-empty and every visible row is selected; indeterminate iff some visible rows are selected and some are not |
| EnhancedDataGrid.SelectAllShowsChecked | components/enhanced-data-grid.js:290-295 | After select-all the corrected header shows checked, and with nothing selected it shows clear |
| EnhancedDataGrid.RowIdsCount | components/enhanced-data-grid.js:292 | Rows with pairwise different ids have as many ids as rows |
| EnhancedDataGrid.AllSelectedIff | components/enhanced-data-grid.js:429 | When the selection lies inside a view with distinct ids, every visible row is selected iff the selection is all the view's ids |
| EnhancedDataGrid.SomeSelectedIff | components/enhanced-data-grid.js:430 | In that case some visible row is selected iff the selection is non-empty |
| EnhancedDataGrid.CountedCheckboxAgrees | components/enhanced-data-grid.js:429-430 | The size comparison gives the right state whenever the selection lies inside the view and the ids are distinct |
| EnhancedDataGrid.CellText | components/enhanced-data-grid.js:454-456 | A null or undefined cell exports as the empty string |
| EnhancedDataGrid.QuoteAll | components/enhanced-data-grid.js:462 | Every cell is quoted, with its quotes doubled |
| EnhancedDataGrid.ExportLineReadsBack | components/enhanced-data-grid.js:462 | Reading an exported line back with the CSV splitter gives the cells back exactly |
| EnhancedDataGrid.VisibleColumns | components/enhanced-data-grid.js:448 | Exactly the configured columns whose field is visible, in order |
| EnhancedDataGrid.Headers | components/enhanced-data-grid.js:449 | One header per visible column |
| EnhancedDataGrid.RowCells | components/enhanced-data-grid.js:453-457 | One cell per visible column, holding that field's text |
| EnhancedDataGrid.ExportLines | components/enhanced-data-grid.js:445-463 | A header line, then one line per exported row |
| EnhancedDataGrid.RowLines | components/enhanced-data-grid.js:452-458 | One line per row, holding the row's cells |
| EnhancedDataGrid.Export | components/enhanced-data-grid.js:434-463 | A selected-only export with no selected rows is refused. Otherwise the CSV holds the selected rows, or the filtered view, over the visible columns, lines joined by newlines |
| EnhancedDataGrid.ExportRowReadsBack | components/enhanced-data-grid.js:452-463 | Every data line of an export reads back as that row's cells |
| EnhancedDataGrid.ExportFileName | components/enhanced-data-grid.js:470 | The download name always ends in '.csv' |
| EnhancedDataGrid.Grid.constructor | components/enhanced-data-grid.js:3-25 | A grid starts empty, unsorted ascending, with no search and no selection, and with every column visible |
| EnhancedDataGrid.Grid.ApplyFiltersAndSort | components/enhanced-data-grid.js:371-403 | The view becomes the searched and sorted data. Nothing else changes |
| EnhancedDataGrid.Grid.SetData | components/enhanced-data-grid.js:32-38 | New data clears the selection and recomputes the view under the current search and sort |
| EnhancedDataGrid.Grid.Search | components/enhanced-data-grid.js:256-260 | A new search term recomputes the view. The selection is kept as it was, which is what the finding turns on |
| EnhancedDataGrid.Grid.Sort | components/enhanced-data-grid.js:359-369 | Sorting by the same field flips the direction; a new field sorts ascending. The view is recomputed |
| EnhancedDataGrid.Grid.SetColumnVisible | components/enhanced-data-grid.js:266-273 | The column toggle adds or removes the field from the visible set. Nothing else changes |
| EnhancedDataGrid.Grid.ToggleRow | components/enhanced-data-grid.js:281-289 | A row checkbox adds or removes that id from the selection. Nothing else changes |
| EnhancedDataGrid.Grid.SelectAllChanged | components/enhanced-data-grid.js:290-295 | Checking select-all adds every visible id to the selection; clearing it empties the selection |
| EnhancedDataGrid.Grid.SelectionInfo | components/enhanced-data-grid.js:417-432 | The counts are the selection's size and the view's length. The header is checked iff the view is non-empty and all of it is selected, and indeterminate iff some but not all of it is selected |
| EnhancedDataGrid.Grid.GetSelectedData | components/enhanced-data-grid.js:478-480 | The selected rows of the data, in data order |
| EnhancedDataGrid.Grid.ExportToExcel | components/enhanced-data-grid.js:434-476 | The grid's export, refused when a selected-only export has nothing selected |
| FileParser.GetFileExtension | utils/file-parser.js:445-447 | With a '.', the lower-cased suffix from the last '.', which holds no other '.'. Without one, the whole lower-cased name |
| FileParser.SupportedExtensions | utils/file-parser.js:4-9 | Supported means one of .xlsx, .xls, .json, .csv and .txt, the four type lists together (lines 454-456) |
| FileParser.ParserForSupported | utils/file-parser.js:463-473 | There is a parser for an extension exactly when it is supported |
| FileParser.ValidateFile | utils/file-parser.js:421-438 | A file passes iff it is present, non-empty, at most 50 MB (line 11) and of a supported type |
| FileParser.ValidateFileOrder | utils/file-parser.js:421-438 | The checks run in order: a missing file, then size 0, then above 50 MB, then the type. Each error names the first check that fails |
| FileParser.MapField | utils/file-parser.js:295 | One field per part |
| FileParser.MapFieldAt | utils/file-parser.js:295 | Each field is its part, trimmed when trimming is on |
| FileParser.MapFieldKeep | utils/file-parser.js:295 | Without trimming the parts are kept as they are |
| FileParser.ParseCsvLine | utils/file-parser.js:272-304 | The loop computes the quote-aware split: either quote character opens a quoted run; a doubled quote inside it gives one literal quote; a delimiter outside quotes ends a field |
| FileParser.QuoteFreeLine | utils/file-parser.js:294-303 | On a line without quotes the fields are the split at every delimiter, each trimmed when asked, so there are (delimiters + 1) of them |
| FileParser.ScanFieldCount | utils/file-parser.js:278-303 | Each field but the last is closed by a delimiter read outside quotes, so the scan adds at least one field and at most one more than the delimiters it reads |
| FileParser.CsvFieldCount | utils/file-parser.js:272-304 | Any line gives at least one field and at most (delimiters + 1); a line without the delimiter is one field |
| FileParser.ScanEscaped | utils/file-parser.js:285-293 | Inside a run opened by either quote character, each doubled quote reads back as one quote and the closing quote ends the run |
| FileParser.ScanCell | utils/file-parser.js:278-300 | A cell written plain, or quoted with `"` or `'` and that quote doubled inside, reads back as its value, up to the next delimiter |
| FileParser.ScanQuoted | utils/file-parser.js:282-293 | A cell quoted with either quote character reads back as its value |
| FileParser.ReadEncodedCells | utils/file-parser.js:278-303 | A line joined from encoded cells, in either quote character, reads back as exactly those values, one field per cell |
| FileParser.ScanInQuotes | utils/file-parser.js:282-284 | An opened quote that is never closed swallows the rest of the line, delimiters included |
| FileParser.PickFromBest | utils/file-parser.js:320 | The reduce picks a candidate with the highest count, and ties go to the later one |
| FileParser.DetectCsvDelimiterBest | utils/file-parser.js:311-321 | The detected delimiter is one of ',', ';', tab and '\|', with the highest count. Every later candidate has strictly fewer, and a line with none of them gives '\|' |
| FileParser.BuildRowKeys | utils/file-parser.js:248-251 | A row object has exactly the header keys, once each |
| FileParser.BuildRowGet | utils/file-parser.js:250 | With distinct headers, each header's value is its cell, or '' when the row is short |
| FileParser.DataRowsStep | utils/file-parser.js:238-256 | Each further line adds nothing when it is blank and blank lines are skipped; otherwise it adds its object row or its field array |
| FileParser.ParseCsvText | utils/file-parser.js:213-263 | The parse computes its specification: split on newlines, delimiter given or detected from the first line, headers from the first line when asked, then the data rows |
| FileParser.ReadDataRows | utils/file-parser.js:237-256 | The row loop builds exactly the data rows of the remaining lines |
| FileParser.DataRowsShape | utils/file-parser.js:237-256 | There is one row per line, or per non-blank line when blank lines are skipped. With headers every row is an object with exactly the header keys |
| FileParser.CsvLines | utils/file-parser.js:591-603 | A header line, then one line per row |
| FileParser.ArrayToCsv | utils/file-parser.js:585-606 | The writer loop computes its specification |
| FileParser.ArrayToCsvLines | utils/file-parser.js:585-606 | The CSV is empty iff there are no rows. Otherwise, when no line holds a newline, splitting it at newlines gives the header line and the row lines |
| FileParser.RowLineReadsBack | utils/file-parser.js:593-602 | A row line reads back through parseCsvLine as the row's values, a falsy value as '', when each value survives the round trip |
| FileParser.ApostropheWrittenPlain | utils/file-parser.js:597-600 | The writer leaves a value with a single quote unquoted: O'Brien is written as it is |
| FileParser.ApostropheReadBack | utils/file-parser.js:282-284 | The reader takes that single quote as an opening quote, so O'Brien reads back as OBrien |
| FileParser.KeysFromListsOwn | utils/file-parser.js:352-367 | Every own key of an object, prefixed with the path, is listed |
| FileParser.FlatKeys | utils/file-parser.js:352-367 | Without nested objects, the keys are the prefixed own keys, in order |
| FileParser.ObjectKeysShape | utils/file-parser.js:352-367 | A non-object has no keys. An object lists at least every own key, dotted onto the prefix, and recursion goes only into non-array objects |
| FileParser.ObjectKeysMembers | utils/file-parser.js:352-367 | A path is listed iff the value is an object and some own property accounts for it: the property's dotted key, or a path below its value when that value is a non-array object |
| FileParser.DepthFromBounds | utils/file-parser.js:379-386 | The children's maximum is at least each child's depth, and is some child's depth or 0 |
| FileParser.ObjectDepthProperties | utils/file-parser.js:374-387 | The depth is 0 exactly for non-objects. An object's depth is 1 plus the deepest child's, and 1 when no child is an object |
| FormulaCalculator.ParseOpText | utils/formula-calculator.js:42-50 | Each of the seven operator keys names exactly its operator, so isOperator recognises every operator's text |
| FormulaCalculator.ShuntingRule | utils/formula-calculator.js:408-417 | hasHigherPrecedence is the textbook pop test: the stacked operator binds tighter, or binds as tightly and the incoming one is left-associative |
| FormulaCalculator.RemainderBounds | utils/formula-calculator.js:394 | JavaScript `%` truncates: a nonzero remainder has the sign of the dividend and is smaller in size than the divisor |
| FormulaCalculator.ApplyOperatorErrors | utils/formula-calculator.js:386-400 | Only division by zero throws, `%` by zero gives NaN instead, and `^` and `**` compute the same power |
| FormulaCalculator.Tokenize | utils/formula-calculator.js:341-377 | The loop computes the token scan. The tokens spell exactly the digits, dots, operators and parentheses of the input, in order. Each token is a number run, `**`, one operator or one parenthesis, and no two number runs are adjacent |
| FormulaCalculator.TokensProperties | utils/formula-calculator.js:341-377 | The same facts about the scan function: the input is kept minus ignored characters, and the tokens are well formed |
| FormulaCalculator.HasBalancedParentheses | utils/formula-calculator.js:438-446 | True iff no prefix closes more parentheses than it opened and the whole input closes all it opened |
| FormulaPostfix.Classify | utils/formula-calculator.js:279-297 | A token is taken as '(' or ')' or an operator only when it is exactly that text |
| FormulaPostfix.ClassifyOperator | utils/formula-calculator.js:279-290 | An operator's text is never taken as a number and is recognised as that operator |
| FormulaPostfix.ToPostfix | utils/formula-calculator.js:272-304 | The loop computes the shunting-yard conversion of the tokens: numbers go out, operators that bind at least as tightly are popped before a push, ')' pops down to '(', and the rest is flushed at the end |
| FormulaPostfix.CloseParen | utils/formula-calculator.js:282-286 | At ')' the loop leaves the output and stack that popping down to the nearest '(' and dropping it gives, an empty stack staying empty |
| FormulaPostfix.PopBefore | utils/formula-calculator.js:287-294 | Before an operator is pushed, every stacked operator that binds at least as tightly, down to the nearest '(', has moved to the output, top first |
| FormulaPostfix.FlushStack | utils/formula-calculator.js:299-301 | After the last token the whole stack is moved to the output, top first |
| FormulaPostfix.PostfixPreservesTokens | utils/formula-calculator.js:272-304 | The output holds the token numbers in their input order and exactly the token operators as a multiset |
| FormulaPostfix.BalancedTokensNoParen | utils/formula-calculator.js:284-288 | With balanced parenthesis tokens no '(' reaches the output |
| FormulaPostfix.BalancedNoParenInOutput | utils/formula-calculator.js:272-304 | For an input hasBalancedParentheses accepts, the conversion leaves no '(' in its output |
| FormulaEvaluation.Step | utils/formula-calculator.js:314-326 | A number is pushed. An operator needs two values and replaces the top two with its result, leaving the rest. Anything else is ignored |
| FormulaEvaluation.EvaluatePostfix | utils/formula-calculator.js:311-334 | The loop computes the stack machine: the first error stops it, and exactly one value must remain, else 'malformed' |
| FormulaEvaluation.StackHeight | utils/formula-calculator.js:314-326 | After a successful run the stack has grown by the number of numbers minus the number of operators |
| FormulaEvaluation.RunPostfixCounts | utils/formula-calculator.js:328-330 | A successful evaluation has exactly one more number than operators |
| FormulaEvaluation.InsufficientOperandsExactly | utils/formula-calculator.js:318-320 | 'insufficient operands' never occurs when every operator finds two values on the stack. It always occurs when one does not and no division could fail first |
| FormulaEvaluation.PostfixOfTree | utils/formula-calculator.js:311-334 | The postfix form of an expression tree evaluates to the tree's value, left operand first, or to its first error |
| FormulaVariables.BracedAt | utils/formula-calculator.js:450 | A match of /\{([a-zA-Z_][a-zA-Z0-9_.]*)\}/ is '{', a name start, name characters, then '}' |
| FormulaVariables.CollectUndefined | utils/formula-calculator.js:453-458 | The exec loop collects the braced names that are not own keys of the variables, in order, with repeats |
| FormulaVariables.DedupeInOrder | utils/formula-calculator.js:460 | The loop computes `[...new Set(list)]` |
| FormulaVariables.DedupeProperties | utils/formula-calculator.js:460 | The deduplicated list has the same members and no repeats |
| FormulaVariables.FindUndefinedVariables | utils/formula-calculator.js:448-461 | A name is listed iff it appears braced and is not a variable. The list has no repeats and is in order of first appearance |
| FormulaVariables.ReplaceBracedErrorIff | utils/formula-calculator.js:137-143 | The braced substitution throws iff some braced name is undefined, and it names the first one |
| FormulaVariables.ReplaceBracedNoBrace | utils/formula-calculator.js:137 | Text without '{' is left as it is |
| FormulaVariables.ReplaceWordNoMatch | utils/formula-calculator.js:146-151 | Without a word-bounded occurrence of the key the text is unchanged, so a longer word containing the key is never rewritten |
| FormulaVariables.ReplaceWordAt | utils/formula-calculator.js:149-150 | A word-bounded occurrence is replaced by the value's text, and the scan goes on after it |
| FormulaVariables.ReplaceVariables | utils/formula-calculator.js:132-154 | The braced pass, or its error, followed by one whole-word pass per numeric variable in the object's order |
| FormulaVariables.ReplaceConstants | utils/formula-calculator.js:161-170 | One whole-word pass per constant, in declaration order, with the values of lines 34-40 |
| FormulaVariables.Evaluate | utils/formula-calculator.js:59-83 | evaluate runs the variable and constant passes, strips white space, calls the function pass, converts to postfix and evaluates. A NaN or infinite result is an error |
| FormulaVariables.EvaluateErrors | utils/formula-calculator.js:61-66 | A missing, empty or non-string expression is 'Invalid expression', and an undefined braced variable is reported by its name |
| FormulaVariables.CaretRejected | utils/formula-calculator.js:463-467 | The syntax check forbids '^', although the tokenizer and the operator table accept it |
| FormulaVariables.Validate | utils/formula-calculator.js:91-124 | The checks run in the source's order: a required expression, balanced parentheses, undefined variables (all of them listed), a substitution error, then the syntax check |
| FormulaVariables.ValidateNeverThrows | utils/formula-calculator.js:121-123 | Once the undefined-variable check has passed, the substitution cannot throw, so the catch branch is dead |
| FormulaVariables.ValidImpliesRewrites | utils/formula-calculator.js:91-124 | A formula validate accepts rewrites without error, and its rewrite passes the syntax check |
| FormulaEngine.Splice | components/formula-engine.js:417-419 | Inserting a piece at a position inside the text keeps the text before it, then the piece, then the rest of the text, and the length grows by the piece's |
| FormulaEngine.VariableCursor | components/formula-engine.js:412-429 | Inserting a variable puts '{name}' at the cursor, and the new cursor, old position + length(name) + 2, sits right after the closing brace |
| FormulaEngine.OperatorCursor | components/formula-engine.js:431-448 | Inserting an operator puts ' op ' at the cursor, and the new cursor, old position + length(op) + 2, sits right after the trailing space |
| FormulaEngine.FunctionCursor | components/formula-engine.js:450-467 | Inserting a function puts 'NAME()' at the cursor, and the new cursor, old position + length(NAME) + 1, sits between the parentheses |
| FormulaEngine.Engine.InsertVariable | components/formula-engine.js:412-429 | The expression becomes the splice at the cursor and the cursor moves past the variable. The formulas, the formula being edited and the other form fields are unchanged |
| FormulaEngine.Engine.InsertOperator | components/formula-engine.js:431-448 | The same, for an operator |
| FormulaEngine.Engine.InsertFunction | components/formula-engine.js:450-467 | The same, for a function, with the cursor left inside its parentheses |
| FormulaEngine.Engine.constructor | components/formula-engine.js:3-12 | No formulas, nothing being edited, an empty expression |
| FormulaEngine.Engine.OpenFormulaBuilder | components/formula-engine.js:387-410 | Editing a formula fills the form from its name, stock item, expression and description, each '' when falsy. Creating one resets the form. currentFormula becomes the argument |
| FormulaEngine.SaveRequest | components/formula-engine.js:516-553 | The save is refused with the warning iff the name, stock item or expression is empty. Otherwise it is a PUT when a formula is being edited and a POST when none is |
| FormulaEngine.DuplicateSaveTargetsNull | components/formula-engine.js:534-535 | Saving a duplicate, whose id is null, sends a PUT to '/formulas/null' |
| FormulaEngine.SaveRequestFixed | components/formula-engine.js:534-535 | The corrected save: a PUT exactly when the formula being edited has a truthy id, else a POST |
| FormulaEngine.FixedSaveOfDuplicate | components/formula-engine.js:534-535 | The corrected save creates the duplicate with a POST to '/formulas', and for a formula with an id it sends the same request as the original code |
| FormulaEngine.DuplicateFields | components/formula-engine.js:609-615 | A duplicate has a null id and lastUsed, the name plus ' (Copy)' and the new creation date. Every other field is copied |
| FormulaEngine.Engine.DuplicateFormula | components/formula-engine.js:605-618 | An unknown id changes nothing, the form included. Otherwise the builder opens on the duplicate of the first formula with that id: its name, stock item, expression and description, each `|| ''`, fill the form and the cursor is at the end of the expression |
| FormulaEngine.StatusBadgeCases | components/formula-engine.js:374-385 | 'active', 'inactive' and 'error' each get a badge of their own, and any other value shows 'Unknown' |
| Identified.WithoutId | src/platform/components/CommandRegistry.js:54 | The filter keeps only elements of the list whose id is not `===` the given one, so the result is never longer |
| Identified.WithoutIdConcat | src/platform/components/CommandRegistry.js:62 | Filtering a concatenation filters each part |
| Identified.WithoutIdKeeps | src/platform/components/CommandRegistry.js:62 | Every element with another id survives the filter |
| Identified.WithoutAbsentId | src/platform/components/CommandRegistry.js:62 | Filtering out an id no element has leaves the list unchanged |
| Identified.FindIndex | src/platform/components/CommandRegistry.js:68 | findIndex gives the first position whose id is `===` the given one, and none iff no element has it |
| GlobalSearch.WordsOccur | components/global-search.js:171 | Every word of `split(/\s+/)` occurs in the text, and the first one is a prefix of it |
| GlobalSearch.RelevanceScoreLevels | components/global-search.js:157-177 | On the lower-cased texts the score is 100 for equal texts, 80 for a proper prefix, 60 for any other occurrence and 0 otherwise. The word-prefix score 40 is never given, because such a word makes the query a substring |
| GlobalSearch.MatchesQuery | components/global-search.js:142-147 | An item matches iff some listed field is truthy and its lower-cased text contains the query |
| GlobalSearch.ProjectHits | components/global-search.js:94-106 | Exactly the projects matching on client name, number, site address or description become project hits, with a text title |
| GlobalSearch.CustomerHits | components/global-search.js:109-121 | Exactly the customers matching on name, company, e-mail or phone become customer hits |
| GlobalSearch.QuoteHits | components/global-search.js:122-137 | A quote hit is a matching quote (on number or description) of some project, paired with that project and titled 'Quote …'; every such pair is a hit |
| GlobalSearch.QuoteHitsOf | components/global-search.js:124-135 | One project's quotes: exactly the matching quotes become hits, none more than there are quotes |
| GlobalSearch.QuoteHitsOfSingle | components/global-search.js:125-134 | A single quote gives its hit iff it matches |
| GlobalSearch.QuoteHitsOfConcat | components/global-search.js:124-135 | The quotes are searched in list order: joined lists give joined hits |
| GlobalSearch.QuoteHitsConcat | components/global-search.js:123-136 | The projects are searched in order: joined project lists give joined hits |
| GlobalSearch.SearchAllOrdered | components/global-search.js:88-155 | When the search does not throw, the results are the project, customer and quote hits, reordered so that the relevance of the title never rises |
| GlobalSearch.ProjectResultsMatch | components/global-search.js:94-106 | Every project result is one of the projects and matches the lower-cased query |
| GlobalSearch.ArrowDownIndex | components/global-search.js:271-274 | ArrowDown highlights a valid item, the next one, wrapping from the last to the first |
| GlobalSearch.ArrowUpIndex | components/global-search.js:277-280 | ArrowUp highlights a valid item, the previous one, wrapping from the first (or from none) to the last |
| GlobalSearch.ArrowDownUp | components/global-search.js:271-280 | Down then up comes back to the highlighted item |
| GlobalSearch.Search.constructor | components/global-search.js:3-24 | The index has the six source types; init() has already put the sample customers (global-search.js:318-344, here the parameter `sample`) under customers, the other five are empty, and nothing is shown or pending |
| GlobalSearch.Search.HandleSearchInput | components/global-search.js:58-69 | A query of fewer than two characters after trimming cancels the pending search and hides the results. Otherwise it becomes the pending (debounced) search |
| GlobalSearch.Search.ShowResults | components/global-search.js:179-214 | Showing results makes them visible with nothing highlighted and clears the pending search |
| GlobalSearch.Search.HandleKey | components/global-search.js:258-294 | With no results a key does nothing. ArrowDown and ArrowUp move the highlight with wrap-around and keep the results shown. Enter chooses the highlighted item, if any, and its click handler (205-211) hides the results. Escape hides them. Other keys change nothing |
| GlobalSearch.Search.AddToSearchIndex | components/global-search.js:362-366 | A known type gets the items appended, and an unknown type changes nothing. Other types are untouched |
| GlobalSearch.Search.UpdateSearchIndex | components/global-search.js:369-373 | A known type's items are replaced, and an unknown type changes nothing. Other types are untouched |
| GlobalSearch.UnknownTypeIgnored | components/global-search.js:8-15 | A type outside the six initial ones is never in the index |
| GithubUpload.UploadRequest | upload_to_github.py:18-41 | The PUT goes to the contents API of the repository, followed by the path, with the commit message 'Add ' + path on branch main |
| GithubUpload.SucceededCases | upload_to_github.py:33-41 | An upload succeeds iff the response status is 200 or 201. Any other status, 204 included, and any exception is a failure |
| GithubUpload.SuccessesMonotone | upload_essentials.py:68-69 | The success count over more attempts is never smaller |
| UploadToGithub.SkipMatch | upload_to_github.py:43-53 | A path is skipped iff some skip pattern is a substring of it |
| UploadToGithub.SkipIsTextual | upload_to_github.py:45-52 | Matching is textual: '.env' skips '.envrc' and 'docs/my.environment.md', and '.git/' skips 'vendor/web.git/index.js' |
| UploadToGithub.GithubPath | upload_to_github.py:65 | The repository path has the length of the relative path and no backslash |
| UploadToGithub.EligiblePaths | upload_to_github.py:62-65 | A repository path is listed iff some listed entry is a file that no skip pattern matches and has that path, with backslashes turned into slashes |
| UploadToGithub.PartitionExact | upload_to_github.py:62-70 | Every eligible path lands in exactly one of the uploaded and failed lists: the lengths add up and the two lists together are the paths as a multiset |
| UploadToGithub.Run | upload_to_github.py:55-79 | The lists are the eligible paths, in walk order, that succeeded and that failed. Together they count every eligible file, and the summary shows the first min(10, failures) failures |
| UploadEssentials.WalkSkipsPruned | upload_essentials.py:55-57 | No directory the walk visits lies under a hidden directory or node_modules |
| UploadEssentials.Walk | upload_essentials.py:55-57 | The walk yields the starting directory first, and every step lies below it |
| UploadEssentials.WalkAll | upload_essentials.py:55-57 | The walks of the subdirectories yield only steps strictly below the directory |
| UploadEssentials.WalkAllVisits | upload_essentials.py:55-57 | Every subdirectory that is neither hidden nor node_modules is visited, with its joined path and its file list |
| UploadEssentials.StripDotsAndSlashes | upload_essentials.py:64 | `lstrip('./')` leaves a path that is empty or starts with neither '.' nor '/' |
| UploadEssentials.StripIsSuffix | upload_essentials.py:64 | Stripping only removes characters from the front: the result is a suffix of the path |
| UploadEssentials.RepositoryPathNormal | upload_essentials.py:64 | A repository path never starts with '.' or '/' and holds no backslash, and normalising it again changes nothing |
| UploadEssentials.StepCandidatesEligible | upload_essentials.py:59-67 | Every path offered for upload is normalised and lies under one of the eight essential directories or at the root |
| UploadEssentials.UploadStep | upload_essentials.py:59-71 | The file loop attempts the directory's candidates in order and stops early only when the count reaches 100. The count is the number of successful attempts, and it was below 100 before every attempt |
| UploadEssentials.UploadSteps | upload_essentials.py:55-73 | The walk loop attempts a prefix of all candidates in walk order: all of them, or stopping exactly when the count reaches 100. The count never exceeds 100 |
| UploadEssentials.UploadAll | upload_essentials.py:54-75 | The script's attempts are the candidates of the walk from '.', up to the one that brings the successes to 100, or all of them. The uploaded count is the number of successes among them |
| LookupField.Slice | components/lookup-field.js:182 | `slice(0, n)`: the first n items, or all of them, and a negative n drops that many from the end |
| LookupField.Matching | components/lookup-field.js:176-181 | An item is kept iff some search field is truthy and its lower-cased text contains the term, in data order |
| LookupField.FilterResultsProperties | components/lookup-field.js:174-186 | At most maxResults items, all from the data and all matching the lower-cased term. They are the first matches, and all of them when fewer than maxResults |
| LookupField.ArrowIndexInRange | components/lookup-field.js:144-154 | Any sequence of arrow keys keeps the selection between -1 and the last item |
| LookupField.ArrowKeysUndo | components/lookup-field.js:144-154 | Down then up, or up then down, returns to the selection away from the ends. Down sticks at the last item and up at -1: there is no wrap-around |
| LookupField.LookupItem | components/lookup-field.js:726-731 | A string item becomes {name, value} holding it twice, and any other item is kept |
| LookupField.CreateLookupData | components/lookup-field.js:725-737 | The data keeps its length and order, item by item |
| LookupField.CreatedItemsMatch | components/lookup-field.js:176-181 | A string item made into a lookup item matches any lower-cased substring of itself, unless it is empty |
| LookupField.FindBy | components/lookup-field.js:361 | find gives an item of the data whose field is `===` the value, and none iff there is no such item |
| LookupField.Field.constructor | components/lookup-field.js:3-21 | The options default when falsy: maxResults 10, search fields name and value, display field name, value field value. The dropdown starts closed with nothing selected |
| LookupField.Field.OpenDropdown | components/lookup-field.js:347-351 | The dropdown is open, and nothing else changes |
| LookupField.Field.CloseDropdown | components/lookup-field.js:353-358 | The dropdown is closed and the selection reset to -1 |
| LookupField.Field.FilterData | components/lookup-field.js:174-186 | The filtered list is the filter result for the term, and the selection is reset |
| LookupField.Field.HandleInput | components/lookup-field.js:101-110 | The list is filtered on the new value, and the dropdown is open iff the value is non-empty |
| LookupField.Field.HandleFocus | components/lookup-field.js:112-122 | Focus opens the dropdown, on the filter result for a non-empty input or on the first maxResults items for an empty one |
| LookupField.Field.SelectItem | components/lookup-field.js:234-248 | A falsy item changes nothing. Otherwise the input shows the item's display field and keeps its value field, and the dropdown closes |
| LookupField.Field.HandleKeydown | components/lookup-field.js:131-172 | While closed, only ArrowDown on an empty input opens the dropdown on the first items; any other key changes nothing. While open, the list is kept; the arrows move the selection without wrapping; Escape and Tab close it; Enter on a truthy selected item shows its display field, stores its value and closes; Enter on nothing or a falsy item changes nothing; other keys change nothing |
| LookupField.Field.SetValue | components/lookup-field.js:360-366 | The first item whose value field is `===` the value, when truthy, is shown with that value. Otherwise, a falsy item included, the input and value are unchanged |
| LookupField.Field.GetValue | components/lookup-field.js:368-370 | The stored value, or '' when none is stored |
| LookupField.Field.UpdateData | components/lookup-field.js:372-377 | The data is replaced, and an open dropdown is filtered again on the input |
| LookupField.Slot | components/lookup-field.js:708-717 | A component fills street, suburb, city or postal code, or nothing |
| LookupField.AddressOfLastWins | components/lookup-field.js:707-718 | Each address key holds the long name of the last component that fills it |
| LookupField.ParseAddressComponents | components/lookup-field.js:701-721 | No components give an empty result. Otherwise the loop builds the address from them |
| LookupField.AddressKeys | components/lookup-field.js:708-717 | The result has no keys but the four address keys |
| PamirParser.ParseCsvLine | api/pamir-parser.js:445-465 | The loop computes the field split: each '"' toggles quote mode and is dropped, a comma outside quotes ends a field, and every field is trimmed |
| PamirParser.FieldCount | api/pamir-parser.js:455-464 | There is one field more than there are commas outside quotes |
| PamirParser.QuotesDropped | api/pamir-parser.js:452-453 | No field holds a '"' |
| PamirParser.QuoteFreeLine | api/pamir-parser.js:445-465 | On a line without quotes the fields are the comma-separated parts, trimmed: the same as the file utility's reader with trimming on |
| PamirParser.ValidNameIgnoresCase | api/pamir-parser.js:412-419 | Whether a name qualifies as a variable does not depend on letter case |
| PamirParser.InvalidNames | api/pamir-parser.js:412-419 | A name of at most one character, a name starting with a digit, and id, index, row, column and cell in any case are rejected |
| PamirParser.ValidFileProperties | api/pamir-parser.js:399-406 | Only .xlsx, .xls and .json, the lower-cased suffix from the last '.', are accepted. A name without '.' never is, and each accepted extension is also supported by the file utility |
| PamirParser.CategoryPriority | api/pamir-parser.js:357-372 | The keyword groups are tried in order: timber/wood/lumber, plate/connector, nail/screw/bolt, steel/metal, else accessories. Each group wins exactly when it matches and no earlier group does |
| PamirParser.TimberFirst | api/pamir-parser.js:358-363 | A description mentioning timber is categorised as timber, whatever else it mentions |
| PamirParser.ExtractProperties | api/pamir-parser.js:339-350 | Only entries whose lower-cased key is not a standard field and whose value is not null, undefined or '' are kept |
| PamirParser.ExtractPropertiesKeeps | api/pamir-parser.js:339-350 | Every such entry is kept |
| PamirParser.QuantityOf | api/pamir-parser.js:281 | `parseFloat(…) \|\| 1` is never 0: NaN and 0 both become 1 |
| PamirParser.ProcessMaterial | api/pamir-parser.js:276-292 | A falsy or non-object value gives null. A material has stockMatch 'unknown', a nonzero quantity and a truthy unit |
| PamirParser.ProcessMaterialDefaults | api/pamir-parser.js:281-282 | Without quantity, qty, count, unit, uom and unitOfMeasure, the quantity is 1 and the unit 'EA' |
| PamirParser.FirstFieldValue | api/pamir-parser.js:435-443 | The result is present iff some listed field, in its own, lower or upper case, has a value other than undefined, null and '' |
| PamirParser.FirstFieldValueIsFirst | api/pamir-parser.js:436-441 | The value is the one of the first such field |
| PamirParser.FindFieldValue | api/pamir-parser.js:435-443 | The loop computes the first present field value, or null |
| PamirParser.VariableRowBounds | api/pamir-parser.js:421-426 | An empty row is not a variable row, and a non-empty row of numbers is |
| PamirParser.Results.Merge | api/pamir-parser.js:379-394 | The file's project info and variables are assigned over the accumulated ones when present. Its materials are appended, so the count is the sum |
| PamirParser.LaterFileWins | api/pamir-parser.js:381-388 | After assigning, a key of the later file has the later file's value, and every other key keeps the earlier value |
| Pinned.PinnedService.constructor | src/platform/services/pinned.js:3-6 | The service starts with no pinned items |
| Pinned.PinnedService.PinItem | src/platform/services/pinned.js:8-13 | An item whose id is already pinned changes nothing. Otherwise it is appended at the end. Ids stay unique |
| Pinned.PinnedService.UnpinItem | src/platform/services/pinned.js:15-18 | Every item with the id is removed and the rest keep their order, so the id is no longer pinned. Ids stay unique |
| Pinned.PinnedService.IsPinned | src/platform/services/pinned.js:25-28 | True iff some pinned item's id is `===` the given one |
| Pinned.WithoutIdUnique | src/platform/services/pinned.js:17 | Filtering a list with unique ids keeps them unique |
| PowerApps.PageData | components/power-apps-framework.js:524-528 | A page holds at most pageSize rows: the rows from (page-1)*pageSize on, in order, or none past the end |
| PowerApps.RowOnItsPage | components/power-apps-framework.js:524-528 | Row k appears on page k/pageSize + 1 at position k mod pageSize, so every row is on some page |
| PowerApps.PageIndicesAgree | components/power-apps-framework.js:530-537 | On a non-empty page, the 'showing x to y' indices are the page's first row (1-based) and last row, and they count the page's rows |
| PowerApps.PageStart | components/power-apps-framework.js:530-532 | The 'showing from' index is 0 exactly when there are no rows, and otherwise is one past the rows of the earlier pages |
| PowerApps.TotalPages | components/power-apps-framework.js:420 | `Math.ceil(length / size)`: the fewest pages of `size` rows that hold all rows, 0 exactly when there are none |
| PowerApps.PageWindow | components/power-apps-framework.js:419-425 | There are page buttons iff there is more than one page. They lie within 1..totalPages, at most five of them |
| PowerApps.PageWindowHasCurrent | components/power-apps-framework.js:420-425 | The window around a valid current page contains it, and the page count is the ceiling of length / pageSize |
| PowerApps.FilterItems | components/power-apps-framework.js:712-729 | An item stays iff it passes the search and every active filter. With a term, some searchable field must be truthy and contain the term, ignoring case. Each filter needs `===` |
| PowerApps.FilterItemsCounts | components/power-apps-framework.js:712-729 | Each item that passes occurs in the filtered list as often as in the data, and every other item not at all |
| PowerApps.ViewContents | components/power-apps-framework.js:712-743 | The view holds exactly the items that pass, each as often as in the data, whatever the sort |
| PowerApps.NoFilterKeepsAll | components/power-apps-framework.js:712-729 | With no term and no filters the view is the data |
| PowerApps.MaxKey | components/power-apps-framework.js:901 | `Math.max(...keys, 0)` is at least every numeric key and 0, and is one of them or 0 |
| PowerApps.GenerateId | components/power-apps-framework.js:900-902 | The new id is exactly one more than the largest numeric key, or 1 when no key is positive; it is larger than every key, so no item has it |
| PowerApps.GenerateIdEmpty | components/power-apps-framework.js:900-902 | An empty list starts at 1 |
| PowerApps.FormatPlain | components/power-apps-framework.js:551-570 | Null, undefined and '' show the placeholder. Other texts are kept up to 50 characters, and longer ones are cut to 50 and marked '...' |
| PowerApps.SectionsGroup | components/power-apps-framework.js:539-549 | Each section holds exactly its fields, in order, a field without a section going to 'General Information'. A section with no fields does not appear |
| PowerApps.GroupFieldsBySection | components/power-apps-framework.js:539-549 | The loop builds exactly that grouping |
| PowerApps.FirstWithKey | components/power-apps-framework.js:861 | findIndex with `==` gives the first item whose key loosely equals the id, and none when none does |
| PowerApps.ListView.constructor | components/power-apps-framework.js:3-32 | No data, page 1, no search, no filters, unsorted. A primary key or page size absent from the config defaults to 'id' and 25; one the config gives, even '' or 0, is kept as given |
| PowerApps.ListView.FilterData | components/power-apps-framework.js:712-743 | The filtered view is recomputed from the data, the search, the filters and the sort, and nothing else changes |
| PowerApps.ListView.SortData | components/power-apps-framework.js:745-754 | Sorting on the current field flips the direction. A new field sorts ascending. The view is recomputed |
| PowerApps.ListView.DeleteItem | components/power-apps-framework.js:860-873 | An unknown id changes nothing. Otherwise the first item with that key is spliced out and the view recomputed |
| PowerApps.DeleteRemovesOne | components/power-apps-framework.js:863 | The splice removes exactly one occurrence of that item and keeps every other one, in order |
| ProductsSchema.SchemaNamesUnique | src/modules/products/schema.js:4-102 | The ten field definitions have distinct names |
| ProductsSchema.FindField | src/modules/products/schema.js:231-233 | getField finds a definition iff the name is a schema field, and it is that field's definition |
| ProductsSchema.FindFieldAt | src/modules/products/schema.js:231-233 | Each schema field is found by its own name |
| ProductsSchema.NumberErrors | src/modules/products/schema.js:148-160 | A number field has at most one error, and none iff the value parses and is not below the field's minimum |
| ProductsSchema.Check | src/modules/products/schema.js:119-193 | The field is valid iff there are no errors, and the reported error is the first. An empty optional value is valid with no checks. An empty required value reports '<label> is required'. Otherwise the errors are the required, type and custom checks in order |
| ProductsSchema.ValidateField | src/modules/products/schema.js:113-194 | An unknown field gives 'Unknown field: <name>'. A known one gives its check. An invalid result always carries an error |
| ProductsSchema.EmptyValues | src/modules/products/schema.js:121-129 | null, undefined and '' make a required field fail with the 'is required' message and an optional field pass |
| ProductsSchema.TooLongRefused | src/modules/products/schema.js:138-140 | A text longer than a field's non-zero maxLength fails with the 'cannot exceed … characters' message |
| ProductsSchema.FieldErrorsCount | src/modules/products/schema.js:119-185 | The errors are the required error, if any, then the type errors, then the price rule's |
| ProductsSchema.PriceTypeErrors | src/modules/products/schema.js:148-160 | A parsed price has no type error iff it is not negative |
| ProductsSchema.PriceRuleErrors | src/modules/products/schema.js:38-42 | The custom price rule passes iff 0 <= price <= 999999.99 |
| ProductsSchema.PriceCheck | src/modules/products/schema.js:31-44 | A numeric price is valid iff it lies between 0 and 999999.99 |
| ProductsSchema.PriceValidIff | src/modules/products/schema.js:113-194 | validateField('price', n) is valid iff 0 <= n <= 999999.99 |
| ProductsSchema.UnitCheck | src/modules/products/schema.js:168-177 | A unit of measure is valid iff it is one of the nine option values |
| ProductsSchema.UnitValidIff | src/modules/products/schema.js:67-83 | validateField('unitOfMeasure', v) is valid iff v is one of Each, Metre, Square Metre, Cubic Metre, Kilogram, Litre, Kit, Roll and Sheet |
| ProductsSchema.NameValidIff | src/modules/products/schema.js:11-20 | A product name is valid iff it is non-empty, at most 255 characters long and made only of letters, digits, white space, '-', '_' and parentheses |
| ProductsSchema.RequiredTextValidIff | src/modules/products/schema.js:119-193 | A required string field with a maximum length and a pattern accepts a string exactly when it is non-empty, within the maximum and matches the pattern |
| ProductsSchema.Outcome | src/modules/products/schema.js:201-207 | A field contributes an error exactly when its validation fails |
| ProductsSchema.ErrorMap | src/modules/products/schema.js:197-209 | The errors object has keys only among the schema's fields |
| ProductsSchema.ErrorsCountFailures | src/modules/products/schema.js:201-209 | With distinct field names, the errors object has one entry per failing field, and there are none iff every field passes |
| ProductsSchema.SchemaErrorsCountFailures | src/modules/products/schema.js:201-209 | The same for the product schema |
| ProductsSchema.CollectErrors | src/modules/products/schema.js:201-209 | The forEach loop builds that errors object, and isValid holds iff every field passes |
| ProductsSchema.Validate | src/modules/products/schema.js:197-228 | The product is valid iff every field passes. errorCount is the number of failing fields, so it is 0 exactly when the product is valid |
| ProductsSchema.RequiredFields | src/modules/products/schema.js:241-243 | The required fields are name, price and unitOfMeasure, in schema order |
| ProductsSchema.FieldOptions | src/modules/products/schema.js:246-252 | A field's options as stored; an unknown field, or a field without options, has none |
| ProductsSchema.UnitOptions | src/modules/products/schema.js:72-78 | The unit of measure offers one `{value, label}` object per unit, labelled with its own value |
| ProductsSchema.CategoryOptions | src/modules/products/schema.js:246-252 | The category offers the category names as plain strings |
| ProductsSchema.StoredOptionValues | src/modules/products/schema.js:168-175 | Validation's `typeof opt === 'string' ? opt : opt.value` maps the stored options onto exactly the values it accepts |
| ProductsSchema.Convert | src/modules/products/schema.js:294-313 | A number field becomes a number (0 when it does not parse). A boolean becomes its truthiness. A text is trimmed and cut to maxLength. Select and datetime values are kept |
| ProductsSchema.Clip | src/modules/products/schema.js:308-310 | Cutting gives a prefix no longer than a non-zero maxLength |
| ProductsSchema.SanitizedLookup | src/modules/products/schema.js:287-318 | A key is in the result iff it is among the data's keys and the lookup knows it as a field, and its value is then the converted value |
| ProductsSchema.SanitizeKeys | src/modules/products/schema.js:287-315 | The loop over the data's keys stores each known key, in key order, with its converted value: the sanitized object |
| ProductsSchema.Sanitize | src/modules/products/schema.js:286-318 | sanitize is that loop with the schema's field lookup and type conversion |
| ProductsSchema.SanitizeProperties | src/modules/products/schema.js:287-318 | Unknown keys are dropped, each known key holds its converted value, and sanitized texts respect maxLength |
| ProductsSchema.BlankLookup | src/modules/products/schema.js:255-284 | Each field of the empty product holds its default, else the value for its type |
| ProductsSchema.CreateEmpty | src/modules/products/schema.js:255-284 | The loop builds the empty product from the schema |
| ProductsSchema.BlankDefaults | src/modules/products/schema.js:255-284 | The empty product takes the declared defaults: unit 'Each' and active true |
| ProductsSchema.BlankTypeDefaults | src/modules/products/schema.js:255-284 | Fields without a declared default start from their type's value: name '', price 0 and the current time as the creation date |
| ProjectManager.Padded | components/project-manager.js:212 | `padStart(3, '0')` gives at least three characters, all digits |
| ProjectManager.ProjectNumberParts | components/project-manager.js:210-221 | A project number splits at '-' into 'E' plus the two-digit year, '1', and the padded counter |
| ProjectManager.SequenceOfProjectNumber | components/project-manager.js:757-760 | The sequence read back from a generated number is its padded counter, and parses to the counter |
| ProjectManager.SequenceValueNonNegative | components/project-manager.js:758-759 | `parseInt(parts[2]) \|\| 0` is never negative for a generated number's shape |
| ProjectManager.QuoteNumber | components/project-manager.js:677-686 | A numbered project's quote number starts with 'Q' and ends with 'A', and has at least five characters |
| ProjectManager.TenderNumber | components/project-manager.js:688-697 | A numbered project's tender number starts with 'T' and ends with 'A', and has at least five characters |
| ProjectManager.QuoteAndTenderNumbers | components/project-manager.js:677-697 | For a generated project number, the quote and tender numbers are the letter, the project's padded counter, the padded count of existing items plus one, and 'A' |
| ProjectManager.MaxOf | components/project-manager.js:757 | Math.max of a non-empty list is at least each element and is one of them |
| ProjectManager.MaxSequence | components/project-manager.js:757-760 | The largest stored sequence is at least every project's and is not negative |
| ProjectManager.RestoredCounterIsFresh | components/project-manager.js:755-762 | After loading, the next generated number differs from every stored project's number |
| ProjectManager.ValidationErrors | components/project-manager.js:276-297 | The form passes iff the client name and site address are not blank and a client type is chosen. 'Client name is required' comes first exactly when the client name is blank, and 'Site address is required' is reported exactly when the address is blank |
| ProjectManager.FilterProjects | components/project-manager.js:364-381 | A project stays iff its client name, number or site address contains the lower-cased term, and the client type and status match whichever filters are set |
| ProjectManager.EmptyFilterKeepsAll | components/project-manager.js:364-381 | With no term and no filters every project stays, in order |
| ProjectManager.FindProject | components/project-manager.js:830 | find gives the first project with the id, or none when no project has it |
| ProjectManager.Manager.constructor | components/project-manager.js:3-17 | The manager starts with the saved projects when they load, the counter one past the largest stored sequence, or 1 when nothing is saved |
| ProjectManager.Manager.LoadExistingProjects | components/project-manager.js:748-769 | Nothing saved changes nothing. A load failure empties the list. Loaded projects replace the list, and the counter moves one past the largest stored sequence when there is one |
| ProjectManager.Manager.GenerateProjectNumber | components/project-manager.js:210-221 | The number is E, the year, '-1-' and the padded counter, and its sequence reads back as the counter |
| ProjectManager.Manager.CreateProject | components/project-manager.js:223-260 | An invalid form reports its errors and changes nothing. A valid one appends the new project and advances the counter by one |
| ProjectManager.Manager.AddQuoteToProject | components/project-manager.js:829-837 | Succeeds iff a project has the id, and then appends the quote to the first such project only |
| ProjectManager.NewProjectEmpty | components/project-manager.js:231-251 | A new project has status 'enquiry', the form's number and client name, and no quotes, tenders, orders, documents or notes |
| ProjectManager.AddedQuoteAdvancesNumber | components/project-manager.js:677-686 | Adding a quote advances the next quote number's count by one |
| QuoteApi.Missing | api/quote-api.js:375-380 | 'customerId' and 'quoteDate' are reported missing exactly when falsy, and nothing else is reported |
| QuoteApi.LineError | api/quote-api.js:384-394 | A line passes iff it has a stock item or a description, a quantity above 0 and a unit price above 0. A zero price is falsy and so refused |
| QuoteApi.FirstLineError | api/quote-api.js:383-395 | No error iff every line from the start passes; otherwise the error is that of the first failing line |
| QuoteApi.CheckLines | api/quote-api.js:383-395 | The forEach over the lines throws exactly the first failing line's message, or nothing |
| QuoteApi.WithTotal | api/quote-api.js:399-402 | The line gets total `(quantity \|\| 0) * (unitPrice \|\| 0)` and is otherwise unchanged |
| QuoteApi.ComputeTotals | api/quote-api.js:398-405 | Every line in order is the input line with its total, and the subtotal is the sum of those totals |
| QuoteApi.TaxRate | api/quote-api.js:406 | `taxRate \|\| 0.15` is never zero |
| QuoteApi.SumOfLineTotals | api/quote-api.js:404 | Summing positive line totals gives a non-negative subtotal, positive when there is a line |
| QuoteApi.QuoteRequest.ValidateQuoteData | api/quote-api.js:374-413 | Missing fields throw the joined list and a bad line throws its message, both leaving the quote untouched. Without lines the quote is only stamped. Otherwise lines, subtotal, tax and total are set and nothing else changes, and the result is the quote stamped with `now` |
| QuoteApi.AcceptedTotals | api/quote-api.js:383-408 | On an accepted quote every line total is quantity times unit price and positive; the subtotal is positive iff there are lines; the total is the subtotal times one plus the rate |
| QuoteApi.ReferenceParts | api/quote-api.js:480 | The reference template puts 'QT' at 0-1, year at 2-3, month 4-5, day 6-7, '-' at 8 and the sequence after |
| QuoteApi.TwoDigitsShape | api/quote-api.js:476-477 | `padStart(2, '0')` of a month or day gives two digits that parse back to it |
| QuoteApi.QuoteReferenceShape | api/quote-api.js:473-481 | A generated reference is 'QT', six digits, '-' and the sequence text |
| QuoteApi.QuoteReferenceDate | api/quote-api.js:473-481 | The month and day parse back from positions 4-5 and 6-7 |
| QuoteApi.SequenceTextChoice | api/quote-api.js:478 | A truthy sequence is used as given; otherwise the random draw is padded to at least three digits that parse back to it |
| QuoteApi.QueryParams | api/quote-api.js:71-76 | Exactly the filters whose value is not null, undefined or '' become parameters |
| QuoteApi.Utf8 | api/quote-api.js:74 | The UTF-8 bytes of a code point: one byte equal to it below 0x80, otherwise a lead byte 0xC0-0xF7 and continuation bytes 0x80-0xBF |
| QuoteApi.FormEncodeChar | api/quote-api.js:74 | A space becomes '+'; exactly the letters, digits and `*-._` stay as they are; everything else becomes percent-encoded bytes |
| QuoteApi.FormEncode | api/quote-api.js:74 | The encoding holds only safe characters, '+' and '%', and is at least as long as the input |
| QuoteApi.FormEncodeSafe | api/quote-api.js:74 | A string of safe characters encodes to itself |
| QuoteApi.FormEncodeNoSeparators | api/quote-api.js:74 | An encoded key or value holds no '&' and no '=' |
| QuoteApi.ParamReadsBack | api/quote-api.js:74 | A parameter splits at '=' into exactly its encoded key and its encoded value |
| QuoteApi.QueryReadsBack | api/quote-api.js:71-80 | The serialised query splits at '&' into one `key=value` per parameter, in order, each splitting back into its encoded key and value |
| QuoteApi.QuotesPath | api/quote-api.js:78-80 | Without parameters the path is the endpoint; otherwise it is the endpoint, '?' and the form-encoded parameters joined with '&' |
| QuoteBuilder.NewLine | components/quote-builder.js:342-354 | A new line has quantity 1 and no formula; its unit price and total are the stock item's selling price, or 0 |
| QuoteBuilder.Retotal | components/quote-builder.js:505 | The line's total becomes quantity times unit price, absent or zero counting as 0, and nothing else changes |
| QuoteBuilder.Retotalled | components/quote-builder.js:503-507 | Every line keeps its place and is retotalled |
| QuoteBuilder.RetotalledLines | components/quote-builder.js:503-508 | After retotalling, each line's total is its quantity times its unit price with both unchanged; retotalling twice is retotalling once |
| QuoteBuilder.FindLine | components/quote-builder.js:448 | `find` by id gives the first line with the id, or none when no line has it |
| QuoteBuilder.WithoutIdMembers | components/quote-builder.js:497 | After removal, a line is kept iff it was there and its id differs from the removed one |
| QuoteBuilder.WithoutIdConcat | components/quote-builder.js:497 | Filtering a concatenation filters each part |
| QuoteBuilder.WithoutAbsentId | components/quote-builder.js:497 | Removing an id no line has changes nothing |
| QuoteBuilder.Edited | components/quote-builder.js:447-466 | Setting quantity or unit price sets the field and retotals with the other unchanged; a formula with a numeric result sets the quantity and retotals; any other edit only sets its field. The id never changes |
| QuoteBuilder.ItemLine | components/quote-builder.js:694-709 | A template item's line carries its stock code and group, quantity `calculatedQuantity \|\| 0`, the item's unit price, and their product as total |
| QuoteBuilder.GroupLinesAt | components/quote-builder.js:693-714 | The k-th line of a group is the k-th item's line with the k-th id after the start |
| QuoteBuilder.TemplateLinesFollowItems | components/quote-builder.js:687-715 | A template gives one line per item over all groups, in order, each the item line of its group |
| QuoteBuilder.Builder.constructor | components/quote-builder.js:3-16 | The builder starts with no lines, total 0 and saving disabled |
| QuoteBuilder.Builder.CalculateQuoteTotal | components/quote-builder.js:510-513 | The displayed total is the sum of the line totals, and the lines are unchanged |
| QuoteBuilder.Builder.CalculateLineTotals | components/quote-builder.js:503-508 | Every line is retotalled and the displayed total is their sum |
| QuoteBuilder.Builder.AddQuoteLine | components/quote-builder.js:342-359 | The new line is appended with id now plus the old line count, all lines are retotalled, the total redisplayed and saving enabled |
| QuoteBuilder.Builder.UpdateLineField | components/quote-builder.js:447-473 | An unknown id changes nothing. Otherwise only the first line with the id is edited and saving is enabled. The total is redisplayed exactly when quantity, unit price or a numeric formula changed |
| QuoteBuilder.Builder.RemoveLine | components/quote-builder.js:496-501 | The lines with the id are removed and the rest retotalled, the total redisplayed and saving enabled |
| QuoteBuilder.Builder.AppendGroupLines | components/quote-builder.js:693-713 | A group's item lines are appended after the existing lines, nothing else changes |
| QuoteBuilder.Builder.AppendTemplateLines | components/quote-builder.js:687-714 | Each group's item lines are appended in group order |
| QuoteBuilder.Builder.AddTemplateItemsToQuote | components/quote-builder.js:685-716 | The template's item lines are appended, all lines retotalled, the total redisplayed and saving enabled |
| Recents.RecentsService.constructor | src/platform/services/recents.js:3-6 | The service starts with no items |
| Recents.RecentsService.AddItem | src/platform/services/recents.js:8-14 | The item is put first and, past ten items, the oldest is dropped; the list never holds more than ten |
| Recents.RecentsService.GetItems | src/platform/services/recents.js:16-19 | Returns the current items |
| Recents.RecentsService.ClearItems | src/platform/services/recents.js:21-24 | Empties the list |
| Recents.AfterAddShape | src/platform/services/recents.js:8-14 | After adding, the new item is first, followed by the previous items, and the list grows by one until it holds ten, after which the last item is dropped |
| Recents.AddAllKeepsLatest | src/platform/services/recents.js:8-14 | After any series of additions the list is the latest ten (or fewer) items, newest first, continued by the older list |
| Routes.NonEmpty | src/app/routes.jsx:56 | `.filter(p => p)` keeps only non-empty parts, never more than there were |
| Routes.SlashesIgnored | src/app/routes.jsx:86-87 | A leading or trailing slash does not change a path's segments |
| Routes.SegmentsOfParts | src/app/routes.jsx:86-87 | A path built as '/' and slash-free non-empty parts splits back into exactly those parts |
| Routes.MatchProperties | src/app/routes.jsx:85-103 | Every path matches itself, and a pattern without ':' segments matches exactly the paths with the same segments |
| Routes.MatchNeedsSameLength | src/app/routes.jsx:89-91 | A pattern with a different number of segments never matches |
| Routes.FirstMatch | src/app/routes.jsx:76-80 | The first pattern in insertion order that matches, or none when none matches |
| Routes.ResolvePriority | src/app/routes.jsx:69-83 | A registered path gets its own handler; any other path resolves iff some pattern matches it |
| Routes.ParseParams | src/app/routes.jsx:54-67 | `params.id` is set iff the path has at least two segments, the first is customers or products and the second is not 'new', and it is then the second segment |
| Routes.HashPath | src/app/routes.jsx:36 | `hash.slice(1) \|\| '/'`: the path after '#', or '/' when nothing follows |
| Routes.CustomerIdMatches | src/app/routes.jsx:15-16 | '/customers/:id' matches every customer id path, and '/customers/new' only the id 'new' |
| Routes.CustomerIdParam | src/app/routes.jsx:59-61 | A customer path's id is parsed unless it is 'new' |
| Routes.PatternRoute | src/app/routes.jsx:41-52 | A path that is not a key runs the first matching pattern's handler with the parsed id |
| Routes.Router.constructor | src/app/routes.jsx:5-9 | The router holds the nine routes of init and the current route is the initial hash's path |
| Routes.Router.AddRoute | src/app/routes.jsx:31-33 | `routes.set`: the path now maps to the handler, every other path keeps its handler, and keys stay unique |
| Routes.Router.Init | src/app/routes.jsx:11-29 | The nine routes are registered in order |
| Routes.Router.MatchRoute | src/app/routes.jsx:85-103 | True iff the segment counts agree and every non-':' pattern segment equals the path's |
| Routes.Router.FindRouteHandler | src/app/routes.jsx:69-83 | The exact key's handler, else the first matching pattern's, else none |
| Routes.Router.HandleRouteChange | src/app/routes.jsx:35-52 | The hash's path becomes the current route and is rendered with its handler and id, or not found; the table does not change |
| TemplateManager.ProcessItemProperties | components/template-manager.js:327-363 | Processing keeps the item, sets zero pricing. Without a formula there is no quantity. An evaluator that throws gives quantity 0, no calculation and the error. A result gives its value. Nails are computed only for a positive quantity, and code and count go together |
| TemplateManager.RoundHundredths | components/template-manager.js:384 | The result is a whole number of hundredths within half a hundredth of the input |
| TemplateManager.EvaluateFormula | components/template-manager.js:365-389 | Fails exactly when the unguarded substitution throws, with its message; an evaluation that throws gives 0; a result is rounded to hundredths |
| TemplateManager.ProcessItemErrorsAreSubstitution | components/template-manager.js:327-338 | With the source's evaluator, an item carries a formula error iff substituting its variables throws; a formula that fails to evaluate gives quantity 0 and still counts as calculated |
| TemplateManager.ProcessItems | components/template-manager.js:320 | Each item in order is processed |
| TemplateManager.ProcessGroups | components/template-manager.js:318-321 | Each group keeps its name and has its items processed, in order |
| TemplateManager.ProcessKeepsShape | components/template-manager.js:310-325 | A processed template keeps name, description, category, group names and sizes, and each item's source |
| TemplateManager.ItemCountFlat | components/template-manager.js:297 | The summary's reduce counts exactly the items listed group after group |
| TemplateManager.CountWithQuantity | components/template-manager.js:480-482 | Never more than the items counted |
| TemplateManager.CountTemplateItems | components/template-manager.js:472-490 | total is the number of items, withQuantity those with a positive quantity, and withoutQuantity the rest, never negative |
| TemplateManager.ProcessedCountMatchesSummary | components/template-manager.js:290-325 | A processed template holds as many items as its summary's itemCount |
| TemplateManager.ItemCountSameShape | components/template-manager.js:297 | Groups of the same sizes have the same item count |
| TemplateManager.Summaries | components/template-manager.js:290-299 | One summary per template, in order, with its id, name, group count and item count |
| TemplateManager.NailsPerKg | components/template-manager.js:449-457 | The weight table gives a positive count, and 180 for codes it does not list |
| TemplateManager.Ceil | components/template-manager.js:458 | `Math.ceil`: the least integer at or above the number |
| TemplateManager.ConvertNailsToKgRoundsUp | components/template-manager.js:449-459 | The kilograms are the least whole number of hundredths at or above the exact weight |
| TemplateManager.GroupPairs | components/template-manager.js:413-414 | Each item of a group is paired with the group's name, in order |
| TemplateManager.ConsolidateTotals | components/template-manager.js:408-424 | For every code, the tally holds the sum of the nail counts of the items with that code and a positive count, with their group names in order, and holds no entry when there is none |
| TemplateManager.ConsolidateEmptyIff | components/template-manager.js:427 | The group is added exactly when some item has a nail code and a positive nail count |
| TemplateManager.NoneForEmpty | components/template-manager.js:415-422 | A code with no contribution sums to nothing and has no sources |
| TemplateManager.ConsolidatedItems | components/template-manager.js:428-440 | One line per tallied code, in the tally's order, with the total each, its kilograms and the unit 'kg' |
| TemplateManager.ConsolidateNailsInQuote | components/template-manager.js:408-447 | The accumulating loop produces the consolidation of all items, group after group, and the group it adds when there is any |
| TemplateManager.TallyGroup | components/template-manager.js:413-424 | Tallying a group's items in turn extends the consolidation of the pairs so far by that group's pairs |
| TemplateManager.Slug | components/template-manager.js:578 | The slug has no white space and is no longer than the name, every character being '-' or from the name |
| TemplateManager.SlugNoSpace | components/template-manager.js:578 | A name without white space is left as it is |
| TemplateManager.TemplateIdIdempotent | components/template-manager.js:578 | An id is its own id |
| TemplateManager.Store.constructor | components/template-manager.js:3-7 | The store starts with the built-in catalogue |
| TemplateManager.Store.GetAvailableTemplates | components/template-manager.js:290-299 | One summary per stored template, with id, group count and item count |
| TemplateManager.Store.ProcessTemplate | components/template-manager.js:310-325 | An unknown id throws 'Template <id> not found'; a known one gives the processed template |
| TemplateManager.Store.CreateCustomTemplate | components/template-manager.js:577-581 | The template is stored under its slug, replacing any other, and the slug is returned |
| TemplateManager.Store.UpdateTemplate | components/template-manager.js:584-590 | Succeeds iff the id is known, and then spreads the patch over that template only; otherwise nothing changes |
| TemplateManager.Store.DeleteTemplate | components/template-manager.js:593-599 | Succeeds iff the id is known, and then removes it; otherwise nothing changes |
| TemplateManager.StoreEffects | components/template-manager.js:577-599 | A created template is found under its id, a deleted one is gone, and other ids are untouched |
| ProductsApi.ProductKeyNotAll | src/modules/products/api.js:109-110 | A single product's cache key never collides with the list's key |
| ProductsApi.Cached | src/modules/products/api.js:13-19 | An entry is served iff it exists and is younger than five minutes, and then its data is served |
| ProductsApi.CachedAfterStore | src/modules/products/api.js:9-35 | A stored entry is served until it is five minutes old, and storing one key leaves every other key as it was |
| ProductsApi.CachedExpiry | src/modules/products/api.js:15 | An entry that has expired never comes back later |
| ProductsApi.ClearedServesNothing | src/modules/products/api.js:260-263 | After the cache is cleared nothing is served |
| ProductsApi.FindById | src/modules/products/api.js:141 | `find(p => p.id == productId)` gives a listed product whose id loosely equals the requested one, and none iff no product's id does |
| ProductsApi.KeepOrThrow | src/modules/products/api.js:270-275 | A filter whose test throws on some element throws; otherwise it keeps exactly the elements passing the test |
| ProductsApi.KeepOrThrowSame | src/modules/products/api.js:270-275 | Filters with tests that agree everywhere give the same result |
| ProductsApi.KeepOrThrowKeeps | src/modules/products/api.js:270-275 | When the filter does not throw, it is the ordinary filter by any test that agrees with it: order and repeats are kept |
| ProductsApi.OptionalHit | src/modules/products/api.js:272-274 | `(p.x && p.x.toLowerCase().includes(t))` is defined iff the field is text or falsy, and then holds iff it is truthy text containing the term |
| ProductsApi.SearchHit | src/modules/products/api.js:271-274 | A product without a text name throws; a well-formed product is a hit iff its name, SKU, category or description contains the term |
| ProductsApi.Search | src/modules/products/api.js:266-276 | Over well-formed products it does not throw, and it returns exactly the products whose fields contain the lower-cased query, in order; a product without a text name makes it throw |
| ProductsApi.SearchIgnoresCase | src/modules/products/api.js:268 | The query's case does not matter |
| ProductsApi.CategoryHit | src/modules/products/api.js:281-283 | Defined iff the category is text or falsy, and a hit iff it is non-empty text equal to the category, ignoring case |
| ProductsApi.ByCategory | src/modules/products/api.js:279-284 | Throws iff some product has a category that is neither text nor falsy; otherwise the products whose category equals the given one ignoring case, in order |
| ProductsApi.ByCategoryIgnoresCase | src/modules/products/api.js:282 | The category's case does not matter |
| ProductsApi.Active | src/modules/products/api.js:287-290 | Exactly the products whose `active` is truthy |
| ProductsApi.Client.constructor | src/modules/products/api.js:3-7 | The client starts with an empty cache |
| ProductsApi.Client.ClearCache | src/modules/products/api.js:260-263 | The cache is emptied |
| ProductsApi.Client.GetAll | src/modules/products/api.js:9-107 | A fresh cached list is returned with the cache unchanged. Otherwise a fetched list is returned and cached at the current time. Otherwise the sample products are returned, uncached. Result and cache are those of AllProducts and CacheAfterAll |
| ProductsApi.Client.GetById | src/modules/products/api.js:109-151 | A fresh cached product is returned. Otherwise a fetched product is returned and cached. Otherwise it is the first product of getAll's list (AllProducts) whose id loosely equals the requested one, or 'Product <id> not found' when none does, and the cache is the one getAll leaves |
| ClickableFields.CleanNumber | components/interactive-map.js:680-697 | The dialled number holds only digits and '+' and is no longer than the value |
| ClickableFields.CleanNumberCounts | components/interactive-map.js:680-697 | Every digit and '+' is kept as often as it occurs, and every other character is dropped |
| ClickableFields.CleanNumberIdempotent | components/interactive-map.js:680-697 | A value is left alone iff it is all digits and '+'; cleaning twice is cleaning once |
| ClickableFields.WebsiteUrl | components/interactive-map.js:746-769 | The URL always has an http or https scheme: a value with one is kept, any other gets 'https://' in front |
| ClickableFields.WebsiteUrlIdempotent | components/interactive-map.js:746-769 | Normalising twice is normalising once, and the value is kept or prefixed |
| ClickableFields.ActionFor | components/interactive-map.js:678-753 | A phone click calls, an e-mail click mails and a website click opens a page, and no other |
| ClickableFields.Ask | components/interactive-map.js:678-753 | The question for the kind and value is always asked, and the action is taken iff the user agrees |
| ClickableFields.InputCallback | components/interactive-map.js:678-753 | The icon's callback ignores exactly an e-mail without '@' and an empty website |
| ClickableFields.OnClick | components/interactive-map.js:672-803 | The icon ignores an input holding only white space; a display element asks about the text it captured; nothing is done without agreement |
| ClickableFields.PhoneIconIgnoresExactlyBlank | components/interactive-map.js:797-803 | The phone icon ignores an input iff it holds only white space |
| ClickableFields.MailHasAt | components/interactive-map.js:710-724 | Every e-mail action, from an icon or a display element, mails an address holding '@' |
| ClickableFields.VisitHasScheme | components/interactive-map.js:742-771 | Every website action opens a URL with a scheme |
| ClickableFields.MakeClickable | components/interactive-map.js:672-775 | A missing or already enhanced element is untouched. Otherwise it is marked: an input gets its icon button, and a display element showing something (with '@' for e-mail) gets its click handler and title. Nothing else changes |
| Text.Trim | components/project-manager.js:279 | The trimmed text neither starts nor ends with white space and is never longer |
| Text.TrimSlice | components/project-manager.js:279 | trim removes only leading and trailing white space: the result is the input between them |
| JsValues.ToNumberProperties | src/modules/products/schema.js:39-40 | The number a comparison converts to: null, blank text and an empty array are 0, and white space around text does not matter |
| JsValues.ToNumberObject | src/modules/products/schema.js:39-40 | A plain object converts to NaN, so it is neither below 0 nor above the maximum |
| JsValues.LooseEqualsProperties | src/modules/products/api.js:141 | `==` is symmetric; null and undefined equal each other only; a number equals a text iff the text converts to that number; two objects are never loosely equal |
| Sorting.Insert | components/power-apps-framework.js:734-742 | Inserting adds exactly the one element to the multiset of the list |
| Sorting.SortBy | components/power-apps-framework.js:734-742 | `sort` returns a permutation of the list: same length, same multiset |
| Sorting.SortBySorted | components/enhanced-data-grid.js:386-401 | With a comparator that is a total preorder on the elements, the result is ordered by it |
| Sorting.TiesOf | components/global-search.js:150-155 | The elements tied with a given one are exactly those of the list that compare equal to it both ways |
| Sorting.SortByStable | components/global-search.js:150-155 | With a consistent comparator the sort is stable: elements that compare equal come out in their input order |

## Left out

- Rendering is not modelled: the DOM, Bootstrap modals, Google Maps and every `render*`/`setup*` method. Where a method writes into the page, the model keeps the value it writes, such as the displayed quote total or the select-all box state.
- Network I/O is not modelled. This covers `apiCall`, the `fetch` calls, `FileReader`, the Excel upload of the roof-design reader, the GitHub PUT and the base64 read of a file. Their outcomes are parameters.
- The products client's create, update and delete requests (src/modules/products/api.js:153-258) are only network calls, so they are not modelled.
- The quote API's request wrappers (create, update, revisions, approval, templates, PDF export) are only network calls, so they are not modelled.
- Excel workbook parsing is not modelled; the file parser stops at choosing the Excel parser for `.xlsx` and `.xls`.
- The clock, `Date.now()` ids, ISO timestamps and `Math.random` are parameters.
- Timers are not modelled: debounces, `setTimeout` delays and the command registry's subscriber notifications.
- Floating point is not modelled: numbers are exact reals, NaN and Infinity appear only in the formula calculator, and `toFixed`/`toLocaleString` formatting is left out. A number in a row carries its own rendering.
- The formula calculator's function-call pass `processFunctions` (Math.* over doubles and its argument parser) is the parameter `functions` of `FormulaVariables.Evaluate`. `Math.pow` with a fractional exponent is the parameter `pow`.
- The template manager's `evaluateFormula` builds code with `Function(...)`. TemplateManager.EvaluateFormula takes its two steps as parameters: the substitution of variable values, which can throw (a null value, or a name that is not a valid regular expression), and the guarded run, whose failure gives 0. Processing elsewhere takes the evaluator as a parameter that gives a number or the message of what it threw.
- Template export and import (JSON text), `getTemplate`, `setAvailableVariables` and `insertTemplateIntoQuote` are not modelled: the first two are serialisation, and the others are a lookup, an assignment and UI glue.
- `localeCompare` is modelled as code-unit order, with no locale collation.
- `os.path.join` is modelled with the POSIX separator.
- Object identity is not modelled: objects used as ids never compare equal.
- PowerApps.ListView.constructor: a config key given explicitly as `undefined`, or a page size that is negative or not a whole number, cannot be expressed: the page size is a natural number and an absent key is `None`.
- PowerApps.TotalPages and PowerApps.PageWindow require a positive page size. With the page size 0 that an explicit config allows, the source computes Infinity pages (NaN for no rows) and still renders the pagination bar; that bar is not modelled. PowerApps.PageData does cover size 0: the page is empty.
- EnhancedDataGrid.RowIds, EnhancedDataGrid.SelectedRows, EnhancedDataGrid.Grid.SelectAllChanged, EnhancedDataGrid.Grid.GetSelectedData and EnhancedDataGrid.Grid.ExportToExcel: the selection is a set of id values compared structurally. A JavaScript `Set` compares objects and arrays by reference, so two distinct object ids with equal contents are one member here and two in the source. Numbers compare by value and rendering, which agree for ids rendered the usual way.
- EnhancedDataGrid.Grid.ToggleRow takes the number parseInt reads from the checkbox's `data-id`. A row id that does not start with digits (a string id such as `"abc"`) makes the source add NaN, which matches no row; that value is not modelled, so toggling such a row is outside the model.
- EnhancedDataGrid.Grid.SelectionInfo returns the corrected header state (EnhancedDataGrid.HeaderCheckbox), not the size comparison the source writes (EnhancedDataGrid.CountedCheckbox). EnhancedDataGrid.CountedCheckboxAgrees proves the two agree when the selection lies inside the view and the ids are distinct; EnhancedDataGrid.CountedCheckboxHiddenSelection shows where they differ.
- FormulaCalculator.ApplyOperator: every non-finite value is one NaN-like value that absorbs the operations it enters. IEEE arithmetic distinguishes Infinity, -Infinity and NaN, and some of its results are finite again: `1 / Infinity` is 0 and `x % Infinity` is x. The model agrees with the source whenever every operand is finite.
- FormulaCalculator.ApplyOperatorErrors: the error cases are exact, but a non-finite operand always gives the absorbing value, as in the line above.
- FormulaVariables.Evaluate: because of that value, an expression with a non-finite intermediate result is refused as an invalid result. The source refuses only a non-finite final result, so a formula such as `1 / (0 ** -1)` gives 0 there and an error here. Finite intermediate results agree.
- FormulaVariables.ReplaceVariables, FormulaVariables.ReplaceWordNoMatch, FormulaVariables.ReplaceWordAt and FormulaVariables.ReplaceConstants: the legacy pass builds `new RegExp('\\b' + key + '\\b')`. The model reads the key literally and tests that the characters around a match are not word characters. The two agree when the key is made of letters, digits and '_'. A key holding regular-expression syntax (`.`, `*`, `(`, …) or starting or ending with a non-word character matches differently in the source, or makes the RegExp constructor throw.
- FormulaVariables.Validate and FormulaVariables.ValidateNeverThrows: they inherit that reading of the keys, so they agree with the source for keys made of letters, digits and '_'.
- Text.IsSpace, Text.Lower and Text.Upper: white space and case mapping are ASCII only. JavaScript's `trim`, `\s`, `toLowerCase` and `toUpperCase` also cover the other Unicode spaces and letters.
- Text.ParseIntPrefix: `parseInt` with no radix also reads a `0x`/`0X` prefix as hexadecimal; the model reads decimal digits only, so PowerApps.GenerateId takes such a key as 0 where the source reads a hexadecimal number.
- JsValues.Prop: reading a property of null or undefined gives undefined here, where JavaScript throws a TypeError. Where the source guards such a read, the model's result is the same.
- JsValues.Keys: keys keep their insertion order. `Object.keys` lists integer-like keys first, in ascending order, so an object whose keys look like numbers enumerates in a different order in the source.
- AppShell.Shell.constructor: app.js saves the recent and pinned lists to localStorage after every change (app.js:366-378) and, after `init()`'s first await, loads them back (app.js:31, 344-364). Browser storage is not modelled, so the lists start empty and are never persisted.
- ProductsSchema.ValidateField, AppShell.GetAlertIcon, ProductsSchema.Sanitize, GlobalSearch.Search.AddToSearchIndex, GlobalSearch.Search.UpdateSearchIndex, TemplateManager.Store.ProcessTemplate, TemplateManager.Store.UpdateTemplate, TemplateManager.Store.DeleteTemplate and PowerApps.SectionsGroup: an object holds only its own keys. The source looks names up with `obj[name]`, which also finds what Object.prototype provides. A field, type, template id or section named `constructor`, `toString` or the like therefore behaves differently in the source; the model treats it as absent.
- ProductsSchema.Check: a text's length is its number of characters (Unicode scalar values). JavaScript counts UTF-16 code units, so a text with characters outside the Basic Multilingual Plane is longer in the source.
- ProductsApi.Client.GetAll: the server's answer is taken to be an array of products. Any other JSON value is outside the model.
- QuoteApi.FormEncode: characters are Unicode scalar values, so the lone surrogate that URLSearchParams replaces with U+FFFD cannot occur.
- GlobalSearch.Search.constructor: the two sample customers that `loadSearchableData` installs synchronously are sample data, so they are the parameter `sample`.
- CustomerManager.Manager.constructor: the sample customers that `loadSampleData` installs are sample data, so they are the parameter `sample`.
- CustomerManager.Manager.EditCustomer: the undo copy is the customer value itself. `JSON.parse(JSON.stringify(...))` also drops undefined-valued fields and turns non-finite numbers into null; the model keeps them.
- FileParser.ParseCsvLine: the exact field count, one more than the delimiters read outside quotes, is proved for lines without quotes (FileParser.QuoteFreeLine) and for lines of encoded cells (FileParser.ReadEncodedCells). For other lines FileParser.CsvFieldCount gives only the bounds 1 and (delimiters + 1).
- JsValues.StringToNumber reads decimal literals only. `Number()` also reads "Infinity" and the `0x`, `0o` and `0b` prefixes, so such text converts to a number in the source and to NaN here.
- GlobalSearch.QuotesOf: a `quotes` property that is truthy but not an array gives no quotes here; in the source `?.forEach` then throws a TypeError.
- QuoteApi.LineError: a quantity is a number or absent. The source's `> 0` also accepts a numeric text such as "2", which the model cannot express.
- The template-manager module's built-in catalogue (components/template-manager.js:9-288) is sample data; the store takes its catalogue as a parameter.

## Findings

| source | as written | input that shows it | evidently intended | confidence | as-written member | corrected member |
|---|---|---|---|---|---|---|
| components/enhanced-data-grid.js:429-430 | The select-all box compares the number of selected ids with the number of visible rows. A search does not clear the selection (256-259) | Select one row, then search so that only one other row is visible: the box shows checked although no visible row is selected | Checked iff every visible row is selected; indeterminate iff some but not all are | not executed | EnhancedDataGrid.CountedCheckboxHiddenSelection | EnhancedDataGrid.SelectAllShowsChecked |
| components/formula-engine.js:534-535 | Saving chooses PUT to `/formulas/${id}` whenever a formula is being edited. A duplicate is edited with a null id (605-617) | Duplicate a formula, then save: a PUT to `/formulas/null` | A formula without an id is created with a POST to `/formulas` | not executed | FormulaEngine.DuplicateSaveTargetsNull | FormulaEngine.FixedSaveOfDuplicate |
