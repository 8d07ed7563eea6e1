# Tabacchi: a verified model of the ordering cycle

Tabacchi is a desktop program for a small Italian tobacco shop. The shop orders from its wholesale
distributor at a fixed rhythm, and the program covers the whole cycle:

- the catalog of articles, merged with the price list downloaded from the distributor's portal;
- entering an order, article by article, with the stock counted on the shelf;
- the order deadline and the delivery date (levata), taken from the distributor's delivery plan or
  computed from the weekly rule;
- receiving the delivered goods, by hand or with a barcode reader, and archiving the order once every
  line has been checked;
- supplemental orders, importing orders and invoices from the portal, and recomputing consumptions;
- the statistics series, the U88 fax form and the price labels, the backup retention, and the
  embedded browser's script queue.

This project models those parts in Dafny and proves what they promise. The layout follows the
program's files:

| file | models |
|---|---|
| `store.dfy` | the sqlite tables as maps; a transaction replaces the whole database or leaves it alone |
| `reception.dfy` | `RicezioneOrdineDialog`: the reception session, scans, deletions, save and archive |
| `order_entry.dfy` | `OrdineDialog`: navigation, consumption, the running order total |
| `supplemental.dfy` | `SuppletivoDialog`: the supplemental order and its save |
| `lifecycle.dfy` | the main window's guards and actions on orders |
| `recalc.dfy` | `RicalcolaConsumiThread`: recomputing every consumption in one transaction |
| `import_doc.dfy` | `importLogistaDoc`: the levata upsert and the stock estimate |
| `catalog.dfy` | `TabacchiDialog`: barcode changes and the catalog merge |
| `plan_text.dfy` | the delivery plan pasted from the clipboard |
| `deadline.dfy`, `calendar.dfy` | `nextWeekday`, `dataLimiteOrdine`, dates and their text formats |
| `prefs.dfy` | `Preferences.load`/`save` of the Barcode, Tabacchi and PianoLevate sections; barcode framing |
| `holidays.dfy` | Easter and the Italian holidays |
| `descriptor.dfy` | the tree-view column descriptors of `ExtTreeView` |
| `worker.dfy`, `backup.dfy` | `WorkerThread` and the retention step of the FTP backup |
| `stats.dfy` | the series of the two statistics dialogs |
| `printing.dfy` | U88 form placement and page count; label grid placement |
| `browser.dfy` | `createAsyncScript` and the browser's script queue |
| `text.dfy`, `wrappers.dfy` | Python string operations used above; `Option`, `Result` and the error kinds |

Conventions of the model:

- Weights are whole grams and prices are milli-euro per kilogram.
  - The cost of a weight is `Cost(g, p) = (g * p + 500) / 1000` milli-euro, rounded half up.
  - Totals are compared to the cent through `RoundCents`.
- Instants are minutes since 1 January 1970, and days are instants divided by 1440.
- Dialog answers are boolean parameters: true means the user confirmed.
- A `fails` parameter stands for a sqlite error, and the transaction then rolls back.
- Events of the user interface, the web view and the barcode socket are method calls.

Two behaviours of the code worth noting:

- The first order of an article gets the consumption `-giacenza`, because the carried stock starts at 0
  (`tabacchi/main.py:825-841`).
- Overwriting an order on import sets the document's state whatever the old one was
  (`tabacchi/main.py:2148`), and the delivery-plan callback sets INVIATO even on a received order
  (`tabacchi/main.py:1286-1289`).

Three source lines are evidently wrong, and "## Findings" below lists them. Where they occur, the operations use the corrected definitions, and the code as written is modelled beside them.

## Model

| member | source | states |
|---|---|---|
| Store.Store.constructor | tabacchi/preferencesTabacchi.py:183-189 | the connection holds the database given |
| Store.InStock | tabacchi/ordini.py:671 | the in-stock articles are exactly the catalog's articles with InMagazzino, ids kept unique |
| Store.FindArticle | tabacchi/main.py:2167-2182 | an article is found iff the catalog has its code, and the one found has that code |
| Store.DropOrder | tabacchi/main.py:1534-1537 | deleting an order's rows removes exactly the rows of that order and keeps the others as they were |
| Store.WriteKeepsUnique | tabacchi/main.py:918 | writing into an order a date and a pickup that no other order holds keeps the UNIQUE (Data) and UNIQUE (Levata) constraints |
| Reception.TotalAppend | tabacchi/ordini.py:186-189 | appending a row adds that row's value to each running total |
| Reception.TotalUpdate | tabacchi/ordini.py:217-218 | replacing one row moves a total by the new value less the old one |
| Reception.TotalRemove | tabacchi/ordini.py:256-259 | removing one row takes its value off each total |
| Reception.ArchiveGateIffVerified | tabacchi/ordini.py:436-441 | over consistent rows whose totals are their sums, the archive question is asked iff every row is verified |
| Reception.AllineaEnabled | tabacchi/ordini.py:276-278 | "align the order" is offered iff the row's delivered weight is positive and differs from the ordered one |
| Reception.SetValueRow | tabacchi/ordini.py:209-239 | a delivered weight up to the ordered one sets the load and keeps the order; above it, a confirmed value raises the order to the delivery and marks it verified, a refused one changes nothing; row consistency is kept |
| Reception.OverDeliveryEuroPesoAsWritten | tabacchi/ordini.py:234 | the ordered-cost total moves by the change of the loaded cost rather than of the ordered cost |
| Reception.OverDeliveryEuroPeso | tabacchi/ordini.py:232-237 | the ordered-cost total moves by the new cost less the row's old ordered cost |
| Reception.OverDeliveryKeepsSum | tabacchi/ordini.py:229-238 | with the corrected update the ordered-cost total stays the sum over the rows after an over-delivery |
| Reception.AsWrittenDrift | tabacchi/ordini.py:229-238 | as written, the ordered-cost total ends off the rows' sum by the cost of the ordered weight less that of the loaded weight |
| Reception.AsWrittenBlocksArchive | tabacchi/ordini.py:229-449 | an order whose only row is over-delivered from nothing is fully verified and matching in weight, yet the drifted cost total keeps it from being archived |
| Reception.JoinAll | tabacchi/ordini.py:334-351 | the load query yields one joined line per catalog article, in catalog order |
| Reception.ToRow | tabacchi/ordini.py:358-382 | a loaded article becomes a consistent row with its id and barcode |
| Reception.SessionRowsExact | tabacchi/ordini.py:357-384 | the session rows are exactly the loaded articles neither removed nor without a positive ordered weight |
| Reception.ListinoOfExact | tabacchi/ordini.py:385-389 | a barcode is in the price list iff some loaded article outside the session carries it |
| Reception.StoreRowsSpec | tabacchi/ordini.py:309-313 | saving rows sets each row's verification line to its load and weight and leaves other keys as they were |
| Reception.MarkDeletedSpec | tabacchi/ordini.py:305-308 | each removed article's verification line becomes zero and removed; other keys keep their lines |
| Reception.SavedVerifySpec | tabacchi/ordini.py:299-314 | after save a row's line holds its values, a removed article outside the rows is zero and removed, every other key is unchanged |
| Reception.WriteRowsSpec | tabacchi/ordini.py:413-417 | archiving writes each row's ordered weight into the order line, inserting a line for a row the order lacked, and leaves other keys alone |
| Reception.ArchivedDbSpec | tabacchi/ordini.py:405-420 | after archiving the order lines carry the rows' weights, removed articles are zeroed, other orders keep their lines, the order is RICEVUTO and its verification is gone |
| Reception.IndexedBarcodesDistinct | tabacchi/ordini.py:383-384 | the barcode index makes the rows' non-empty barcodes distinct |
| Reception.UpdateRowOk | tabacchi/ordini.py:209-239 | replacing one row by a consistent one with the same id and barcode, and moving the totals by the difference, keeps the session invariant |
| Reception.AppendTotals | tabacchi/ordini.py:186-189 | appending a row and adding its values keeps the totals equal to the sums |
| Reception.AppendRowsOk | tabacchi/ordini.py:173-185 | appending a consistent row with a new id keeps the rows consistent with distinct ids |
| Reception.AppendIndex | tabacchi/ordini.py:192 | indexing the appended row's barcode at its position keeps the barcode index exact |
| Reception.AppendListino | tabacchi/ordini.py:191-192 | the price list stays apart from the rows after the append |
| Reception.AppendRowOk | tabacchi/ordini.py:172-192 | appending a fresh consistent row with its totals keeps the session invariant |
| Reception.AddListinoOk | tabacchi/ordini.py:262 | adding a fresh non-empty barcode to the price list keeps the session invariant |
| Reception.DropListinoOk | tabacchi/ordini.py:191 | dropping a barcode from the price list keeps the session invariant |
| Reception.AppendScannedOk | tabacchi/ordini.py:171-192 | moving a scanned price-list article into the order as a verified row keeps the session invariant |
| Reception.RemoveShape | tabacchi/ordini.py:263-264 | removing row i keeps the rows before it and shifts the ones after it down by one |
| Reception.RemoveKeepsDistinct | tabacchi/ordini.py:263-264 | removing a row keeps the other rows' barcodes distinct |
| Reception.RemoveRowsOk | tabacchi/ordini.py:263-264 | removing a row keeps the rows consistent with distinct ids |
| Reception.RemoveListino | tabacchi/ordini.py:260-272 | after removal the re-indexed barcodes and the price list stay apart, and the removed row's id and barcode are in neither |
| Reception.RemoveRowOk | tabacchi/ordini.py:249-273 | removing a row, moving it to the price list and taking its values off the totals keeps the session invariant |
| Reception.LoadFresh | tabacchi/ordini.py:357-389 | the article load is about to add is not yet among the rows, the price list or the barcode index |
| Reception.UpToStep | tabacchi/ordini.py:357 | the ids and barcodes seen grow by exactly the next article's |
| Reception.LoadFromRow | tabacchi/ordini.py:373-384 | adding the next article as a row keeps what load has built drawn from the articles seen |
| Reception.LoadFromEntry | tabacchi/ordini.py:388-389 | adding the next article to the price list keeps what load has built drawn from the articles seen |
| Reception.LoadSpecStep | tabacchi/ordini.py:365-389 | one turn of load extends the rows, the price list and the removed list exactly as their definitions over one more article |
| Reception.LoadStepRow | tabacchi/ordini.py:365-384 | a turn that adds a row keeps the load invariant, totals included |
| Reception.LoadStepOther | tabacchi/ordini.py:385-389 | a turn that adds no row keeps the load invariant |
| Reception.LoadRows | tabacchi/ordini.py:353-389 | load yields exactly the session rows, price list and removed list of the query, with totals equal to the sums and the barcode index exact |
| Reception.IndexRows | tabacchi/ordini.py:267-273 | the rebuilt index maps exactly the rows' non-empty barcodes to their positions |
| Reception.Session.Empty | tabacchi/ordini.py:55-66 | a new session is empty, clean and consistent |
| Reception.Session.Load | tabacchi/ordini.py:328-399 | a loaded session holds the query's session rows, price list and removed list and is consistent and clean |
| Reception.Session.SetValue | tabacchi/ordini.py:209-239 | (corrected ordered-cost update, see Findings) the row becomes SetValueRow of the old one, the totals move accordingly, the invariant is kept and dirty is set when a change is made |
| Reception.Session.Scan | tabacchi/ordini.py:153-200 | a barcode of the order adds one minimum unit to its row; a price-list barcode, when confirmed, becomes a new verified row and leaves the price list; anything else changes nothing |
| Reception.Session.AddScanned | tabacchi/ordini.py:171-192 | the price-list article becomes the last row, is indexed and leaves the price list, the totals grow by its cost and weight |
| Reception.Session.Delete | tabacchi/ordini.py:241-274 | a confirmed removal drops the row, records its id, returns it to the price list and takes its values off the totals; a refused one changes nothing |
| Reception.RemoveRow | tabacchi/ordini.py:250-273 | removing row i takes its carico, peso and their costs off the four totals, returns its barcode to the price list and rebuilds the barcode index over the rows left, which keeps the session invariant |
| Reception.Session.ChangePeso | tabacchi/ordini.py:280-297 | a confirmed alignment sets the ordered weight and cost to the delivered ones and marks the row verified, moving the ordered totals |
| Reception.Session.Save | tabacchi/ordini.py:299-326 | on success the verification table becomes SavedVerify of the old one and the session is clean; on a database error nothing changes |
| Reception.Session.UpdateOrdine | tabacchi/ordini.py:405-432 | on success the database becomes ArchivedDb of the old one and the session is clean; on an error nothing changes |
| Reception.Session.Close | tabacchi/ordini.py:453-469 | the dialog closes iff nothing is unsaved or the loss is confirmed |
| Reception.Session.OkClose | tabacchi/ordini.py:434-451 | saves, archives when every row is verified and the user confirms, then closes as Close does; the dialog stays dirty only when the save fails and no archive succeeds, so after a successful save it closes without asking |
| Reception.Open | tabacchi/ordini.py:328-351 | a resumed verification is read back; otherwise the order's lines are seeded into the verification table, unless the insert fails |
| Reception.VerifiedTotalsAgree | tabacchi/ordini.py:436-441 | when every row is verified, the loaded and ordered totals agree in weight and in cost |
| Reception.ZeroDeletedSpec | tabacchi/ordini.py:411-412 | zeroing the removed articles keeps the same lines, sets Ordine to 0 on the removed articles' lines of this order and leaves every other line alone |
| OrderEntry.SumCostsRemove | tabacchi/ordini.py:690-694 | the order total over the lines is one line's cost plus the total over the others |
| OrderEntry.SumCostsPut | tabacchi/ordini.py:791-796 | putting one line moves the order total by its new cost less its old cost, if it had one |
| OrderEntry.LatestExists | tabacchi/ordini.py:703-705 | when some order is dated before the date, there is a latest such order |
| OrderEntry.PreviousOrder | tabacchi/ordini.py:703-708 | the previous order is the one with the latest date before the given one, and there is none iff no order is dated earlier |
| OrderEntry.PreviousOrderAddLater | tabacchi/ordini.py:680-708 | adding an order dated at or after the date does not change which order came before it |
| OrderEntry.StartIndex | tabacchi/ordini.py:756-760 | the dialog opens at the remembered position when it is inside the list, otherwise at the last article |
| OrderEntry.SpinValue | tabacchi/ordini.py:909-918 | a spin button value lies between 0 and 50 minimum units, and a value already in that range is kept |
| OrderEntry.UpsertLine | tabacchi/ordini.py:803-810 | the update sets weight, stock and consumption of an existing line keeping its price and description, the insert adds the full line, and no other line changes |
| OrderEntry.DivModUnique | tabacchi/ordini.py:858 | the quotient and remainder of a division are determined by x = k*n + r with 0 <= r < n |
| OrderEntry.NavigationInverse | tabacchi/ordini.py:856-874 | moving by delta and then by -delta around the list returns to the same article |
| OrderEntry.OrderEditor.constructor | tabacchi/ordini.py:652-661 | the dialog starts at the given article with the spin buttons showing its line, clean, and with the total equal to the sum of the line costs |
| OrderEntry.OrderEditor.ShowInfo | tabacchi/ordini.py:876-923 | the spin buttons show the current article's counted stock and order, 0 without a line, bounded to 50 minimum units |
| OrderEntry.OrderEditor.QuantitaChange | tabacchi/ordini.py:832-839 | the stock count is set and the dialog is dirty; in edit mode the order becomes the minimum level less the stock |
| OrderEntry.OrderEditor.OrdineChange | tabacchi/ordini.py:842-854 | the order value is set and the dialog is dirty |
| OrderEntry.OrderEditor.Update | tabacchi/ordini.py:779-823 | when dirty the current article's line becomes the spin values with their cost and consumption, the total stays the sum of the costs and the database line is upserted unless the write fails; when clean nothing changes |
| OrderEntry.OrderEditor.Move | tabacchi/ordini.py:856-874 | after saving the current line, the position moves by delta modulo the list size and the spin buttons show the new article |
| OrderEntry.OrderEditor.Rewind | tabacchi/ordini.py:856-859 | the position moves back by one around the list |
| OrderEntry.OrderEditor.Forward | tabacchi/ordini.py:861-864 | the position moves forward by one around the list |
| OrderEntry.OrderEditor.Previous | tabacchi/ordini.py:866-869 | the position moves back by ten around the list |
| OrderEntry.OrderEditor.Next | tabacchi/ordini.py:871-874 | the position moves forward by ten around the list |
| OrderEntry.OrderEditor.Close | tabacchi/ordini.py:929-949 | the current line is saved, the position is stored as the order's LastPos unless the write fails, and no other order changes |
| OrderEntry.LoadEntries | tabacchi/ordini.py:688-694 | the lines read back are exactly the order's lines with cost price times weight, and the total is their sum |
| OrderEntry.Open | tabacchi/ordini.py:652-765 | no in-stock article means no dialog; a new order is inserted with its pickup date exactly when the insert neither fails nor finds another order with the same date or pickup (UNIQUE (Data), UNIQUE (Levata)), so both constraints stay true; an existing order is read back with its lines and remembered position; both carry the previous order's lines |
| OrderEntry.Consumo | tabacchi/ordini.py:769-775 | consumption plus the stock now is the stock the previous order left, and without a previous order it is minus the stock |
| Supplemental.LoadCombo | tabacchi/ordini.py:510-529 | the combo lists URGENTE and STRAORDINARIO; an ordinary order starts as URGENTE and makes the dialog dirty; a known type is selected, an unknown one selects the first entry |
| Supplemental.SumsUpdate | tabacchi/ordini.py:538-539 | changing one row moves both totals by its new value less its old one |
| Supplemental.SumsAppend | tabacchi/ordini.py:564-566 | appending a row adds its quantity and amount to the totals |
| Supplemental.LoadedRows | tabacchi/ordini.py:551-564 | one dialog row per article of the query's listing, in the listing's order, holding its stored supplemental quantity or 0 |
| Supplemental.ListingExists | tabacchi/ordini.py:551 | the query "where t.InMagazzino order by t.Tipo, t.Descrizione" always has an answer: the in-stock articles sorted by type then description, each once |
| Supplemental.SortListingOk | tabacchi/ordini.py:551 | sorting articles with distinct codes by type then description gives them sorted, with the codes still distinct |
| Supplemental.LoadedRowsListed | tabacchi/ordini.py:551-564 | the dialog's rows are those of the in-stock articles, each once, sorted by Tipo and then by Descrizione |
| Supplemental.SavedLinesSpec | tabacchi/ordini.py:602-610 | after save the order's supplemental lines are exactly the rows with a positive quantity, with that quantity, and other orders' lines are unchanged |
| Supplemental.SuppletivoEditor.constructor | tabacchi/ordini.py:475-505 | the dialog holds one row per in-stock article, in the query's Tipo, Descrizione order, with the stored quantities, totals equal to their sums, and is dirty iff the order was ordinary |
| Supplemental.SuppletivoEditor.ReadRows | tabacchi/ordini.py:555-566 | the loading loop gives one row per listed article, in the listing's order, with the weight and amount totals equal to the sums over those rows |
| Supplemental.SuppletivoEditor.ChangeTipo | tabacchi/ordini.py:507-508 | choosing a type selects it and makes the dialog dirty |
| Supplemental.SuppletivoEditor.ChangeData | tabacchi/ordini.py:507-508 | choosing a delivery date sets it and makes the dialog dirty |
| Supplemental.SuppletivoEditor.ChangeValue | tabacchi/ordini.py:531-541 | the row takes the new quantity and its amount; weight and amount totals move by the difference |
| Supplemental.SuppletivoEditor.Save | tabacchi/ordini.py:575-625 | save is accepted iff a date is set and the total weight is positive; then the database becomes SavedDb of the old one, unless the write fails |
| Supplemental.SuppletivoEditor.SavedDb | tabacchi/ordini.py:593-610 | a committed save changes only the supplemental lines and the saved order's header: the catalog, the order lines, the checks and every other order are kept |
| Supplemental.SuppletivoEditor.Run | tabacchi/ordini.py:628-646 | the dialog is shown again only while there are unsaved changes the user wants saved and save refuses them; a clean dialog closes after one round without writing; a dirty one whose first answer asks for the save and whose save is accepted leaves the database as SavedDb gives it, or as it was when the write fails; a dirty one whose first answer declines closes unsaved and still dirty |
| Supplemental.ToSRow | tabacchi/ordini.py:557-564 | a row of the dialog belongs to its article and its amount is its quantity times the price per kilogram |
| Deadline.NextWeekday | tabacchi/preferencesTabacchi.py:311-315 | the result is at the given time, strictly after d, on the given weekday, 0 to 7 days after d's date |
| Deadline.NextWeekdayEarliest | tabacchi/preferencesTabacchi.py:305-315 | no instant after d on that weekday at that time comes before the result |
| Deadline.NextWeekdayFridayToThursday | tabacchi/preferencesTabacchi.py:309 | Friday 12 December 2014 9:00 gives Thursday 18 December 00:00 |
| Deadline.NextWeekdaySameDay | tabacchi/preferencesTabacchi.py:310 | Tuesday 3 May 2016 10:27 with 11:00 gives the same day at 11:00 |
| Deadline.FirstOpenRow | tabacchi/preferencesTabacchi.py:332-336 | the first schedule row in list order whose deadline is after the reference, or none when every deadline is past |
| Deadline.GiornoOrdine | tabacchi/preferencesTabacchi.py:341 | (giornoLevata - ggPerOrdine) mod 5 is a weekday from Monday to Friday |
| Deadline.DataLimiteOrdine | tabacchi/preferencesTabacchi.py:327-348 | with the site schedule on, the first open row's deadline and delivery; otherwise, or with no open row, the weekday fallback |
| Deadline.DeadlineAfterReference | tabacchi/preferencesTabacchi.py:327-348 | the deadline is always strictly after the reference instant |
| Deadline.FallbackDeadlineShape | tabacchi/preferencesTabacchi.py:341-343 | the fallback deadline falls on giornoOrdine at oraInvio:00, within 7 days, and is the earliest such instant after the reference |
| Deadline.FallbackLevataShape | tabacchi/preferencesTabacchi.py:345-346 | the fallback delivery falls on giornoLevata, 1 to 7 days after the deadline's date |
| Lifecycle.NewOrderCheck | tabacchi/main.py:1625-1663 | a new order is allowed iff every order is received and none is dated after now |
| Lifecycle.NewOrderKeepsOneOpen | tabacchi/main.py:1625-1663 | the order created after an accepted check is the only open order and the most recent one |
| Lifecycle.ReceptionCheck | tabacchi/main.py:1099-1121 | reception opens iff the order was sent and a barcode reader is set; an unsent order gets its message |
| Lifecycle.SuppletivoCheck | tabacchi/main.py:1556-1574 | a supplemental order is allowed iff the order is no longer in progress |
| Lifecycle.SendCheck | tabacchi/main.py:1399-1489 | an order is generated and sent iff it is in progress |
| Lifecycle.RefreshMenus | tabacchi/main.py:1061-1075 | send and U88 are enabled exactly for an order in progress, reception exactly for a sent one, the two supplemental items exactly for an order with a supplemental order |
| Lifecycle.DeleteSuppletivo | tabacchi/main.py:1576-1611 | with a supplemental order, a confirmed deletion that does not fail drops its lines and resets the order to ordinary; otherwise nothing changes |
| Lifecycle.Cascade | tabacchi/main.py:1499-1550 | deleting an order removes it with all its lines, verification and supplemental rows and keeps every other order and line |
| Lifecycle.DeleteOrdine | tabacchi/main.py:1499-1550 | an order is deleted iff it is in progress or the first warning is confirmed, and the deletion is confirmed and does not fail |
| Lifecycle.UpdateOrder | tabacchi/main.py:1124-1145 | the order's state is set unless the write fails; nothing else changes |
| Lifecycle.CheckDataLevata | tabacchi/main.py:1678-1715 | an order past its deadline passes only when the move is confirmed and stored, which fails when another order already has that date or the new pickup; then its date is now and its pickup the new one; afterwards a passing order's deadline is not past, and unique dates and pickups stay unique |
| Lifecycle.EditOrder | tabacchi/main.py:1717-1740 | an order in progress opens for editing only with a deadline not past; any other order opens read-only and untouched |
| Lifecycle.OrdineDict | tabacchi/main.py:1424-1426 | the dictionary holds exactly the articles ordered with a positive weight |
| Lifecycle.Warnings | tabacchi/main.py:1428-1437 | the warnings are exactly the in-stock articles with a positive minimum level that are not ordered, in order |
| Lifecycle.OrderedLines | tabacchi/main.py:1410-1411 | the order sent holds exactly the lines with a positive weight, with that weight |
| Lifecycle.MakeOrder | tabacchi/main.py:1390-1497 | an order is generated iff it is in progress, its deadline is not past or the shift to a new deadline is confirmed, stored and clashes with no other order, and it has no warnings or they are confirmed; the file is its positive lines |
| Lifecycle.FindConsegna | tabacchi/main.py:1276-1283 | the state found is the first plan row's whose delivery is the order's pickup day, and none iff no row has that day |
| Lifecycle.PianoLevateCallback | tabacchi/main.py:1270-1291 | the order becomes sent iff the first plan row with its pickup day has a valid state and the write succeeds; otherwise nothing changes |
| Lifecycle.NotOrdered | tabacchi/main.py:1430-1437 | the warning lists a description iff an article with a positive minimum level has it and was not ordered, and has no more entries than the articles |
| Calendar.Combine | tabacchi/preferencesTabacchi.py:315 | combining a day and a time of day gives an instant with that date and that time |
| Calendar.CombineSplit | tabacchi/preferencesTabacchi.py:315 | an instant is the combination of its own date and time |
| Calendar.InstantOrder | tabacchi/preferencesTabacchi.py:327-348 | instants compare by date first, then by time of day |
| Calendar.Weekday | tabacchi/preferencesTabacchi.py:312 | the weekday is between Monday = 0 and Sunday = 6 |
| Calendar.WeekdayShift | tabacchi/preferencesTabacchi.py:312-315 | moving k days ahead moves the weekday by k modulo 7 |
| Calendar.FormatDate | tabacchi/preferencesTabacchi.py:294 | a valid date prints as ten characters, "%d/%m/%Y" |
| Calendar.ParseDate | tabacchi/preferencesTabacchi.py:246 | a parsed date is a valid calendar date |
| Calendar.FormatDateTime | tabacchi/preferencesTabacchi.py:295 | a valid date and time prints as eighteen characters, "%d/%m/%Y - %H:%M" |
| Calendar.ParseDateTime | tabacchi/preferencesTabacchi.py:248 | a parsed date and time is valid |
| Calendar.ParseFormatDate | tabacchi/preferencesTabacchi.py:246-295 | a date printed by save is read back by load unchanged |
| Calendar.FormatParseDate | tabacchi/preferencesTabacchi.py:246-295 | a date text load accepts prints back as the same text |
| Calendar.ParseFormatDateTime | tabacchi/preferencesTabacchi.py:248-295 | a deadline printed by save is read back by load unchanged |
| Calendar.FormatParseDateTime | tabacchi/preferencesTabacchi.py:248-295 | a deadline text load accepts prints back as the same text |
| Calendar.FormatIsoDate | tabacchi/preferencesTabacchi.py:275 | a valid date prints as ten characters, "%Y-%m-%d" |
| Calendar.ParseIsoDate | tabacchi/preferencesTabacchi.py:214 | a parsed catalog date is a valid calendar date |
| Calendar.ParseFormatIsoDate | tabacchi/preferencesTabacchi.py:214-275 | a catalog date printed by save is read back by load unchanged |
| Calendar.FormatParseIsoDate | tabacchi/preferencesTabacchi.py:214-275 | a catalog date text load accepts prints back as the same text |
| Prefs.LookupAppend | tabacchi/preferencesTabacchi.py:199-208 | an option is looked up in the first part of a section that has it |
| Prefs.Set | tabacchi/preferencesTabacchi.py:259-263 | setting a new option appends it at the end of the section |
| Prefs.SetLookup | tabacchi/preferencesTabacchi.py:259-263 | after setting an option it reads back the value set, and other options read as before |
| Prefs.HasKeyAppend | tabacchi/preferencesTabacchi.py:255-264 | an option is in a joined section iff it is in one of its parts |
| Prefs.EntriesLack | tabacchi/preferencesTabacchi.py:260-264 | the options written for the first n readers hold no option of reader n or later |
| Prefs.SaveBarcode | tabacchi/preferencesTabacchi.py:255-264 | a Barcode section is written iff there is a reader: the default reader, then device, addr and port of each reader in order |
| Prefs.KeySet | tabacchi/preferencesTabacchi.py:203 | a section has no more distinct option names than options, and every option's name is among them |
| Prefs.DeviceKeys | tabacchi/preferencesTabacchi.py:203 | the names device0 to device(n-1) are n distinct names |
| Prefs.PresentBound | tabacchi/preferencesTabacchi.py:203-207 | the read loop finds no more readers than the section has options, so it stops |
| Prefs.DefaultOf | tabacchi/preferencesTabacchi.py:202 | a missing default reader reads as -1 |
| Prefs.LookupEntries | tabacchi/preferencesTabacchi.py:260-263 | each saved reader's options hold its name, address and port |
| Prefs.LookupTriple | tabacchi/preferencesTabacchi.py:261-263 | three distinct options written together each read back their own value |
| Prefs.SavedLookups | tabacchi/preferencesTabacchi.py:255-264 | the saved section holds each reader's options and no device option after the last reader |
| Prefs.PortRoundTrip | tabacchi/preferencesTabacchi.py:205-263 | a port written with str reads back with getint |
| Prefs.ReadStep | tabacchi/preferencesTabacchi.py:203-208 | one turn of the read loop adds the reader whose options are present |
| Prefs.ReadBack | tabacchi/preferencesTabacchi.py:203-208 | from reader i on, the loop reads back exactly the readers saved from i on |
| Prefs.ReadOne | tabacchi/preferencesTabacchi.py:203-208 | a present reader followed by the rest reads as that reader then the rest |
| Prefs.BarcodeRoundTrip | tabacchi/preferencesTabacchi.py:199-264 | loading the Barcode section save wrote gives back the default reader and every reader in order |
| Prefs.ParseBool | tabacchi/preferencesTabacchi.py:219 | getboolean accepts exactly 1/yes/true/on and 0/no/false/off, without regard to case, the first four as true |
| Prefs.BoolRoundTrip | tabacchi/preferencesTabacchi.py:219-271 | a flag saved as True or False reads back as itself |
| Prefs.GetInt | tabacchi/preferencesTabacchi.py:220-222 | a missing option reads as its fallback |
| Prefs.SettingsRoundTrip | tabacchi/preferencesTabacchi.py:210-274 | the settings saved read back as themselves without error, whatever was loaded before |
| Prefs.SavePlan | tabacchi/preferencesTabacchi.py:291-296 | the PianoLevate section is the plan, keyed by delivery date, each value the deadline and the four text fields joined by commas |
| Prefs.ReadPlan | tabacchi/preferencesTabacchi.py:242-249 | the rows read are valid and no more than the items |
| Prefs.PlanEntriesAt | tabacchi/preferencesTabacchi.py:293-296 | one item per plan row, holding its date key and joined value |
| Prefs.PlanSectionEntries | tabacchi/preferencesTabacchi.py:293-296 | with distinct delivery dates no saved row overwrites another |
| Prefs.SplitPlanValue | tabacchi/preferencesTabacchi.py:247 | a saved value splits back into the deadline and the four fields when none holds a comma |
| Prefs.ReadEntries | tabacchi/preferencesTabacchi.py:244-249 | reading the saved items gives back the plan without error |
| Prefs.PlanRoundTrip | tabacchi/preferencesTabacchi.py:242-296 | a plan with distinct deliveries and no commas in its fields reads back as itself |
| Prefs.FramesError | tabacchi/preferencesTabacchi.py:127-134 | the reader loop ends with the error iff some chunk is non-empty and lacks the CR LF suffix |
| Prefs.Framed | tabacchi/preferencesTabacchi.py:131-132 | one chunk per code |
| Prefs.FramesRoundTrip | tabacchi/preferencesTabacchi.py:127-134 | codes each sent with CR LF are delivered as themselves, without error |
| Prefs.FramesSnoc | tabacchi/preferencesTabacchi.py:128-134 | one more chunk is skipped when empty, delivered without its suffix, or raises |
| Prefs.FramesStop | tabacchi/preferencesTabacchi.py:125-137 | after the error nothing more is read or delivered |
| Prefs.ReadLoop | tabacchi/preferencesTabacchi.py:124-141 | (corrected bytes suffix, see Findings) the codes delivered are those framed from the chunks read before the stop; a bad chunk leaves the thread in ERROR with the message, otherwise it is stopped or still running |
| Prefs.EndsWithValue | tabacchi/preferencesTabacchi.py:131 | endswith raises iff the data and the suffix are not both bytes |
| Prefs.AsWrittenNeverDelivers | tabacchi/preferencesTabacchi.py:127-137 | as written, bytes from the socket are never delivered, and the first non-empty chunk raises TypeError |
| Prefs.FramedCodeExample | tabacchi/preferencesTabacchi.py:128-132 | the code "123" with CR LF raises TypeError as written, and is delivered as "123" once the suffix is bytes |
| Prefs.LoadBarcode | tabacchi/preferencesTabacchi.py:198-208 | loading the Barcode section leaves the settings and the plan alone |
| Prefs.Loaded | tabacchi/preferencesTabacchi.py:195-249 | load only appends to the plan; without a Barcode section the reader list is empty and the default kept; without a Tabacchi section settings, catalog date, sizes and plan are kept; a missing or malformed catalog date raises before the settings and the plan are read, a malformed size before the plan; a clean load read the catalog date from the file |
| Prefs.LoadedTabacchi | tabacchi/preferencesTabacchi.py:210-249 | the Tabacchi part: a bad catalog date raises at once and changes nothing, a bad size stops before the plan; readers are untouched and the plan only grows |
| Prefs.LoadedSizes | tabacchi/preferencesTabacchi.py:227-249 | the sizes, then the plan: a bad size stops before the plan; settings, readers and catalog date are untouched |
| Prefs.SaveLoadRoundTrip | tabacchi/preferencesTabacchi.py:195-298 | loading what save wrote gives back the settings, the catalog date, the sizes, the readers and the default reader (when there is one), and appends the plan when it is taken from the site |
| Prefs.SavedSections | tabacchi/preferencesTabacchi.py:252-298 | save always writes Tabacchi (settings, catalog date and sizes), writes Barcode iff there are readers and PianoLevate iff the plan comes from the site |
| Prefs.Preferences.constructor | tabacchi/preferencesTabacchi.py:149-176 | the defaults: Thursday pickup, 11 o'clock, two days per order, catalog date today, sizes 0, no reader (-1), no plan |
| Prefs.Preferences.Save | tabacchi/preferencesTabacchi.py:252-298 | the configuration written is SavedConfig of the preferences |
| Prefs.Preferences.LoadPlan | tabacchi/preferencesTabacchi.py:242-249 | the rows read are appended to the plan, and a malformed row stops the read with its error |
| Prefs.Preferences.Load | tabacchi/preferencesTabacchi.py:195-249 | the new preferences and error are Loaded of the configuration and the old preferences |
| Prefs.Preferences.LoadTabacchi | tabacchi/preferencesTabacchi.py:210-249 | the new preferences and error are LoadedTabacchi of the configuration and the old preferences |
| Prefs.Preferences.LoadSizes | tabacchi/preferencesTabacchi.py:227-249 | the new preferences and error are LoadedSizes of the configuration and the old preferences |
| Prefs.Preferences.LoadDevices | tabacchi/preferencesTabacchi.py:198-208 | the loop over device0, device1, ... gives the devices read from the section and the first error |
| Prefs.Preferences.ReadDevice | tabacchi/preferencesTabacchi.py:203-208 | one turn reads device i and, when its port parses, continues with the next device; a bad port stops the reading with its error |
| Prefs.Preferences.ReadPlanRow | tabacchi/preferencesTabacchi.py:244-249 | one turn parses the option into a valid plan row followed by the rest, or stops the reading with its error |
| Prefs.ReadSettings | tabacchi/preferencesTabacchi.py:219-222 | reading the options fails iff one of them is malformed, and the plan flag is true iff the option is present and reads true |
| Prefs.CatalogDate | tabacchi/preferencesTabacchi.py:214 | a missing dataCatalogo raises TypeError; a present one is read iff it is a "%Y-%m-%d" date, and the date read prints back as the option |
| Prefs.GetFloat | tabacchi/preferencesTabacchi.py:227-230 | a missing size reads as 0; a present one is read iff it is a float literal, and is kept as that literal |
| Prefs.ReadSizes | tabacchi/preferencesTabacchi.py:227-230 | reading the four sizes fails iff one is not a float; on success each size is the option read; the catalog date is untouched |
| Prefs.TabacchiRoundTrip | tabacchi/preferencesTabacchi.py:210-287 | the Tabacchi section save writes reads back the catalog date, the settings and the sizes without error |
| Prefs.SettingsPrefix | tabacchi/preferencesTabacchi.py:219-222 | options after the four deadline settings do not change how they read |
| Prefs.ExtrasLookups | tabacchi/preferencesTabacchi.py:214-230 | the catalog date and the sizes saved after the settings are the values looked up |
| Prefs.Preferences.ClearPlan | tabacchi/main.py:1246 | the plan list is emptied in place and the preferences stay valid |
| Prefs.Preferences.AppendPlanRow | tabacchi/main.py:1262 | a valid row is appended at the end of the plan list and nothing else in the plan changes |
| PlanText.ParseLine | tabacchi/main.py:1248-1262 | a line gives a plan row iff it has six tab-separated fields whose first two parse as date and deadline, and the row holds those fields |
| PlanText.ParsedRows | tabacchi/main.py:1247-1262 | the rows kept are valid and at most one per line |
| PlanText.ParsedRowsAppend | tabacchi/main.py:1247-1262 | the lines are parsed one by one, independently of each other |
| PlanText.ParsedRowsOne | tabacchi/main.py:1248-1262 | one line adds its row when it parses and nothing otherwise |
| PlanText.ParseClipboard | tabacchi/main.py:1238-1262 | with text on the clipboard the clipboard is emptied and the plan becomes the rows parsed from its lines; with none nothing changes |
| PlanText.PlanLineParses | tabacchi/main.py:1248-1262 | a row written as a tab-separated line parses back as itself |
| PlanText.JoinNoBoundary | tabacchi/main.py:1244 | joining text without line breaks by a non-break gives text without line breaks |
| PlanText.FirstBoundaryAfter | tabacchi/main.py:1244 | the first line break after a plain prefix is right at its end |
| PlanText.SplitLinesJoin | tabacchi/main.py:1244 | splitlines gives back non-empty plain lines joined by newlines |
| PlanText.PlanTableRoundTrip | tabacchi/main.py:1238-1262 | a table of plain rows copied as text is parsed back into the same rows |
| PlanText.AllParse | tabacchi/main.py:1247-1262 | lines that each parse give their rows in order |
| PlanText.AddLine | tabacchi/main.py:1247-1262 | one pass of the loop: the plan grows from the rows of the first k lines to the rows of the first k + 1 |
| PlanText.ParsedRowsSnoc | tabacchi/main.py:1247-1262 | the rows of one more line are the earlier rows followed by that line's row, if it parses |
| Holidays.EasterF | tabacchi/utility.py:50-55 | the intermediate f of the computation is between 114 and 148 |
| Holidays.Easter | tabacchi/utility.py:49-58 | Easter falls between 22 March and 25 April and is a valid date |
| Holidays.EasterMonday | tabacchi/utility.py:69-70 | Easter Monday is (me, de + 1), or (me + 1, 1) when de is 31 |
| Holidays.EasterMondayIsNextDay | tabacchi/utility.py:67-72 | Easter Monday is a valid date, the day after Easter |
| Holidays.ItalianHoliday | tabacchi/utility.py:45-72 | a holiday iff (month, day) is in ITALIAN_HOLIDAYS, is Easter or is Easter Monday |
| Holidays.Easter2024 | tabacchi/utility.py:49-72 | Easter 2024 is 31 March and its Monday 1 April |
| Holidays.Holidays2024 | tabacchi/utility.py:62-72 | 1 April 2024 is a holiday, 2 April is not |
| Holidays.Easter2016 | tabacchi/utility.py:49-72 | Easter 2016 is 27 March and its Monday 28 March |
| Import.StatoOf | tabacchi/main.py:2127 | an invoice is imported as received, an order as sent |
| Import.LevelsOf | tabacchi/main.py:2112-2121 | the levels of a neighbouring order are its articles, each with ordered weight plus stock |
| Import.CatalogLevels | tabacchi/main.py:2124-2125 | the current levels are defined exactly for the catalog's articles |
| Import.ExistingDetermined | tabacchi/main.py:2131-2144 | with unique pickups, the order the levata query finds is determined, so taking the first row of its answer is taking the only one |
| Import.Estimate | tabacchi/main.py:2176-2188 | without both neighbouring orders the stock is 0; otherwise it fails iff the article has no level, is never negative, and is the level less the weight unless that is negative |
| Import.EstimateBelowNeighbours | tabacchi/main.py:2178-2186 | an article present in both neighbours gets a stock no higher than either level less the weight, or 0 |
| Import.InsertRowsLines | tabacchi/main.py:2169-2193 | a completed insert loop adds exactly one line per row, with its weight, price and estimated stock, and keeps every line already there |
| Import.ImportCancelled | tabacchi/main.py:2136-2155 | refusing to overwrite an order with the same pickup leaves the database unchanged |
| Import.ImportedSpec | tabacchi/main.py:2127-2194 | a successful import writes the order with the document's date, pickup and state, gives it exactly the document's lines with their estimates, and leaves other orders and their lines alone |
| Import.ImportedFails | tabacchi/main.py:2104-2198 | the import fails iff it goes ahead and the date is taken by another order, some row has no level, or two rows name the same article |
| Import.ImportedKeepsUnique | tabacchi/main.py:2131-2152 | a completed import keeps order dates and pickups unique: the date was checked against the other orders and the pickup is new or the overwritten order's own |
| Import.HeaderKeepsUnique | tabacchi/main.py:2144-2152 | writing the document's header into the found or new order keeps dates and pickups unique when no other order has the document's date |
| Import.ImportedKeyError | tabacchi/main.py:2182 | a KeyError means some row's article is not in the catalog |
| Import.InsertRowsKeyError | tabacchi/main.py:2182 | the insert loop raises KeyError only for an article missing from the current levels |
| Import.ImportDoc | tabacchi/main.py:2094-2206 | the database becomes what Imported gives, or is left as it was when the import fails or is cancelled; unique dates and pickups stay unique |
| Import.InsertLines | tabacchi/main.py:2169-2193 | the insert loop over the document rows ends where InsertRows does: the same lines, or the same KeyError for an article missing from the catalog |
| Import.InsertRowsOk | tabacchi/main.py:2169-2193 | the insert loop runs to the end iff every row can be inserted |
| Import.TargetEmpty | tabacchi/main.py:2130-2158 | before the rows go in, the target order has no line, and every line of another order is kept as it was |
| Catalog.PiecePrice | tabacchi/main.py:589-599 | without a positive piece count the piece price is 0; with one it is the pack's cost divided by the count, down to a whole milli-euro |
| Catalog.CatalogBarcodes | tabacchi/main.py:617-636 | a catalog that holds the list's barcodes row for row has unique barcodes exactly when the list does |
| Catalog.Rekeyed | tabacchi/main.py:483-487 | the barcode index loses the old barcode, when there was one, and gains the new one, when it is not empty |
| Catalog.SearchGramsNone | tabacchi/main.py:691-692 | the search finds nothing iff no position holds '*', one to three digits and "GR" |
| Catalog.SearchGramsLeftmost | tabacchi/main.py:691-693 | the search finds the leftmost match, with the longest digit run that matches there |
| Catalog.PerPiece | tabacchi/main.py:693 | the piece count is the whole number of pieces of g grams in the minimum unit |
| Catalog.FuzzyCount | tabacchi/main.py:684-694 | the count is never negative, and it fails with ZeroDivisionError exactly when the grams found are 0 |
| Catalog.ExCarton | tabacchi/main.py:686-687 | a carton of 20 packs gives 10 pieces |
| Catalog.ExGrams | tabacchi/main.py:691-693 | 500 g in 25 g pouches gives 20 pieces |
| Catalog.ExLong | tabacchi/main.py:691-693 | "*1000GR" has four digits after the star, so the pattern does not match and the count is 0 |
| Catalog.ExZero | tabacchi/main.py:693 | "*0GR" divides by zero |
| Catalog.OnlyStar | tabacchi/main.py:691 | a match starts at a '*' |
| Catalog.NoMarker | tabacchi/main.py:686-688 | a text with no '*' followed by 'A' or 'C' holds none of the carton markers |
| Catalog.Decorrenza | tabacchi/main.py:737-742 | the sheet's date is used when it parses and 1 January 1970 otherwise |
| Catalog.IndexOf | tabacchi/main.py:723-728 | the index maps exactly the list's codes, each to a row holding it |
| Catalog.Parse | tabacchi/main.py:731-744 | reading a sheet row fails iff its piece count does, and keeps its stripped code |
| Catalog.Apply | tabacchi/main.py:746-780 | merging one sheet row keeps the index pointing at rows with its codes |
| Catalog.ApplyMarks | tabacchi/main.py:746-780 | a new code is appended as a fresh row (not in stock, level 0, dirty) with the sheet's fields; a known code's row changes, and is marked dirty, exactly when a compared field differs; no other row moves |
| Catalog.ApplyShape | tabacchi/main.py:746-780 | merging one row extends the list, keeps every code, adds the row's code and drops it from the index |
| Catalog.ApplyUntouched | tabacchi/main.py:761-780 | rows still indexed are untouched, and the dialog is dirty iff it was or a row changed |
| Catalog.MapSeqAt | tabacchi/main.py:730 | each element of a mapped list is the function of the element at the same place |
| Catalog.Reads | tabacchi/main.py:730-744 | one reading per sheet row |
| Catalog.ReadsAt | tabacchi/main.py:730-744 | each reading is that of the sheet row at the same place |
| Catalog.MergeParsed | tabacchi/main.py:730-780 | the merge keeps the index pointing at rows with its codes |
| Catalog.MergeRows | tabacchi/main.py:718-780 | the merge of the whole sheet keeps the index pointing at rows with its codes |
| Catalog.PrefixSnoc | tabacchi/main.py:730 | a prefix one longer is the prefix and the next element |
| Catalog.MergeParsedSnoc | tabacchi/main.py:730-780 | one more sheet row is merged after the others unless an error stopped the loop, and its own error stops it |
| Catalog.MergeParsedStops | tabacchi/main.py:730-780 | after an error no later sheet row is merged |
| Catalog.MergeParsedFails | tabacchi/main.py:730-780 | the loop ends with an error iff some reading failed |
| Catalog.MergeFails | tabacchi/main.py:718-780 | the merge fails iff some sheet row's piece count fails |
| Catalog.MergeShape | tabacchi/main.py:730-780 | the merge extends the list and keeps every code; without error the codes left in the index are the list's codes not in the sheet, and every sheet code is in the list |
| Catalog.MergeUntouched | tabacchi/main.py:730-780 | rows still indexed are untouched, and the dialog is dirty iff it was or a row changed |
| Catalog.MergeMarks | tabacchi/main.py:730-780 | over the loop a loaded row changes only once, from its loaded content, by a read row of its code that differs in a compared field |
| Catalog.MergeRowMarks | tabacchi/main.py:723-780 | over the whole sheet a loaded row changes, and is marked dirty for the save, only when a sheet row of its code differs in a compared field |
| Catalog.MergeKeepsBarcodes | tabacchi/main.py:746-780 | the merge adds no barcode and keeps barcodes distinct |
| Catalog.ReadCodes | tabacchi/main.py:731 | the codes read are the sheet's stripped codes |
| Catalog.RemovedBarcodes | tabacchi/main.py:800-809 | removing rows keeps barcodes distinct and adds none |
| Catalog.RemovedSubset | tabacchi/main.py:800-809 | removing rows adds no barcode |
| Catalog.DistinctPrefix | tabacchi/main.py:800-809 | a prefix of a list with distinct barcodes has distinct barcodes |
| Catalog.AppendDistinct | tabacchi/main.py:746-760 | appending a row with a barcode not on the list keeps barcodes distinct |
| Catalog.ExtendsBarcodes | tabacchi/main.py:746-780 | extending a list by fresh rows without barcodes keeps barcodes distinct and adds none |
| Catalog.MergeSpec | tabacchi/main.py:718-782 | a merge without error leaves in the index exactly the list's codes missing from the sheet, with their rows unchanged; every sheet code is on the list; the list is extended and the appended rows are fresh (not in stock, level 0, dirty); a loaded row changes, marked dirty, only when a sheet row with its code differs in a compared field, and takes that row's fields; the dialog is dirty iff a row changed |
| Catalog.MergeOutcomeFails | tabacchi/main.py:718-810 | the update fails iff some sheet row's piece count fails |
| Catalog.MergeOutcomeDeleteList | tabacchi/main.py:784-791 | when codes are gone from the sheet the delete list is exactly them, none twice; otherwise it is left as it was |
| Catalog.MergeOutcomeRows | tabacchi/main.py:784-809 | every sheet code is on the list; with the removal confirmed the list is the merged rows without the gone codes, otherwise the merged rows |
| Catalog.RemovalKeeps | tabacchi/main.py:800-809 | removing the gone codes keeps every other code and only rows of the list |
| Catalog.CatalogEditor.constructor | tabacchi/main.py:553-600 | the loaded list is indexed by its barcodes, each naming the description of the row that carries it, clean and with nothing to delete |
| Catalog.OwnerOfRow | tabacchi/main.py:576-579 | with distinct barcodes, the index built by the loading loop holds under each barcode the description of the one row carrying it |
| Catalog.CatalogEditor.ChangeBarcode | tabacchi/main.py:471-490 | a barcode already taken is refused and nothing changes; otherwise the row gets it, is marked dirty, and the index moves from the old barcode to the new |
| Catalog.CatalogEditor.Merge | tabacchi/main.py:718-810 | the list, delete list, dirty flag and error are MergeOutcome of the old ones, and the catalog's date becomes now when there was no error |
| Catalog.Ids | tabacchi/main.py:788-791 | the codes of the rows, in order |
| Catalog.ChangedBarcodes | tabacchi/main.py:483-489 | a new barcode not on the list keeps barcodes distinct and replaces the row's old barcode in the set |
| Catalog.GramsLength | tabacchi/main.py:691 | the greedy digit run at a position is a match, and is 0 only when no length matches there |
| Catalog.ExtendsTrans | tabacchi/main.py:730-780 | merging row after row keeps every earlier code: extension is transitive |
| Catalog.Updated | tabacchi/main.py:765-777 | a row that differs from the sheet is changed and marked dirty, keeping its code, barcode, stock flag and minimum level |
| Catalog.KeysInOrderSpec | tabacchi/main.py:784-791 | the delete list holds exactly the list's codes left in the index, none twice |
| Catalog.RemovedMembers | tabacchi/main.py:800-809 | the rows kept are exactly the rows of the list whose code is not to be deleted |
| Catalog.CatalogEditor.MergeLists | tabacchi/main.py:718-809 | the merged list, delete list, dirty flag and error are MergeOutcome of the inputs, and the barcode index still fits the list |
| Catalog.CatalogEditor.ApplySheet | tabacchi/main.py:723-780 | the loop over the sheet's rows gives the merge of the whole sheet from the list and its index |
| Catalog.CatalogEditor.BuildIndex | tabacchi/main.py:723-728 | the dictionary filled row by row is the index of the list |
| Catalog.CatalogEditor.DeleteKeys | tabacchi/main.py:785-791 | the delete list is the list's codes left in the index, in list order |
| Catalog.CatalogEditor.RemoveRows | tabacchi/main.py:800-809 | the loop keeps exactly the rows whose code is not to be deleted, in order |
| Descriptor.ModifierPrefix | tabacchi/utility.py:1004-1006 | the prefix skipped is all modifier characters and stops at the first other character |
| Descriptor.PrefixUnique | tabacchi/utility.py:1004-1008 | the modifier prefix is the only split of a header into modifiers then a non-modifier |
| Descriptor.HeaderFlags | tabacchi/utility.py:1003-1017 | a header is its title without the modifiers, editable iff '*', sortable iff '^', expandable iff '+', resizable iff '!' is among them |
| Descriptor.HeaderTextFlags | tabacchi/utility.py:1010-1017 | the modifiers written for a set of flags read back as those flags |
| Descriptor.HeaderRoundTrip | tabacchi/utility.py:1003-1017 | a header written from flags and a title that does not start with a modifier reads back as the same title and flags |
| Descriptor.DigitsFloat | tabacchi/utility.py:1033-1036 | a run of digits is a number float() accepts |
| Descriptor.ParseFloat | tabacchi/utility.py:1033-1036 | float() succeeds iff the text is a literal, and gives its number |
| Descriptor.ParseInteger | tabacchi/utility.py:1031 | int() succeeds iff the text is an integer literal, and gives its value |
| Descriptor.StoreDefaults | tabacchi/utility.py:1048-1069 | int defaults to (9, 0) digits, float to (9, 3), currency to the locale's decimals, dict is an int column, str, bool and date have no digits, any other name is a ValueError |
| Descriptor.StoreKnown | tabacchi/utility.py:1048-1069 | a type name is accepted iff it is one the view knows |
| Descriptor.StoreKeepsDigits | tabacchi/utility.py:1038-1064 | digits written after '#' win over every default |
| Descriptor.ColumnOf | tabacchi/utility.py:989-1071 | an entry read without error has its model id, the position unless given, within the list store, and the slot it fills |
| Descriptor.Assemble | tabacchi/utility.py:992-1071 | a column built without error has the entry's model id within the list store and fills the matching slot |
| Descriptor.ColumnParts | tabacchi/utility.py:992-1071 | an entry raises iff its type text does, its type is unknown, or its model id is past the list store; otherwise its column has the entry's header, flags, dictionary, type name and adjustment |
| Descriptor.DictColumn | tabacchi/utility.py:995-997 | a dictionary in place of the type makes an int column that shows values through that dictionary |
| Descriptor.IntTextChars | tabacchi/utility.py:1031 | a written integer is made of number characters only |
| Descriptor.FloatChars | tabacchi/utility.py:1033 | a float literal is made of number characters only |
| Descriptor.NumTextAppend | tabacchi/utility.py:1027 | number texts joined remain number text |
| Descriptor.NoSeparators | tabacchi/utility.py:1025-1041 | number text holds no ',', '/' or '#' |
| Descriptor.DigitsTextParses | tabacchi/utility.py:1039-1046 | digits written as "i,d" read back as themselves |
| Descriptor.SpinTextParses | tabacchi/utility.py:1029-1033 | a step or "i<column>" written reads back as itself |
| Descriptor.AdjustmentTextParses | tabacchi/utility.py:1025-1036 | an adjustment written as step, min and max reads back as itself |
| Descriptor.CutSuffix | tabacchi/utility.py:1025-1028 | cutting at the first separator gives back the head and the suffix joined to it |
| Descriptor.TypeRoundTrip | tabacchi/utility.py:1023-1046 | a data type written with its digits and adjustment reads back as itself |
| Descriptor.NotFloat | tabacchi/utility.py:1033 | a text with a character outside the number characters is no float literal |
| Descriptor.BadStep | tabacchi/utility.py:1029-1033 | a step that is neither "i<n>" nor a float makes the entry raise |
| Descriptor.HashAfterSlash | tabacchi/utility.py:1025-1046 | a '#' written after the '/' part is read as part of the step, so the entry raises |
| Descriptor.Record | tabacchi/utility.py:998-1071 | recording a column keeps the number of model ids and types |
| Descriptor.Fold | tabacchi/utility.py:987-1072 | the loop keeps one model id, type and list-store slot per entry of the list |
| Descriptor.MapIndexed | tabacchi/utility.py:989 | each result is the function of the element and its position |
| Descriptor.Reads | tabacchi/utility.py:989 | one reading per entry |
| Descriptor.ReadsAt | tabacchi/utility.py:989-992 | each reading is that of the entry at its position |
| Descriptor.ReadsInRange | tabacchi/utility.py:992-998 | every reading that succeeds fills a slot of the list store |
| Descriptor.PrefixSnoc | tabacchi/utility.py:989 | a prefix one longer is the prefix and the next element |
| Descriptor.FoldStops | tabacchi/utility.py:1068-1069 | once an entry raises, no later entry is read |
| Descriptor.FoldFails | tabacchi/utility.py:989-1072 | the loop raises iff some entry raises |
| Descriptor.FoldColumns | tabacchi/utility.py:998-1021 | a list read without error records each entry's title, flags and model id in order, and leaves later positions empty |
| Descriptor.FoldDigits | tabacchi/utility.py:1035-1064 | digits and minimum bounds are recorded exactly for the entries that have them, with their values |
| Descriptor.FoldPositional | tabacchi/utility.py:1048-1071 | when every entry fills its own slot, each slot holds its entry's list-store type and bare type name |
| Descriptor.RunFails | tabacchi/utility.py:985-1072 | parsing raises iff some entry is malformed or names a slot past the list |
| Descriptor.RunPositional | tabacchi/utility.py:985-1072 | without explicit model ids a successful parse puts each entry's list-store type and type name at its own position |
| Descriptor.ColumnModel.constructor | tabacchi/utility.py:987 | a new view has empty descriptors and a list store of the given size with no types |
| Descriptor.ColumnModel.SplitHeader | tabacchi/utility.py:1004-1008 | the header loop splits the header into modifiers and a rest that does not start with one |
| Descriptor.ColumnModel.ReadHeader | tabacchi/utility.py:1003-1017 | the title and flags read are those of the header |
| Descriptor.ColumnModel.ReadEntry | tabacchi/utility.py:990-1071 | one turn of the loop reads the entry as ColumnOf does |
| Descriptor.ColumnModel.ReadAll | tabacchi/utility.py:987-1072 | the loop's fields and result are those of reading the entries in order, stopping at the first that raises |
| Descriptor.ColumnModel.Advance | tabacchi/utility.py:998-1072 | one turn for an entry that did not raise extends the parse by that entry |
| Descriptor.ColumnModel.ParseInfoList | tabacchi/utility.py:985-1072 | the view's fields and the list-store types are those of the whole parse, stopping at the first entry that raises |
| Recalc.ConsumoIsEditorConsumo | tabacchi/main.py:830-841 | the consumption written agrees with the order editor's formula given the carried row; that row is the article's latest earlier order, and an article's first row gets -giacenza |
| Recalc.AppliedSpec | tabacchi/main.py:830-841 | the updates touch only Consumo, only of lines the query returned, and each line gets the value of its last row |
| Recalc.RecalcEveryLine | tabacchi/main.py:825-841 | every returned line ends with its recomputed consumption |
| Recalc.ThreeCycles | tabacchi/main.py:834-837 | three orders of one article: -10, then 7, then 5 |
| Recalc.Run | tabacchi/main.py:819-853 | all updates are committed together and the worker ends DONE; a stop or a database error rolls back everything, ending STOPPED or ERROR |
| Worker.WorkerThread.constructor | tabacchi/utility.py:243-247 | a new worker is STARTED with no error |
| Worker.WorkerThread.Stop | tabacchi/utility.py:249-250 | stop() sets STOPPED |
| Worker.WorkerThread.Update | tabacchi/utility.py:253-256 | update() raises StopIteration exactly when the worker is STOPPED, and otherwise advances the progress |
| Worker.WorkerThread.SetError | tabacchi/utility.py:261-263 | setError records the error and sets ERROR |
| Text.StrLeTransitive | tabacchi/utility.py:475 | Python string order on the stamps is transitive |
| Text.StrLeTotal | tabacchi/utility.py:475 | and total |
| Backup.Insert | tabacchi/utility.py:475 | inserting keeps every entry and adds one |
| Backup.SortByModify | tabacchi/utility.py:475 | sorting is a permutation of the listing |
| Backup.InsertSorted | tabacchi/utility.py:475 | inserting into a sorted listing keeps it sorted |
| Backup.SortByModifySorted | tabacchi/utility.py:475 | the sorted listing is in non-decreasing stamp order and holds the same entries |
| Backup.SliceStart | tabacchi/utility.py:476 | where `l[-history:]` starts under Python's slice rules, within the list |
| Backup.Retention | tabacchi/utility.py:475-476 | deleted and kept files split the sorted listing; a positive history keeps the newest `history` files, history 0 deletes none, a negative one deletes the -history oldest |
| Backup.OlderRemoved | tabacchi/utility.py:475-483 | every deleted file is no newer than every kept one |
| Backup.Names | tabacchi/utility.py:482 | the name of each entry, in order |
| Backup.BackupThread.constructor | tabacchi/utility.py:435-438 | the listing collected by the MLSD callback, nothing deleted yet |
| Backup.BackupThread.Retain | tabacchi/utility.py:475-490 | the list becomes the files to delete; they are deleted in order until a stop lands, and the worker ends DONE or STOPPED |
| Backup.BackupThread.DeleteListed | tabacchi/utility.py:478-490 | one deletion and one update() per file; a stop after m deletions leaves the rest |
| Stats.Dates | tabacchi/stats.py:140-144 | one date per row, in query order |
| Stats.Consumption | tabacchi/stats.py:141-145 | each row's consumption, a negative one shown as 0 |
| Stats.Orders | tabacchi/stats.py:142-146 | each row's order, a negative one shown as 0 |
| Stats.ArticleStock | tabacchi/stats.py:138-148 | each row's stock less the previous row's order (0 for the first), clamped at 0 |
| Stats.TotalStock | tabacchi/stats.py:218-224 | the summed stock, clamped at 0, with nothing subtracted |
| Stats.SeriesSnoc | tabacchi/stats.py:138-148 | one more query row appends one entry to every series and leaves the earlier entries alone; the new per-article stock subtracts only the previous row's order |
| Stats.ArticleBelowTotal | tabacchi/stats.py:143-219 | the two stock series agree on the first row and after a row without order; with no negative orders the per-article stock is never above the global one |
| Stats.StatsDialog.constructor | tabacchi/stats.py:98-107 | the series start empty |
| Stats.StatsDialog.LoadData | tabacchi/stats.py:118-148 | the four series are cleared and grown in lockstep to one entry per row, equal to the reference series |
| Stats.GlobalStatsDialog.constructor | tabacchi/stats.py:166-179 | the series and the most-bought list start empty |
| Stats.GlobalStatsDialog.LoadData | tabacchi/stats.py:189-225 | the most-bought list is replaced; the series are grown in lockstep with the stock taken as it is |
| Printing.Decimals | tabacchi/stampe.py:271 | the three decimals of "%7.3f": three digits whose value is the grams below the kilogram |
| Printing.NumberWidth | tabacchi/stampe.py:271 | a kilogram count below 1000 prints in at most three digits, one from 100 up in at least three |
| Printing.IntendedCells | tabacchi/stampe.py:278-283 | the six weight boxes the form has room for |
| Printing.FixedCells | tabacchi/stampe.py:271-283 | corrected: with "%7.3f" every weight below 1000 kg is seven characters and its boxes 0-2 and 4-6 are the kilograms and the grams |
| Printing.SpaceFlaggedBelow100 | tabacchi/stampe.py:271 | below 100 kg the space flag changes nothing: "% 7.3f" and "%7.3f" print alike |
| Printing.SpaceFlaggedShifts | tabacchi/stampe.py:271-283 | as written: from 100 kg "% 7.3f" prints eight characters, box 3 gets the decimal point and the boxes differ from the intended ones |
| Printing.PageTotal | tabacchi/stampe.py:232-252 | pageTot is the ceiling of n / 48: the fewest pages of 48 lines that hold n lines |
| Printing.LineCells | tabacchi/stampe.py:269-283 | (corrected "%7.3f" weight, see Findings) a line fills exactly the boxes 0-4, 6-8 and 10-12 of its row block |
| Printing.SetRow | tabacchi/stampe.py:272-283 | writing a line changes only the boxes it names, each to the character given |
| Printing.Place | tabacchi/stampe.py:272-283 | placing a line keeps the shape of the page grid |
| Printing.PlaceKeeps | tabacchi/stampe.py:272-283 | every box outside the written row block keeps its content |
| Printing.PlaceWrites | tabacchi/stampe.py:272-283 | the written box holds the line's character |
| Printing.FillWith | tabacchi/stampe.py:259-369 | the boxes of one page, from a blank grid, keep the 24 x 27 shape |
| Printing.FillWithStep | tabacchi/stampe.py:268-293 | the page after one more line is the page before with that line placed at row k mod 24, block (k div 24) mod 2 |
| Printing.FillPlacement | tabacchi/stampe.py:268-293 | each line of a page stays in its own boxes once later lines are written |
| Printing.SameBox | tabacchi/stampe.py:286-293 | two lines of one page never share a row and block |
| Printing.PageParts | tabacchi/stampe.py:294-372 | page p is numbered p + 1, holds lines 48p to 48p + 47 and carries the total only when it is the last |
| Printing.PagesWith | tabacchi/stampe.py:268-372 | one page per 48 lines or part of them |
| Printing.FormPages | tabacchi/stampe.py:252-372 | (corrected "%7.3f" weight, see Findings) the form has pageTot pages |
| Printing.LineOnPage | tabacchi/stampe.py:270-372 | line k is on page k div 48 + 1 at row k mod 24 and block (k div 24) mod 2; only the last page carries the total, which is the sum of the weights |
| Printing.ItemPlacement | tabacchi/stampe.py:270-372 | (corrected "%7.3f" weight, see Findings) the same for the form's own boxes: code and weight characters of line k are where the form expects them |
| Printing.NextBox | tabacchi/stampe.py:285-293 | the row, block and page counters advance as the loop's row/col/newPage updates do |
| Printing.PageBounds | tabacchi/stampe.py:285-294 | the page of line c is below pageTot and is emitted after line c exactly when 48 lines are full or c is the last |
| Printing.PageEnd | tabacchi/stampe.py:294-372 | when a page is emitted the next page number and the lines it holds follow from count |
| Printing.PageEmitted | tabacchi/stampe.py:294-372 | the page emitted by the loop is the reference page |
| Printing.SumStep | tabacchi/stampe.py:270 | the running total grows by each line's weight |
| Printing.EmitPage | tabacchi/stampe.py:294-372 | one emitted page: the pages so far agree with the reference, and the next page starts blank |
| Printing.WriteLine | tabacchi/stampe.py:269-372 | one turn of the loop keeps the loop invariant: the grid is the reference page so far, the pages emitted are the reference ones |
| Printing.NextRow | tabacchi/stampe.py:286-293 | after box count the row and block are those of box count + 1, and a new page starts exactly when count + 1 fills a page |
| Printing.PrintU88Fax | tabacchi/stampe.py:198-376 | (corrected "%7.3f" weight, see Findings) the pages printed are exactly the reference form pages; with no lines, or preferences or files missing, nothing is printed |
| Printing.CentsNearest | tabacchi/stampe.py:171 | the printed cents are within half a cent of UnitaMin * PrezzoKG / pezzi |
| Printing.PriceTextCents | tabacchi/stampe.py:171 | "€ %.2f" text: its digits read back give the cents |
| Printing.PriceTextInjective | tabacchi/stampe.py:171 | two labels print alike only when their prices in cents are equal |
| Printing.BlankSheet | tabacchi/stampe.py:156-183 | a fresh sheet: 100 empty labels |
| Printing.Put | tabacchi/stampe.py:171 | writing a label changes that place only |
| Printing.Run | tabacchi/stampe.py:158-185 | the reference sheets of the label loop: never an empty run |
| Printing.RunKeeps | tabacchi/stampe.py:158-185 | labels already on the first sheet stay there |
| Printing.RunCount | tabacchi/stampe.py:160-185 | the number of sheets: a sheet per 100 places taken, counting the starting place, plus a last part-filled sheet |
| Printing.RunPlaces | tabacchi/stampe.py:160-173 | an item with pieces gets the next place, counted over the items with pieces before it; items with no pieces take no place |
| Printing.LabelCount | tabacchi/stampe.py:134-193 | an empty list prints nothing; otherwise the sheets counted from the chosen row and column |
| Printing.LabelPlacement | tabacchi/stampe.py:158-185 | item m is printed at place 5 * row + col + (items with pieces before m), row-major across sheets, with its price text |
| Printing.RowEnd | tabacchi/stampe.py:174-185 | the end of a row is the start of the next; the end of row 19 is the end of the sheet |
| Printing.FillRow | tabacchi/stampe.py:161-173 | the inner loop: it uses at least one item and stops at the end of the row or of the items, without changing the reference result |
| Printing.FillSheets | tabacchi/stampe.py:158-185 | the nested loops produce the reference sheets from the chosen start |
| Printing.PrintLabels | tabacchi/stampe.py:102-193 | printLabels with the dialog's 0-based row and column produces exactly the reference sheets, none for an empty list |
| Browser.AsyncScriptEmbeds | tabacchi/browserWebkit2.py:20-34 | the script holds the condition, then the script, then the DONE post, then max_iter, then the OUT_TIME post, in that order; the first timer waits `interval` |
| Browser.JoinedPlaces | tabacchi/browserWebkit2.py:21-33 | each piece of the script text starts where the pieces before it end |
| Browser.PollOutcome | tabacchi/browserWebkit2.py:22-32 | DONE is posted iff the condition holds on some turn up to max_iter + 1, at the first such turn; otherwise OUT_TIME at turn max_iter + 1 |
| Browser.PollFrom | tabacchi/browserWebkit2.py:22-32 | the same from any turn whose earlier turns all failed the condition |
| Browser.SettleFromEnd | tabacchi/browserWebkit2.py:165-221 | popping takes entries from the end: it stops at an entry that must wait for its URL or that starts a script; the entries passed over were ready with empty scripts; what remains is the list before it |
| Browser.Pop | tabacchi/browserWebkit2.py:204-221 | popping leaves the close list, the URI and the callbacks alone, never revives a destroyed window, and with no list does nothing |
| Browser.PopShortens | tabacchi/browserWebkit2.py:209 | each pop shortens the list or ends the queue |
| Browser.QueueEnd | tabacchi/browserWebkit2.py:216-221 | an exhausted queue clears the entry and the list, leaves wait mode, and destroys the window iff no close scripts are pending |
| Browser.Advancing | tabacchi/browserWebkit2.py:116-194 | a plain entry moves on when its script ends; an asynchronous one only on DONE or OUT_TIME, and only DONE calls the callback |
| Browser.LoadRunsWaiting | tabacchi/browserWebkit2.py:133-140 | a waiting entry runs on a finished load iff the loaded URI is the one it waits for |
| Browser.CloseOnce | tabacchi/browserWebkit2.py:150-221 | OK swaps the close scripts in once: none pending afterwards, a second OK does nothing, and their end destroys the window |
| Browser.StopIdles | tabacchi/browserWebkit2.py:142-147 | Stop clears the entry and the queue; later script ends, messages and loads start nothing |
| Browser.Browser.constructor | tabacchi/browserWebkit2.py:108-111 | a new window has no entry and no lists |
| Browser.Browser.PopScript | tabacchi/browserWebkit2.py:204-221 | the loop over the list in place of the popScript/execScript recursion: the new state is Pop of the old |
| Browser.Browser.ExecScript | tabacchi/browserWebkit2.py:165-171 | the entry's script starts, or an empty one moves on |
| Browser.Browser.JavascriptFinished | tabacchi/browserWebkit2.py:176-194 | the state after a script ends, as ScriptFinished says |
| Browser.Browser.HandleScriptMessageDone | tabacchi/browserWebkit2.py:116-123 | the state after DONE, as MessageDone says |
| Browser.Browser.HandleScriptMessageOutOfTime | tabacchi/browserWebkit2.py:126-130 | the state after OUT_TIME, as MessageOutOfTime says |
| Browser.Browser.LoadFinishedCallback | tabacchi/browserWebkit2.py:133-140 | the state after a finished load, as LoadFinished says |
| Browser.Browser.OnStopClick | tabacchi/browserWebkit2.py:142-147 | the state after Stop |
| Browser.Browser.CloseClicked | tabacchi/browserWebkit2.py:150-156 | the state after OK |
| Browser.Browser.DefClose | tabacchi/browserWebkit2.py:159-162 | the window is destroyed, nothing else changes |
| Browser.Browser.OpenSite | tabacchi/browserWebkit2.py:224-231 | the lists are taken, the first entry popped before the site is loaded |
| Text.ParseInt | tabacchi/preferencesTabacchi.py:205 | int() of a text gives a value only for a non-empty text |
| Text.ParseIntSpec | tabacchi/preferencesTabacchi.py:205 | int() gives a value iff the text is an optional sign followed by digits, and the value is the digits' value with that sign |
| Text.IntStringRoundTrip | tabacchi/preferencesTabacchi.py:263 | a number written with str() reads back with int() as itself |
| Text.NatToStringInjective | tabacchi/preferencesTabacchi.py:263 | two numbers written the same are equal |
| Text.Find | tabacchi/utility.py:1025 | find gives -1 iff the character is absent, and otherwise its first position |
| Text.Split | tabacchi/preferencesTabacchi.py:246 | split gives at least one piece and no piece holds the separator |
| Text.SplitJoin | tabacchi/preferencesTabacchi.py:246-296 | splitting what join wrote gives the pieces back when none holds the separator |
| Text.SplitLines | tabacchi/main.py:1244 | splitlines gives no line for an empty text, at least one otherwise, and no line holds a line boundary |
| Text.RJust | tabacchi/stampe.py:269 | rjust pads on the left with blanks to the width and keeps the text at the end |
| Text.Strip | tabacchi/main.py:731 | strip leaves no white space, as str.isspace() defines it, at either end and changes nothing without it |
| Text.StripIdempotent | tabacchi/main.py:731 | stripping twice strips nothing more |

## Left out

- GTK widgets, dialogs, menus and tree views. Confirmations are boolean inputs, list stores are sequences of records, and nothing is drawn.
- SQL text, cursors and joins. Tables are maps, each query is a function of them, and commit or rollback replaces the whole database or keeps it.
- Query order. The catalog is one sequence, and the lists the source sorts with `order by Tipo desc, Descrizione` (the order, reception and catalog dialogs, `tabacchi/ordini.py:338`, `tabacchi/ordini.py:348`, `tabacchi/ordini.py:671`, `tabacchi/main.py:560`) follow that sequence's order instead. The sort is not modelled, and neither is makeOrder's `order by Descrizione` (`tabacchi/main.py:1410`), which only orders the lines of the file sent. The supplemental dialog's `order by t.Tipo, t.Descrizione` (`tabacchi/ordini.py:551`) is modelled.
- Python floats. Weights are exact grams and prices exact milli-euro, so the drift of float running totals and locale formatting are not modelled.
- Threads and `GLib.idle_add`. Each event handler and each worker step is one method call, with no interleaving.
- Document parsing for the import (the regular expressions over the `pdftotext` output). The document arrives as its date, kind and rows.
- The catalog download, the spreadsheet reader and the Excel export. The sheet arrives as its data rows.
- Bluetooth discovery and sockets. Only the framing of what a reader sends is modelled, with chunks as values.
- FTP, AES encryption, the keyring, the tar subprocess and the download thread. Only the backup's retention step is modelled.
- The WebKit engine and JavaScript execution. Page loads, script ends and posted messages are events of the queue; the URI the web view reports is the last one asked for or loaded.
- The browser's title label and the log of JavaScript exceptions.
- The matplotlib plots of the statistics dialogs, and `tabacchi/config.py` (paths, logging, package metadata).
- The key-press filters of `ExtTreeView` and `NumEntry`.
- PDF drawing, fonts, the form's header fields and the watermark. A U88 page is the table of boxes filled before it is drawn; the label sheet is one flat sequence of cells.
- Printing.PrintU88Fax: the `ready` input stands for the preferences and image files the source checks before printing.
- Printing.LabelCents: the price on a label is the exact piece price rounded half up to the cent, not the float `"%.2f"`, which can round a half cent either way.
- Labels: the piece count is a natural number; the database column is an integer that the catalog only sets to positive counts.
- Statistics: weights are the source's kilograms rounded to three decimals, taken as whole grams, so float rounding is not modelled.
- Prefs.ReadSettings: a missing `pianoConsegneDaSito` reads as `None` in the source (`tabacchi/preferencesTabacchi.py:219`), and the model stores false. Every test of the flag treats the two alike, but the source's save then fails: `configparser` refuses the non-string `None` with TypeError when save builds the Tabacchi section (`tabacchi/preferencesTabacchi.py:265`), while the model's save writes "False". A missing `telefono` (`tabacchi/preferencesTabacchi.py:218`) makes save fail the same way; that field is not modelled.
- Prefs.Preferences.Load: the shop's text fields (`numRivendita`, `codCliente`, `nome`, `cognome`, `citta`, `telefono`, `timbro`, `firma`, `u88`, `u88urg`, `user`, `catalogoUrl`, `loginUrl`) and the keyring password are not read. Reading them with `get` cannot raise, and the ordering cycle does not use them. A keyring error is not modelled.
- Prefs.GetFloat: a size is kept as the float literal it was read from, and save writes that literal back, where the source keeps the float and writes its `str()` ("1.50" is saved as "1.5"). The literals accepted are those Descriptor.ParseFloat accepts.
- Calendar.ParseIsoDate: only the zero-padded form of the catalog date is read; `strptime` also accepts a one-digit month or day.
- The configparser file layer. A configuration is its sections, and the INI text is neither written nor parsed. So the model does not capture three behaviours. First, `BasicInterpolation` makes save raise ValueError on a value holding a '%' that is not part of "%%" or "%(name)s", such as a reader's name or a plan field with a stray '%'. Second, load interpolates such values when it reads them. Third, values are stripped of surrounding blanks when read. Option names are lowered by configparser, and the model writes them in lower case.
- Calendar.ParseDate: only the zero-padded forms are read; `strptime` also accepts a one-digit day or month.
- Calendar.ParseDateTime: only the zero-padded forms are read, as for ParseDate.
- Descriptor.ParseFloat: exponents, `inf`, `nan`, underscores and surrounding blanks, which `float()` also accepts, are refused.
- Text.ParseInt: surrounding white space, underscores between digits (`"1_0"`) and non-ASCII decimal digits, which `int()` also accepts, are refused.
- Descriptor.ParseInteger: refuses what Text.ParseInt refuses.
- Catalog.PerPiece: the pieces are counted on whole grams, `unitaMin / g`. The source (`tabacchi/main.py:693`) truncates the float quotient `unitaMin / (g / 1000)` of kilograms, and an inexact quotient can fall just below a whole number. So 0.3 kg with "*100GR" gives `int(2.9999999999999996)`, which is 2, in the source and 3 here.
- Catalog.FuzzyCount: the weight-marker branch uses Catalog.PerPiece's exact division, as above. The marker's digits are ASCII only, while the `\d` of `tabacchi/main.py:691` also matches other Unicode decimal digits.
- Deadline.DataLimiteOrdine: the model requires `0 <= oraInvio < 24`, and so do its callers in Lifecycle and OrderEntry. The source reads any integer (`tabacchi/preferencesTabacchi.py:221`). `datetime.time` raises ValueError for an hour out of range only on the weekday fallback (`tabacchi/preferencesTabacchi.py:343`), and the plan branch accepts any hour.
- The catalog dialog's save, `__saveModelToDB` (`tabacchi/main.py:609-650`), which deletes the deleteList codes and writes back the dirty rows. Catalog.CatalogBarcodes links the list's barcode invariant to the catalog's, for a catalog holding the list row for row.
- Catalog.PiecePrice: the piece price is the pack's cost in whole milli-euro divided down to a whole milli-euro, where the source keeps the float quotient.
- Import: the `UPDATE ... where Levata = ?` branch at `tabacchi/main.py:2150` is modelled, but it can never match, because the same levata was just found absent; the order is always inserted.
- Backup: the upload and the server's listing are inputs, and the deletions are recorded in order.

## Findings

The rest of the model uses the corrected definitions. The reception session's `SetValue` uses the corrected ordered-cost update, the U88 form (`LineCells`, `FormPages`, `ItemPlacement`, `PrintU88Fax`) uses the corrected weight format, and the barcode reader loop (`ReadLoop`) uses the corrected bytes suffix. The code as written is modelled beside each of them.

| source | as written | input that shows it | evidently intended | confidence | as-written member | corrected member |
|---|---|---|---|---|---|---|
| tabacchi/ordini.py:234 | on an over-delivery, the ordered-cost total loses the cost of the old loaded weight | a row with ordered weight 5000 g, nothing loaded yet and 200000 milli-euro/kg, confirmed at 7000 g: the total rises by 1400000 instead of 400000 | lose the cost of the old ordered weight, so the total stays the sum over the rows | high, not executed | Reception.AsWrittenBlocksArchive | Reception.OverDeliveryKeepsSum |
| tabacchi/preferencesTabacchi.py:131 | `data.endswith(self.BARCODE_SUFFIX)` tests bytes against a str suffix, which raises TypeError in Python 3 | the chunk b"123\r\n" from the reader | deliver "123", the chunk without its CR LF | high, not executed | Prefs.FramedCodeExample | Prefs.FramesRoundTrip |
| tabacchi/stampe.py:271 | `"% 7.3f"` adds a leading blank, so from 100 kg the weight is eight characters and the boxes get the wrong ones | an order line of 100 kg (100000 g): boxes 0-2 get " 10" and boxes 4-6 get ".00" | `"%7.3f"`: seven characters, boxes 0-2 the kilograms and 4-6 the grams | medium, not executed | Printing.SpaceFlaggedShifts | Printing.FixedCells |
