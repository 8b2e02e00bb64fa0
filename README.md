# Raffle ticket inventory — a Dafny model

This project models the ticket-number inventory of a small raffle web
application (React components over a Supabase database). Every raffle
(`rifa`) has a capacity `total_numeros` and three number lists: sold
(`numeros_vendidos`), unavailable (`numeros_no_disponibles`) and pending
(`numeros_pendientes`). A buyer reserves the lowest free numbers from the
detail page; the administrator confirms a request (its numbers move from
pending to sold) or rejects it (they leave pending); the roulette draws one
entry per sold number of a raffle's confirmed participants. Around these sit
the raffle create and edit forms, the cart, the status toggle and the
statistics header.

Modules, one per source component plus shared ones:

- `JsValues` (`js_values.dfy`): the JavaScript value operations the handlers
  rely on — `parseInt`, `Number` on an integer-valued number field,
  `startsWith`, `replace` with a string pattern. `ShowInt`, the decimal
  text of an integer, stands for what a user types into a number field; it
  exists only to state the round-trip lemmas `ParseIntShowInt` and
  `ToNumberShowInt`.
- `NumberSets` (`number_sets.dfy`): the number-list algebra — the range
  `1..total`, filtering, the available list, the lowest-first allocation,
  the `[...new Set(...)]` union, and the partition invariant of a raffle's
  three lists.
- `Records` (`records.dfy`): the `rifas` and `participantes` rows, the
  database as a `Store` class, and the inventory invariant `Consistent`
  (every raffle partitioned; a pending request's numbers are pending in its
  raffle, a confirmed one's are sold; two live requests of one raffle never
  share a number), with the lemmas that reserve, confirm and reject keep it.
- `DetailPage` (`detail_page.dfy`): `DetalleRifa` — allocation, the quantity
  and phone fields, and the reservation handler as a `Page` class.
- `AdminPanel` (`admin_panel.dfy`): `AdminPanel` — statistics, status
  toggle, winner search, confirm, reject and the roulette, as a `Panel` class.
- `RaffleForm`, `CreateRaffle`, `EditRaffle` (`raffle_form.dfy`,
  `create_raffle.dfy`, `edit_raffle.dfy`): the shared form, its validation,
  and the two pages.
- `Cart` (`cart.dfy`): `CarritoCompra` — totals, contact validation and the
  two-step machine.

Each handler is modelled as the sequence of steps it performs, in the
source's order. A database call is a state update of the `Store`; its
failure is a boolean parameter that stops the handler at that step, so the
partial states the source can leave behind are part of the model. The
answer to a `window.confirm` dialog is a boolean parameter, and so is the
random index of the roulette.

Where the code falls short of what an inventory engine would guarantee
(atomic reservation, a state check before each transition), the model
follows the code:

- A reservation is not atomic: the raffle's pending list is written first and
  the participant inserted afterwards, so a failed insert leaves numbers
  pending that no request holds (`DetailPage.Page.Buy`, outcome
  `InsertFailed`).
- Confirm and reject do not check the request's state: they are modelled as
  written, and the inventory invariant is proved for them under the
  condition that the request row is still pending (confirm) or not rejected
  (reject).
- Confirm's fallback allocation for a request without numbers is sized by the
  length of that empty list, so it allocates nothing and can never come up
  short (`AdminPanel.ConfirmAllocationIsHeld`).
- A confirmation is not atomic either: the participant row becomes
  `confirmado` first and the raffle's lists are read and rewritten
  afterwards. If that read or write fails, the request is confirmed while its
  numbers are still pending and not sold, which breaks the inventory
  invariant (`Records.HalfConfirmBreaksConsistent`; `AdminPanel.Panel.ConfirmRequest`
  describes that state exactly).
- A reservation writes back the pending list the page loaded, followed by
  the allocation. A confirmation or rejection made after the page loaded is
  overwritten, and a confirmed number becomes pending again while sold
  (`DetailPage.StaleReserveRevivesConfirmed`). `DetailPage.Page.Buy` keeps
  the inventory invariant only when the page's raffle equals the stored row
  (`InSync`).
- An edit validates only that the capacity is positive, so it can shrink a
  raffle below numbers it has already sold or reserved
  (`EditRaffle.EditCanLeaveSoldOutOfRange`); the invariant is kept exactly
  when the numbers fit the new capacity (`EditRaffle.EditKeepsRowValid`).

## Model

| member | source | states |
|---|---|---|
| NumberSets.Range | src/components/DetalleRifa.js:64 | `Array.from({ length: total }, (_, i) => i + 1)` has `max(total, 0)` elements, holds exactly `1..total`, ascending |
| NumberSets.Exclude | src/components/AdminPanel.js:231 | `filter(n => !out.includes(n))` keeps exactly the elements outside `out` and never grows |
| NumberSets.ExcludeAscending | src/components/DetalleRifa.js:67 | filtering an ascending list leaves it ascending |
| NumberSets.ExcludeNoDups | src/components/AdminPanel.js:231 | filtering a duplicate-free list leaves it duplicate-free |
| NumberSets.Available | src/components/DetalleRifa.js:64-67 | the available list holds exactly the numbers of `1..total` in none of the three lists, ascending |
| NumberSets.Take | src/components/DetalleRifa.js:70 | `slice(0, n)` is a prefix of the list with `min(n, length)` elements |
| NumberSets.Allocate | src/components/DetalleRifa.js:62-71 | every allocated number is in `1..total` and in no list; the result is ascending, duplicate-free, a prefix of the available list, of length `min(quantity, |available|)`, and below every available number it leaves out |
| NumberSets.Dedupe | src/components/AdminPanel.js:234 | `[...new Set(s)]` is duplicate-free with the same elements as `s` |
| NumberSets.Union | src/components/AdminPanel.js:234 | `[...new Set([...a, ...b])]` is the de-duplication of the concatenation; `NumberSets.UnionSpec` states what it holds |
| NumberSets.DedupeOfNoDups | src/components/AdminPanel.js:234 | a duplicate-free list passes through the `Set` spread unchanged |
| NumberSets.DedupeAbsorbs | src/components/AdminPanel.js:234 | appending numbers already present to a duplicate-free list and deduplicating gives the list back |
| NumberSets.UnionKeepsPrefix | src/components/AdminPanel.js:234 | the sold list is a prefix of the new sold list: nothing sold is lost or reordered |
| NumberSets.UnionSpec | src/components/AdminPanel.js:234 | the union of a duplicate-free sold list and the confirmed numbers is duplicate-free, holds exactly both, and keeps the old list as prefix |
| NumberSets.MoveTwice | src/components/AdminPanel.js:231-234 | applying the confirm move twice with the same numbers yields the same sold and pending lists as once |
| NumberSets.ExcludeTwice | src/components/AdminPanel.js:294 | removing the same numbers from pending twice is the same as once |
| NumberSets.NoDupsCard | src/components/DetalleRifa.js:202 | a duplicate-free list has as many distinct elements as its length |
| NumberSets.ExcludeCount | src/components/AdminPanel.js:231 | filtering a duplicate-free list removes exactly as many elements as it shares with the removed set |
| NumberSets.AvailableSize | src/components/DetalleRifa.js:202 | with partitioned lists, `total - |sold| - |unavailable| - |pending|` is the size of the available list (0 for a non-positive total) |
| NumberSets.ReserveKeepsPartition | src/components/DetalleRifa.js:127-131 | appending an allocation to pending keeps the three lists duplicate-free, in range and pairwise disjoint |
| NumberSets.ConfirmKeepsPartition | src/components/AdminPanel.js:231-241 | moving pending numbers into sold keeps the partition |
| NumberSets.RejectKeepsPartition | src/components/AdminPanel.js:294-300 | removing numbers from pending keeps the partition |
| NumberSets.RejectReleases | src/components/AdminPanel.js:294 | every released number in range that is neither sold nor unavailable is available again |
| Records.ConfirmRows | src/components/AdminPanel.js:210-213 | only the rows with the request's id become `confirmado` with the given numbers; every other row is unchanged |
| Records.RejectRows | src/components/AdminPanel.js:274-277 | only the rows with the request's id become `rechazado`; every other row is unchanged |
| Records.ReserveKeepsConsistent | src/components/DetalleRifa.js:127-155 | appending a fresh allocation to pending and inserting a pending request holding it keeps the inventory invariant |
| Records.ConfirmBacksOther | src/components/AdminPanel.js:231-241 | after a confirmation every other request is still backed by its raffle |
| Records.ConfirmKeepsConsistent | src/components/AdminPanel.js:210-244 | confirming a pending request with numbers it holds keeps the inventory invariant |
| Records.HalfConfirmBreaksConsistent | src/components/AdminPanel.js:209-241 | from a consistent inventory, confirming a pending request's participant row without the raffle update that follows leaves a confirmed request whose numbers are not sold, which breaks the invariant |
| Records.RejectKeepsConsistent | src/components/AdminPanel.js:274-303 | rejecting a live request and releasing its numbers keeps the inventory invariant |
| JsValues.ParseInt | src/components/DetalleRifa.js:74 | `parseInt` skips leading white space, reads one optional sign and the longest digit run, and is NaN without a digit; `JsValues.ParseIntShowInt` states that it reads back any printed integer |
| JsValues.ToNumber | src/components/CrearRifaForm.js:25 | `Number` on an integer literal or the empty text (0); `JsValues.ToNumberShowInt` states that it reads back any printed integer |
| JsValues.TrimStart | src/components/DetalleRifa.js:74 | `parseInt`'s leading white space skip removes exactly a white-space prefix |
| JsValues.DigitPrefix | src/components/DetalleRifa.js:74 | `parseInt` reads the longest digit prefix, stopping at the first non-digit |
| JsValues.ShowNatValue | src/components/DetalleRifa.js:74 | the decimal text of a natural number reads back as that number |
| JsValues.DigitPrefixOfDigits | src/components/DetalleRifa.js:74 | on an all-digit text `parseInt` reads every character |
| JsValues.ParseIntShowInt | src/components/AdminPanel.js:124 | `parseInt(String(n))` is `n` for every integer |
| JsValues.ToNumberShowInt | src/components/CrearRifaForm.js:25 | `Number(String(n))` is `n` for every integer |
| JsValues.StartsWith | src/components/DetalleRifa.js:85-95 | `startsWith` holds exactly when the prefix occurs at position 0 |
| JsValues.IndexOf | src/components/DetalleRifa.js:96 | the index `replace` acts on is an occurrence of the pattern with none before it; none means no occurrence at all |
| JsValues.ReplaceFirst | src/components/DetalleRifa.js:96 | `replace` with a string pattern replaces only the first occurrence that `IndexOf` finds; replacing a pattern by itself changes nothing |
| DetailPage.FindCountry | src/components/DetalleRifa.js:82 | `countries.find` returns a listed country with the code, or none when no listed country has it |
| DetailPage.AssignNumbers | src/components/DetalleRifa.js:62-71 | no raffle loaded gives `[]`; otherwise the lowest-first allocation over the raffle's lists |
| DetailPage.AvailableCount | src/components/DetalleRifa.js:202 | `numerosDisponiblesCount`: the capacity minus the lengths of the three lists, 0 without a raffle; `DetailPage.AvailableCountIsExact` states when it is the number of free numbers |
| DetailPage.TotalToPay | src/components/DetalleRifa.js:203 | `totalPagar`: quantity times the price per number, 0 without a raffle; `DetailPage.TotalMatchesAssigned` ties it to the allocation |
| DetailPage.AvailableCountIsExact | src/components/DetalleRifa.js:202 | the count shown equals the number of available numbers when the lists are partitioned and the capacity positive |
| DetailPage.TotalMatchesAssigned | src/components/DetalleRifa.js:202-203 | for a partitioned raffle, a quantity no larger than the displayed `numerosDisponiblesCount` always gets exactly that many numbers, and `totalPagar` is the price of exactly those numbers |
| DetailPage.Page.constructor | src/components/DetalleRifa.js:22-33 | quantity 1, empty contact fields, Venezuela selected |
| DetailPage.Page.ChangeQuantity | src/components/DetalleRifa.js:73-78 | only a parsed integer of at least 1 replaces the quantity; the quantity never drops below 1 |
| DetailPage.Page.ChangePhone | src/components/DetalleRifa.js:92-100 | the phone always starts with the selected dial code; text that has it is kept, other text gets it prefixed with its first occurrence removed |
| DetailPage.Page.ChangeCountry | src/components/DetalleRifa.js:80-90 | the new dial code replaces the old one at the head of the phone, or becomes the phone; the phone starts with the new dial code |
| DetailPage.Page.Buy | src/components/DetalleRifa.js:102-200 | no numbers, a short allocation and missing name or phone are reported in that order and change nothing; otherwise pending becomes loaded pending followed by the allocation, then a pending participant holding it is inserted; a failed insert leaves the pending write; a completed request takes the next participant id and advances it, and nothing else in the store changes (no raffle id is used); a completed request keeps the inventory invariant provided the page's raffle equals the stored row (`InSync`) |
| DetailPage.StaleReserveRevivesConfirmed | src/components/DetalleRifa.js:123-133 | writing the loaded pending list plus the allocation over a row where one of those pending numbers has since been sold breaks the row's partition |
| DetailPage.Page.ClearForm | src/components/DetalleRifa.js:184-192 | the delayed reset empties the contact fields and sets the quantity back to 1 |
| AdminPanel.TotalNumbers | src/components/AdminPanel.js:117 | the sum of the raffles' capacities, as a left fold |
| AdminPanel.SoldNumbers | src/components/AdminPanel.js:118 | the sum of the sold-list lengths; `AdminPanel.SoldNumbersWithinTotal` bounds it by `AdminPanel.TotalNumbers` |
| AdminPanel.Revenue | src/components/AdminPanel.js:120 | the sum of price times sold-list length; `AdminPanel.SetStatusKeepsStatistics` states that a status toggle leaves it unchanged |
| AdminPanel.SoldWithinTotal | src/components/AdminPanel.js:118 | a partitioned raffle never has more sold numbers than its capacity |
| AdminPanel.SoldNumbersWithinTotal | src/components/AdminPanel.js:117-119 | with partitioned raffles of non-negative capacity, `numerosVendidos <= totalNumeros`, so the percentage shown is at most 100 |
| AdminPanel.NextStatus | src/components/AdminPanel.js:316 | the toggle writes `culminada` exactly for `activa`, and `activa` for anything else |
| AdminPanel.SetStatus | src/components/AdminPanel.js:329-332 | only the raffles with the id get the new status; all others and the list's length are unchanged |
| AdminPanel.SetStatusKeepsStatistics | src/components/AdminPanel.js:117-120 | a status change leaves the capacity, sold and revenue sums unchanged |
| AdminPanel.EntriesOf | src/components/AdminPanel.js:364 | one entry per number of the participant, in order, each pairing the number with the participant |
| AdminPanel.Flatten | src/components/AdminPanel.js:363-365 | `flatMap` of each participant's `(numeros_comprados || []).map(...)`, participant by participant; `AdminPanel.FlattenSpec` states its size and contents |
| AdminPanel.FlattenSpec | src/components/AdminPanel.js:363-365 | the roulette list has exactly Σ `|numeros_comprados|` entries; each entry's number belongs to its participant, who is in the list; every bought number has its entry |
| AdminPanel.ConfirmedOf | src/components/AdminPanel.js:350-354 | the query returns exactly the confirmed participants of the raffle |
| AdminPanel.RouletteOffersSoldNumbers | src/components/AdminPanel.js:350-365 | under the inventory invariant every roulette entry's number is sold in that raffle: a pending number can never be drawn |
| AdminPanel.FindRaffle | src/components/AdminPanel.js:346 | `rifas.find` returns a listed raffle with the id, or none when no listed raffle has it |
| AdminPanel.FirstHolder | src/components/AdminPanel.js:141-154 | the first confirmed participant holding the number, with none before it; none when no confirmed participant holds it |
| AdminPanel.SearchWinner | src/components/AdminPanel.js:123-172 | input that is NaN or `<= 0` is refused before any query; a failed query is reported; a found holder is confirmed and holds the parsed number; no holder means no confirmed participant holds it |
| AdminPanel.DropRequest | src/components/AdminPanel.js:247 | the filtered list holds exactly the requests with another id |
| AdminPanel.ConfirmAllocation | src/components/AdminPanel.js:187-207 | the request's own numbers when it has some, otherwise the lowest free numbers of the loaded raffle sized by the empty list, and no allocation when fewer are free; `AdminPanel.ConfirmAllocationIsHeld` states that it always yields the held numbers |
| AdminPanel.ConfirmAllocationIsHeld | src/components/AdminPanel.js:187-207 | the fallback allocation is sized by the empty list it replaces, so a confirmation always records the request's own numbers and never aborts |
| AdminPanel.Panel.constructor | src/components/AdminPanel.js:9-29 | the panel over the loaded raffles and pending requests starts with no roulette and no winner |
| AdminPanel.Panel.ConfirmRequest | src/components/AdminPanel.js:181-265 | a dismissed dialog changes nothing; the participant row is confirmed first, then the raffle's sold list becomes the deduplicated union and its pending list loses the numbers, then the request leaves the list; a failure stops at its step; a completed confirmation of a still-pending request keeps the inventory invariant |
| AdminPanel.Panel.RejectRequest | src/components/AdminPanel.js:267-313 | a dismissed dialog changes nothing; the participant row is rejected first, then only the request's numbers leave the raffle's pending list, the sold list is untouched, and the request leaves the list; a completed rejection of a live request keeps the inventory invariant |
| AdminPanel.Panel.ToggleStatus | src/components/AdminPanel.js:315-337 | on confirmation and a successful update the row and the matching list entries get the next status; otherwise nothing changes |
| AdminPanel.Panel.SelectForRoulette | src/components/AdminPanel.js:339-368 | the winner is cleared; the roulette holds one entry per number of each confirmed participant of the chosen raffle, or nothing when the raffle is not listed or the query fails |
| AdminPanel.Panel.Spin | src/components/AdminPanel.js:370-390 | an empty roulette draws nothing and keeps the winner; otherwise the entry at the given index in `[0, len)` wins |
| RaffleForm.Change | src/components/CrearRifaForm.js:21-27 | the named field takes the typed text, converted with `Number` for price and capacity; every other field is unchanged |
| RaffleForm.ChangeStoresTypedNumber | src/components/EditarRifaForm.js:51-57 | an integer typed into price or capacity is stored as that integer |
| RaffleForm.ReportsNothingIffValid | src/components/CrearRifaForm.js:39 | the error dictionary is empty exactly when all six rules hold |
| RaffleForm.Validate | src/components/CrearRifaForm.js:29-40 | each failing rule sets exactly its own key with its message, and the form passes iff the four texts are non-empty and price and capacity are positive (the edit page's `validateForm` is the same rule) |
| CreateRaffle.NewRow | src/components/CrearRifaForm.js:49-57 | the inserted row copies the six form fields and takes the id, the status and empty number lists from the table's defaults; `CreateRaffle.NewRaffleAllFree` states that every number is free |
| CreateRaffle.NewRaffleAllFree | src/components/CrearRifaForm.js:47-58 | a created raffle is partitioned, has empty lists, and offers every number of `1..total` |
| CreateRaffle.AddRaffleKeepsConsistent | src/components/CrearRifaForm.js:47-58 | inserting a partitioned row under a fresh id keeps the inventory invariant |
| CreateRaffle.CreatePage.constructor | src/components/CrearRifaForm.js:9-18 | the form starts with price 50, capacity 100 and empty texts, which do not pass validation |
| CreateRaffle.CreatePage.HandleChange | src/components/CrearRifaForm.js:21-27 | an input event stores the change of its one field |
| CreateRaffle.CreatePage.Submit | src/components/CrearRifaForm.js:42-70 | validation reports exactly the failing rules; only a valid form is inserted, under a fresh id with empty lists; a failed insert changes nothing; the inventory invariant is kept |
| EditRaffle.FormOf | src/components/EditarRifaForm.js:38-45 | the form filled from the loaded row's six fields; `EditRaffle.UnchangedEditIsIdentity` states that saving it unchanged leaves the row as it was |
| EditRaffle.ApplyEdit | src/components/EditarRifaForm.js:77-87 | the update writes the six form fields and nothing else: id, status and all three number lists are unchanged |
| EditRaffle.UnchangedEditIsIdentity | src/components/EditarRifaForm.js:38-45 | submitting the form as loaded writes back the row unchanged |
| EditRaffle.EditKeepsRowValid | src/components/EditarRifaForm.js:65 | an edit keeps a raffle partitioned exactly when all its numbers fit the new capacity |
| EditRaffle.EditCanLeaveSoldOutOfRange | src/components/EditarRifaForm.js:65 | a valid edit from capacity 5 with 5 sold to capacity 3 leaves the raffle not partitioned |
| EditRaffle.EditKeepsConsistent | src/components/EditarRifaForm.js:77-87 | an edit whose capacity fits the raffle's numbers keeps the inventory invariant |
| EditRaffle.EditPage.constructor | src/components/EditarRifaForm.js:10-49 | a failed or empty fetch keeps the blank form (price and capacity 0); otherwise the form holds the row's metadata |
| EditRaffle.EditPage.HandleChange | src/components/EditarRifaForm.js:51-57 | an input event stores the change of its one field |
| EditRaffle.EditPage.Submit | src/components/EditarRifaForm.js:72-99 | validation reports exactly the failing rules; no update without a valid form; the update writes only metadata; the invariant is kept when the numbers fit the new capacity |
| Cart.TotalItems | src/components/CarritoCompra.js:16 | `totalItems`: the sum of the items' number counts; `Cart.TotalsConcat` states that it adds up over a split cart |
| Cart.TotalPrice | src/components/CarritoCompra.js:17 | `totalPrecio`: the sum of price times number count; `Cart.UniformPriceTotal` states it for one price |
| Cart.TenDigits | src/components/CarritoCompra.js:31 | `/^\d{10}$/`: exactly ten decimal digits |
| Cart.EmailShape | src/components/CarritoCompra.js:33 | `/\S+@\S+\.\S+/`, unanchored: somewhere a non-space, `@`, non-spaces, `.`, and a non-space |
| Cart.TotalsConcat | src/components/CarritoCompra.js:16-17 | both `reduce` totals add up over a cart split in two |
| Cart.UniformPriceTotal | src/components/CarritoCompra.js:16-17 | with one price per number for every item, `totalPrecio` is that price times `totalItems` |
| Cart.EmailShapeIgnoresSurroundings | src/components/CarritoCompra.js:33 | because the pattern is not anchored, any text that matches it still matches with any text before and after it |
| Cart.ReportsNothingIffValid | src/components/CarritoCompra.js:36 | the error dictionary is empty exactly when name, phone and e-mail pass |
| Cart.Validate | src/components/CarritoCompra.js:27-37 | each failing check sets its own key: a missing field gets the required message, a phone that is not ten digits or an e-mail not matching `\S+@\S+\.\S+` the format message; passes iff no error |
| Cart.CartPage.constructor | src/components/CarritoCompra.js:8-14 | empty contact form, step 1, no checkout |
| Cart.CartPage.HandleChange | src/components/CarritoCompra.js:19-25 | only the named field takes the typed text |
| Cart.CartPage.Continue | src/components/CarritoCompra.js:39-47 | step 1 always advances to step 2; step 2 validates, stays at step 2, and checks out only a valid contact; every checkout ever made was valid |
| Cart.CartPage.Back | src/components/CarritoCompra.js:245 | the back button returns to step 1 |

## Left out

- Supabase I/O: every query, insert and update is a state update of the `Store`; its failure is a boolean parameter. Ordering of query results is taken to be table order, so "the first result" of a query is the first matching row.
- Concurrency: handlers run one at a time, each to completion; interleavings of two handlers' database calls are not modelled. A page that acts on a stale copy of a row is modelled: `DetailPage.Page.Buy` writes back the pending list it loaded, so a confirmation or rejection made after the page loaded is overwritten (`DetailPage.StaleReserveRevivesConfirmed`: loaded pending `[1]` over a stored row with sold `[1]` breaks the partition), and its invariant guarantee assumes `InSync`.
- `Math.random`: the roulette index is a parameter. Uniformity of the draw is not modelled; `AdminPanel.FlattenSpec` states that the list has one entry per element of each participant's `numeros_comprados`, so a number listed twice has two entries.
- `setTimeout`: the roulette's three-second spin sets the winner at once; the detail page's delayed reset is the separate `ClearForm`.
- `window.open`, `alert`, `console.error`, the WhatsApp URL and message construction with `encodeURIComponent`: output only.
- `window.confirm`: its answer is the `approved` parameter.
- Floating point: the sold percentage and `toFixed` are left out; prices are integers. `AdminPanel.SoldNumbersWithinTotal` states the integer bound behind the percentage.
- `Number` on form input: only the empty text and integer literals are modelled (`IsIntegerText`); fractional and exponent input is not.
- `parseInt`: hexadecimal `0x` prefixes are not modelled; decimal text is.
- Null number lists: rows are taken to hold arrays. The detail page normalises `null` to `[]` on load and the admin code guards with `|| []`; the confirmation dialog's `.length` on a `null` list, which would throw before any write, is not modelled.
- `AdminPanel.Panel.SelectForRoulette`: the select hands over `e.target.value`, which is always a string, and `rifas.find(r => r.id === rifaId)` compares it with `===` (AdminPanel.js:691, :346). The model assumes the ids are strings equal to the option values, so the selected raffle is found; the placeholder option selects nothing, as an id no raffle has. With numeric ids, which the model's sequential ids of `CreateRaffle.CreatePage.Submit` resemble, `===` would never hold and the roulette would never load; that probable defect is not modelled.
- The clock: `fecha_compra: new Date().toISOString()` (DetalleRifa.js:150) is the `now` parameter of `DetailPage.Page.Buy`.
- `DetailPage.Page.ChangeCountry`: requires a listed country code, as the select offers only those.
- `CreateRaffle.CreatePage.Submit`: the status, id and number lists of a new row come from table defaults that are not in the source; the model takes the next id, a `defaultStatus` parameter and empty lists.
- Loading lists into the admin panel (`fetchRifas`, `fetchSolicitudesPendientes`, the buyers list) and into the cart (`cartItems` is a prop): the loaded values are constructor arguments.
- Delete of a raffle, routing, the admin-mode flag, the home-page date filter, the login modal, the navbar click counter and the raffle card: outside the inventory.
- JSX rendering and animation.
