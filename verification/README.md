# zack-dashboard order progress, in Dafny

This project models the core of a print shop's order dashboard (a React
application over a Supabase database).

Orders and order items move through five statuses: `en_attente`, `en_cours`,
`termine`, `reporte` and `annule`. They also advance through the ordered
process steps of their product, such as "Conception", "Impression" and
"Emballage". Every status change or advance appends a labelled entry to the
order's history.

The model covers:

- the order detail page's label rule, status-change handler and next-step
  handler;
- the same label rule and the status menu of the order table;
- the item card's advance, and the progress widget's buttons and callbacks;
- the demonstration page's local state machine;
- the product form's step editor and its submission;
- the list pages: the dashboard, the order items, the products and two client
  lists, with their searches, sorts, counts and delete guards;
- the order-creation form.

One module per source file:

- `MockData` holds the shared types and helpers.
- `Seqs`, `Text`, `StatusTally`, `Store` and `Wrappers` are small supporting
  modules: filter and find, lowercase and substring, per-status counts,
  recorded database calls, and `Option`/`Result`.
- Handlers that update component state in place are classes, whose methods
  state the whole new state.
- Pure derivations are functions, with their properties proved as lemmas.

Each store write or check reply is an input to the model: `writeOk`, or a
`CheckReply` that is an error or a row count. Delete handlers return the
calls they issue, in order, as a `seq<Store.Call>`. Clocks appear only as a
`now: Timestamp` parameter.

The two history-label rules (detail page and table) differ in their fallbacks
and are modelled separately. `OrderTable.TableLabelAgreesWithDetail` proves
where they agree and where they do not.

Neither the dashboard's query nor the detail page's selects the `history`
column, so a loaded order carries no history (`MockData.AsSelected`). The
first status change after a load therefore writes a one-entry history over
the stored one; "## Findings" records this.

## Model

| member | source | states |
|---|---|---|
| MockData.ParseStatus | src/lib/mock-data.ts:42 | a raw string parses to a status exactly when it is one of the five keys, and the parse returns that key's status |
| MockData.ParseStatusKey | src/lib/mock-data.ts:42 | every status's key parses back to that status (round trip) |
| MockData.AppendHistory | src/pages/OrderDetail.tsx:183-186 | the new history is the old one, or [] when it is not an array, plus exactly one entry at the end |
| MockData.AsSelected | src/pages/Index.tsx:43-58 | a loaded order has no history and agrees with the stored row on every other field |
| MockData.StatusAfterAdvance | src/pages/OrderDetail.tsx:290 | advancing never leaves an order waiting; every status other than en_attente is kept |
| MockData.StatusText | src/lib/mock-data.ts:364-373 | getStatusText gives "Inconnu" exactly for strings that are not a status key |
| MockData.StatusTextValues | src/lib/mock-data.ts:364-373 | the five labels are "En attente", "En cours", "Terminé", "Reporté", "Annulé", and they are pairwise distinct |
| MockData.StatusColor | src/lib/mock-data.ts:346-361 | getStatusColor gives the gray default exactly for non-status strings |
| MockData.StatusColorDistinct | src/lib/mock-data.ts:346-361 | no two statuses share a colour class |
| MockData.BadgeInjective | src/lib/mock-data.ts:346-361 | two badge classes built from colour names are equal exactly when the colour names are |
| MockData.ClientById | src/lib/mock-data.ts:333-335 | returns a client with that id taken from the list, or nothing exactly when no client has that id |
| MockData.ProductById | src/lib/mock-data.ts:337-339 | returns a product with that id taken from the list, or nothing exactly when no product has that id |
| MockData.OrdersByClientId | src/lib/mock-data.ts:341-343 | keeps exactly the orders with that client id |
| MockData.OrdersByClientIdKeepsOrder | src/lib/mock-data.ts:341-343 | the selection distributes over concatenation, so relative order is kept |
| OrderDetail.MainSteps | src/pages/OrderDetail.tsx:137 | the steps followed are those of the order's main product, and absent without one |
| OrderDetail.CanAdvance | src/pages/OrderDetail.tsx:371-373 | when set, a product is joined and from an index of at least -1 the next step exists; when not, there is no product or the index is on or past the last step |
| OrderDetail.StatusChangeLabel | src/pages/OrderDetail.tsx:142-176 | the ordered label rule: completing a product without steps gives "Finalisé (sans étapes définies)"; "Traitement initié" is given if and only if a product without steps is started; a valid index gives that step; otherwise "Finalisation" or the old status key; with no product, "Finalisation (produit non spécifié)" or "Changement vers <text>" |
| OrderDetail.OrderDetailPage.ChangeStatus | src/pages/OrderDetail.tsx:139-216 | sends the new status and the history plus one labelled entry, never the step index; on success adopts both, on failure keeps the old state |
| OrderDetail.OrderDetailPage.constructor | src/pages/OrderDetail.tsx:79-98 | the loaded page holds the row's status and step index, the main product's steps, and no history |
| OrderDetail.OrderDetailPage.WithHistory | src/pages/OrderDetail.tsx:79-98 | a load that also selects history holds the row's stored history |
| OrderDetail.OrderDetailPage.NextStep | src/pages/OrderDetail.tsx:270-329 | from any index of at least -1: below the last step, index + 1, en_attente becomes en_cours, and the entry names the step entered. Otherwise the index is kept and the order completes through ChangeStatus, with nothing sent if it is already termine. A failed write keeps the state |
| OrderDetail.CurrentStepMessage | src/pages/OrderDetail.tsx:331-356 | done, paused, the current step, no steps; "Progression inconnue" exactly when an active order's index is off its steps |
| OrderDetail.Flags | src/pages/OrderDetail.tsx:360-373 | each flag's condition as an iff; "last step" and "can advance" exclude each other |
| OrderDetail.NextStepButtonMatchesHandler | src/pages/OrderDetail.tsx:270-276 | for every index of at least -1, the "next step" button shows exactly when handleNextStep advances rather than completes |
| OrderDetail.FirstChangeAfterLoad | src/pages/OrderDetail.tsx:79-98 | the first status change after a load sends a one-entry history, which is never the stored history extended when the row stores an entry |
| OrderDetail.FirstChangeWithHistory | src/pages/OrderDetail.tsx:183-186 | with history loaded, the first change sends the stored entries unchanged and in order, followed by the new one |
| OrderItemCard.Advance | src/components/OrderItemCard.tsx:39-88 | with a next step and a successful write: step + 1 and StatusAfterAdvance; otherwise step and status are unchanged |
| OrderItemCard.HasNextStep | src/components/OrderItemCard.tsx:40 | when set, the next step exists from any index of at least -1; when not, the index is on or past the last step |
| OrderItemCard.AdvanceStaysOnSteps | src/components/OrderItemCard.tsx:40-46 | the step never goes past the last step and never decreases |
| OrderItemCard.ItemCard.NextStep | src/components/OrderItemCard.tsx:39-88 | no write and no change on the last step; otherwise writes the next index and the advanced status, and the state follows Advance |
| OrderItemCard.ItemCard.constructor | src/components/OrderItemCard.tsx:28-30 | the card starts from the item's status and step index, not updating |
| OrderItemCard.ItemCard.StatusChange | src/components/OrderItemCard.tsx:90-126 | the same status is a no-op with no write; otherwise only the status is written and adopted on success; the step is untouched |
| OrderItemCard.ItemCard.Mount | src/components/OrderItemCard.tsx:33-37 | an item past step 0 that is still waiting is moved to en_cours through StatusChange |
| OrderProgress.NextStepName | src/components/OrderProgress.tsx:38-43 | the next step's name below the last step, else "Terminé" |
| OrderProgress.Actionable | src/components/OrderProgress.tsx:85 | buttons are offered exactly for en_attente and en_cours items |
| OrderProgress.Look | src/components/OrderProgress.tsx:52-80 | a step is drawn done iff the current step is past it or the status is termine, and active iff it is current and en_cours |
| OrderProgress.LooksAreOrdered | src/components/OrderProgress.tsx:52-80 | done steps form a prefix and at most one step is active |
| OrderProgress.VisibleButtons | src/components/OrderProgress.tsx:85-125 | the visibility condition of "Démarrer", the advance button and "Terminer", each as an iff |
| OrderProgress.ButtonsExclusive | src/components/OrderProgress.tsx:85-125 | the advance button never shows with another button; "Démarrer" and "Terminer" show together only for a waiting item at step 0 of a product with at most one step |
| OrderProgress.SomeButtonOffered | src/components/OrderProgress.tsx:85-125 | an actionable item at a non-negative step always shows some button |
| OrderProgress.Click | src/components/OrderProgress.tsx:23-29 | a click requests en_cours first when starting, or when advancing a waiting item, then exactly one next step |
| OrderProgress.AutoStart | src/components/OrderProgress.tsx:31-35 | a waiting item past step 0 requests en_cours, and nothing else does |
| Demo.Apply | src/pages/Demo.tsx:20-32 | next step below the last step: index + 1, status kept; on the last step: termine, index kept; a status change never alters the index |
| Demo.ApplyAllValid | src/pages/Demo.tsx:10-32 | any sequence of callbacks keeps the index within 0..4 and never decreases it |
| Demo.ClickProgresses | src/pages/Demo.tsx:20-32 | every shown button moves to (en_cours, step + 1), or on the last step to (termine, 4) |
| Demo.CompletedIsFinal | src/pages/Demo.tsx:20-32 | a completed item shows no button |
| Demo.Walkthrough | src/pages/Demo.tsx:10-32 | from the initial state, "Démarrer" reaches step 1, and "Terminer" on step 4 completes the item |
| Demo.Advances | src/pages/Demo.tsx:20-26 | k next-step callbacks, each a call of handleNextStep |
| Demo.AdvancesComplete | src/pages/Demo.tsx:20-26 | advancing once more than the steps left completes the item on its last step |
| Demo.FifthAdvanceCompletes | src/pages/Demo.tsx:10-26 | from step 0, whatever the status, the fifth advance leaves the item termine on the last step |
| Demo.DemoPage.NextStep | src/pages/Demo.tsx:20-26 | the page state after handleNextStep is Apply of the next-step callback |
| Demo.DemoPage.constructor | src/pages/Demo.tsx:7-10 | the page starts waiting at step 0 |
| Demo.DemoPage.StatusChange | src/pages/Demo.tsx:28-32 | the page state after handleStatusChange is Apply of the status callback |
| OrderTable.Priority | src/components/OrderTable.tsx:44-50 | priorities lie in 0..4; en_cours is the unique 0 and termine the unique 4 |
| OrderTable.PriorityInjective | src/components/OrderTable.tsx:44-50 | different statuses have different priorities |
| OrderTable.SortedOrders | src/components/OrderTable.tsx:43-55 | the rows the table lists are a permutation of the orders in non-decreasing priority; SortedOrdersSpec adds stability per status |
| OrderTable.FromLevelSorted | src/components/OrderTable.tsx:43-55 | the sorted orders are in non-decreasing priority |
| OrderTable.FromLevelPermutes | src/components/OrderTable.tsx:43-55 | the sorted orders are a permutation of the input |
| OrderTable.SortedOrdersSpec | src/components/OrderTable.tsx:43-55 | permutation, sorted by priority, and stable: the orders of each status keep their input order |
| OrderTable.StepDisplay | src/components/OrderTable.tsx:57-89 | no product: "Terminé" or "Détails produit manquants"; no steps: "Terminé" or "Étapes non définies"; past the steps: "Terminé"; negative: "Prêt à commencer" for en_attente, else "Indéfini"; otherwise the step's name |
| OrderTable.RowProduct | src/components/OrderTable.tsx:58-59 | the joined product when there is one, else the first product of the list with the order's product_id |
| OrderTable.StepDisplayMatchesDetail | src/components/OrderTable.tsx:82-88 | for an active order on a valid step, the table shows the step the detail page names |
| OrderTable.TableStatusChangeLabel | src/components/OrderTable.tsx:101-140 | the table's label rule, including "Changement vers <text> (produit non spécifié)" for every status without a product |
| OrderTable.TableLabelAgreesWithDetail | src/components/OrderTable.tsx:106-140 | with a product, equal to the detail page's label except in the fallback, where the table says "Changement vers <text>" instead of the old status key |
| OrderTable.StatusChangeRequest | src/components/OrderTable.tsx:95-148 | the update carries the new status and the history plus one entry at the end, with that status and the given time |
| OrderTable.TableChangeAfterLoad | src/pages/Index.tsx:43-58 | a change on a row the dashboard loaded sends a one-entry history, never the stored history extended when the row stores an entry |
| OrderTable.MenuOptions | src/components/OrderTable.tsx:268-314 | termine and annule offer nothing; any other status offers exactly the four other statuses |
| OrdersPage.Normalise | src/pages/OrdersPage.tsx:265-279 | missing status becomes en_attente, a missing index 0, a missing product "Produit inconnu" with no steps, a missing client "Client inconnu" |
| OrdersPage.NormalisedRowsAreNamed | src/pages/OrdersPage.tsx:268-277 | every normalised row has a non-empty title and client name |
| OrdersPage.StatusBadgeProps | src/pages/OrdersPage.tsx:44-80 | only annule has no extra class; exactly the two active statuses use the outline variant |
| OrdersPage.BadgeTextIsStatusText | src/pages/OrdersPage.tsx:44-80 | each status badge reads the shared status label |
| OrdersPage.BadgeText | src/pages/OrdersPage.tsx:354-373 | en_cours reads "En Cours - <step>" on a valid step other than "Emballage", else "En Cours"; other statuses use their badge text |
| OrdersPage.NoFilterKeepsAll | src/pages/OrdersPage.tsx:134-158 | empty or "Tous les …" selections and no bounds let every row pass |
| OrdersPage.Compare | src/pages/OrdersPage.tsx:178-205 | in both modes an en_cours row goes before any other row; in the keyed mode, rows of one class with different quantities go first exactly when their quantity comes first in the chosen direction |
| OrdersPage.CompareAntisymmetric | src/pages/OrdersPage.tsx:178-205 | swapping two rows flips the sign of the comparison |
| OrdersPage.Insert | src/pages/OrdersPage.tsx:176-207 | one insertion step of the sort adds exactly the inserted row to the rows |
| OrdersPage.InsertSorted | src/pages/OrdersPage.tsx:176-207 | inserting a row into rows in comparator order keeps them in order |
| OrdersPage.SortRows | src/pages/OrdersPage.tsx:176-207 | the sorted rows are a permutation of the rows and each is in order with the next |
| OrdersPage.InProgressFirst | src/pages/OrdersPage.tsx:178-181 | in sorted rows every en_cours row precedes every other row |
| OrdersPage.DefaultModeNewestFirst | src/pages/OrdersPage.tsx:198-205 | without a sort key, dated rows of the same class are newest first |
| OrdersPage.KeyedModeByQuantity | src/pages/OrdersPage.tsx:177-189 | sorted by quantity, rows of one class are in ascending quantity for asc and descending for desc |
| OrdersPage.RequestedSort | src/pages/OrdersPage.tsx:220-227 | the key is set; descending iff the same key was ascending |
| OrdersPage.RequestSortToggles | src/pages/OrdersPage.tsx:220-227 | on the current key each request flips the direction, and two requests restore it |
| OrdersPage.OrdersView.SelectProduct | src/pages/OrdersPage.tsx:424-425 | "Tous les produits" clears the product filter; nothing else changes |
| OrdersPage.OrdersView.SelectClient | src/pages/OrdersPage.tsx:446-447 | "Tous les clients" clears the client filter; nothing else changes |
| OrdersPage.OrdersView.RequestSort | src/pages/OrdersPage.tsx:220-227 | the sort becomes RequestedSort of the old one; the filters are kept |
| OrdersPage.OrdersView.constructor | src/pages/OrdersPage.tsx:89-106 | no product or client filter, no quantity bounds, no sort key and ascending direction |
| OrdersPage.OrdersView.FilteredAndSorted | src/pages/OrdersPage.tsx:131-216 | exactly the rows passing every active filter, each as often as in the input, sorted with en_cours rows first |
| OrdersPage.ApplyFilters | src/pages/OrdersPage.tsx:134-158 | the product, client, min and max filters in turn keep exactly the rows passing all of them, with their multiplicity; bounds are inclusive |
| OrdersPage.ProductStage | src/pages/OrdersPage.tsx:134-138 | after the product filter, exactly the rows passing it are kept, with their multiplicity |
| OrdersPage.ClientStage | src/pages/OrdersPage.tsx:140-144 | after the client filter, exactly the rows passing it and the product filter are kept |
| OrdersPage.MinQuantityStage | src/pages/OrdersPage.tsx:146-151 | after the inclusive lower bound, exactly the rows passing it and the earlier filters are kept |
| OrdersPage.MaxQuantityStage | src/pages/OrdersPage.tsx:153-158 | after the inclusive upper bound, exactly the rows passing every filter are kept |
| OrdersPage.ProductChoices | src/pages/OrdersPage.tsx:108-112 | "Tous les produits" first, then exactly the titles that occur, each once, in order of first appearance |
| OrdersPage.StatusCounts | src/pages/OrdersPage.tsx:294-310 | all is the row count; each tab counts exactly its status; other counts reporte or annule |
| OrdersPage.CountsAddUp | src/pages/OrdersPage.tsx:294-310 | en_attente + en_cours + termine + other = all |
| ProductForm.InitialSteps | src/components/ProductForm.tsx:35-37 | the product's steps with every "Emballage" removed, every other step keeping its count; [] without a product |
| ProductForm.InitialStepsKeepOrder | src/components/ProductForm.tsx:35-37 | the kept steps stay in the product's order: the selection distributes over concatenation |
| ProductForm.Toggle | src/components/ProductForm.tsx:67-74 | a present step is removed everywhere and every other step keeps its count; an absent one is appended at the end |
| ProductForm.ToggleOffKeepsOrder | src/components/ProductForm.tsx:67-71 | deselecting a step keeps the other steps in their order |
| ProductForm.Without | src/components/ProductForm.tsx:69-71 | removes exactly the occurrences of one step: each other step keeps its count |
| ProductForm.WithoutConcat | src/components/ProductForm.tsx:69-71 | removing a step distributes over concatenation, so it never reorders |
| ProductForm.ToggleTwice | src/components/ProductForm.tsx:67-74 | toggling an absent step twice restores the selection |
| ProductForm.RemoveAt | src/components/ProductForm.tsx:76-81 | removing index i deletes exactly that element and keeps the rest in order |
| ProductForm.Moved | src/components/ProductForm.tsx:83-103 | unchanged at the edge; otherwise the step swaps with its neighbour, a same-length permutation |
| ProductForm.MoveUpThenDown | src/components/ProductForm.tsx:83-103 | moving a step up then down restores the selection |
| ProductForm.ProductFormState.constructor | src/components/ProductForm.tsx:39-43 | the form starts from the product's name, description and initial steps |
| ProductForm.ProductFormState.ProductChanged | src/components/ProductForm.tsx:46-55 | a new product resets the form from it |
| ProductForm.ProductFormState.Change | src/components/ProductForm.tsx:57-65 | an input changes only its own field |
| ProductForm.ProductFormState.ToggleStep | src/components/ProductForm.tsx:67-74 | the selection becomes Toggle of the old one |
| ProductForm.ProductFormState.RemoveStep | src/components/ProductForm.tsx:76-81 | the selection becomes RemoveAt of the old one |
| ProductForm.ProductFormState.MoveStep | src/components/ProductForm.tsx:83-103 | the swap done in an array copy yields Moved of the old selection |
| ProductForm.ProductFormState.Submit | src/components/ProductForm.tsx:105-149 | a blank name, then an empty selection, are refused; otherwise the steps are the selection plus "Emballage" when absent, a blank description becomes null, and the target is update or insert |
| ClientDetail.LocalStatusColor | src/pages/ClientDetail.tsx:56-61 | blue, green or red for en_cours, termine and annule, and gray exactly for every other string |
| ClientDetail.LocalStatusText | src/pages/ClientDetail.tsx:63-68 | three labels; any other string is returned unchanged, and only those three change |
| ClientDetail.LocalTextAgainstShared | src/pages/ClientDetail.tsx:63-68 | against the shared labels: termine and annule agree, en_cours differs in case, en_attente and reporte are shown raw |
| ClientDetail.ProductIdsToLoad | src/pages/ClientDetail.tsx:118-124 | exactly the distinct non-empty product ids of the orders |
| ClientDetail.ProductName | src/pages/ClientDetail.tsx:175-179 | "Produit non spécifié" without an id, "Produit inconnu" when none matches, else the name |
| ClientDetail.CurrentStep | src/pages/ClientDetail.tsx:181-194 | "Produit non spécifié" without an id; "Terminé" for an unknown product or an index past the steps; else the step, undefined for a negative index |
| ClientDetail.CurrentStepIsKnown | src/pages/ClientDetail.tsx:181-194 | a step name `getCurrentStep` computes is a fixed text or a step of the order's product (the page's product and step cells are commented out, so neither is rendered) |
| ClientDetail.InProgressCount | src/pages/ClientDetail.tsx:276 | the shared count of en_cours orders; at most the order count, and zero iff there is none |
| ClientDetail.InProgressCountCons | src/pages/ClientDetail.tsx:276 | each en_cours order adds one to the counter and any other order adds nothing |
| Dashboard.Search | src/pages/Index.tsx:99-119 | an empty query keeps all; otherwise exactly the orders whose lowercased client or product name, or id, contains the lowercased query |
| Dashboard.SearchKeepsOrder | src/pages/Index.tsx:107-116 | the search distributes over concatenation, so kept orders keep their relative order |
| Dashboard.SearchIdempotent | src/pages/Index.tsx:107-116 | searching the result again changes nothing |
| Dashboard.FoundById | src/pages/Index.tsx:111-114 | an order is found by its own id when the id has no uppercase letters |
| Dashboard.StatusCounts | src/pages/Index.tsx:122-135 | all is the order count, each count is its status's count, and the five add up to all |
| Dashboard.TabRows | src/pages/Index.tsx:236-276 | the "all" tab shows the filtered orders; each single-status tab shows exactly the filtered orders with that status; the last tab shows exactly reporte or annule |
| Dashboard.TabRowsMultiplicity | src/pages/Index.tsx:236-276 | each order a tab lists appears there as often as in the filtered list, and no other order appears |
| Dashboard.TabRowsKeepOrder | src/pages/Index.tsx:236-276 | every tab keeps the filtered list's order: it distributes over concatenation |
| Dashboard.OtherTabLabelMatchesRows | src/pages/Index.tsx:232 | with no query the "other" label count reporte + annule equals the rows that tab shows |
| Dashboard.DashboardState.ApplySearch | src/pages/Index.tsx:99-119 | skipped when nothing is loaded and loading is over; otherwise the shown orders become Search of the orders |
| Dashboard.DashboardState.RecountStatuses | src/pages/Index.tsx:122-135 | counts are kept when no order is loaded; otherwise they become StatusCounts |
| Dashboard.DashboardState.constructor | src/pages/Index.tsx:19-33 | no orders, no shown orders, all counts zero, loading, and an empty query |
| ProductsPage.Normalise | src/pages/Products.tsx:55-59 | missing steps become []; a missing or empty description becomes null |
| ProductsPage.NormaliseAll | src/pages/Products.tsx:55-59 | every loaded row is normalised, in place and order |
| ProductsPage.NormaliseIdempotent | src/pages/Products.tsx:55-59 | normalising an already normalised product changes nothing |
| ProductsPage.Search | src/pages/Products.tsx:81-86 | exactly the products whose lowercased name contains the lowercased query |
| ProductsPage.EmptySearchKeepsAll | src/pages/Products.tsx:81-86 | an empty query lists every product unchanged |
| ProductsPage.HandleDeleteProduct | src/pages/Products.tsx:93-132 | the check comes first; a delete is issued iff the check succeeded with no order; a check error abandons and a referenced product is kept |
| ProductsPage.ProductsView.Loaded | src/pages/Products.tsx:55-62 | both the products and the shown products become the normalised rows |
| ProductsPage.ProductsView.constructor | src/pages/Products.tsx:38-40 | no products, none shown, and an empty query |
| ProductsPage.ProductsView.SearchChanged | src/pages/Products.tsx:81-86 | the shown products become Search of the products |
| Clients.Search | src/pages/Clients.tsx:84-92 | lowercased name or email, but the raw phone, contains the query |
| Clients.EmptySearchKeepsAll | src/pages/Clients.tsx:84-92 | an empty query lists every client unchanged |
| Clients.OrdersCount | src/pages/Clients.tsx:94-96 | the number of the client's orders: at most the order count, and zero iff there is none |
| Clients.OrdersCountCons | src/pages/Clients.tsx:94-96 | each order of the client adds one to its count and any other order adds nothing |
| Clients.OrdersCountsDisjoint | src/pages/Clients.tsx:94-96 | two clients' counts never add up to more than the orders |
| Clients.DeleteDialog.Open | src/pages/Clients.tsx:111-114 | the client becomes pending and the dialog opens |
| Clients.DeleteDialog.constructor | src/pages/Clients.tsx:47-48 | no client pending and the dialog closed |
| Clients.DeleteDialog.HandleDeleteClient | src/pages/Clients.tsx:116-161 | nothing without a pending client; the orders are deleted first, the client only after that succeeds; the dialog then closes and forgets the client |
| ClientsPage.NormaliseEmail | src/pages/ClientsPage.tsx:45-48 | a missing or empty email becomes null |
| ClientsPage.NormaliseAll | src/pages/ClientsPage.tsx:45-48 | every loaded row has its email normalised, in place and order |
| ClientsPage.Search | src/pages/ClientsPage.tsx:72-81 | lowercased name or phone, or the email when present, contains the lowercased query |
| ClientsPage.SearchIgnoresEmptyEmail | src/pages/ClientsPage.tsx:45-48 | without email, only name and phone match; normalising the email never changes what a non-empty query finds |
| ClientsPage.HandleDeleteClient | src/pages/ClientsPage.tsx:87-133 | nothing without a database client; a delete is issued iff the check succeeded with no order; a check error takes the error path |
| ClientsPage.ClientsView.Loaded | src/pages/ClientsPage.tsx:45-51 | both the clients and the shown clients become the normalised rows |
| ClientsPage.ClientsView.constructor | src/pages/ClientsPage.tsx:30-32 | no clients, none shown, and an empty query |
| ClientsPage.ClientsView.SearchChanged | src/pages/ClientsPage.tsx:72-81 | the shown clients become Search of the clients |
| CreateOrder.ClampQuantity | src/pages/CreateOrder.tsx:128-131 | the quantity is max(1, n) |
| CreateOrder.ClampKeepsValid | src/pages/CreateOrder.tsx:128-131 | valid quantities are kept and clamping is idempotent |
| CreateOrder.OrderForm.constructor | src/pages/CreateOrder.tsx:64-75 | nothing selected, quantity 1, dated today |
| CreateOrder.OrderForm.NotesChange | src/pages/CreateOrder.tsx:110-118 | changes only the notes |
| CreateOrder.OrderForm.ClientSelectChange | src/pages/CreateOrder.tsx:120-122 | changes only the client |
| CreateOrder.OrderForm.ProductSelectChange | src/pages/CreateOrder.tsx:124-126 | changes only the product |
| CreateOrder.OrderForm.QuantityChange | src/pages/CreateOrder.tsx:128-131 | changes only the quantity, to the clamped value |
| CreateOrder.OrderForm.DateChange | src/pages/CreateOrder.tsx:313 | changes only the date, which may be cleared |
| CreateOrder.OrderForm.Submit | src/pages/CreateOrder.tsx:147-186 | refused iff client, product or date is missing or the quantity is below 1; the payload copies the form with en_attente and step 0 |
| CreateOrder.FilledFormIsAccepted | src/pages/CreateOrder.tsx:110-186 | a form filled through its handlers with a client and a product is always accepted, at the clamped quantity |
| StatusTally.CountsPartition | src/pages/Index.tsx:122-135 | the five per-status counts add up to the number of rows |
| StatusTally.OthersCount | src/pages/Index.tsx:232 | the reporte-or-annule rows number reporte + annule |
| StatusTally.OthersFilter | src/pages/Index.tsx:270-272 | the "other" rows are the reporte or annule rows with their multiplicity, in their order |
| Seqs.FilterConcat | src/pages/Index.tsx:107-116 | filtering never reorders: it distributes over concatenation |

## Left out

- Database I/O, toasts, navigation, reloads after a write, and `updated_at` stamps. Store replies are inputs, as `writeOk` and `Store.CheckReply`.
- Concurrency between asynchronous handlers, and the transient `isUpdating`, `isSubmitting`, `isLoading` spinners and `updatingOrderId`.
- A `null` or non-numeric `current_step_index`. The index is an `int`, so the table's conversion of a non-number to -1 is not modelled. `OrderDetail.OrderDetailPage.NextStep` requires an index of at least -1: from -1 it advances to the first step, and only an index of -2 or less would read an undefined step name.
- OrdersPage date filters and date parsing. `orderDate` is already read as milliseconds, and the quantity bounds are already-parsed `Option<int>` values (`parseInt` and `NaN` are not modelled).
- CreateOrder.ClampQuantity: the `Number()` conversion of the text input is not modelled, so a `NaN` quantity cannot arise.
- Case folding is ASCII only. `toLowerCase` on other letters and the JavaScript `trim` of non-ASCII spaces beyond the common set are not modelled.
- `getStatusText` lookups of inherited object keys such as "toString" are not modelled. Every non-status string gives "Inconnu".
- OrdersPage.SortRows: the library sort is modelled as a stable insertion sort on values. In-place reordering and engine-specific behaviour for inconsistent comparators are not captured.
- OrderDetail.OrderDetailPage.ChangeStatus: the page adopts the whole row the store returns; the model adopts only the status and history it sent.
- Index search over the order id compares the id as stored (it is not lowercased), as in the source; ids are not otherwise constrained.
- Clients.Search: `client.email` is taken to be a string as the page's type says; a `null` email from the store would make the page's search throw, which is not modelled.
- ClientDetail.ProductName and ClientDetail.CurrentStep: the page defines `getProductName` and `getCurrentStep`, but the product and step cells and the "Étape" header of its order table are commented out, so nothing the model computes there is rendered.
- The JSX rendering, and every page and component outside the ones named above.

## Findings

| source | as written | input that shows it | evidently intended | confidence | as-written member | corrected member |
|---|---|---|---|---|---|---|
| src/pages/OrderDetail.tsx:79-98 | the order query omits `history`, so the first status change or step advance after loading writes `[entry]` | a stored order with history `[e1]`: the first change sends `[e_new]`, dropping `e1` | the query selects `history`, and the change sends `[e1, e_new]` | high, not executed | OrderDetail.FirstChangeAfterLoad | OrderDetail.FirstChangeWithHistory |
| src/pages/Index.tsx:43-58 | the dashboard query omits `history`, so the table's status change (src/components/OrderTable.tsx:147-148) writes `[entry]` | a stored order with history `[e1]`: the table's update carries `[e_new]` | the query selects `history`, and the update carries `[e1, e_new]` | high, not executed | OrderTable.TableChangeAfterLoad | OrderTable.StatusChangeRequest |
