# Stock ledger and request workflow of the IT stock API

This project models the write side of a small inventory service. The service tracks IT
equipment (articles) held by agencies (agences). It covers:

- the `stock` table, one quantity and one shortage threshold per (article, agence) key;
- requests for equipment (demandes), which an operator validates to take stock out;
- the `historique` table, an audit trail of every stock movement.

The modelled code is:

- the three writing handlers of `backend/main.py`: `update_stock`, `create_demande` and
  `valider_demande`;
- the read-side projections of that file: the shortage flag of `get_stock`, the
  counters of `get_stats` and the bounded, newest-first listing of `get_historique`;
- the construction of the initial stock by `backend/create_database.py`, a nested loop
  over the ids of agencies and articles, under the table's `UNIQUE(article_id, agence_id)`
  constraint.

Modules:

- `Schema` (schema.dfy): the rows of the tables and the errors of the handlers. It also
  defines the key lookup `Find`, modelled on `SELECT ... WHERE article_id = ? AND
  agence_id = ?` with `fetchone`, and the keyed `UPDATE`, `SetQuantite`.
- `InitialStock` (initial_stock.dfy): the list `stock_data` as a function `CrossProduct`.
  The method `BuildStockData` runs the script's nested loop and is proved to build that
  list.
- `Ledger` (ledger.dfy): the database as a value `Db`, each handler as a function from
  the database before the call to the answer and the database after it, and the
  invariant `Valid`. `Valid` holds of the created database and is kept by every
  handler. It says:
  - keys are unique and cover the catalog;
  - quantities are non-negative;
  - each quantity equals the net of the movements recorded for its key;
  - a validated demande is linked to exactly one movement, a pending one to none;
  - every movement is internally consistent.
- `Queries` (queries.dfy): the stock listing with its flag, the `get_stats` counters and
  the history listing.
- `Api` (api.dfy): the class `StockService`. Its fields are the tables, and its methods
  update them in place in the handlers' order of statements. Each method is proved to
  reach exactly the state, and give exactly the answer, of the matching `Ledger`
  function. So every property proved in `Ledger` and `Queries` holds of the service.
- `Workflow` (workflow.dfy): any sequence of calls to the three writing handlers. It
  proves what holds in every state reachable from the created database.

Where the code is more permissive than one would expect, the model follows the code:

- A demande's quantity is meant to be positive, but `create_demande` does not check it,
  and neither does the model. On such a demande, `valider_demande` passes its stock
  check and raises the stock (`Ledger.NegativeDemandeRaisesStock`).
- A movement's quantity is meant to be a positive magnitude. Yet an adjustment by 0
  records a 'sortie' of 0, and a validated negative demande records a 'demande'
  movement with a negative quantity.
- The code has six distinct failures: four "not found" (HTTP 404) and two "bad
  request" (HTTP 400). The model keeps all six as separate `Error` values. A validation
  with no stock row for the key fails, as in the code, with "Stock insuffisant" rather
  than "not found".

## Model

| member | source | states |
|---|---|---|
| Schema.Find | backend/main.py:101-102 | The lookup finds a row of the key, the first one in table order, and finds nothing exactly when no row has that key. |
| Schema.SetQuantite | backend/main.py:111 | The keyed UPDATE: every row of the key gets the new quantity and every other row is kept. Its properties are stated by `Schema.SetQuantiteKeepsKeys`, `Schema.SetQuantiteLookup`, `Schema.SetQuantiteSame` and `Schema.SetQuantiteTwice`. |
| Schema.FindUnique | backend/create_database.py:21 | Under the UNIQUE constraint, the row a key selects is the only row holding that key. |
| Schema.SetQuantiteKeepsKeys | backend/main.py:111 | Updating a quantity changes no key, so every lookup selects the same row as before and the uniqueness constraint still holds. |
| Schema.SetQuantiteLookup | backend/main.py:111 | After the keyed UPDATE, the updated key holds the new quantity (when it has a row) and every other key keeps its quantity. |
| Schema.SetQuantiteSame | backend/main.py:111 | Writing back the quantity a unique key already holds gives back the same table. |
| Schema.SetQuantiteTwice | backend/main.py:111 | Two updates of one key: the later one alone decides the result. |
| InitialStock.RowsFor | backend/create_database.py:97-98 | The inner loop appends one row per article, in article order, each for the same agence with quantity 0 and threshold 5. |
| InitialStock.CrossProduct | backend/create_database.py:95-98 | The list `stock_data`, as a function. `InitialStock.BuildStockData` proves the loop builds it; `InitialStock.CrossProductLength`, `InitialStock.CrossProductAt`, `InitialStock.CrossProductRows`, `InitialStock.CrossProductCovers` and `InitialStock.CrossProductUnique` state its properties. |
| InitialStock.BuildStockData | backend/create_database.py:95-98 | The nested loop builds exactly the cross product: for each agence in turn, the rows of all articles. |
| InitialStock.CrossProductLength | backend/create_database.py:95-98 | The initial stock has exactly agences × articles rows. |
| InitialStock.CrossProductAt | backend/create_database.py:96-98 | Agences are the outer loop and articles the inner loop: the row at position i·\|articles\|+j is that of the i-th agence and the j-th article. |
| InitialStock.CrossProductRows | backend/create_database.py:98 | Every initial row belongs to a listed agence and a listed article, with quantity 0 and threshold 5. |
| InitialStock.CrossProductCovers | backend/create_database.py:95-98 | Every (agence, article) pair of the lists has a row. |
| InitialStock.CrossProductUnique | backend/create_database.py:21 | With distinct ids, no two initial rows share a key, so the bulk insert meets the UNIQUE constraint. |
| InitialStock.SeedIds | backend/create_database.py:90-93 | Ids standing for those read back after insertion, in some order: the seeded number of them and no id twice. |
| InitialStock.SeededStock | backend/create_database.py:29-101 | The seeded 27 agences and 22 articles give 594 stock rows with pairwise distinct keys. |
| Ledger.Abs | backend/main.py:113 | The recorded magnitude is the delta or its negation, and never negative. |
| Ledger.InitialDbValid | backend/create_database.py:21-22 | The created database satisfies the invariant: unique, covering, non-negative rows, each equal to the empty net; no demande; no movement. |
| Ledger.RecordKeepsRows | backend/main.py:111 | Writing a consistent movement's after-value to its key keeps the table's invariant, including the replay of the history. |
| Ledger.RecordKeepsHistory | backend/main.py:113 | Appending a consistent movement of an existing key keeps the history invariant. |
| Ledger.RecordKeepsDemandes | backend/main.py:113 | Appending a movement linked to no demande keeps every demande's link count. |
| Ledger.UpdateStock | backend/main.py:97-116 | The handler as a function from the database to the answer and the new database. Its behaviour is stated by `Ledger.UpdateStockErrors`, `Ledger.UpdateStockSuccess`, `Ledger.UpdateStockPreservesValid` and `Ledger.UpdateStockRoundTrip`. |
| Ledger.UpdateStockErrors | backend/main.py:101-110 | The call fails with "not found" exactly when the key has no row. It fails with "insufficient" exactly when before + delta < 0. These are the only failures, and a failure changes nothing. |
| Ledger.UpdateStockSuccess | backend/main.py:106-116 | The key goes from before to before + delta ≥ 0. Row by row, the key's row changes only its quantity (stock_min is kept) and every other row is unchanged; the catalog and the demandes are unchanged. Exactly one movement is appended: 'entree' iff delta > 0, otherwise 'sortie'. It records \|delta\| and the before, after and commentaire values, and no demande or user. |
| Ledger.UpdateStockPreservesValid | backend/main.py:97-116 | Every adjustment, successful or not, keeps the database invariant. |
| Ledger.UpdateStockRoundTrip | backend/main.py:107-113 | On unique keys, with the key's quantity non-negative, adjusting by delta and then by -delta restores the stock table. It appends exactly two movements, whose signed changes cancel. |
| Ledger.RoundTripStock | backend/main.py:111 | The table part of the round trip: the key holds before + delta after the first UPDATE, and the second UPDATE writes back the original table. |
| Ledger.UpdateAllSum | backend/main.py:97-116 | A series of adjustments of one key whose running totals stay non-negative all succeed. The final quantity is the initial one plus their sum, and one movement is recorded per adjustment. |
| Ledger.CreateDemande | backend/main.py:127-143 | The handler as a function. Its behaviour is stated by `Ledger.CreateDemandeErrors`, `Ledger.CreateDemandeSuccess` and `Ledger.CreateDemandePreservesValid`. |
| Ledger.CreateDemandeErrors | backend/main.py:131-138 | An unknown agence is reported first, then an unknown article. These are the only failures, and a failure changes nothing. |
| Ledger.CreateDemandeSuccess | backend/main.py:139-142 | The new demande gets the next AUTOINCREMENT id, last id + 1, which no demande had, and the counter moves to it. It is 'en_attente' with no validator and holds exactly the request's ticket, key, client name, email, quantity (as given) and comment. Existing demandes, stock and history are unchanged. |
| Ledger.CreateDemandePreservesValid | backend/main.py:127-143 | Every creation keeps the database invariant; the new demande has no linked movement. |
| Ledger.ValiderDemande | backend/main.py:145-170 | The handler as a function. Its behaviour is stated by `Ledger.ValiderDemandeErrors`, `Ledger.ValiderDemandeSuccess`, `Ledger.ValiderDemandePreservesValid` and `Ledger.ValiderDemandeOnce`. |
| Ledger.ValiderDemandeErrors | backend/main.py:149-162 | The three failures, in order: unknown id; status not 'en_attente'; no stock row or stock below the quantity. The call succeeds exactly when the demande is pending and its key holds at least the requested quantity, and each failure changes nothing. |
| Ledger.ValiderDemandeSuccess | backend/main.py:163-170 | The key goes from before to before - quantite ≥ 0. Row by row, the key's row changes only its quantity (stock_min is kept) and every other row is unchanged. The demande becomes 'validee' with the user as validator, and no other demande changes. One 'demande' movement is appended, linked to the demande, with its quantity, user and before/after values, and no comment. |
| Ledger.ValiderDemandePreservesValid | backend/main.py:145-170 | Every validation keeps the invariant. Afterwards the validated demande is linked to exactly one movement. |
| Ledger.ValidationKeepsRowsAndHistory | backend/main.py:166 | Marking a demande that no movement is linked to yet keeps the stock rows and the history valid. |
| Ledger.ValidationKeepsDemandes | backend/main.py:166-167 | After the status update and the linked movement, the validated demande has exactly one linked movement, and every other demande keeps its count. |
| Ledger.ValiderDemandeOnce | backend/main.py:154-156 | Validating a demande a second time fails with "already processed" and changes nothing. |
| Ledger.NegativeDemandeRaisesStock | backend/main.py:158-165 | A pending demande with a negative quantity always passes the stock check, and its validation raises the stock. |
| Queries.GetStock | backend/main.py:92-93 | One line per stock row with the flag `alerte` set to quantite < stock_min. `Queries.AlertLinesMatchStats` states that the flagged lines are what `alertes_stock` counts; `Queries.InitialStats` states that every line of the created database is flagged. |
| Queries.PendingIds | backend/main.py:182-183 | The demandes still 'en_attente'. `Queries.GetStats` bounds their count by all demandes; `Queries.StatsAfterCreate` and `Queries.StatsAfterValidation` give its change. |
| Queries.CountAlertes | backend/main.py:184-185 | The alert counter. `Queries.CountAlertesIsCardinality` states it is the number of rows with quantite < stock_min. |
| Queries.SumQuantites | backend/main.py:186-187 | The total of quantities, 0 for an empty table. `Queries.SumQuantitesNonNegative` and `Queries.SumSetQuantite` state its properties. |
| Queries.GetStats | backend/main.py:176-187 | Pending demandes are at most all demandes. The alert counter is the number of rows with quantite < stock_min. Total items is non-negative whenever every quantity is. |
| Queries.CountAlertesIsCardinality | backend/main.py:184-185 | The alert counter equals the cardinality of the set of rows below threshold. |
| Queries.SumQuantitesNonNegative | backend/main.py:186-187 | The sum of non-negative quantities is non-negative, and that of an empty table is 0. |
| Queries.AlertLinesMatchStats | backend/main.py:93 | The number of stock lines flagged `alerte` equals the `alertes_stock` counter. |
| Queries.SumSetQuantite | backend/main.py:111 | Writing quantity q to a unique key changes the total by q minus the key's old quantity. |
| Queries.TotalItemsAfterUpdate | backend/main.py:111 | Under the UNIQUE constraint, a successful adjustment changes `total_items` by exactly delta. |
| Queries.StatsAfterValidation | backend/main.py:165-166 | Under the UNIQUE constraint, a successful validation lowers `total_items` by the quantity and `demandes_attente` by one, and keeps `total_demandes`. |
| Queries.StatsAfterCreate | backend/main.py:139-140 | A successful creation raises `total_demandes` and `demandes_attente` by one, and keeps `total_items`. |
| Queries.InitialSums | backend/create_database.py:98 | In the initial stock every row is in shortage and the total is 0. |
| Queries.AllAlerte | backend/main.py:93 | Rows all at quantity 0 under threshold 5 are all counted as alerts and sum to 0. |
| Queries.InitialStats | backend/create_database.py:95-100 | The dashboard of the created database shows \|agences\| agences and \|articles\| articles, no demande, \|agences\|×\|articles\| alerts and 0 items. Every listed line is flagged. |
| Queries.GetHistorique | backend/main.py:192-195 | The listing holds the limit's number of movements (50 by default), or all of them when the limit is negative or exceeds the history. They come newest first: position i holds the i-th most recent. |
| Queries.Newest | backend/main.py:195 | The last n movements in reverse order of recording. |
| Api.StockService.constructor | backend/create_database.py:90-100 | The service starts in the created database, which satisfies the invariant. |
| Api.StockService.UpdateStock | backend/main.py:97-116 | The in-place handler gives the answer and the new tables of `Ledger.UpdateStock` and keeps the invariant. |
| Api.StockService.CreateDemande | backend/main.py:127-143 | The in-place handler gives the answer and the new tables of `Ledger.CreateDemande` and keeps the invariant. |
| Api.StockService.ValiderDemande | backend/main.py:145-170 | The in-place handler, with "admin" as the default user, gives the answer and the new tables of `Ledger.ValiderDemande` and keeps the invariant. |
| Workflow.ApplyPreservesValid | backend/main.py:97-170 | Any one call to a writing handler keeps the invariant. |
| Workflow.RunPreservesValid | backend/main.py:97-170 | Any sequence of calls keeps the invariant. |
| Workflow.ApplyExtendsHistory | backend/main.py:113 | A call keeps every recorded movement in place. |
| Workflow.RunExtendsHistory | backend/main.py:113 | The history is append-only: after any sequence of calls the old history is a prefix of the new one. |
| Workflow.ApplyKeepsValidated | backend/main.py:154-156 | No call changes a demande once it is validated. |
| Workflow.ValidatedStaysValidated | backend/main.py:154-167 | After any further calls a validated demande is unchanged and linked to exactly one movement: its stock is taken once. |
| Workflow.Reachable | backend/create_database.py:95-100 | In every state reachable from the created database:<br>- keys are unique;<br>- every quantity is non-negative and equals the net of its key's movements;<br>- each demande is linked to one movement if validated and to none if pending. |

## Left out

- HTTP routing, CORS, request parsing, startup messages and the server entry point of
  `backend/main.py`: framework plumbing. A failure is an `Error` value, not an HTTP status
  with a message.
- SQLite connections, cursors, commits and file creation or deletion. The tables are
  in-memory values and fields, and each handler is one atomic step. A failure before the
  commit writes nothing.
- Concurrency: the code has no locking. Interleaved handlers are not modelled.
- `login` and `hash_password`: credential checks over a SHA-256 library call.
- Timestamps (`derniere_maj`, `date_demande`, `date_validation`, `date_mouvement`): clock
  values. They are not stored.
- Queries.GetHistorique: orders by recording order, newest first, where the code orders
  by `date_mouvement`. Movements recorded within the same second have no defined order in
  the code. The joins with `agences` and `articles` drop no movement, because the
  invariant keeps every movement's key in the stock table and so in the catalog.
- Queries.GetStock: keeps table order, where the code sorts by agence name, category and
  article name. Names, codes and categories of the joined tables are not modelled. The
  joins drop no line because the invariant keeps every key in the catalog.
- Queries.GetStats: counts every agence and article as active. No modelled code changes
  the `actif` column from its default of 1.
- `get_agences`, `get_articles` and `get_demandes`: display-only listings, with no
  state change and no property beyond their joins and sort order.
- Integer width: quantities are unbounded integers. SQLite's 64-bit limit and Python's
  arbitrary precision differ only past 2^63.
- The seeded agence and article names, codes and addresses, and the admin user row.
  Only the counts of the seeded ids are used.
