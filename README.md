# Wekan-to-database card synchronisation, modelled in Dafny

This project models the reconciliation core of a service. The service copies cards from a Wekan task board into a MongoDB document store, and on every run it:

- reads a baseline of stored last-activity timestamps;
- selects the cards whose remote activity moved, which are not cached, or whose stored title is blank;
- maps each selected card to a stored row. The mapping covers:
  - the status, from the title of the list the card sits in;
  - the completed flag, from the board's "Выполнено" custom field;
  - the logged hours, clamped against `sys.maxsize`;
  - the completion timestamp, taken from the last comment that says the hours were submitted.
- links each row to the local users its assignees resolve to, through the slug of their first e-mail address;
- saves each row, skipping a row whose encoding overflows.

It also models the `to_lower_camel` alias generator, which derives the camelCase JSON field names of the API's response records.

The remote service is an immutable snapshot (`Api.Remote`). Each route is a total function that returns either `Ok(value)` or `RouteError(status)`. `Api.SendGet` states the rule by which `send_get` produces such outcomes; the routes themselves are arbitrary outcomes of that shape. The document store is a class (`Database.Store`) that holds:

- a sequence of card rows, keyed by (board id, card id);
- a map from slug to local user.

Each accumulating loop of the adapter is a method, proved equal to a specification function, and lemmas state the properties of those functions. The two early-return searches, for the complete field and for its value on a card, are the function `Common.FirstIndex`. Timestamps are integers counting UTC microseconds. The adapter compares two timestamps with `utctimetuple()`, which is equality of whole seconds (`div 1_000_000`).

## Model

| member | source | states |
|---|---|---|
| Api.SendGet | scripts/api/api.py:72-75 | A route succeeds exactly on a 200 answer with a body, and then carries the decoded value. An error never carries 200. The error is 204 exactly when the answer was 204, or 200 with an empty body. |
| AdapterRules.StatusOf | scripts/adapter.py:128 | A list title gives `Unknown` exactly when it is not one of the five titles of the table. |
| AdapterRules.StatusTable | scripts/adapter.py:9-15 | Each of the five list titles gives its own status, matched exactly and case-sensitively, and only that title gives it. Every other title gives `Unknown`. |
| AdapterRules.Hours | scripts/adapter.py:134 | The hours are the spent time when it is present and below `sys.maxsize`. A missing value, or one at or above `sys.maxsize`, gives 0. Negative values are copied unchanged. The result is always below `sys.maxsize`. |
| Responses.Truthy | scripts/adapter.py:93 | A custom-field value is false exactly when it is null, false, zero, or an empty string, list or object. |
| AdapterRules.GetCompleteFieldId | scripts/adapter.py:66-79 | The result is the id of the first board custom field named exactly "Выполнено". It is `None` exactly when no field has that name. A failed field listing propagates its status. |
| AdapterRules.CardCompleteStatus | scripts/adapter.py:82-94 | The flag is true exactly when some custom-field value has the complete-field id, no earlier value has it, and that first value is truthy. It is false when no value matches, including when the board has no such field. |
| AdapterFetch.FullCardsCharacterized | scripts/adapter.py:29-38 | The listing fails exactly when some card-detail fetch fails with a status other than 204. It then fails with the status of the first such fetch. Otherwise it yields exactly the cards whose detail fetch succeeded, in summary order, so the 204s are the only cards omitted. |
| AdapterFetch.GetListCards | scripts/adapter.py:18-38 | The loop returns what `ListCards` defines. A failed card listing propagates, and so does every detail failure except 204. |
| AdapterFetch.FirstFailing | scripts/adapter.py:55-58 | This is the first comment in the scan whose detail fetch fails. Every comment before it is unmarked or fetched successfully. |
| AdapterFetch.LastMarked | scripts/adapter.py:55-58 | This is the position of the last comment, in list order, whose text contains the marker. It is `None` exactly when no comment contains it. |
| AdapterFetch.LastMarkedWins | scripts/adapter.py:52-63 | When every fetch succeeds, the timestamp is the creation time of the last marked comment in list order, whatever the creation times of the others. |
| AdapterFetch.NoMarkNoTimestamp | scripts/adapter.py:52-63 | Without a marked comment the timestamp is `None`, and no detail fetch can fail. |
| AdapterFetch.GetCardTimestamp | scripts/adapter.py:41-63 | The loop returns what `CardTimestamp` defines. A failed comment listing propagates whatever its status, and an empty list gives `None`. A 204 while fetching a marked comment ends the scan and keeps the timestamp found so far; any other status propagates. |
| AdapterFetch.UsersIntoCharacterized | scripts/adapter.py:95-105 | When every user fetch succeeds, the directory holds exactly the listed ids, each mapped to its full user. Otherwise it fails with the status of the first failing fetch. |
| AdapterFetch.GetUsers | scripts/adapter.py:95-105 | The loop returns what `Users` defines. A failed user listing propagates. |
| Database.NewRow | scripts/adapter.py:126 | A fresh document carries the requested key and no users. |
| Database.FindByKey | scripts/adapter.py:125-126 | The lookup finds nothing exactly when no row has the key. Otherwise it returns a row with that key: the first one. |
| Database.FindByCardId | scripts/adapter.py:163 | The lookup finds nothing exactly when no row, on any board, has the card id. Otherwise it returns a row with that card id: the first one. |
| Database.Upsert | scripts/adapter.py:192 | A save keeps the row count when its key is already stored and adds one row otherwise. The saved row is in the result, and every row with another key stays in its place. |
| Database.UpsertFinds | scripts/adapter.py:192 | After a save, the saved row is what its key finds. |
| Database.UpsertKeepsOthers | scripts/adapter.py:192 | A save does not change what any other key finds. |
| Database.UpsertKeepsUnique | scripts/adapter.py:192 | A save keeps the (board id, card id) keys unique. |
| Database.Store.Save | scripts/adapter.py:191-194 | The row is upserted exactly when its encoding fits (the hours fit in a signed 64-bit integer). Otherwise the store is unchanged and the overflow is reported as `saved == false`. Keys stay unique. |
| Baseline.AllActivity | scripts/adapter.py:198-207 | The baseline's keys are exactly the keys of the stored rows. |
| Baseline.BoardActivity | scripts/adapter.py:210-220 | The per-board baseline's keys are exactly the keys of the rows stored for that board. |
| Baseline.LastRowWins | scripts/adapter.py:205-206 | A later row overwrites an earlier one: a key holds the activity of the last row with that key, in both baselines. |
| Baseline.BoardActivityIsRestriction | scripts/adapter.py:198-220 | The per-board baseline is the global baseline restricted to that board's keys. |
| Baseline.UpsertPlacesRow | scripts/adapter.py:192 | The saved row has a place in the new rows. No row before it has its card id, and no row after it has its key. |
| Baseline.SavedRowIsItsOwnBaseline | scripts/adapter.py:192 | After a row is saved, the board baseline holds its activity under its key, and a lookup by its card id finds it. This needs keys that were unique and no other board storing that card id. |
| Baseline.GetCardsLastActivity | scripts/adapter.py:198-207 | The loop builds `AllActivity` of the stored rows. |
| Baseline.GetCardsActivityBoard | scripts/adapter.py:210-220 | The loop builds `BoardActivity` of the stored rows for the board. |
| ChangeDetection.MappedCard | scripts/adapter.py:110-142 | The mapping succeeds exactly when the completion timestamp does, and then carries the (board, card) key. |
| ChangeDetection.MappedCardShape | scripts/adapter.py:108-142 | The mapping succeeds exactly when the completion timestamp does, and otherwise fails with its status. The row carries the (board, card) key, the status of its list title and the completion flag. Its info block holds the remote title, assignees and dates, the clamped hours and the completion timestamp, and its last activity is the remote one. It keeps `users` from the first stored row with that key, or has none for a fresh row. |
| ChangeDetection.MappingReplacesAllButUsers | scripts/adapter.py:125-140 | The stored row contributes nothing but `users`. Status, flag, activity and the whole info block are replaced, so two stores give the same mapped row up to `users`. |
| ChangeDetection.MappedRowOverflowsIff | scripts/adapter.py:134 | Saving a mapped row overflows exactly when the spent time lies below the signed 64-bit range. The clamp already rules out the upper end. |
| ChangeDetection.MapCardToDatabase | scripts/adapter.py:108-142 | The method returns what `MappedCard` defines. |
| ChangeDetection.NeedsUpdate | scripts/adapter.py:161-163 | The selection raises `IndexError` exactly when the card is cached, in the same second, and no stored row on any board has its card id. |
| ChangeDetection.ChangedCardIsSelected | scripts/adapter.py:161-162 | A card whose key is missing from the baseline, or whose activity is in another whole second, is re-mapped. No stored row is looked up for it. |
| ChangeDetection.BlankTitleIsSelected | scripts/adapter.py:163 | A card whose first stored row by card id, on any board, has a blank title is re-mapped. |
| ChangeDetection.UnchangedCardIsSkipped | scripts/adapter.py:161-163 | A card is skipped when it is cached, in the same second, and titled. |
| ChangeDetection.StoreBaselineNeverMisses | scripts/adapter.py:163 | With a baseline built from the same rows, globally or per board, the lookup by card id cannot raise `IndexError`. |
| ChangeDetection.SavedCardIsNotReselected | scripts/adapter.py:161-163 | Once a card's mapped row is saved, a later run over the same remote card does not select it again. This needs a titled card listed on its own board, with no other board storing its id. |
| ChangeDetection.ChangedRowsAreSelectedCards | scripts/adapter.py:159-164 | A list yields exactly the mapped rows of the selected cards, one per selected card, in card order. |
| ChangeDetection.UnchangedListYieldsNothing | scripts/adapter.py:160-164 | A list none of whose cards is selected yields no rows. |
| ChangeDetection.UnchangedBoardYieldsNothing | scripts/adapter.py:156-165 | When every card on the board is cached, unchanged and titled, the result is empty. |
| ChangeDetection.MapIfChanged | scripts/adapter.py:161-164 | One card's step returns what `CardOutcome` defines: its mapped row when it is selected, nothing when it is skipped, or the failure that aborts the list. |
| ChangeDetection.ChangedRowsStep | scripts/adapter.py:160-164 | A card whose step fails decides the list's result; otherwise its rows join the ones collected before it. |
| ChangeDetection.MapChangedCards | scripts/adapter.py:160-164 | The inner loop returns what `ChangedRows` defines. |
| ChangeDetection.ChangedRowsOfListsStep | scripts/adapter.py:159-164 | A list whose cards cannot be read, or whose inner loop fails, decides the board's result; otherwise its rows join the ones collected before it. |
| ChangeDetection.GetUpdatedCards | scripts/adapter.py:145-165 | The method returns what `UpdatedCards` defines. The complete field is resolved first, then the lists are walked in order, and then each list's cards. |
| UserReconciler.SlugOf | scripts/adapter.py:184 | The slug is a prefix of the address that contains no '@', and it ends just before the first '@' when there is one. |
| UserReconciler.SlugOfAddress | scripts/adapter.py:184 | The slug of `local@domain` is `local`, whatever the domain holds. |
| UserReconciler.AssigneeMatch | scripts/adapter.py:182-189 | Any failed user fetch propagates, including 204. Otherwise the assignee resolves to a local user exactly when the user has an e-mail and the slug of the first address is a local user's slug, and then to that user. |
| UserReconciler.ResolvedUsers | scripts/adapter.py:180-190 | Resolution succeeds exactly when every assignee's user fetch succeeds. The result has no more users than there are assignees, and each of them is a local user. |
| UserReconciler.ResolvedUsersAppend | scripts/adapter.py:181-187 | Resolution goes assignee by assignee and keeps their order: resolving `a + b` gives `a`'s users followed by `b`'s. |
| UserReconciler.ResolveAssignees | scripts/adapter.py:180-189 | The inner loop returns what `ResolvedUsers` defines. |
| UserReconciler.SaveWithUsers | scripts/adapter.py:180-194 | One card succeeds exactly when its assignees resolve, and otherwise reports the status of that resolution. A successful step keeps the (board id, card id) keys unique. |
| UserReconciler.Reconcile | scripts/adapter.py:179-194 | The run succeeds exactly when every card's assignees resolve. Saving keeps the (board id, card id) keys unique. |
| UserReconciler.ReconcileAbortKeepsEarlierSaves | scripts/adapter.py:179-194 | An aborted run stops at some document. Every document before it resolves, and the reported status is that of its own user resolution. The rows stored afterwards are exactly those that the documents before it leave, so no later document is saved. |
| UserReconciler.ReconcileKeepsOthers | scripts/adapter.py:179-194 | A key that no processed card carries finds the same row afterwards. |
| UserReconciler.ReconcileSavesFittingCards | scripts/adapter.py:190-194 | After a successful run (card keys distinct), each card is found under its key with exactly its resolved users when it could be encoded. When the encoding overflowed, the stored row is unchanged, and the cards after it were still processed. |
| UserReconciler.MapUsersWithDb | scripts/adapter.py:166-195 | The outcome and the new card rows are what `Reconcile` defines. The local users are unchanged, and the store stays valid. |
| Responses.Split | scripts/api/responses.py:8 | Splitting on '_' gives one more component than there are underscores. |
| Responses.SplitComponents | scripts/api/responses.py:8 | No component contains '_', and their lengths add up to the input length minus the underscores. A string without '_' is its own single component. |
| Responses.JoinSplit | scripts/api/responses.py:8 | Joining the components with '_' gives back the input. |
| Responses.SplitAfterComponent | scripts/api/responses.py:8 | A component without '_' in front of `_rest` splits off as the first component. |
| Responses.Title | scripts/api/responses.py:9 | Title-casing keeps the length, the positions of '_' and every uncased character. |
| Responses.TitleAfter | scripts/api/responses.py:9 | Title-casing from any starting state keeps the length, the positions of '_' and every uncased character. |
| Responses.TitleOfLetters | scripts/api/responses.py:9 | A run of letters is title-cased as its first letter upper-cased and the rest lower-cased. |
| Responses.LettersAfterCased | scripts/api/responses.py:9 | Letters that follow a cased character are lower-cased. |
| Responses.LowerAllOfLower | scripts/api/responses.py:9 | Lower-casing a lower-case word leaves it unchanged. |
| Responses.TitleOfLowerWord | scripts/api/responses.py:9 | A lower-case word contains no '_', and it is title-cased by upper-casing its first letter. |
| Responses.TitledConcat | scripts/api/responses.py:9 | Concatenating title-cased components keeps their total length and adds no '_'. |
| Responses.EmptyPartVanishes | scripts/api/responses.py:9 | An empty component, from a leading, doubled or trailing '_', contributes nothing. |
| Responses.ToLowerCamel | scripts/api/responses.py:7-9 | The output never contains '_'. A string without '_' is returned unchanged. The first component is a verbatim prefix of the output. The output is as long as the input minus its underscores. |
| Responses.ToLowerCamelIdempotent | scripts/api/responses.py:7-9 | Converting twice gives the same as converting once. |
| Responses.CamelOfComponents | scripts/api/responses.py:9 | The first component is kept verbatim and every later one is title-cased. |
| Responses.TitledConcatOfWord | scripts/api/responses.py:9 | A single component without '_' is title-cased as a whole. |
| Responses.CamelOfTwoWords | scripts/api/responses.py:15 | `word_lower` becomes `word` + `Lower`, as `token_expires` becomes `tokenExpires`. |
| Responses.ToLowerCamelDoubledUnderscore | scripts/api/responses.py:7-9 | `a__b` becomes `aB`. |

## Left out

- HTTP, login, bearer headers and JSON decoding are not modelled. Each route is a total function of its identifiers that returns a decoded value or a route error. Routes are not constrained to the outcomes `send_get` can produce, so the lemmas also cover a route error carrying status 200.
- Floating-point values in custom fields are not modelled. Truthiness covers null, booleans, integers, strings, arrays and objects.
- The per-board driver in `main.py`, the configuration loading and the logging are not part of this model. That includes the log line with the per-board card count and the warning for an unmatched slug.
- Comment listing: a failed comment listing inside `get_card_timestamp` always propagates, even with status 204, because the listing call sits outside the `try`.
- `get_users` is modelled, but `main.py` never calls it.
- Documents are values: a stored row is a datatype value and a save writes it back by key. Loaded documents are never shared, so aliasing plays no part.
- Database.Store.Save: the only save failure modelled is the `OverflowError` of a 64-bit integer field (`info.hours`). Other driver errors and connectivity loss are not modelled.
- Database.Upsert: a saved document replaces the first stored row with its key, and a document without one is appended. This is also how a freshly created document is treated, where the store would insert by object id. The two differ only when one run maps the same key twice while it is not yet stored.
- Stored rows always carry an info block, and their last activity is always set. A stored row without `info`, or with a null `last_activity`, would make the selection raise `AttributeError` or `TypeError`, and that is not modelled.
- Local users are a map keyed by slug, and the slug query returns the user filed under that slug. Two local users sharing a slug are not modelled.
- Responses.Title: case mapping covers the ASCII letters. Python's `str.title()` on other scripts (Cyrillic), and on characters whose case mapping changes the length (such as 'ß'), is not modelled.
- Pydantic validation and the alias mapping of the other record fields are not modelled. The records are plain datatypes with optional fields where the API declares them optional.
- The timezone of naive timestamps is not modelled. Every timestamp is UTC microseconds, and `utctimetuple()` equality is equality of whole seconds.
- The `comment` parameter of the single-comment route is not modelled: that route tests `card` where it means `comment` when it takes the id. The adapter always passes a plain id, so that branch is never taken.
