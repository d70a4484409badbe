# Pokémon Card event monitor — a Dafny model of its decision logic

The monitor polls one event-listing page, the configured `TARGET_URL`; links
relative to the site are resolved against the hard-coded origin
`https://players.pokemon-card.com`. It extracts the event cards and, in each cycle that finds events whose link it has not
notified before, posts one Slack message listing those new events. It remembers notified links in an in-memory set and in an
SQLite table, so a restart does not notify them again. When a fetched page
shows no events at all, it forgets every link.

This project models the part of `event_checker.py` that decides what gets
notified:

- `extraction.dfy` (module `Extraction`): the event record and
  `extract_event_details`. The parsed HTML is an abstract `Document`: a
  no-result flag and the event cards in order. Each card holds the text of its
  sub-elements, or `None` when one is missing. `Extracted` is the specification
  function. `ExtractEventDetails` is the source's append loop, proved equal to it.
- `store.dfy` (module `Persistence`): the `notified_events` table as the class
  `NotifiedStore`. Its `rows` map each link (the primary key) to its
  `notified_at` time. It has load, `INSERT OR IGNORE` save, and `DELETE`-all
  clear.
- `monitor.dfy` (module `MonitorLoop`): the `new_events` selection and one
  cycle of `run_loop`, as specification functions (`NextNotified`,
  `StoredRows`, `CycleResult`). The class `Monitor` holds the working set and
  the store; its `Cycle` method is proved against those functions. `RunCycles`
  runs a finite sequence of cycles. The class invariant `Valid()` says the
  working set equals the store's links; every method keeps it.
- `slack.dfy` (module `Slack`): how the configured mention is rendered, inserted
  after the header block and put in front of the fallback text.

A cycle gets its input from the outside world as a `Poll`:
- the fetched markup, which is empty when the fetch failed;
- `raised`: whether the cycle body raises before extraction;
- `now`: the clock reading that SQLite would use for `CURRENT_TIMESTAMP`.

A cycle's result, a `CycleReport`, says:
- which batch went to the notifier;
- whether the dedup state was reset;
- whether the heartbeat was sent;
- whether the cycle-level alert was sent.

Points of the code's behaviour that the model keeps as written:
- The heartbeat is sent inside the `try` (event_checker.py:363). A cycle that
  raises therefore skips it; it does not always run.
- A new link is recorded whether or not the Slack post succeeded.
  `send_slack_notification` catches transport errors itself (lines 152-153),
  even though the comment at line 348 says the recording happens once
  notification has succeeded.
- On a failed fetch the cycle sends no alert itself. A failed live fetch or an
  injected page error alerts from inside the fetcher (lines 184 and 224). In
  debug mode a missing fixture file only logs and returns "" (lines 199-202),
  so that failed fetch sends no alert at all.
- Two cards with the same href give the same link. Both are new in the same
  cycle, so that event is listed twice in one message. `NotifiedAtMostOnce`
  only rules out a link being notified in two different cycles.
- Every card without an href gets the same link, the empty string (line 261).
  Once one such event has been notified, every later event without an href is
  treated as already notified until the next reset.

## Model

| member | source | states |
|---|---|---|
| `Extraction.ExtractEventDetails` | event_checker.py:227-269 | the loop returns the specification's list: nothing for empty markup or a no-result page, otherwise exactly one record per card, record i built from card i |
| `Extraction.CardEventsAt` | event_checker.py:242-267 | the card loop yields as many records as cards, and record i is the record of card i |
| `Extraction.DateText` | event_checker.py:252-254 | the composite date is "N/A" exactly when day, weekday or time is missing |
| `Extraction.AbsoluteLink` | event_checker.py:263-265 | a link starting with "/" becomes the site origin followed by that link; any other link is kept; the result never starts with "/" |
| `Extraction.CardLink` | event_checker.py:261-265 | a card without href gets the empty link; no card link starts with "/" |
| `Extraction.CardEvent` | event_checker.py:244-267 | each of name, shop and address is its element's text when present and "N/A" when missing; the date is "N/A" exactly when a date part is missing; the link is never site-relative |
| `Extraction.CardEvents` | event_checker.py:242-267 | one record per card, and no record's link starts with "/" |
| `Extraction.Extracted` | event_checker.py:227-269 | empty markup or a no-result page gives no events; otherwise as many events as cards; no extracted link starts with "/" |
| `Extraction.OneEventPerCard` | event_checker.py:238-269 | non-empty markup without the marker yields exactly one event per card, in card order |
| `Extraction.ExtractedEmptyIff` | event_checker.py:229-242 | extraction is empty if and only if the markup is empty, the marker is present, or there are no cards |
| `Extraction.DateJoinsParts` | event_checker.py:252-254 | with day, weekday and time all present, the date is the three joined by single spaces |
| `Extraction.MissingTitleOnlyAffectsName` | event_checker.py:244-259 | a missing `div.title` makes the name "N/A" and changes no other field |
| `Extraction.MissingShopOnlyAffectsShop` | event_checker.py:249-259 | a missing `div.shop a` makes the shop "N/A" and changes no other field |
| `Extraction.MissingBuildingOnlyAffectsAddress` | event_checker.py:250-259 | a missing building element makes the address "N/A" and changes no other field |
| `Extraction.MissingDatePartOnlyAffectsDate` | event_checker.py:246-259 | a missing day, weekday or time makes the date "N/A" and changes no other field |
| `Extraction.CardLinkCases` | event_checker.py:261-265 | no href gives link "", an href starting with "/" gets the site origin in front, any other href is kept unchanged |
| `Extraction.CardLinkEmptyIff` | event_checker.py:261-265 | the link is empty if and only if the card has no href or an empty one |
| `Extraction.AbsoluteLinkIdempotent` | event_checker.py:264-265 | rewriting an already rewritten link changes nothing |
| `Extraction.RelativeLinksBecomeAbsolute` | event_checker.py:261-267 | when every card has a "/"-relative href, every extracted link starts with the site origin followed by "/" |
| `Persistence.InsertOrIgnore` | event_checker.py:298-304 | after the insert the keys are the old keys plus the link; every existing row keeps its timestamp; a new link gets the given time |
| `Persistence.InsertIdempotent` | event_checker.py:302 | inserting the same link twice leaves the table as after the first insert, whatever time the second carries |
| `Persistence.InsertPresentIsNoOp` | event_checker.py:302 | inserting a link that is already stored leaves the table unchanged |
| `Persistence.InsertAllOrIgnore` | event_checker.py:349-351 | saving links one after another never loses a row and never changes an existing row's timestamp |
| `Persistence.InsertAllOrIgnoreRows` | event_checker.py:349-351 | saving a batch adds exactly the batch's links, keeps every existing row's timestamp, and stamps each new row with the batch's time |
| `Persistence.NotifiedStore.Open` | event_checker.py:275-286 | opening the table with `CREATE TABLE IF NOT EXISTS` keeps the rows it already holds |
| `Persistence.NotifiedStore.Load` | event_checker.py:288-296 | loading returns exactly the stored links |
| `Persistence.NotifiedStore.Save` | event_checker.py:298-304 | the rows become the `INSERT OR IGNORE` of the link; the links gain exactly that link |
| `Persistence.NotifiedStore.Clear` | event_checker.py:306-313 | afterwards the table holds no rows |
| `Persistence.RestartKeepsLinks` | event_checker.py:288-304 | after saving links A and B and reopening the table, a load returns exactly {A, B} |
| `MonitorLoop.NewEvents` | event_checker.py:336 | the new events are no more than the found ones; each was found and has a link not yet notified |
| `MonitorLoop.NewEventsComplete` | event_checker.py:336 | every found event whose link is not notified is among the new events |
| `MonitorLoop.NewEventsAppend` | event_checker.py:336 | the selection keeps the found order: selecting from a concatenation concatenates the selections |
| `MonitorLoop.NewEventsOfNothing` | event_checker.py:336 | with nothing notified, every found event is new, in order |
| `MonitorLoop.NewEventsEmptyIff` | event_checker.py:336-338 | there is nothing new if and only if every found link is already notified |
| `MonitorLoop.NewEventsAbsorbed` | event_checker.py:336-351 | once the new links are added, the same found events hold nothing new |
| `MonitorLoop.NextNotified` | event_checker.py:322-360 | a cycle that raised or whose fetch failed keeps the working set; a fetched empty page empties it; any other fetched page makes it exactly the old set plus the links of the new events |
| `MonitorLoop.CycleResult` | event_checker.py:322-369 | the heartbeat is sent exactly when the cycle did not raise, the alert exactly when it did; a batch is handed over only after a successful fetch, and then it is exactly the new events of the page, in page order; a reset is reported exactly for a fetched empty page with a non-empty working set |
| `MonitorLoop.StoredRows` | event_checker.py:349-360 | a cycle that raised or failed to fetch leaves the table unchanged; a fetched empty page with a non-empty working set empties it; any other fetched page adds exactly the links of the new events, each stamped with the cycle's time; surviving rows keep their timestamps |
| `MonitorLoop.StoreFollowsWorkingSet` | event_checker.py:349-360 | if the store's links equal the working set before a cycle, they are equal after it, and surviving rows keep their first timestamp |
| `MonitorLoop.BatchIsRemembered` | event_checker.py:343-351 | every link handed to the notifier is in the working set after the cycle |
| `MonitorLoop.CycleAddsBatch` | event_checker.py:336-351 | a cycle that does not reset adds exactly its batch's links to the working set, and none of them was there before |
| `MonitorLoop.SecondCycleFindsNothingNew` | event_checker.py:336-351 | a second cycle on the same page hands nothing to the notifier |
| `MonitorLoop.FetchFailureReport` | event_checker.py:322-333 | an empty fetch notifies nothing, reports no reset, sends the heartbeat and no alert |
| `MonitorLoop.RaisedCycleSkipsHeartbeat` | event_checker.py:327-369 | a cycle that raises notifies nothing, reports no reset, sends the alert and skips the heartbeat |
| `MonitorLoop.EmptyPageResets` | event_checker.py:354-360 | a fetched page without events empties the working set and the store, and reports a reset exactly when the set was non-empty |
| `MonitorLoop.TwoCycleScenario` | event_checker.py:336-351 | a first cycle finding X and Y notifies [X, Y]; a second finding X, Y and Z notifies only [Z] |
| `MonitorLoop.ResetThenRenotify` | event_checker.py:336-360 | after an empty page, the same page as before notifies every one of its events again |
| `MonitorLoop.Run` | event_checker.py:318-369 | a run whose cycles all raised or failed to fetch keeps the working set; a run ending with a fetched empty page ends with an empty set |
| `MonitorLoop.Reports` | event_checker.py:318-369 | a run gives one report per cycle |
| `MonitorLoop.ReportsPrefix` | event_checker.py:318-369 | the reports of the first n cycles of a run are its first n reports: a cycle's report depends only on the cycles before it |
| `MonitorLoop.ReportsHeartbeat` | event_checker.py:319-369 | in a run, cycle i sends the heartbeat exactly when it did not raise, and hands over a batch only if its fetch succeeded |
| `MonitorLoop.RunRows` | event_checker.py:318-369 | a run whose cycles all raised or failed to fetch leaves the table unchanged |
| `MonitorLoop.RunRowsFollowRun` | event_checker.py:317-369 | over a run, the table's links stay equal to the working set |
| `MonitorLoop.RunRowsKeepTimestamps` | event_checker.py:298-304 | in cycles without a reset, every row present at the start is still there with its first timestamp |
| `MonitorLoop.RunWithoutReset` | event_checker.py:317-369 | in cycles without a reset, the working set ends as the starting set plus every notified link, and no notified link was in the starting set |
| `MonitorLoop.NotifiedLinksCover` | event_checker.py:336-343 | every cycle's batch links are among the links the run notified |
| `MonitorLoop.RunStepGrows` | event_checker.py:336-360 | a cycle that does not reset never removes a link from the working set |
| `MonitorLoop.RunGrows` | event_checker.py:317-369 | in cycles without a reset, the working set after m cycles is contained in the set after any later cycle |
| `MonitorLoop.NotifiedAtMostOnce` | event_checker.py:317-369 | in cycles without a reset, two different cycles never notify the same link |
| `MonitorLoop.RunWithinNotified` | event_checker.py:317-369 | over any run, the working set holds only links from the starting set or links some cycle notified |
| `MonitorLoop.NotifiedAtLeastOnce` | event_checker.py:317-369 | no found event is lost: every link found on a fetched page in some cycle was in the starting set or was notified by some cycle of the run |
| `MonitorLoop.Monitor.Start` | event_checker.py:317 | the working set starts as the store's links |
| `MonitorLoop.Monitor.Record` | event_checker.py:349-351 | the working set gains exactly the batch's links, the store gets their `INSERT OR IGNORE`s in order, and the two stay equal |
| `MonitorLoop.Monitor.Cycle` | event_checker.py:319-369 | the new working set, store rows and report are those of the cycle specification; the working set still equals the store |
| `MonitorLoop.Monitor.RunCycles` | event_checker.py:318-369 | after a sequence of cycles, the working set, the table rows and the reports are those of running the specification cycle by cycle |
| `Slack.MentionText` | event_checker.py:122-128 | the rendered mention is never shorter than the configured one, and when it differs it is wrapped in angle brackets |
| `Slack.WithMention` | event_checker.py:120-140 | without a mention the message is unchanged; with one, one block is added, the mention section among them, and the fallback starts with the rendered mention and a space |
| `Slack.BroadcastRendering` | event_checker.py:122-123 | "@channel", "@here" and "@everyone" render as "<!channel>", "<!here>" and "<!everyone>" |
| `Slack.MentionKeptIff` | event_checker.py:120-128 | a mention is kept verbatim if and only if it is neither a broadcast nor starts with "@U" or "@W" |
| `Slack.UserMentionRendering` | event_checker.py:124-125 | a mention starting with "@U" or "@W" renders as "<" + mention + ">" |
| `Slack.InsertAt` | event_checker.py:138 | list insertion adds one element at the index, or at the end past it, and keeps the other elements in order |
| `Slack.MentionPlacement` | event_checker.py:130-140 | with a mention, the header stays first, the mention section is second, the other blocks follow in order, and the fallback text gets the mention and a space in front |

## Left out

- Page fetching (`get_page_content`, event_checker.py:172-225): Playwright navigation, the cookie banner, the waits, fixture files and the time-based fixture choice. The fetch result is an input string, empty on failure. The fetcher's own failure alert is outside the model.
- HTML parsing: the CSS-selector semantics of BeautifulSoup and lxml are not modelled. A page is given as its parse, with no-result flag and cards. Each card field already holds what `get_text(strip=True)` would return, so whitespace stripping is not modelled.
- SQLite: connections, commits, durability and crash safety. The table is a map in memory. Reopening it is modelled as opening a store with the old rows.
- An exception raised by SQLite partway through recording a batch is not modelled. In the source it would leave the in-memory set holding a link the table lacks, because line 350 runs before line 351. The only exception the model covers is the one the cycle body raises itself (line 330); it is the `raised` flag.
- Every row inserted in one cycle gets the same timestamp, `now`. The source reads the clock on each insert.
- The HTTP calls of `send_slack_notification` and `send_heartbeat`, and the skip when no webhook or heartbeat URL is configured. The Block Kit layout of event and alert messages is also left out: the model takes a message as given and applies only the mention rule.
- Jitter and sleep (lines 372-375): floating-point randomness and time.
- The endless `while True`: the model has single cycles and finite sequences of cycles (`RunCycles`).
- Configuration loading (lines 16-34), logging, the page-error injection inside the fetcher, `main` (including its debug-mode clearing of the table) and `capture_html.py`. These are I/O and setup with no decision logic.
