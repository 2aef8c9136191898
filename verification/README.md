# Summariser history page and summarising action, modelled in Dafny

The application sends a user's text to a hosted language model and shows a
one-word or one-sentence summary, keeping a newest-first history of past
summaries in the browser's local storage. This project models its two
pieces of sequential logic:

- **The summarising server action** `summarizeText` (`app/actions.ts`),
  module `Gateway`: the prompt for each mode, the trim of a successful
  answer, and the fixed message that replaces a failure (a rate-limit message
  for status 429, otherwise `"Error"` in word mode and an apology sentence in
  sentence mode). The provider call is a parameter `upstream: string -> Outcome`,
  where `Outcome` is `Ok(text)` or `Err(statusCode)`.
- **The history page** `Home` (`app/page.tsx`), modules `Controller` and
  `Session`: the component's state hooks plus local storage as one immutable
  `State`; the mount effect, `saveEntries`, `handleSummarize` (split into
  `Begin`, the guards up to the `await`, and `Finish`, everything after it),
  the clear-history handler, `toggleExpand`, and the "Show more" predicate.
  `Session` runs arbitrary sequences of user events and proves that the
  list on screen always equals the stored list, so a reload shows the same
  history.

Supporting modules: `Text` (the whitespace set and `trim` of JavaScript),
`Lines` (`split`/`join` on one character, and `.length` in UTF-16 code
units), `Decimal` (`Number.prototype.toString` on a clock reading, which
becomes an entry's `id`), `Maybe` (an `Option` type).

Parameters standing for the outside world: the provider call
(`upstream`), the settled server-action call as seen by the page
(`Env.reply`, `None` when the awaited call rejects), the two `Date.now()`
readings (`Env.idClock` for `id`, `Env.stampClock` for `timestamp`), and
whether `localStorage.setItem` succeeds (`Env.storageWritable`). The
`alert` is recorded as the `alerted` flag of a `Step`.

Behaviour of the code worth knowing, which the model keeps:

- The page does not make ids unique: `id` and `timestamp` come from two
  separate `Date.now()` calls (app/page.tsx:69, 73). The model proves only
  that different id-clock readings give different ids
  (`Session.IdsFollowClock`).
- A provider answer made only of whitespace gives an empty summary: the
  trimmed result is `""`. `Gateway.Respond` states exactly when this
  happens.
- The load effect parses the stored record without a guard, so malformed
  data would throw rather than give an empty list. The model keeps only
  well-formed records, so this case does not arise.

## Model

| member | source | states |
|---|---|---|
| Text.Trim | app/actions.ts:21 | the result has no leading or trailing whitespace, is a stretch of the input with only whitespace cut off both ends, and is empty exactly when the input is all whitespace |
| Text.TrimFixedPoint | app/actions.ts:21 | trimming returns the string unchanged exactly when it has no leading or trailing whitespace |
| Text.TrimIdempotent | app/actions.ts:21 | trimming twice is trimming once |
| Text.IsBlank | app/page.tsx:58 | `!text.trim()` holds exactly when every character of the input is whitespace, the empty input included |
| Lines.Split | app/page.tsx:182 | `split("\n")` gives one more piece than there are line feeds, no piece contains a line feed, and joining the pieces gives back the text |
| Lines.SplitJoin | app/page.tsx:182 | splitting a join of separator-free pieces gives back the pieces |
| Lines.Utf16Length | app/page.tsx:183 | `.length` lies between the number of code points and twice that number |
| Lines.Utf16LengthBmp | app/page.tsx:183 | for text inside the Basic Multilingual Plane, `.length` is the number of characters |
| Decimal.ToDecimal | app/page.tsx:69 | the digits `toString` writes for a non-negative clock reading: a non-empty string of decimal digits with no leading zero |
| Decimal.ParseToDecimal | app/page.tsx:69 | reading the id back as a decimal number gives the clock reading |
| Decimal.ToDecimalInjective | app/page.tsx:69 | two clock readings give the same id exactly when they are equal |
| Decimal.NumberToString | app/page.tsx:69 | `Date.now().toString()` is a decimal numeral that reads back as the clock reading, and starts with a minus sign exactly when the reading is negative |
| Decimal.NumberToStringInjective | app/page.tsx:69 | two clock readings give the same id exactly when they are equal, negative readings included |
| Gateway.Prompt | app/actions.ts:8-11 | the prompt is the mode's fixed instruction followed by the input text, unchanged |
| Gateway.PromptRoundTrip | app/actions.ts:8-11 | the input text can be recovered from the prompt of a known mode |
| Gateway.PromptInjective | app/actions.ts:8-11 | two prompts are equal exactly when their texts and their modes are |
| Gateway.Respond | app/actions.ts:21-35 | a success yields the model text with surrounding whitespace cut off; status 429 yields the rate-limit message; any other failure yields "Error" in word mode and the apology in sentence mode; every failure yields a non-empty string; no result has surrounding whitespace |
| Gateway.Summarize | app/actions.ts:6-36 | for any provider behaviour the action resolves to a string without surrounding whitespace, cut from the model output on success and non-empty on failure |
| Gateway.RateLimitIgnoresMode | app/actions.ts:24-30 | a 429 failure yields the same rate-limit message in both modes |
| Gateway.ErrorsGiveFixedMessages | app/actions.ts:24-34 | a failure yields one of the three fixed messages, and the rate-limit one exactly when the status is 429 |
| Gateway.SuccessKeepsTrimmedText | app/actions.ts:21 | a successful answer is passed through unchanged exactly when it has no surrounding whitespace |
| Controller.Load | app/page.tsx:36-41 | a stored record replaces the entry list; without one the list is left as it was; nothing else changes |
| Controller.Fresh | app/page.tsx:27-34 | the first render, before the load effect: empty input, sentence mode, no entries, no request in flight, nothing expanded |
| Controller.Mount | app/page.tsx:27-41 | once the mount effect has run: empty input, sentence mode, no request in flight, nothing expanded, and the stored list, or an empty one when nothing is stored |
| Controller.SaveEntries | app/page.tsx:52-55 | a successful write stores the new list under `summaryEntries`, keeps every other key, and makes it the entry list; a failed write changes nothing |
| Controller.CanSubmit | app/page.tsx:58-61 | the handler passes its guards, and the button at line 136 is enabled, exactly when the input has a non-whitespace character and no request is in flight |
| Controller.NewEntry | app/page.tsx:68-74 | the new entry's id spells the first clock reading and reads back as it, its timestamp is the second clock reading, and its original text, summary and type are the pre-submit input, the reply and the mode |
| Controller.Begin | app/page.tsx:57-63 | blank input or a request in flight leaves the state unchanged; otherwise only `isLoading` becomes true; afterwards a submit is refused |
| Controller.Finish | app/page.tsx:65-90 | the alert is raised exactly when the call rejected or the write failed, and then only `isLoading` changes; otherwise the list becomes the new entry (id from the first clock reading, timestamp from the second, the pre-submit text, the reply and the mode) in front of the old entries in their order, storage changes only in `summaryEntries`, which holds the new list, and the input is cleared; mode and expand flags never change and `isLoading` ends false |
| Controller.Submit | app/page.tsx:57-91 | a refused submit (blank input or a request in flight) changes nothing; otherwise a success puts in front of the old entries a new entry whose id spells the first clock reading, whose original text is the pre-submit input, whose summary is the reply and whose type is the mode, stores exactly the new list under `summaryEntries` and clears the input, while a failure alerts and leaves the state as it was; mode and expand flags never change and `isLoading` ends false |
| Controller.ClearHistory | app/page.tsx:142-147 | the list becomes empty, the `summaryEntries` record is removed, and other storage keys and state are untouched |
| Controller.ClearOffered | app/page.tsx:142 | the control is rendered exactly when clicking it would change the list, that is, exactly over a non-empty list |
| Controller.ToggleExpand | app/page.tsx:93-98 | the toggled id's flag flips, a missing key counting as false; every other id's flag and stored value stays |
| Controller.Toggle | app/page.tsx:185 | a show more/less click flips the clicked entry's effective flag, keeps every other entry's flag, and changes nothing else |
| Controller.ToggleTwice | app/page.tsx:93-98 | toggling an id twice restores every flag, and restores the map itself once the id is present |
| Controller.NeedsShowMore | app/page.tsx:182-183 | the control appears exactly when the text has at least four line feeds or more than 500 UTF-16 code units |
| Controller.ShowMoreCountsLines | app/page.tsx:182-183 | for a text made of separator-free lines joined by line feeds, the control appears exactly when there are more than four lines or more than 500 code units |
| Controller.ToggleLabel | app/page.tsx:188 | the label reads "Show less" exactly when the entry is expanded and "Show more" exactly when it is not, a missing key counting as collapsed |
| Controller.ToggleFlipsOnlyItsLabel | app/page.tsx:185-188 | a click switches the clicked entry's label between "Show more" and "Show less" and leaves every other label alone |
| Session.MountSynced | app/page.tsx:36-41 | right after mounting, the list on screen is the stored list and nothing is in flight |
| Session.Apply | app/page.tsx:113-185 | typing (line 114) sets only the input, choosing a mode (line 122) sets only the mode, a clear click (line 142) changes nothing where the control is not rendered and otherwise empties the list and removes the stored record, keeping every other field and stored key, and a toggle click (line 185) flips that entry's flag and keeps every other entry's flag and every other field |
| Session.ApplyKeepsSynced | app/page.tsx:52-147 | every user event keeps the list on screen equal to the stored list, or empty when none is stored |
| Session.RunKeepsSynced | app/page.tsx:52-147 | any sequence of events keeps the list on screen equal to the stored list |
| Session.ReloadShowsSameList | app/page.tsx:36-55 | after any sequence of events, a reload shows exactly the list that was on screen, in the same order |
| Session.LoadAfterSave | app/page.tsx:36-41 | loading after a successful save gives back exactly the saved list |
| Session.LoadAfterClear | app/page.tsx:142-147 | loading after clearing history gives an empty list |
| Session.ClearNotOfferedChangesNothing | app/page.tsx:142-147 | where the control is not offered (empty list), clearing would change nothing on screen and keep the list in step with storage |
| Session.BlankClickIgnored | app/page.tsx:58 | a submit with empty or whitespace-only input changes nothing: entries, storage, input and `isLoading` stay, and no alert is raised |
| Session.ClickWhileLoadingIgnored | app/page.tsx:61 | a submit while the previous request is in flight changes nothing |
| Session.ClickAddsAtMostOne | app/page.tsx:76 | a submit leaves the list as it was or adds exactly one entry in front of the old ones |
| Session.ClickThroughGateway | app/page.tsx:66-74 | when the reply comes from the summarising action, the new entry's summary has no surrounding whitespace, is non-empty if the provider failed, and its id spells the id clock reading |
| Session.IdsFollowClock | app/page.tsx:69 | entries built from different id-clock readings have different ids |

## Left out

- The provider call itself (`generateText`, the model name, the system instruction, `maxRetries: 3`): a foreign network library, modelled only through its `Outcome`.
- `console.error` logging and the text of the `alert`: side effects; only the fact that the alert was raised is modelled.
- Error values that are not objects, or whose `statusCode` is missing or not a number, are all written `Err(None)`: the source treats them alike.
- `Date.now()` and `toLocaleString`: the clock readings are parameters, and the date formatting is rendering.
- Decimal.NumberToString: spells integers in plain decimal only; `toString` switches to exponent notation from 10^21 on in magnitude, far beyond any clock reading.
- JSON `stringify`/`parse`: modelled as the identity on entry lists; the throw on a malformed stored record is not modelled. Because the page only ever stores a serialised list, the stored string is never empty, so the `if (savedEntries)` test reduces to the key being present.
- Other tabs or programs writing the same storage key: the model has a single owner of local storage.
- Controller.ToggleExpand: ids are the numerals the page creates; an id naming an inherited object property such as `constructor` or `__proto__`, which would read as truthy before any click, is not modelled.
- Reading and removing local storage (`getItem` in the mount effect, `removeItem` in the clear handler) are modelled as always succeeding; where storage access is blocked the page throws from the mount effect, and a failing `removeItem` would skip emptying the list. Only a failing `setItem` is modelled.
- React's asynchronous state updates and stale closures: the component is a sequential state machine, and in the model no event runs between the click and the reply. On the page the input and the mode selector stay enabled during the request; text typed meanwhile is wiped by `setText("")` on success, while the new entry keeps the text from the click. Those interleavings are not modelled.
- Textarea auto-resizing, the `line-clamp-4` styling, the blur on older cards and all other rendering.
- Lines.Utf16Length: JavaScript strings may hold lone surrogates, which a Dafny `char` cannot; the model covers well-formed text only.
- components/theme-toggle.tsx, components/ui/toaster.tsx and app/layout.tsx: pure presentation.
