# Product lookup page: a Dafny model

The food-traceability front end has one page that asks an on-chain contract for a product
(`getProductDetails(productId)` returns a name, a batch id and a free-text detail string) and
shows the answer. This project models the two pieces of logic in that page:

- the **lookup state machine**: the page state `(productId, productDetails, contract, error,
  isLoading)`, the one-time binding of the contract handle after mount, and
  `fetchProductDetails`, split at its `await` into `Lookup.Begin` (validation, loading flag,
  the call and its argument) and `Lookup.Settle` (the answer or the rejection), with
  `Lookup.Fetch` the two back to back. The contract call is an abstract outcome,
  `Returned(product)` or `Rejected`. `InFlight` follows a whole session: the calls started
  and not yet answered, and the button, key and typing events that drive them;
- the **detail-string parser** inlined in the page's markup: split on `" | "`, drop blank
  entries, split each entry on `", "` and destructure each part as
  `const [label, value] = part.split(": ")`; plus the `"N/A"` and
  "No additional details available." fallbacks.

JavaScript semantics are modelled exactly where the page depends on them (`Strings`):
`split` with a non-empty separator cuts at the leftmost non-overlapping occurrences, so
`"".split(sep)` is `[""]` and a string without the separator is a one-element list;
destructuring keeps the first two pieces and yields `undefined` (here `None`) for a missing
second one; `trim` removes the ECMAScript WhiteSpace and LineTerminator code points.

Modules: `Options` (the optional value), `Strings` (trim, indexOf, split, join),
`Details` (entry and field parsing, fallbacks), `Lookup` (state and transitions), `Display`
(what the page shows for a state), `InFlight` (outstanding calls over a session).

Points of the page's behaviour that are easy to misread, as the model has them:

- the identifier is only *checked* after trimming (line 39); the call receives it untrimmed
  (line 47), see `Lookup.UntrimmedArgument`;
- nothing is cleared before the call starts: `Begin` only raises the loading flag, so a
  previous product or banner stays visible while loading;
- only a rejected call clears the product; the empty-id and no-contract errors set the
  banner and leave a previously shown product in place, so product and banner can both show;
- a detail string that is non-empty but made only of blank entries shows an empty list, not
  the placeholder (the placeholder test at line 284 is on the raw string).

## Model

| member | source | states |
|---|---|---|
| Strings.TrimStart | app/page.tsx:39 | leading-whitespace removal keeps a suffix, removes only whitespace, and stops at a non-whitespace character |
| Strings.TrimEnd | app/page.tsx:288 | trailing-whitespace removal keeps a prefix, removes only whitespace, and stops at a non-whitespace character |
| Strings.TrimEmptyIffBlank | app/page.tsx:39 | `s.trim()` is empty exactly when every character of `s` is whitespace, which is what `!productId.trim()` and `detail.trim() !== ""` test |
| Strings.IndexFrom | app/page.tsx:287 | the search finds the leftmost occurrence of the separator at or after the start, or reports that none exists |
| Strings.SplitUnfold | app/page.tsx:287 | `split` cuts at the leftmost occurrence: no occurrence gives `[s]`, otherwise the text before it followed by the split of the text after it |
| Strings.SplitJoin | app/page.tsx:286-287 | joining the pieces of `s.split(sep)` with `sep` gives back `s` |
| Strings.SplitPiecesFree | app/page.tsx:287 | no piece of a split contains the separator |
| Strings.SplitFreeIsSingleton | app/page.tsx:290 | a string splits into the one-element list of itself exactly when it lacks the separator |
| Details.KeepNonBlankSpec | app/page.tsx:288 | the blank filter keeps the non-blank pieces in their order and removes exactly the blank ones |
| Details.EntriesSpec | app/page.tsx:286-288 | every entry is non-blank after trimming; entries are the pieces between entry separators, in left-to-right order, minus the blank ones; rejoining all pieces with the separator gives the detail string; no piece contains the separator |
| Details.ParseFieldSpec | app/page.tsx:298 | the label is the text before the first `": "` (the whole part if none); the value is the text between the first and second `": "` (or to the end), absent if there is no first one |
| Details.ParseFieldFree | app/page.tsx:298 | neither label nor value contains `": "`, and a part with no value is all label |
| Details.ParseEntrySpec | app/page.tsx:290-298 | an entry has one field per `", "`-separated part, the k-th field parsed from the k-th part, and the parts rejoin to the entry |
| Details.RenderDetailsSpec | app/page.tsx:284-313 | the placeholder, with its fixed text, shows exactly for the empty detail string; otherwise the entry list is the parse |
| Details.NoEntriesIffAllBlank | app/page.tsx:286-288 | no entry is shown exactly when every piece between entry separators is blank |
| Details.SeparatorOnlyShowsEmptyList | app/page.tsx:284-288 | a detail string that is only the entry separator shows an empty entry list, not the placeholder |
| Details.BlankParsesEmpty | app/page.tsx:286-288 | the empty detail string, and any blank one, parses to no entries |
| Details.DisplayText | app/page.tsx:271-275 | the name and batch id never render empty: an empty one renders `"N/A"`, a non-empty one itself |
| Details.ValueText | app/page.tsx:302 | an absent value renders as nothing, a present one as itself |
| Details.TwoStageExample | app/page.tsx:284-309 | the two-stage example string (Harvest at Farm A, then Processing at Plant B) parses to two entries of two label/value fields each, in order |
| Details.DestructuringDropsThird | app/page.tsx:298 | for colon-free `a` and `b`, the part `a: b: c` gives label `a` and value `b`; the third piece is dropped |
| Details.DestructuringNoValue | app/page.tsx:298 | a colon-free part is all label and has no value |
| Details.DestructuringExamples | app/page.tsx:298 | `"a: b: c"` gives label `"a"` and value `"b"` (the `"c"` is dropped); a part without `": "` has no value |
| Lookup.Bind | app/page.tsx:25-36 | with a wallet provider the handle is bound to the deployed address and the banner is untouched; without one the handle is as before and the banner shows the not-installed message; identifier, product and loading flag never change |
| Lookup.BindFromInitial | app/page.tsx:18-36 | after mount there is a handle exactly when a provider is present, and the banner is empty then and the not-installed message otherwise |
| Lookup.Begin | app/page.tsx:38-47 | a call starts exactly when the identifier is not blank and a handle is bound, with the untrimmed identifier, only raising the loading flag; otherwise only the banner changes, to the empty-id or not-initialized message |
| Lookup.Settle | app/page.tsx:47-56 | after the answer the loading flag is down; a returned tuple is held verbatim with no banner, a rejection clears the product and shows the not-found banner; identifier and handle unchanged |
| Lookup.Click | app/page.tsx:204-206 | the button starts a call, with the identifier as typed, exactly when not loading, the identifier is not blank and a handle is bound; while loading it changes nothing |
| Lookup.GuardedKeyPress | app/page.tsx:62-66 | the corrected key handler starts a call exactly for Enter when not loading, the identifier is not blank and a handle is bound; other keys and any key while loading change nothing |
| Lookup.Edit | app/page.tsx:198 | typing or a sample-id button sets the identifier and nothing else |
| Lookup.FetchBlank | app/page.tsx:39-42 | a blank identifier starts no call, shows the empty-id banner, and leaves product, loading flag and handle as they were |
| Lookup.FetchUnbound | app/page.tsx:44-59 | a non-blank identifier with no handle starts no call, shows the not-initialized banner, and leaves product and loading flag as they were |
| Lookup.FetchCalled | app/page.tsx:44-56 | a started lookup calls with the identifier as typed; afterwards loading is off and exactly one of product and banner is set: the tuple verbatim or the not-found message |
| Lookup.UntrimmedArgument | app/page.tsx:39-47 | the identifier `" P3001 "` is sent with its spaces |
| Lookup.HandleStable | app/page.tsx:20-31 | only the mount effect sets the handle: lookup, answer, button, keys and typing never change it |
| Display.RenderProduct | app/page.tsx:262-313 | the panel shows the name and batch id themselves when non-empty and `"N/A"` when empty, and the placeholder exactly for an empty detail string, the parsed entries otherwise |
| Display.Render | app/page.tsx:255-262 | the banner shows exactly a non-empty error and the panel exactly a held product |
| Display.RenderAfterLookup | app/page.tsx:47-56 | after a started lookup exactly one of banner and panel shows: the product's panel, or the not-found banner |
| Display.EmptyProductFallbacks | app/page.tsx:271-312 | an all-empty tuple renders `"N/A"`, `"N/A"` and the no-details placeholder |
| InFlight.Issue | app/page.tsx:45-47 | a started call joins the outstanding calls; a refused step adds none |
| InFlight.Resolve | app/page.tsx:47-56 | answering the index-th outstanding call removes exactly that call and settles the page state with the answer, dropping the loading flag; answering a call that is not outstanding changes nothing |
| InFlight.StartedCallRaisesFlag | app/page.tsx:44-47 | a started call raises the loading flag; a refused one leaves the flag as it was |
| InFlight.GuardedNoSecondCall | app/page.tsx:206 | while loading neither the button nor the guarded key starts a call or changes the state |
| InFlight.StepGuardedKeeps | app/page.tsx:62-66 | with keys guarded, every event keeps at most one call outstanding with the loading flag up exactly while one is |
| InFlight.GuardedRunKeeps | app/page.tsx:38-66 | the same holds after any sequence of events, in any answer order |
| InFlight.GuardedFromStart | app/page.tsx:25-66 | every session from mount keeps at most one call outstanding |
| InFlight.EnterWhileLoading | app/page.tsx:62-66 | as written, for any non-blank id, click then Enter before the answer leaves two calls outstanding; the first answer then drops the loading flag while a call is still outstanding |
| InFlight.EnterWhileLoadingSample | app/page.tsx:62-68 | the same race with the sample id `"P3001"` leaves two calls for it outstanding |

## Findings

| source | as written | input that shows it | evidently intended | confidence | as-written member | corrected member |
|---|---|---|---|---|---|---|
| app/page.tsx:62-66 | the Enter key handler runs `fetchProductDetails` without the `isLoading` check that disables the button (line 206) | identifier `"P3001"` (or any non-blank one), provider present: click, then Enter before the answer | a lookup cannot be re-triggered while one is loading | medium; not executed | InFlight.EnterWhileLoading | InFlight.GuardedFromStart |

`Lookup.KeyPress` is the handler as written and `Lookup.GuardedKeyPress` the corrected one;
`InFlight.StepGuarded` (used by the rest of the session model) uses the corrected handler,
`InFlight.StepAsWritten` the one as written.

## Left out

- Markup, the home/track tab switch, the navigation, the footer and its year
  (`new Date().getFullYear()`): presentation only. The sample-id buttons are `Lookup.Edit`.
- The ethers `BrowserProvider` and `Contract` construction and the real
  `getProductDetails` call: foreign library and on-chain code. The provider is a presence
  flag, the handle keeps only its address, and the call is an abstract outcome.
- The contract ABI file and the deployment script `hardhat/ignition/modules/depft.ts`: no
  logic beyond library calls and console output.
- `console.error` logging of the missing wallet and of the rejection.
- React scheduling: each state update of one handler half is applied together; the stale
  closure a handler sees is the state at the event.
- The answer is typed `any` in the page; here it is a tuple of three strings, so an
  `undefined` name or batch id is not modelled (an empty one is, and renders `"N/A"`).
- JavaScript strings are UTF-16 code units and may hold lone surrogates; here a string is a
  sequence of Unicode scalar values, so such strings are not modelled. The separators and the
  whitespace characters all lie in the Basic Multilingual Plane, so where the cuts fall does
  not depend on this.
- `Strings.IsWhitespace` fixes the Unicode space separators to the current Unicode
  version; a JavaScript engine on another Unicode version may differ.
