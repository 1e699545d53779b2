# pb-load and pb-manage-odds, modelled in Dafny

This project models the state-keeping part of two web components of TEI Publisher's component library.

- `pb-load` (`src/pb-load.js`) is a generic content loader. When a trigger event arrives, it builds a parameter object and sends one GET request through its AJAX element. The parameters come from the event, the bound document's path, the remembered pagination offset `start` and the parameters set by the last `pb-toggle` event. When the response arrives, it reads the `pb-total` and `pb-start` headers and announces them in a `pb-results-received` event. It can be set to load only once (`loadOnce`). It can also record the offset in the browser history (`history`).
- `pb-manage-odds` (`src/pb-manage-odds.js`) is the panel listing the ODD files on the server. It marks one ODD as current, deletes an ODD in two steps (mark, then confirm) and reloads the list.

Files:

- `wrappers.dfy`: module `Wrappers`, an `Option` type.
- `js_values.dfy`: module `JsValues`, the part of JavaScript's value semantics the components rely on. It covers truthiness, `===`, reading a missing property as `undefined`, integer-to-string conversion and `parseInt` as section 19.2.5 of ECMA-262 defines it. That means leading white space, a sign, the radix, the `0x` prefix and the longest run of digits; no digit gives NaN.
- `pb_load.dfy`: module `ContentLoader`. The specification function `ResolvedParams` gives the parameter precedence. The class `PbLoad` keeps the element's fields and a log `effects` of what it emits and sends.
- `pb_manage_odds.dfy`: module `OddManagement`. The specification function `Selected` gives the list after an ODD is chosen. The class `PbManageOdds` holds the list as an `array<Odd>`, the pending deletion and an effect log.

Calls into code that is not part of this model become inputs or log entries:
- the AJAX element's `generateRequest` is the `Request` effect;
- `emitTo` is the `StartUpdate`, `EndUpdate`, `ResultsReceived` and `LoadOdd` effects;
- `setParameter` and `pushHistory` are the `SetParameter` and `PushHistory` effects;
- `getEndpoint()` and the path of the document `getDocument()` finds are constant fields;
- `getParameter('start', …)` is the `queryStart` argument of `FirstUpdated`;
- a response or an error arriving is a call of `HandleContent` or `HandleError`.

The class invariant `PbLoad.Valid()` says two things. With `loadOnce`, `loaded` is true exactly when the log holds one request. Without it, `loaded` stays false. Every method preserves it, so a `loadOnce` element sends at most one request, whatever sequence of triggers, toggles and history events it receives.

Three details of the code shape the model:
- `load` writes the bound document's path into `doc` unconditionally (`src/pb-load.js:190-193`). A `doc` the trigger supplied is replaced.
- `load` starts from the trigger's object, writes `doc`, fills `start` only if it is missing or falsy, and merges the user parameters last (`src/pb-load.js:178-200`). `ResolvedParams` states the resulting precedence key by key.
- `_parseHeaders` compares the offset with the raw header string using `!==` (`src/pb-load.js:278`). `NextStart` models that comparison as written. The kept value may be a string equal to the header, or the header parsed by `parseInt`. `NextStartDenotesHeader` proves both denote the same integer.

## Model

| member | source | states |
|---|---|---|
| `JsValues.ParseInt` | src/pb-load.js:279 | `parseInt` always yields a number: an integer or NaN |
| `JsValues.ParseIntNumberToString` | src/pb-load.js:282 | for every integer n, `parseInt(String(n))` with no radix or radix 10 is n |
| `JsValues.ParseIntIgnoresSuffix` | src/pb-load.js:282 | digits followed by a non-digit parse to the digits' value (`parseInt("10px", 10)` is 10) |
| `JsValues.ParseIntIdempotent` | src/pb-load.js:279 | a value `parseInt` produced is a fixed point of `parseInt` (integers and NaN alike) |
| `ContentLoader.ResolvedParamsPrecedence` | src/pb-load.js:178-200 | key by key: user parameters win; a bound document's path is `doc`; the offset fills `start` only when truthy and the trigger has no truthy `start`; other trigger keys keep their values; no other key appears |
| `ContentLoader.ResolvedBySteps` | src/pb-load.js:190-200 | writing `doc`, filling `start` and merging the user parameters in that order yields exactly `ResolvedParams` |
| `ContentLoader.ExplicitStartKept` | src/pb-load.js:196-198 | a trigger `{start: 5}` with a remembered offset of 2 requests offset 5 |
| `ContentLoader.ResultCount` | src/pb-load.js:282 | the `count` is 0 when `pb-total` is missing or empty, and otherwise an integer or NaN |
| `ContentLoader.ResultCountOfDecimal` | src/pb-load.js:282 | a `pb-total` header holding the decimal form of n gives a count of n |
| `ContentLoader.NextStart` | src/pb-load.js:278-280 | an offset strictly equal to the `pb-start` header is kept; whatever the result, it is strictly equal to the header or it is a number (an integer or NaN) |
| `ContentLoader.NextStartDenotesHeader` | src/pb-load.js:278-280 | whether the offset is kept or replaced, it parses to the same integer as the `pb-start` header |
| `ContentLoader.ResultsOfExampleHeaders` | src/pb-load.js:274-285 | headers `pb-total: 42` and `pb-start: 10` give a count of 42 and an offset of 10 |
| `ContentLoader.PbLoad.constructor` | src/pb-load.js:80-87 | a new element has not loaded, has no offset or user parameters, and has emitted nothing |
| `ContentLoader.PbLoad.URL` | src/pb-load.js:167-169 | the request URL is the endpoint, a slash and the `url` attribute, and both parts can be read back from it |
| `ContentLoader.PbLoad.PrepareParameters` | src/pb-load.js:219-224 | without user parameters the map is returned unchanged; with them, the keys are the union and user values win on every shared key |
| `ContentLoader.PbLoad.ResolveParameters` | src/pb-load.js:178-200 | the parameters built from a trigger are `ResolvedParams` of the trigger's base object, the document, the offset and the user parameters |
| `ContentLoader.PbLoad.Load` | src/pb-load.js:171-211 | with `loadOnce` and `loaded`, nothing changes and nothing is sent; otherwise `pb-start-update` and then exactly one request with the resolved parameters; `loaded` becomes `loadOnce`; with `loadOnce`, at most one request ever |
| `ContentLoader.PbLoad.OnTrigger` | src/pb-load.js:91-102 | with history on and a truthy `start` among the event's parameters, that offset is set as a URL parameter and pushed to history before loading with the event; when the load is not gated, the AJAX element's parameters become `ResolvedParams` of the event's parameters and `loaded` becomes `loadOnce`; otherwise they and `loaded` stay |
| `ContentLoader.PbLoad.OnPopState` | src/pb-load.js:104-111 | only with history on and a truthy offset in the history entry that differs (`!==`) from the current one: the offset is taken over and the element reloads, its request parameters becoming `ResolvedParams` with that offset; otherwise nothing changes |
| `ContentLoader.PbLoad.ToggleFeature` | src/pb-load.js:159-165 | the event's properties become the user parameters; a reload, whose request parameters are `ResolvedParams` with those properties, happens only when the action is `'refresh'`; otherwise the request parameters, `loaded` and the log stay |
| `ContentLoader.PbLoad.FirstUpdated` | src/pb-load.js:121-126 | the user parameters never change; with `auto`, the offset is taken from the page's query and the element loads with request parameters `ResolvedParams` of that offset, unless the load is gated, when the log and the request parameters stay; without `auto` nothing changes |
| `ContentLoader.PbLoad.ParseHeaders` | src/pb-load.js:274-286 | the offset becomes `NextStart` of the header; one `pb-results-received` carries the count, the new offset and the last request's parameters |
| `ContentLoader.PbLoad.HandleContent` | src/pb-load.js:226-250 | after a response, the results event and then `pb-end-update` are emitted |
| `ContentLoader.PbLoad.HandleError` | src/pb-load.js:260-261 | after a failed request, `pb-end-update` is emitted exactly once |
| `OddManagement.Selected` | src/pb-manage-odds.js:80-87 | after choosing an entry, no other entry is current; the chosen one is current exactly when some entry was current before; length, names and paths are unchanged |
| `OddManagement.SelectedWithoutOtherCurrent` | src/pb-manage-odds.js:83-85 | when no other entry is current, choosing leaves the list unchanged |
| `OddManagement.SelectedSingleCurrent` | src/pb-manage-odds.js:82-87 | when some entry was current, afterwards exactly the chosen entry is current |
| `OddManagement.SelectedIdempotent` | src/pb-manage-odds.js:82-87 | choosing the same entry twice is the same as choosing it once |
| `OddManagement.OddParams` | src/pb-manage-odds.js:88 | the `pb-load` parameters have the single key `odd`, whose value is the ODD's name followed by `.odd` |
| `OddManagement.PbManageOdds.constructor` | src/pb-manage-odds.js:46-49 | a new panel has an empty list, nothing marked for deletion and no effects |
| `OddManagement.PbManageOdds.Refresh` | src/pb-manage-odds.js:67-72 | `pb-start-update` is emitted, then one request with the given parameters |
| `OddManagement.PbManageOdds.Update` | src/pb-manage-odds.js:74-78 | `pb-end-update` is emitted and the list is replaced by the response |
| `OddManagement.PbManageOdds.SelectOdd` | src/pb-manage-odds.js:80-94 | the in-place walk over the array leaves it equal to `Selected` of the old list; exactly one `pb-load` event with `{odd: name + ".odd"}` of the chosen entry follows |
| `OddManagement.PbManageOdds.Delete` | src/pb-manage-odds.js:117-120 | the given path is marked for deletion and the confirmation dialog opens |
| `OddManagement.PbManageOdds.ConfirmDelete` | src/pb-manage-odds.js:122-130 | with a non-empty path marked, exactly one refresh with `{delete: path}` is issued and the mark is cleared; with none, nothing changes |

## Left out

- Applying content to the page (`src/pb-load.js:228-247`, `_clearContent`, `_onLoad`) is browser DOM work: `innerHTML`, `querySelectorAll`, slots and the element's `display` style.
- `_fixLinks` resolves relative links with the browser's URL parser, which is not part of this model.
- `_handleError` parses the XML error body with `DOMParser` and opens a dialog. Only its `pb-end-update` event is modelled.
- The AJAX element (iron-ajax) and the mixin behind `subscribeTo`, `emitTo`, `getDocument`, `getParameter`, `setParameter`, `pushHistory`, `wait`, `getEndpoint` and `signalReady` are not part of this model. They appear only as inputs and effects, as listed above. `wait` defers the first load; the model loads at once.
- Registering the `popstate` listener and `preventDefault` are browser calls. `OnPopState` applies the listener's guard including `history`, so it does nothing when no listener would exist. The history entry is reduced to its `start` value, which is `undefined` when the entry is `null`.
- Aliasing: `load` makes `params` refer to the trigger's own `detail.params` object (`src/pb-load.js:183`) and then writes `doc`, `start` and the user parameters into it (`src/pb-load.js:192`, `197`, `221`), and the AJAX element keeps a reference to it. The model builds a new map. The caller's object is not shown changing, and a later change to it does not reach `requestParams`.
- `loadOnce`, `history`, `auto`, `url`, the endpoint and the bound document are constants fixed at construction. Changing these attributes later is not modelled.
- Overlapping requests and the order of their responses depend on the browser's event loop. They are not modelled; each response is handled against the current state.
- JavaScript numbers are modelled as unbounded integers plus NaN. Fractions, `-0`, infinities, exponent notation in `String(n)` and `ToInt32` wrap-around of the radix are not modelled.
- Parameter values are scalars. The user parameters are an object or absent; non-object values there are not modelled. The trigger's `detail.params` is an object or absent.
- `render`, `styles` and `console` logging of both elements are not modelled.
- `pb-manage-odds`: `_createODD` and `_createByExample` (`src/pb-manage-odds.js:96-115`) serialise a form and query checkboxes across the document. `firstUpdated` wires the form and calls `_refresh()` once the page is ready. That is `Refresh(None)`; the wiring is not modelled.
- `pb-manage-odds`: the `label` and `description` of an ODD are only rendered. The response is assumed to be a list of ODD records.
- SelectOdd: takes the chosen index as a parameter and reads the chosen item from the list at that index. `_selectODD` (`src/pb-manage-odds.js:80-94`) reads both from `ev.model.itemsIndex` and `ev.model.item`, a template event model that `render` (`src/pb-manage-odds.js:132-181`) never binds. The model therefore assumes the handler is called with an index that lies in the list and matches the item.
- SelectOdd: models `this.set('odds.' + i + '.current', …)` as a write of the flag in place in the array. That `set` comes from an element API that is not part of this model.
- `src/pb-geolocation.js` is not part of this model. It only emits an event with coordinates on mouse-over.
