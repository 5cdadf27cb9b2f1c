# js_basics: the `includes` polyfill and the single-page demo's state

This project models the two pieces of sequential logic in the `js_basics` demo:

- **The `Array.prototype.includes` polyfill** (`js_basics/polyfills/array-includes.js`), in module
  `ArrayIncludes` (`array_includes.dfy`). It is a linear search from `max(fromIndex | 0, 0)` under
  SameValueZero equality, so NaN matches NaN. The module installs it on the array prototype only when the
  prototype has no truthy `includes`. JavaScript values are the datatype `Value`, which has a separate `NaN`
  constructor. Finite numbers are reals, so +0 and -0 are one value: both `===` and SameValueZero treat them
  as equal. The receiver is an `array?<Value>`, and `null` stands for both `null` and `undefined`. The
  `fromIndex | 0` conversion is written out as a 32-bit wrap (`ToInt32`). The search is proved against
  `Occurs`, which says some index in `[start, len)` holds a matching element. It is compared with
  `StandardIncludes`, the algorithm of section 23.1.3.16 of ECMAScript 2023.
- **The page logic of `js_basics/app.js`**, in module `App` (`app.dfy`):
  - The hash router (`Router`) keeps the view records in an array. `Show` updates that array in place, and
    `OnHashChange` derives the routing token from the fragment.
  - Each `[data-increment]` button has a `Counter` object.
  - The `load-posts` button and its list are a `PostsWidget`. The `await` splits its handler into `OnClick`
    and `OnDelayElapsed`.
  - The `polyfill-test` gate is `PolyfillDemo.OnTestClick`. The outcome of the dynamic module load is a
    parameter, `loadSucceeds`.

The polyfill deviates from the ECMAScript standard in its start index, and the model keeps this.
It computes `Math.max(fromIndex | 0, 0)`, and `| 0` wraps `fromIndex` into the signed 32-bit range
(`ToInt32`). For every `fromIndex` in `[0, 2^31)` the polyfill agrees with the standard (`AgreesWithStandard`).
Outside that range the two can differ in three ways:

- A negative `fromIndex` in `[-2^31, 0)` starts the search at 0, so the whole array is searched. The
  standard counts a negative `fromIndex` back from the end (`NegativeFromIndexIsZero`,
  `NegativeFromIndexDeviates`).
- A `fromIndex` in `[2^31, 2^32)` is negative after `| 0`, so it also starts the search at 0. For an array
  of at most `fromIndex` elements, the standard starts past the end and returns false
  (`LargeFromIndexDeviates`).
- Any other `fromIndex` outside `[-2^31, 2^31)` wraps to its 32-bit value. For example, `-2^32 + 1` starts
  the search at index 1, where the standard starts at 0 (`VeryNegativeFromIndexDeviates`).

Three behaviours of the code are worth stating outright:

- When `includes` is still missing after a failed load, the test call at `js_basics/app.js:54` throws a
  TypeError. No report is written, and the output keeps its old text (`OnTestClick`).
- The probe at `js_basics/app.js:48` asks whether the property exists (`'includes' in Array.prototype`). The
  guard at `js_basics/polyfills/array-includes.js:2` asks whether it is truthy. The two disagree on a falsy
  data property named `includes`. Such a slot counts as supported, no load is attempted, and the test call
  throws. `Slot` and `SlotTruthy` keep this distinction.
- When no view's id equals the token, `show` hides every view (`UnmatchedTokenHidesAll`). When ids are
  distinct and one of them matches, exactly one view is visible (`ExactlyOneVisible`).

## Model

| member | source | states |
|---|---|---|
| `ArrayIncludes.StrictEqualsMissesOnlyNaN` | js_basics/polyfills/array-includes.js:11 | The loop's match test is `===` or "both NaN". It holds exactly when the two values are the same. It differs from `===` only on NaN, which `===` never matches. |
| `ArrayIncludes.ToInt32` | js_basics/polyfills/array-includes.js:9 | `fromIndex \| 0` lies in the signed 32-bit range and is congruent to `fromIndex` modulo 2^32. It is the identity on values already in range. |
| `ArrayIncludes.StartIndex` | js_basics/polyfills/array-includes.js:9 | `Math.max(fromIndex \| 0, 0)` is below 2^31. It equals `fromIndex` for `fromIndex` in `[0, 2^31)`, is 0 for a negative `fromIndex` in `[-2^31, 0)`, is 0 whenever `fromIndex \| 0` is negative, and otherwise is congruent to `fromIndex` modulo 2^32. No other start below 2^31 meets these conditions (`StartIndexIsDetermined`). |
| `ArrayIncludes.StartIndexIsDetermined` | js_basics/polyfills/array-includes.js:9 | Every start below 2^31 that is 0 when `fromIndex \| 0` is negative, and otherwise congruent to `fromIndex` modulo 2^32, equals `Math.max(fromIndex \| 0, 0)`. |
| `ArrayIncludes.Includes` | js_basics/polyfills/array-includes.js:4-15 | A null receiver throws TypeError, and only a null receiver does. Otherwise the result is true iff some index `k` with `max(fromIndex\|0, 0) <= k < len` holds an element SameValueZero-equal to `search`. The loop invariant is "no match in `[start, k)`". |
| `ArrayIncludes.EmptyArrayNeverIncludes` | js_basics/polyfills/array-includes.js:8 | An empty array returns false for every `search` and `fromIndex`. |
| `ArrayIncludes.NaNIsFound` | js_basics/polyfills/array-includes.js:11 | A NaN at or after the start index is found when searching for NaN, although no element is `===` NaN. |
| `ArrayIncludes.NegativeFromIndexIsZero` | js_basics/polyfills/array-includes.js:9 | A negative 32-bit `fromIndex` behaves exactly like 0: the result is whether `search` is anywhere in the array. |
| `ArrayIncludes.StartPastEndNotFound` | js_basics/polyfills/array-includes.js:9-10 | When the start index is at or beyond `len`, the result is false. |
| `ArrayIncludes.AgreesWithStandard` | js_basics/polyfills/array-includes.js:9-14 | For `0 <= fromIndex < 2^31`, the polyfill's result equals the standard algorithm's result. |
| `ArrayIncludes.NegativeFromIndexDeviates` | js_basics/polyfills/array-includes.js:9 | `["a","b"].includes("a", -1)` is true under the polyfill and false under the standard. |
| `ArrayIncludes.LargeFromIndexDeviates` | js_basics/polyfills/array-includes.js:9 | `fromIndex = 2^31` becomes negative under `\| 0`, so `["a"].includes("a", 2^31)` is true under the polyfill and false under the standard. |
| `ArrayIncludes.VeryNegativeFromIndexDeviates` | js_basics/polyfills/array-includes.js:9 | `fromIndex = -2^32 + 1` wraps to a start of 1, so `["a","b"].includes("a", -2^32 + 1)` is false under the polyfill and true under the standard. |
| `ArrayIncludes.Truthy` | js_basics/polyfills/array-includes.js:2 | A value is falsy exactly when it is one of `undefined`, `null`, `false`, `0`, `NaN` or `""`. |
| `ArrayIncludes.SlotTruthy` | js_basics/polyfills/array-includes.js:2 | The guard's truthiness of `Array.prototype.includes`: a function is truthy, a data value is truthy iff the value is, and an absent property never is. So whenever the gate's probe finds no property, the guard installs. |
| `ArrayIncludes.AfterInstall` | js_basics/polyfills/array-includes.js:2-3 | After the module runs, `includes` is truthy. A slot that was already truthy is unchanged. Any change installs the polyfill. |
| `ArrayIncludes.InstallIsIdempotent` | js_basics/polyfills/array-includes.js:2-16 | Evaluating the module twice leaves the prototype as evaluating it once does. |
| `ArrayIncludes.ArrayPrototype.EvaluatePolyfillModule` | js_basics/polyfills/array-includes.js:2-17 | The prototype's `includes` slot becomes `AfterInstall` of its old value, and nothing else changes. |
| `ArrayIncludes.Call` | js_basics/app.js:54 | Calling `includes` through the prototype throws TypeError iff the slot is not a function. For a start in `[0, 2^31)` both implementations return whether the element occurs from that index on. |
| `App.RouteToken` | js_basics/app.js:12 | The token is never empty. It is the fragment without its leading `#` when something follows the `#`, and "home" otherwise. |
| `App.FragmentRoundTrip` | js_basics/app.js:12 | The fragment `"#" + id` of a link routes back to `id` for every non-empty `id`. |
| `App.ShowSetsVisibility` | js_basics/app.js:5-10 | After `show(token)`, every view keeps its position and id. A view is hidden iff its id differs from the token, and it has `is-active` iff it is not hidden. |
| `App.ShowIsIdempotent` | js_basics/app.js:5-11 | Showing the same token twice gives the same views as showing it once. |
| `App.UnmatchedTokenHidesAll` | js_basics/app.js:6-8 | When no view has the token's id, no view is visible afterwards. |
| `App.ExactlyOneVisible` | js_basics/app.js:6-8 | When view ids are distinct and one of them equals the token, exactly one view is visible afterwards. |
| `App.HomeShownOnEmptyFragment` | js_basics/app.js:12-18 | At startup with an empty fragment and distinct ids, the "home" view is visible and it is the only visible view. |
| `App.Router.constructor` | js_basics/app.js:18 | The router captures the initial views and routes once on the fragment present at load. |
| `App.Router.Show` | js_basics/app.js:5-11 | Updates the view array in place. The new array is the old one with each view's visibility set from the id test. |
| `App.Router.OnHashChange` | js_basics/app.js:12-13 | A fragment change shows the token derived from the fragment. |
| `App.Decimal` | js_basics/app.js:24 | A count's display text is a non-empty string of decimal digits with no leading zero. |
| `App.DecimalRoundTrip` | js_basics/app.js:24 | The display text reads back as the count. |
| `App.Counter.constructor` | js_basics/app.js:21-23 | Each button's count starts at 0, and its span keeps the text it had. |
| `App.Counter.Click` | js_basics/app.js:24 | A click increments this button's count by one, displays the new count, and changes only this counter. |
| `App.CountersAreIndependent` | js_basics/app.js:21-25 | Clicks on two different buttons count separately: two clicks on one and one on the other show 2 and 1 more. |
| `App.FixedPosts` | js_basics/app.js:35-39 | The simulated response has three posts, with ids 1, 2, 3 in that order. |
| `App.ListItem` | js_basics/app.js:40 | One post renders as an element that starts with `<li><strong>` and ends with `</li>`, with `:</strong> ` between the title and the body. Its length is the title's and body's lengths plus 28, and the title and the body can be read back at fixed offsets. |
| `App.RenderPosts` | js_basics/app.js:40 | The joined markup is empty exactly when there are no posts. Otherwise it starts with the first post's item and ends with `</li>`. |
| `App.RenderAppend` | js_basics/app.js:40 | Rendering with `map(...).join('')` distributes over concatenation of post lists. |
| `App.RenderSplitsAt` | js_basics/app.js:40 | Each post's `<li>` item stands after the items of all earlier posts and before those of all later posts. |
| `App.FixedPostsMarkup` | js_basics/app.js:35-40 | The dataset has three posts with ids 1, 2, 3. The list markup is their three `<li>` items concatenated in that order. |
| `App.PostsWidget.OnClick` | js_basics/app.js:30-32 | Before the delay, the button is disabled with text "Loading…" and the list is unchanged. |
| `App.PostsWidget.OnDelayElapsed` | js_basics/app.js:35-42 | After the delay, the list holds the rendered posts and the button is enabled with text "Reload". |
| `App.TestResultTrueWhenCallable` | js_basics/app.js:54 | `['a','b','c'].includes('b')` is true under either implementation, and throws TypeError when `includes` is not a function. |
| `App.ReportText` | js_basics/app.js:55 | The output text starts with `Array.prototype.includes supported? `. The probe can be read back from the next character, and the test result from the last four characters. |
| `App.PolyfillDemo.OnTestClick` | js_basics/app.js:46-56 | The load is attempted iff `'includes' in Array.prototype` is false. The prototype changes only when an attempted load succeeds. The output reports the pre-load probe and the test result, and is left unchanged when the test call throws. |
| `App.PresentCapabilityReportsTrue` | js_basics/app.js:48-55 | With `includes` already a function, the probe succeeds, the test call returns true, and the text `OnTestClick` writes is `Array.prototype.includes supported? true. Test result: true`. |
| `App.AbsentCapabilityOutcomes` | js_basics/app.js:49-55 | With `includes` absent, a successful load installs the polyfill, and the text `OnTestClick` writes is `Array.prototype.includes supported? false. Test result: true`. A failed load leaves the test call throwing, so nothing is written. |

## Left out

- Receivers other than arrays (`Object(this)` on strings and array-likes), `length >>> 0` on arbitrary
  objects, and holes in sparse arrays are not modelled. The receiver is an array whose length is `len`.
- `fromIndex` is an integer. Coercion of non-numbers, fractions and infinities by `| 0` is not modelled, and
  an omitted `fromIndex` is passed as 0, which is what `undefined | 0` gives.
- The property attributes that `Object.defineProperty` sets (non-writable, non-enumerable) are not modelled.
  Only the value of the `includes` slot is.
- The prototype chain is not modelled: `'includes' in Array.prototype` is read as the property being present
  on the prototype itself.
- The DOM queries and event wiring (`js_basics/app.js:2-3`, `13-16`) are not modelled. The views, counters,
  buttons and output element are given to the model's constructors.
- The 500 ms delay and the `await` scheduling (`js_basics/app.js:34`) become two steps: `OnClick`, then
  `OnDelayElapsed`. Interleavings with other handlers are not modelled.
- The dynamic `import()` (`js_basics/app.js:52`) becomes the parameter `loadSucceeds`. Module caching
  across repeated imports is not modelled.
- App.Decimal: counts are unbounded naturals. The model does not capture JavaScript numbers losing precision
  above 2^53.
- The `log` helper (`js_basics/app.js:59-62`) depends on the wall clock and the locale, and is not modelled.
- The largest-contentful-paint observer (`js_basics/app.js:65-76`) is a browser observer API with timing
  values, and is not modelled.
- The busy-wait "simulate-work" handler (`js_basics/app.js:79-85`) depends on `performance.now()` and on
  starving the thread, and is not modelled.
- The layout-shift timer (`js_basics/app.js:88-96`) is not modelled. It is a timer plus DOM creation, and its
  only effect is commented out.
