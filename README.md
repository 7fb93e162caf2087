# "What should I eat" picker — a Dafny model

The application is a single-page food picker. The user keeps a list of food
options and can ask for one picked at random. Two optional panels make
suggestions. One uses the time of day: five meal times, each with a fixed
food list. The other uses a chosen mood: five moods, each with a fixed list
of five foods. This project models the logic of the three components behind
those panels and proves what they promise.

- `js_builtins.dfy` models the JavaScript built-ins the components use.
  - `Lists`: the `Distinct` predicate.
  - `JsString`: `String.prototype.trim` over ECMAScript's WhiteSpace and
    LineTerminator code points, `Number.prototype.toString` for naturals and
    `String.prototype.padStart`.
  - `JsRandom`: the `Math.floor(Math.random() * n)` index pick. The value
    `Math.random()` returns is a parameter `draw`, a real in [0, 1).
- `food_selector.dfy` (module `FoodSelector`) models the catalog component.
  Class `FoodSelectorState` holds the `foods`, `selectedFood` and `newFood`
  state. Its methods are the add, remove and random-pick handlers. Each
  warning toast becomes a `Notice`: `EmptyInput`, `DuplicateItem` or
  `EmptyCatalog`. The class invariant `Valid()` states that every entry is
  trimmed and non-empty and that no entry occurs twice. The constructor
  establishes it and every handler keeps it.
- `time_based_suggestion.dfy` (module `TimeBasedSuggestion`) models the
  time-of-day panel. The hour-to-bucket classifier and the suggestion lists
  are functions. Class `TimeBasedSuggestionState` holds `timeOfDay` and
  `currentTime`, and its `Tick` method is the once-a-minute refresh. The
  component reads the clock twice: once for the badge and once inside
  `getTimeOfDay`. So `Tick` takes both readings as parameters, and the bucket
  matches the badge's hour (`InSync`) when the two readings fall in the same
  hour.
- `mood_selector.dfy` (module `MoodSelector`) models the mood panel. The mood
  lists are a function. Class `MoodSelectorState` holds `selectedMood`, with
  the radio-button handler and the suggest handler as methods. "Handing a
  food to the parent" (`onSelectFood`) is the method's result.

A few facts about the code shape the model:

- `removeFood` filters out every equal entry. `RemoveFromDistinct` shows
  that on a catalog without repeats this cuts out exactly one entry.
- The radio value is cast to the closed `Mood` type, so there is no
  invalid-mood case.
- A suggestion from either panel only goes to `onSelectFood`; nothing adds
  it to the catalog. src/App.tsx:15 mounts only `FoodSelector`.

## Model

| member | source | states |
|---|---|---|
| `JsString.Trim` | src/components/FoodSelector.tsx:49 | The trimmed text has no whitespace at either end and is no longer than the input. It is empty exactly when the input is all whitespace, which is the blank-input test of `addFood`. |
| `JsString.TrimStart` | src/components/FoodSelector.tsx:49 | The result is a suffix of the input. What was dropped is all whitespace, and the result does not start with whitespace. |
| `JsString.TrimEnd` | src/components/FoodSelector.tsx:49 | The result is a prefix of the input. What was dropped is all whitespace, and the result does not end with whitespace. |
| `JsString.TrimOfPadded` | src/components/FoodSelector.tsx:67 | A trimmed text surrounded by any whitespace trims back to exactly that text. This pins down which name `addFood` appends. |
| `JsString.TrimOfTrimmed` | src/components/FoodSelector.tsx:58 | A text with no whitespace at either end is its own trim, so a catalog entry compares equal to its trimmed form. |
| `JsString.TrimIdempotent` | src/components/FoodSelector.tsx:58 | Trimming twice gives the same text as trimming once. |
| `JsString.NatToString` | src/components/TimeBasedSuggestion.tsx:89-90 | `toString` of a natural gives at least one digit and no leading zero except for 0. Numbers below 10 give one digit, and numbers from 10 to 99 give two. |
| `JsString.ParseNatToString` | src/components/TimeBasedSuggestion.tsx:89-90 | The numeral `toString` writes denotes the number it was given (round trip with `ParseDecimal`). |
| `JsString.PadStart` | src/components/TimeBasedSuggestion.tsx:89-90 | `padStart` gives a string whose length is the larger of the target and the input's length. The input is at the end, and every character before it is the pad character. |
| `JsString.ParseZeroPadded` | src/components/TimeBasedSuggestion.tsx:89-90 | Padding a numeral with `'0'` on the left keeps it a numeral that denotes the same number. |
| `JsRandom.RandomIndex` | src/components/FoodSelector.tsx:43 | `Math.floor(Math.random() * n)` with a draw in [0, 1) and n > 0 is an index below n. |
| `JsRandom.RandomIndexReaches` | src/components/FoodSelector.tsx:43-44 | Every index below n is produced by some draw in [0, 1), so every entry of a list can be picked. |
| `FoodSelector.RemoveAll` | src/components/FoodSelector.tsx:73 | The filter never lengthens the list. An item is in the result exactly when it was in the list and differs from the removed name, so no occurrence of that name is left. |
| `FoodSelector.RemoveAllConcat` | src/components/FoodSelector.tsx:73 | Filtering a concatenation is concatenating the filtered parts, so the kept entries stay in their relative order. |
| `FoodSelector.RemoveAbsentIsNoOp` | src/components/FoodSelector.tsx:72-74 | Removing a name the list does not hold leaves the list exactly as it was. |
| `FoodSelector.RemoveFromDistinct` | src/components/FoodSelector.tsx:72-74 | In a list without repeats, removing the entry at position k gives the list with just that position cut out. |
| `FoodSelector.DefaultFoodsValid` | src/components/FoodSelector.tsx:21-24 | The default list satisfies the catalog invariant: trimmed, non-empty, distinct names. |
| `FoodSelector.AddPreservesInvariant` | src/components/FoodSelector.tsx:58-67 | Appending the trimmed input to a valid catalog keeps it valid when that input is non-blank and not yet listed. |
| `FoodSelector.RemovePreservesInvariant` | src/components/FoodSelector.tsx:72-74 | Removing a name from a valid catalog keeps it valid. |
| `FoodSelector.FoodSelectorState.constructor` | src/components/FoodSelector.tsx:27-29 | A fresh component holds the default list, no picked food and an empty input, and satisfies the invariant. |
| `FoodSelector.FoodSelectorState.SetNewFood` | src/components/FoodSelector.tsx:82 | Typing sets the input text, keeps the invariant and changes nothing else. |
| `FoodSelector.FoodSelectorState.AddFood` | src/components/FoodSelector.tsx:48-69 | A blank input gives `EmptyInput`, and a trimmed input already listed gives `DuplicateItem`. In both cases `foods` and `newFood` are unchanged. Otherwise exactly the trimmed name is appended after the old list and `newFood` becomes empty. These are if-and-only-ifs. The invariant is kept and `selectedFood` is untouched. |
| `FoodSelector.FoodSelectorState.RemoveFood` | src/components/FoodSelector.tsx:72-74 | The new list is the old list with the given name filtered out. The invariant is kept and nothing else changes. |
| `FoodSelector.FoodSelectorState.SelectRandomFood` | src/components/FoodSelector.tsx:33-45 | An empty list gives `EmptyCatalog` and leaves `selectedFood` alone. Otherwise `selectedFood` becomes the entry at the drawn index, a member of `foods`. Only `selectedFood` can change, and the invariant is kept. |
| `FoodSelector.AddSameNameTwice` | src/components/FoodSelector.tsx:58-68 | On a fresh component, adding any input whose trim is a new non-blank name succeeds, and the catalog becomes the default list plus that trimmed name. Adding the same name again gives `DuplicateItem` and leaves the catalog unchanged. |
| `TimeBasedSuggestion.Suggestions` | src/components/TimeBasedSuggestion.tsx:13-19 | Every time of day has a non-empty suggestion list without repeats. |
| `TimeBasedSuggestion.GetTimeOfDay` | src/components/TimeBasedSuggestion.tsx:22-30 | The hour falls in the returned bucket's range: morning [5,10), noon [10,14), afternoon [14,17), evening [17,22), night otherwise. No other bucket's range holds the hour, so the five ranges partition 0..23. |
| `TimeBasedSuggestion.BucketBoundaries` | src/components/TimeBasedSuggestion.tsx:25-29 | The hours on either side of every boundary land in the expected buckets, e.g. 4 is night, 5 morning, 9 morning, 10 noon and 22 night. |
| `TimeBasedSuggestion.ClockField` | src/components/TimeBasedSuggestion.tsx:89-90 | `n.toString().padStart(2, '0')` is all digits and denotes n. It is exactly two characters for every hour and minute. |
| `TimeBasedSuggestion.ClockLabel` | src/components/TimeBasedSuggestion.tsx:88-90 | The badge is five characters: two digits denoting the hour, a colon, two digits denoting the minute. |
| `TimeBasedSuggestion.TimeBasedSuggestionState.constructor` | src/components/TimeBasedSuggestion.tsx:55-56 | On mount the bucket is `getTimeOfDay` of the hour read for it and the badge holds the time read for it. The two agree when the readings share the hour. |
| `TimeBasedSuggestion.TimeBasedSuggestionState.Tick` | src/components/TimeBasedSuggestion.tsx:60-64 | After a tick the badge time is the tick's clock reading and the bucket is `getTimeOfDay` of the hour read for it. Both readings in one hour leave the two in sync. |
| `TimeBasedSuggestion.TimeBasedSuggestionState.ClickSuggestion` | src/components/TimeBasedSuggestion.tsx:99-107 | Clicking the k-th badge hands the parent the k-th food of the current bucket's list, a member of `timeBasedFoods[timeOfDay]`. |
| `MoodSelector.MoodsListsEachMoodOnce` | src/components/MoodSelector.tsx:91 | The radio list holds every mood, each once. |
| `MoodSelector.MoodFoods` | src/components/MoodSelector.tsx:19-25 | Every mood has a list of exactly five distinct foods. |
| `MoodSelector.MoodSelectorState.constructor` | src/components/MoodSelector.tsx:89 | No mood is selected on mount and the suggest button is disabled. |
| `MoodSelector.MoodSelectorState.SelectMood` | src/components/MoodSelector.tsx:93-96 | Choosing a mood stores it and enables the suggest button. This is the only state change, so once set the mood never returns to none. |
| `MoodSelector.MoodSelectorState.HandleSuggestFood` | src/components/MoodSelector.tsx:100-106 | A food is handed on exactly when the button is enabled (line 131), which is when a mood is selected. That food is the entry at the drawn index of the mood's list, so it is a member of that list. Without a mood nothing is handed on. |

## Left out

- The spinning-wheel session with a delayed, cancellable reveal is not in the modelled code and is not modelled.
- Rendering, Chakra components, styling, hover effects, tooltips and the emoji, description and meal-name tables are presentation only.
- Toasts are modelled only as the returned `Notice`, not as UI output.
- `setInterval`/`clearInterval` and `new Date()` are timers and clock I/O. The clock readings are parameters of the constructor and of `Tick`.
- `Math.random()` becomes the parameter `draw`, taken as an exact real. Floating-point rounding of `draw * n` and the distribution of draws are not modelled.
- React's batching and re-rendering are left out. Each handler is one synchronous update. `setFoods(prev => ...)` and the `foods` that `includes` reads are the same list within one event.
- JavaScript strings are UTF-16 code units, while Dafny's `char` is a Unicode scalar value. Trimming only inspects code points in the Basic Multilingual Plane, so the two agree.
- `JsString.PadStart`: models a one-character pad string only, which is the only pad the components use.
- src/components/FoodFunFact.tsx picks a random fact from a constant list when a food is selected. Its index pick is `JsRandom.RandomIndex`, and the rest is render gating, so it is not modelled further.
- src/App.tsx only composes components and is not modelled.
