# Game screen rules of the gamified to-do client, in Dafny

The game screen (`app/pages/game.tsx`) shows each task category as a "room". A room has an
icon, a colour theme, a list of task cards and a completion bar. Completing a task earns
coins. Almost all of the file is rendering and animation. The rules it computes live in a
few small helpers, and this project models those helpers and proves what they promise:

- **Reward** (`reward.dfy`). A task card shows `Math.floor(base_coin_value * difficulty)`
  coins. The multiplier comes from the first listed category whose `category_id` equals the
  todo's flat `category_id`. It falls back to the category embedded in the todo when that
  lookup finds nothing or finds a multiplier of 0 (a falsy number).
- **Rooms** (`rooms.dfy`). `getRoomTasks` lists the todos whose *embedded*
  `category.category_id` is the current room's. `getRoomProgress` measures the todos whose
  *flat* `category_id` is the room's: 0 for an empty room, otherwise
  `Math.round(completed / total * 100)`. Both fields are kept in the `Todo` record. The
  two selections agree whenever the fields agree (`ListedAreMeasured`), and can diverge
  otherwise (`ListedAndMeasuredCanDiverge`).
- **Colours** (`colors.dfy`). `hexToRgb` accepts an optional `#` followed by exactly six
  hex digits, in either case. It reads each pair with `parseInt(pair, 16)` and returns black
  for anything else. A canonical encoder `ToHex` is its partner, with round trips proved
  in both directions.
- **Themes and icons** (`themes.dfy`). `ROOM_THEMES` and `getRoomTheme` look names up
  case-insensitively with a `default` fallback. `getRoomIcon` is case-sensitive with a
  `"star"` fallback. The file also models JavaScript's property lookup on object literals,
  for the finding below.
- **Session state** (`session.dfy`). Class `GameScreen` holds `coins` and
  `coinAnimations`. `HandleComplete` appends the animation and credits the server's
  `coins_earned`, and only on an ok response. `RemoveCoinAnimation` is the
  `filter`-by-id removal. A ghost ledger shows that the balance always equals the last
  loaded balance plus the confirmed credits.
- **JavaScript runtime pieces** (`js.dfy`): `Array.prototype.filter`/`find`,
  `toLowerCase` and `Math.round`, over exact integers and reals.

Three points where the behaviour of the code is worth stating outright:

- A category that is missing from the listed categories is not an error. The reward falls
  back to the multiplier of the todo's embedded category, and so does a listed multiplier
  of 0 (a todo without an embedded category is a separate case, see "## Left out").
- The progress bar reaches 100 before every task is done once a room is large enough: under
  `Math.round` it reads 100 as soon as at most one task in two hundred is still open
  (`RoomProgressFull`).
- The balance is not credited with the locally computed reward. That reward is only displayed,
  on the card's coin badge and in the flying-coin animation; the balance moves by the
  server's `coins_earned`
  (`Session.GameScreen.Collect`).

## Model

| member | source | states |
|---|---|---|
| Js.Filter | app/pages/game.tsx:416-418 | `filter` keeps only elements that pass the test, all drawn from the input, never more than the input |
| Js.FilterConcat | app/pages/game.tsx:416-418 | filtering a concatenation is the concatenation of the filtered parts, so original order is kept |
| Js.FilterMultiset | app/pages/game.tsx:422 | each passing element is kept as many times as it occurs; every failing element is dropped |
| Js.Find | app/pages/game.tsx:664-666 | `find` returns a listed element that passes the test, and returns nothing exactly when no element passes |
| Js.FindFirst | app/pages/game.tsx:664-666 | `find` returns the element at the first passing index |
| Js.ToLowerCase | app/pages/game.tsx:199 | lower-casing keeps the length and maps each character through the A-Z to a-z mapping |
| Js.MathRound | app/pages/game.tsx:425 | `Math.round(x)` is the integer within half of x, with halves going up |
| Js.RoundFraction | app/pages/game.tsx:425 | `Math.round(num/den)` on a non-negative fraction equals `(2*num + den) / (2*den)` |
| Reward.Difficulty | app/pages/game.tsx:664-668 | the multiplier is either the embedded category's or a non-zero multiplier of a listed category with the todo's id |
| Reward.DifficultyFromList | app/pages/game.tsx:664-668 | the first listed category with the todo's `category_id` supplies the multiplier when that multiplier is non-zero |
| Reward.DifficultyZeroFallsBack | app/pages/game.tsx:667-668 | if the first match's multiplier is 0, the embedded category's multiplier is used |
| Reward.DifficultyMissingFallsBack | app/pages/game.tsx:664-668 | if no listed category has the todo's id, the embedded category's multiplier is used |
| Reward.DifficultyIgnoresLaterDuplicates | app/pages/game.tsx:664-666 | once a match exists, categories appended later never change the multiplier |
| Reward.FloorCoins | app/pages/game.tsx:669 | the coins are the largest integer not above base times multiplier |
| Reward.TaskReward | app/pages/game.tsx:664-669 | a card's reward is the floor of its base value times the resolved multiplier |
| Reward.RewardBounds | app/pages/game.tsx:669 | with base >= 0 and multiplier > 0 the reward is >= 0, <= base*multiplier and > base*multiplier - 1 |
| Reward.FloorCoinsMonotone | app/pages/game.tsx:669 | under a non-negative multiplier a larger base never earns fewer coins |
| Reward.RewardExamples | app/pages/game.tsx:669 | 10 x 1.5 gives 15, 7 x 2 gives 14, and 3 x 1.9 gives 5 |
| Rooms.RoomTasks | app/pages/game.tsx:413-419 | no categories gives no tasks; otherwise every listed todo's embedded category is the current room's |
| Rooms.RoomTasksMembership | app/pages/game.tsx:416-418 | a todo is listed exactly when it is one of the todos and its embedded `category_id` is the room's |
| Rooms.RoomTasksInOrder | app/pages/game.tsx:416-418 | the room list keeps the todos' original order |
| Rooms.FiledTasks | app/pages/game.tsx:422 | the progress bar measures only todos whose flat `category_id` is the room's |
| Rooms.CompletedCount | app/pages/game.tsx:424 | the completed count never exceeds the room's task count |
| Rooms.RoomProgress | app/pages/game.tsx:421-426 | progress is a whole percentage in [0, 100] |
| Rooms.ProgressBounds | app/pages/game.tsx:425 | `Math.round(c/n*100)` for c <= n equals `(200c + n)/(2n)` and lies in [0, 100] |
| Rooms.RoomProgressNearest | app/pages/game.tsx:421-426 | for a non-empty room, progress p is the nearest percentage of completed todos, halves up: 2np - n <= 200c < 2np + n |
| Rooms.RoomProgressFull | app/pages/game.tsx:424-425 | progress is 100 exactly when at most one todo in 200 of the room is still open |
| Rooms.RoomProgressEmpty | app/pages/game.tsx:424-425 | progress of a non-empty room is 0 exactly when fewer than one todo in 200 is completed |
| Rooms.RoomProgressNoneCompleted | app/pages/game.tsx:421-426 | a room with no completed todo, including an empty room, shows 0 |
| Rooms.RoomProgressAllCompleted | app/pages/game.tsx:421-426 | a non-empty room whose todos are all completed shows 100 |
| Rooms.RoomProgressOneOfThree | app/pages/game.tsx:424-425 | one completed todo out of three shows 33 |
| Rooms.ListedAreMeasured | app/pages/game.tsx:413-426 | when every todo's two category fields agree, the room's list is exactly the set its progress bar measures |
| Rooms.ListedAndMeasuredCanDiverge | app/pages/game.tsx:417 | when they disagree, a todo is listed in one room but counted in another room's progress |
| Colors.HexValue | app/pages/game.tsx:638-640 | a hex digit's value is below 16; a decimal digit keeps its face value and a letter counts 10 or more |
| Colors.ParseByte | app/pages/game.tsx:638-640 | `parseInt` of two hex digits is a byte |
| Colors.IsHexColor | app/pages/game.tsx:635 | a matching string is six characters, or seven starting with `#` |
| Colors.HexToRgb | app/pages/game.tsx:634-643 | every channel is in 0..255, and any string the pattern rejects gives black |
| Colors.ToHex | app/pages/game.tsx:634-643 | the canonical spelling of a colour is `#` plus six digits and is accepted by the parser |
| Colors.HexToRgbToHex | app/pages/game.tsx:634-643 | parsing the canonical spelling of any byte colour gives that colour back |
| Colors.ToHexHexToRgb | app/pages/game.tsx:634-643 | every accepted string is a spelling of its result: respelt canonically it is its digits lower-cased, with the `#` |
| Colors.HexToRgbIgnoresCase | app/pages/game.tsx:635 | lower-casing the input never changes the result |
| Colors.HexToRgbOptionalHash | app/pages/game.tsx:635 | a leading `#` is optional |
| Colors.HexToRgbRejects | app/pages/game.tsx:635-642 | five characters, seven digits, a non-hex letter, a doubled `#` and the empty string all give black |
| Themes.RoomTheme | app/pages/game.tsx:198-201 | the theme is the `ROOM_THEMES` entry of the lower-cased name, else `default` |
| Themes.RoomIcon | app/pages/game.tsx:645-659 | the icon is the table's entry for the exact name, else `"star"` |
| Themes.RoomThemeIgnoresCase | app/pages/game.tsx:198-200 | names that lower-case alike get the same theme |
| Themes.RoomThemeOfLowered | app/pages/game.tsx:199-200 | the theme of the lower-cased name is the theme of the name |
| Themes.RoomThemeNamed | app/pages/game.tsx:25-68 | "Work", "STUDY" and "WorkOut" get their themes; "Health" and "" get `default` |
| Themes.RoomIconIsCaseSensitive | app/pages/game.tsx:645-658 | "work" gets "briefcase" but "Work" gets "star"; the same holds for "workout" and "WORKOUT" |
| Themes.RoomIconNeedsLowerCase | app/pages/game.tsx:645-658 | a name that is not already lower case always gets "star" |
| Themes.ThemeColorsParse | app/pages/game.tsx:546-548 | every theme the intended lookup `RoomTheme` returns has a colour `hexToRgb` accepts, so its panel is never the fallback black (the as-written lookup is not covered: see the :200 finding) |
| Themes.WorkPanelColor | app/pages/game.tsx:26-29 | the work room's panel colour is (74, 101, 114) |
| Themes.GetProperty | app/pages/game.tsx:200 | an object lookup finds an own key, or else an inherited `Object.prototype` member, or else nothing |
| Themes.OrDefault | app/pages/game.tsx:658 | the or-fallback is never undefined: it is the fallback exactly when the lookup found nothing |
| Themes.RoomIconAsWritten | app/pages/game.tsx:658 | when the lookup as written returns an own value, that value is the intended icon |
| Themes.RoomThemeAsWritten | app/pages/game.tsx:200 | when the lookup as written returns an own value, that value is the intended theme |
| Themes.PrototypeMembersLeak | app/pages/game.tsx:646-658 | "toString" and "constructor" get inherited functions as icons; "Constructor" gets one as its theme |
| Themes.AsWrittenAgreesElsewhere | app/pages/game.tsx:198-201 | for names that are not `Object.prototype` members, the lookups as written agree with the intended ones |
| Session.WithoutAnimation | app/pages/game.tsx:403 | after removal no animation with that id is left |
| Session.WithoutAnimationKeepsOthers | app/pages/game.tsx:625-627 | removal drops exactly the entries with that id and keeps every other entry |
| Session.WithoutAnimationTwice | app/pages/game.tsx:625-627 | removing an id a second time, as the timer and `onComplete` both do, changes nothing |
| Session.AppendThenRemove | app/pages/game.tsx:384-403 | appending an entry under a fresh id and then removing that id restores the list |
| Session.SharedIdRemovesBoth | app/pages/game.tsx:383 | two entries stamped with the same `Date.now()` are removed together |
| Session.SumAppend | app/pages/game.tsx:401 | one more credit adds its amount to the credited total |
| Session.GameScreen.constructor | app/pages/game.tsx:190-193 | the screen starts with 0 coins, no animations and an empty ledger |
| Session.GameScreen.LoadCoins | app/pages/game.tsx:264 | the server's `total_coins`, or 0 when missing, replaces the balance and restarts the ledger |
| Session.GameScreen.HandleComplete | app/pages/game.tsx:375-411 | with no token nothing changes; otherwise the animation is appended, and an ok response adds exactly `coins_earned` and schedules removal, while a failed one leaves the coins unchanged |
| Session.GameScreen.RemoveCoinAnimation | app/pages/game.tsx:625-627 | the list becomes the old list without the entries of that id |
| Session.GameScreen.Collect | app/pages/game.tsx:685-688 | without a token nothing changes; otherwise the animation shows the card's own reward, while the balance and the credit history move only by the server's amount, and the removal is scheduled exactly on an ok response |

## Left out

- Network and storage: the bodies of `fetchData`, `handleAddTodo` and `handleDelete`, the
  `fetch` in `handleComplete`, Bearer headers and URLs, AsyncStorage and navigation. The
  completion request is reduced to its outcome (`CompletionResponse`). The stored token is
  reduced to `hasToken`. The balance reload at the end of `fetchData` is `LoadCoins`.
- The `loading` flag and the `Alert` on failure: these are UI feedback only.
- Animations, `Easing`, `interpolate`, `Dimensions` and `measureInWindow`: the position is
  a parameter. The 1500 ms `setTimeout` is not modelled as a delay. `HandleComplete`
  returns the id whose removal it schedules, and the caller later calls
  `RemoveCoinAnimation`.
- `generateDecorations`: it depends on `Math.random` and floating-point positions.
- Double-precision arithmetic. Products and quotients are exact rationals, so rounding
  artefacts of `Math.floor`/`Math.round` on doubles are not modelled.
- Difficulty: a multiplier that is `null`, `undefined`, `NaN` or a numeric string is not
  modelled (the field is an exact number, falsy only at 0). A todo without an embedded
  `category` would throw a `TypeError` in `getRoomTasks`, and in `TaskCard` when the
  fallback is taken; here the field is always present.
- Rooms.RoomTasks: `categories[currentRoom]` past the end of a non-empty list would throw
  as soon as the filter reads it (with no todos it returns []).
  The model requires the current room to be an index into the list.
- Js.ToLowerCase: only A-Z are mapped. Unicode case mappings (for example the Kelvin sign,
  which lower-cases to `k`) are not modelled, so such names fall back to `default`.
- Themes.ThemeColorsParse: proved for the intended lookup only. With the lookup as written,
  a category lower-casing to `constructor` or `__proto__` gets an inherited member as its
  theme: it has no `color`, so the panel is black, and `generateDecorations` throws on its
  missing `decorations`.
- Session.GameScreen.Collect: the collect button is only drawn for a todo that is not
  completed, so the model requires `!todo.completed`. The local todo list is refreshed by
  `fetchData` and is not part of the session state.
- Dates (`toLocaleDateString`, the date picker), `AddTaskModal`, all JSX and `StyleSheet`,
  and the theme background images.
- Weekly calendar partitioning and wish redemption/fulfillment: app/pages/game.tsx contains
  neither. They are not part of this model.

## Findings

| source | as written | input that shows it | evidently intended | confidence | as-written member | corrected member |
|---|---|---|---|---|---|---|
| app/pages/game.tsx:658 | the lookup `icons[categoryName]` before the `"star"` fallback also finds members inherited from `Object.prototype` | a category named `toString` or `constructor` gets a function as its icon name | only the table's own keys give an icon; every other name gets `"star"` | not executed | Themes.RoomIconAsWritten (shown by Themes.PrototypeMembersLeak) | Themes.RoomIcon |
| app/pages/game.tsx:200 | the lookup `ROOM_THEMES[themeKey]` before the `default` fallback also finds inherited members | a category named `Constructor` lower-cases to `constructor` and gets the `Object` function instead of a theme | unknown names get the `default` theme | not executed | Themes.RoomThemeAsWritten (shown by Themes.PrototypeMembersLeak) | Themes.RoomTheme |
