# Max ZFW (pax + cargo) checker — a Dafny model

The Max ZFW checker is a single-screen tool. You pick an aircraft type (CJ2,
CJ3 or Embraer) and a flight month, which suggests a season. You enter the
passengers, either as counts per category (male, female, child, infant) priced
at the season's standard weights, or as one actual weight per passenger. Cargo
is 30 lb per passenger unless you override it with a total. The tool adds
passengers and cargo, compares the sum with the planning maximum for the
aircraft and season, and shows either a prompt (nothing entered), "WITHIN
LIMITS by N lb" or "OVER LIMIT by N lb".

This project models that logic as pure Dafny functions and proves its
properties:

- `tables.dfy` (module `Tables`): the closed enumerations, the two static
  tables, both typed and as the string-keyed maps the program uses.
- `months.dfy` (module `Months`): months and the month-to-season suggestion.
- `passengers.dfy` (module `Passengers`): passenger count and weight in
  standard and override mode.
- `cargo.dfy` (module `Cargo`): the default cargo and the override state kept
  in the session between reruns.
- `payload.dfy` (module `Payload`): the margin, the verdict and one full
  rerun of the screen.

Weights entered as decimals are modelled as exact `real`s, never below zero.
Standard weights and counts are `nat`s. Python integers are unbounded, like
Dafny's, so no wrap-around is involved.

The screen is a script that reruns on every input change. The one piece of
state the core carries from one rerun to the next is the remembered cargo
value. It is modelled as `CargoMemory` (`Unset` before the first override, else
`Remembered(v)`). `CargoStep` is its transition function. The cargo field's
content is an input, `Edit`: `Unchanged` means it holds the value it was shown
with, `Typed(w)` means the user typed `w`.

## Model

| member | source | states |
|---|---|---|
| Tables.MaxPayload | zfw_max_checker.py:22-26 | the payload limit for every aircraft type and season lies between 1034 and 2116 lb |
| Tables.StdWeight | zfw_max_checker.py:28-31 | every standard passenger weight lies between 30 and 199 lb |
| Tables.LookupNeverMisses | zfw_max_checker.py:22-31 | every key built from the closed aircraft, season and category lists is present in the string-keyed tables, and the entry found there equals the typed lookup |
| Tables.TablesHaveNoOtherKeys | zfw_max_checker.py:22-31 | every key of either table, at either level, is the name of some aircraft, season or category |
| Tables.NamesExact | zfw_max_checker.py:48-83 | each aircraft and season name is in its selection list, and a name identifies its aircraft or season uniquely |
| Months.AutoSeason | zfw_max_checker.py:69-72 | the suggested season is Summer exactly for calendar months 4 to 10 and Winter exactly for months 1-3 and 11-12 |
| Months.SeasonOfName | zfw_max_checker.py:69-72 | the rule as written, membership of the name in the summer list, gives Summer exactly for the names of the months at positions 3 to 9 (April to October) of the month list |
| Months.AutoSeasonMatchesNameList | zfw_max_checker.py:69-72 | for every month, looking its name up in the list of summer month names gives the same season as the calendar rule |
| Months.MonthsInCalendarOrder | zfw_max_checker.py:57-60 | the month list has 12 entries, each month at the position of its calendar number, with distinct names |
| Months.SummerIsAprilThroughOctober | zfw_max_checker.py:57-72 | over the month list, exactly positions 3 to 9 (April to October, seven months) give Summer; the other five months give Winter |
| Passengers.TotalCount | zfw_max_checker.py:106 | the standard-mode passenger total is at least each category count, and is zero exactly when every count is zero |
| Passengers.StdPaxWeight | zfw_max_checker.py:107-112 | with the table's weights filled in, the standard-mode weight is 193·males + 159·females + 75·children + 30·infants in summer and 199·males + 165·females + 75·children + 30·infants in winter; its partner is `StdPaxWeightIsPerPassenger` |
| Passengers.StdPaxWeightIsPerPassenger | zfw_max_checker.py:107-112 | the count-weighted standard-mode weight equals the weight of the list with one entry per passenger, each priced at their category's standard weight, and that list has the total number of passengers |
| Passengers.StdPaxWeightBounds | zfw_max_checker.py:107-112 | the standard-mode weight lies between 30 and 199 lb per passenger, so it is zero exactly when there are no passengers |
| Passengers.AddOnePassenger | zfw_max_checker.py:106-112 | one more passenger of a category raises the total by one and the weight by that category's standard weight |
| Passengers.Sum | zfw_max_checker.py:126 | the sum of entered weights is never negative and is at least the last weight |
| Passengers.SumBoundsEachWeight | zfw_max_checker.py:126 | no single entered weight exceeds the sum |
| Passengers.ExplicitPaxWeight | zfw_max_checker.py:126 | the override-mode weight is never negative and is 0 when no passengers are declared |
| Passengers.ExplicitPaxWeightIsSum | zfw_max_checker.py:126 | the guard for zero passengers changes nothing: the override-mode weight is always the sum |
| Passengers.CollectWeights | zfw_max_checker.py:116-126 | exactly `totalPax` weights are collected, the i-th being field i's value, and the passenger weight is their sum (0 for no passengers) |
| Passengers.TotalPax | zfw_max_checker.py:106-116 | in standard mode the total is at least each category count and is zero exactly when all counts are; in override mode it is the number of entered weights |
| Passengers.PaxWeight | zfw_max_checker.py:94-126 | in either mode the passenger weight is non-negative and is 0 with no passengers; standard mode gives the count-weighted weight, override mode the sum of the weights |
| Cargo.DefaultCargo | zfw_max_checker.py:133 | the default cargo is a whole multiple of 30 lb, and dividing it by 30 gives back the passenger count |
| Cargo.CargoStep | zfw_max_checker.py:133-151 | the session always ends up remembering the cargo used; with override off that is 30 lb per passenger; with override on it is a typed value, else the remembered one, else (nothing remembered) the default |
| Cargo.OverridePersistsAcrossPaxChanges | zfw_max_checker.py:136-147 | with the override left on and the field untouched, the cargo stays the same whatever the passenger count becomes |
| Cargo.ReenablingShowsDefault | zfw_max_checker.py:136-151 | turning the override off and on again discards a typed value: the field comes back with the default for the current count |
| Cargo.RerunIsStable | zfw_max_checker.py:136-151 | a rerun with the same inputs and an untouched field repeats the previous cargo and memory |
| Payload.Evaluate | zfw_max_checker.py:162-164 | the limit is the table entry for the aircraft and season, the total is passengers plus cargo, the margin is limit minus total, and the margin never exceeds the limit |
| Payload.WithinLimits | zfw_max_checker.py:192 | for a result whose margin is the limit less the payload, the margin test holds exactly when the payload does not exceed the limit |
| Payload.WithinIffPayloadAtMostMax | zfw_max_checker.py:162-164 | a check is within limits exactly when passengers plus cargo do not exceed the limit; a payload equal to the limit is within |
| Payload.VerdictOf | zfw_max_checker.py:189-195 | the prompt shows exactly when there are no passengers and no cargo; otherwise exactly one of WITHIN (margin at least 0, reported as is) and OVER (reported excess strictly positive) |
| Payload.HeavierStaysOver | zfw_max_checker.py:192-195 | for one aircraft and season, a payload at least as heavy as an over-limit one is also over the limit |
| Payload.SuppressedOnlyWhenEmpty | zfw_max_checker.py:189-195 | when the prompt shows, the payload is 0 and the whole limit is left, so an over-limit check is never hidden |
| Payload.ResolveSeason | zfw_max_checker.py:68-83 | a season picked by hand wins; otherwise the season is Summer exactly for months 4 to 10 |
| Payload.Check | zfw_max_checker.py:94-164 | one rerun: the season is the resolved one, the passenger total and weight are the entry's for that season, the total payload is passengers plus cargo, the limit is for that season and the margin is limit minus total, the cargo is 30 lb per passenger with the override off and otherwise the typed, else remembered, else default value, the memory holds the cargo used, and the verdict follows the margin rule |
| Payload.StandardModeCheck | zfw_max_checker.py:106-164 | in standard mode with the cargo override off (whatever the cargo field holds), the season is the resolved one, the passenger total is the sum of the four counts, the passenger weight is the standard-mode weight for that season, and the margin is the limit minus that weight minus 30 lb per passenger |
| Payload.WinterWithinImpliesSummerWithin | zfw_max_checker.py:107-164 | a standard-mode load with default cargo that is within limits in winter is within limits in summer, for every aircraft |
| Payload.ExplicitModeCheck | zfw_max_checker.py:116-164 | in override mode, the passenger total is the number of weights entered and the passenger weight is their sum |
| Payload.ExampleCj2Summer | zfw_max_checker.py:162-193 | CJ2 in July with 2 males and 2 females and default cargo is within limits by 262 lb |
| Payload.ExampleCj3Winter | zfw_max_checker.py:162-195 | CJ3 with Winter picked, 6 males and 4 females and default cargo is over the limit by 604 lb |
| Payload.ExampleEmbraerExplicit | zfw_max_checker.py:114-193 | Embraer in summer with weights 180, 175 and 160 and 50 lb of typed cargo is within limits by 1551 lb |
| Payload.NothingEnteredPrompts | zfw_max_checker.py:133-190 | with no passengers and the cargo override off, the prompt is shown, in either entry mode |
| Payload.PresetSeasonEntry | zfw_max_checker.py:11-12 | after the start-of-rerun preset the session always holds a season entry; an existing entry is kept, a missing one becomes Summer |
| Payload.SuggestionNeverReachesRadio | zfw_max_checker.py:11-83 | the radio as written, drawn after the preset, shows the same season for every month; in a fresh session it matches the month's suggestion exactly for months 4 to 10, so it is wrong for every winter month |
| Payload.SuggestionLostAsWritten | zfw_max_checker.py:11-83 | in a fresh session in January the radio as written gives Summer while the suggestion is Winter, so CJ3 with 6 males and 4 females reads over by 492 lb instead of 604 lb |

## Left out

- Tables.MaxPayload: its contract states only the range of the limits. The
  exact entries per aircraft and season are stated by
  `Tables.LookupNeverMisses`, against the string-keyed table.
- Tables.StdWeight: its contract states only the range of the weights. The
  exact entries are stated by `Tables.LookupNeverMisses` in the same way.

- The page itself: page configuration, title, widgets, columns, captions, the
  summary panels and the footer (zfw_max_checker.py:4, 41-56, 61-67, 73,
  84-104, 166-206). They
  only collect inputs and display the core's results.
- `color_text` (zfw_max_checker.py:33-39): builds HTML for display only.
- The initial session defaults (zfw_max_checker.py:9-16) and the widgets'
  `key=` bookkeeping. The one effect that changes results, the season radio
  showing its preset session entry instead of the month's suggestion, is
  recorded under "## Findings"; the rest of the model uses the intended
  behaviour, `ResolveSeason`. Two other effects are not modelled. First, the
  cargo field keeps its own keyed value while it stays on screen; `Edit`
  abstracts it as "unchanged or typed". Second, when a number field is
  redrawn, the framework decides whether it keeps its earlier value.
- The default month from `date.today()` (zfw_max_checker.py:64) is a clock
  read. The month is an input of the model.
- Display rounding (`:.0f`) and IEEE floating-point arithmetic. Decimal
  weights are exact reals here, so the sums and margin are exact.
- The check that entered numbers are non-negative is done by the widgets'
  `min_value=0`. The model builds it into the types (`nat`, `Weight`) instead
  of checking it.
- A declared passenger count that differs from the number of entered weights
  cannot happen in the program: one field is generated per passenger
  (zfw_max_checker.py:122-125). In the model the override-mode count is the
  length of the weight list, and `CollectWeights` proves it equals the
  declared count. No error path exists for it.

## Findings

| source | as written | input that shows it | evidently intended | confidence | as-written member | corrected member |
|---|---|---|---|---|---|---|
| zfw_max_checker.py:11-83 | the session entry `season` is preset to Summer (lines 11-12) before the radio keyed to it is built (lines 77-83), so the radio shows the stored entry and ignores `index=` derived from the month | a fresh session with January selected: the radio shows Summer, and CJ3 with 6 males and 4 females is over by 492 lb instead of 604 lb | the radio defaults to the season suggested by the month (the comment at line 76 and the caption at line 73 say so), and a hand-picked season overrides it | medium, not executed; it rests on the framework's rule that a keyed widget shows its session entry | Payload.SuggestionLostAsWritten | Payload.ResolveSeason |
