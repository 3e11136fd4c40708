# DexMon-Types: a verified model of the type calculator

DexMon-Types is a browser Pokédex. It lists Pokémon page by page, looks them up by id or by name, and shows two things:

- for one Pokémon, a breakdown of how much damage each attacking type deals to it;
- a chart of attacker-by-defender multipliers.

This project models the logic behind those views in `app.js` and proves properties of the model:

- `Combined`: `computeCombinedRelations`. It builds the combined table: it starts every known type at 1, multiplies in each defending type's `double_damage_from`, `half_damage_from` and `no_damage_from` lists, then normalises every entry in place.
  - It is a method over a `map`, proved against a functional specification.
  - A closed-form reference states what each entry means: 0 when some defending type is immune, otherwise 2 raised to (double listings − half listings).
  - Lemmas prove the key set, the neutral and immune cases, and that the order of the defending types does not matter.
- `Multipliers`: the values the table holds.
  - JavaScript numbers are taken as exact reals.
  - `undefined` and `NaN` are modelled, because a listed name outside `allTypeNames` reads as `undefined` and turns into `NaN`.
  - The model also covers the snapping normalisation and `Number(v.toFixed(2))`.
- `TypeChart`: the single-type chart cell. The cell checks the attacker's `*_damage_to` lists in order, and later checks override earlier ones. The module also covers the cell's CSS class and the loops that build the chart.
- `Tiers`: the tiered breakdown of the combined table. It covers the levels `0`, `0.5`, `1` and `2`, and skips empty tiers.
- `Consistency`: ties the combined table to the chart on a catalog that lists each relation from both ends. Against one defending type the table holds the chart cell; against two it holds the product of the two cells.
- `Pagination`: the `offset` and `totalCount` state as a class with the previous/next handlers, the page load and the search handler's reset, together with the page label.
- `Search`: the search query, that is, `trim`, `toLowerCase`, the empty / digits / name classification and the substring filter of the fallback.

`allTypeNames` and `cachedTypes` are module-level state in the source. Here they are parameters. The catalog size from the list request is a parameter of the page load.

Three behaviours of the code shape the model:

- The normalisation snaps only to 0, 0.5, 2 and 1, in that order. It does not snap to 0.25 or 4, which reach the `toFixed(2)` branch. With exact arithmetic that branch leaves them unchanged (`Multipliers.NormalizeKeepsReachable`).
- The combined table is total over the known types only when every listed attacker is a known type. Otherwise the code adds a key that holds `NaN` (`Combined.CombinedKeys`, `Combined.CombinedTotal`).
- The breakdown does not place every type in a tier. Types at 0.25 and 4 are shown in none (see Findings).

## Model

| member | source | states |
|---|---|---|
| Multipliers.Times | app.js:182-184 | `mult[d.name] *= f` on a table value: a number stays a number (times f), while `undefined` and `NaN` give `NaN` |
| Multipliers.ToFixed2 | app.js:193 | `Number(v.toFixed(2))`: below 10^21, the nearest hundredth with ties rounded away from zero; from 10^21 on, `v` itself |
| Multipliers.Normalize | app.js:188-193 | the normalisation of one number: snap to 0, 0.5, 2 or 1 within 0.001, tested in that order, otherwise `ToFixed2` |
| Multipliers.NormalizeKeepsReachable | app.js:187-194 | normalisation leaves 0, 0.25, 0.5, 1, 2 and 4 unchanged, 0.25 and 4 through the `toFixed(2)` branch |
| Multipliers.NormalizeKeepsHundredths | app.js:187-194 | every whole number of hundredths is a fixed point of the normalisation |
| Multipliers.NormalizeIsClose | app.js:187-194 | normalising moves a value by at most 0.005 |
| Multipliers.NormalizeIdempotent | app.js:187-194 | normalising twice is normalising once |
| Combined.CombinedRelations | app.js:176-196 | the table the function returns: the neutral table, each defending type's lists applied in order, then every entry normalised |
| Combined.ComputeCombinedRelations | app.js:176-196 | the three loops (fill with 1, multiply per defending type, normalise each key in place) return exactly the specified combined table |
| Combined.MultiplyEach | app.js:182-184 | `for (const d of list) mult[d.name] *= f` yields the specified fold of single multiplications |
| Combined.MultiplyListedEntry | app.js:182-184 | after one list, a name is a key iff it was a key or is listed; its value is the old value times f once per listing (`undefined` becomes `NaN`) |
| Combined.ApplyDefenderEntry | app.js:181-184 | one defending type multiplies an entry by 2^double · 0.5^half · 0^no listings, turns a missing listed key into `NaN` and leaves `NaN` as is |
| Combined.ApplyDefendersEntry | app.js:178-185 | before normalisation, an entry is a key iff the type is known or listed; a known type's value is the closed-form multiplier; a listed unknown name holds `NaN` |
| Combined.RawMultiplierSnoc | app.js:180-185 | the closed-form multiplier is the product of one factor per defending type (0, or 2 to the net listing count) |
| Combined.CombinedEntry | app.js:176-196 | every entry of the result: a known type holds the normalised closed-form multiplier, a listed unknown name holds `NaN`, anything else is absent |
| Combined.CombinedKeys | app.js:179-184 | the key set is the known types plus every listed name, and a key outside the known types holds `NaN` |
| Combined.CombinedTotal | app.js:178-185 | when every listed attacker is a known type, the key set is exactly `allTypeNames` and every value is a number |
| Combined.UnlistedStaysNeutral | app.js:179-185 | a known attacker that no defending type lists keeps multiplier 1 |
| Combined.ImmunityWins | app.js:184-189 | an attacker in some defending type's `no_damage_from` ends at 0 |
| Combined.ExponentPermutation | app.js:180-185 | the net listing count does not depend on the order of the defending types |
| Combined.CombinedOrderIndependent | app.js:180-185 | reordering the defending types gives the same table |
| TypeChart.Effectiveness | app.js:228-231 | the cell value with no-damage over half-damage over double-damage, always one of 0, 0.5, 1, 2 |
| TypeChart.CellClass | app.js:233 | the class of a value: `mult-2`, `mult-05`, `mult-0`, and `mult-1` exactly for every other value |
| TypeChart.EffectivenessCases | app.js:228-231 | a cell is 0 iff the defender is in `no_damage_to`; 0.5 iff in `half_damage_to` and not in `no_damage_to`; 2 iff only in `double_damage_to`; 1 otherwise; so always one of 0, 0.5, 1, 2 |
| TypeChart.CellMultiplier | app.js:228-231 | the three overriding assignments compute the prioritised cell value (no > half > double) |
| TypeChart.ClassRoundTrip | app.js:233 | on the four chart values the CSS class names its own multiplier |
| TypeChart.ClassDistinguishes | app.js:233 | two chart values with the same class are equal |
| TypeChart.ChartRow | app.js:226-235 | one row has a cell per known type, in `allTypeNames` order, each the attacker's cell against that defender |
| TypeChart.BuildChart | app.js:224-235 | the chart is square over `allTypeNames`, cell (i, j) being attacker i against defender j |
| TypeChart.ChartCellShows | app.js:228-234 | every cell shows a chart value and is coloured by the class of that value |
| Tiers.TierList | app.js:140-146 | the tiers for a list of levels, in order, one per level with at least one type |
| Tiers.AtLevel | app.js:141 | the filtered list holds exactly the keys whose value equals the level |
| Tiers.Breakdown | app.js:140-147 | the loop over `0`, `0.5`, `1`, `2` produces the specified tier list, empty tiers skipped |
| Tiers.BreakdownOver | app.js:140-147 | the same loop over any level list produces that level list's tiers |
| Tiers.TierListTiers | app.js:140-146 | every tier is non-empty, has a requested level and holds exactly the types at that level |
| Tiers.TierListIncreasing | app.js:140-146 | tiers come in increasing order of level |
| Tiers.TierListComplete | app.js:140-146 | every level that some type has gets its tier |
| Tiers.TierShownIff | app.js:140-146 | a type is in some tier iff its value is one of the levels, and then in the tier of its value |
| Tiers.TypeInAtMostOneTier | app.js:140-146 | a type is in at most one tier |
| Tiers.TierPlacement | app.js:140-146 | tiers only have levels 0, 0.5, 1, 2; a type is shown iff its value is one of them, so 0.25, 4 and `NaN` are never shown |
| Tiers.ExactlyOneTier | app.js:140-146 | a type whose value is one of the levels is in exactly one tier |
| Tiers.FullBreakdown | app.js:140-147 | the breakdown with the levels 0, 0.25, 0.5, 1, 2, 4 |
| Consistency.DefenderFactorIsChartCell | app.js:226-231 | on a catalog recorded from both ends, a defending type's factor in the combined table equals the chart cell of the attacker against it |
| Consistency.SingleTypeRaw | app.js:180-185 | against one defending type the exact multiplier is the chart cell |
| Consistency.SingleTypeDefender | app.js:176-196 | against one defending type the combined table holds the chart cell |
| Consistency.DualTypeRaw | app.js:180-185 | against two defending types the exact multiplier is the product of the two cells |
| Consistency.DualTypeDefender | app.js:176-196 | against two defending types the table holds the product of the two cells, one of 0, 0.25, 0.5, 1, 2, 4 |
| Consistency.ProductTier | app.js:140-146 | a type whose value is a product of two cells is shown iff the product is neither 0.25 nor 4 |
| Consistency.DualTypeBreakdown | app.js:140-146 | in the breakdown of a dual-type Pokémon a known type is missing iff both cells are 0.5 or both are 2 |
| Consistency.QuadrupleWeaknessHidden | app.js:140-146 | a type at 4 times damage has no tier |
| Consistency.ProductFullTier | app.js:140-146 | with the 0.25 and 4 tiers added, a type at any dual-type value is in exactly one tier |
| Consistency.FullBreakdownShowsDual | app.js:140-146 | with the 0.25 and 4 tiers added, every known type of a dual-type Pokémon is in exactly one tier, at the product of its cells |
| Pagination.Label | app.js:65 | the label numbers `offset+1`, `min(offset+48, totalCount)` and `totalCount`; the last never exceeds the total |
| Pagination.AfterPrev | app.js:28-29 | the offset after Prev: unchanged at 0, otherwise `max(0, offset-48)`, never below 0 nor above the old offset |
| Pagination.AfterNext | app.js:33-34 | the offset after Next: unchanged when `offset+48 >= totalCount`, otherwise one page on, and then below the total |
| Pagination.LabelWindow | app.js:65 | on a page inside the catalog the label runs from `offset+1` to `min(offset+48, total)`, within 1..total, spanning exactly the page's Pokémon |
| Pagination.LabelPastEnd | app.js:65 | past the end of the catalog the first number exceeds the last; an empty catalog reads `1 - 0 de 0` |
| Pagination.ButtonsKeepPageStart | app.js:27-36 | both buttons keep the offset a non-negative multiple of 48; Prev steps back exactly 48 unless at 0; Next stays inside the catalog |
| Pagination.PrevUndoesNext | app.js:27-36 | Prev returns to where a successful Next started |
| Pagination.NextUndoesPrev | app.js:27-36 | Next returns to where a successful Prev started, on a page inside the catalog |
| Pagination.Pager.constructor | app.js:11-13 | the state starts at offset 0 and count 0 |
| Pagination.Pager.Prev | app.js:27-31 | reloads iff the offset was not 0, then moves back exactly one page; keeps the offset a page start |
| Pagination.Pager.Next | app.js:32-36 | reloads iff `offset + 48 < totalCount`, then moves on one page and stays below `totalCount`; otherwise changes nothing |
| Pagination.Pager.LoadPage | app.js:63-65 | `totalCount` becomes the reported count, the offset is kept, and the label is computed from both |
| Pagination.Pager.SearchInput | app.js:38-39 | the step is the classification of the normalised query; an empty query sets the offset to 0, any other keeps it |
| Search.LeadingSpaces | app.js:38 | counts exactly the whitespace at the start |
| Search.TrailingSpaces | app.js:38 | counts exactly the whitespace at the end |
| Search.Trim | app.js:38 | `trim()`: the input without its leading and trailing ECMAScript whitespace |
| Search.TrimShape | app.js:38 | the trimmed query has no whitespace at either end and is the input with only whitespace removed around it |
| Search.TrimOfTrimmed | app.js:38 | trimming a string without surrounding whitespace changes nothing |
| Search.ToLower | app.js:38 | lower-casing maps each character, keeping the length |
| Search.ToLowerFacts | app.js:38 | lower-casing leaves no upper-case letter, is idempotent and keeps whitespace in place |
| Search.NormalizeQuery | app.js:38 | `trim().toLowerCase()` of the input, never longer than the input |
| Search.Classify | app.js:39-41 | empty query: back to the first page; one or more ASCII digits: id lookup; anything else: name lookup |
| Search.NormalizeQueryNormal | app.js:38 | the query is trimmed and lower-case, and normalising it again changes nothing |
| Search.EmptyQueryIsBlank | app.js:38-39 | the query is empty iff the input is whitespace only |
| Search.ClassifyInput | app.js:38-48 | whitespace-only input goes back to the first page; an all-digit query is an id lookup; anything else is a name lookup; both lookups carry the normalised query |
| Search.Includes | app.js:55 | `name.includes(q)`: `q` is a prefix of the name or of one of its suffixes |
| Search.IncludesOccurs | app.js:55 | `includes` holds iff the query occurs at some position of the name |
| Search.FilterPage | app.js:52-56 | each item's visibility flag is set to whether its name includes the query |
| Search.FilterShowsMatches | app.js:53-55 | after the filter an item is visible iff its name contains the query at some position |

## Left out

- `api.js` is not part of this model. It holds the `fetch` wrappers of the remote API. Its exclusion of `shadow` and `unknown` appears only as the `KnownAttackers` precondition of `Combined.CombinedTotal`.
- Start-up (`init`, app.js:17-24) fetches and sorts the type list and fills the cache. Both are parameters here, and the order of `allTypeNames` is taken as given.
- All DOM construction is left out: list items, the detail header, stat pills, per-type detail boxes, the legend and the tooltips. This is presentation. Only the values the chart cells, tiers, label and visibility flags carry are modelled.
- `async`/`await` is left out: `Promise.all`, the lazy re-fetch in `renderTypeChart` and the race between overlapping page loads are concurrency and I/O.
- `debounce` is left out: it is timer behaviour.
- The outcome of each network request is left out:
  - whether an id or name lookup finds a Pokémon, and showing it;
  - the per-item detail requests of a page load, and skipping those that fail.
  - The fallback filter (`Search.FilterPage`) is what runs when the name lookup fails.
- IEEE floating point is left out. Multipliers are exact reals. With factors 0, 0.5 and 2 the source's arithmetic is exact as well, short of overflow and underflow at extreme listing counts, which the model does not capture.
- `String(m) === level` is modelled as equality of values. This is exact for the values that reach the table.
- Combined.ComputeCombinedRelations: requires every defending type to have a `cachedTypes` entry. That `requires` stands for the TypeError `cachedTypes[def].damage_relations` throws on a missing entry (app.js:181). Callers never trigger it: `init` (app.js:17-24) caches every type before any handler runs. The thrown exception is not modelled.
- TypeChart.BuildChart: requires every known type to have a `cachedTypes` entry. That `requires` stands for the TypeError `cachedTypes[atk].damage_relations` throws on a missing entry (app.js:227). Callers never trigger it: `init` caches every type first, and the chart's lazy fetch (app.js:200-203) fills any gap before the chart is built. The thrown exception is not modelled.
- Search.ToLower: maps the ASCII letters only. The source's `toLowerCase` folds every Unicode letter.
- Pagination.Label: gives the three numbers of the label, not its text with the decimal digits and the separators ` - ` and ` de `.
- The key order of the combined table is a parameter of the tier lemmas (`allTypeNames` in `Consistency`). JavaScript puts integer-like keys first, and no type name is one.

## Findings

| source | as written | input that shows it | evidently intended | confidence | as-written member | corrected member |
|---|---|---|---|---|---|---|
| app.js:140 | the breakdown lists only the levels `0`, `0.5`, `1` and `2` | a dual-type Pokémon whose two types both take double damage from an attacker, e.g. rock against fire/flying at 4 times; the attacker appears in no tier, and likewise at 0.25 | every type is grouped by its combined multiplier, including 0.25 and 4 | medium, not executed | Consistency.DualTypeBreakdown | Consistency.FullBreakdownShowsDual |
