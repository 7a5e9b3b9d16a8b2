# time-ex duration parser, modelled in Dafny

time-ex turns duration text such as `"1.5 hours"`, `"1s 1m"` or `"-.5h"` into a
number of milliseconds. It scans the text with one regular expression,
`(?<quantity>-?(?:\d+)?\.?\d+) *(?<unit>[a-z]+)?`, taking a signed decimal
quantity and an optional unit word. Each unit word is looked up in a
per-locale table of spellings (`TimeStrings`). Each quantity is multiplied by
the fixed millisecond value of the field that lists the word, and the
products are added up. Numbers and numeric strings pass straight through.
A process-wide registry holds the locale tables. It is seeded with en-US,
pt-BR and es tables built by `pluralize`, and callers extend it through
`registerLocale`, which validates a table before storing it.

The model has one Dafny module per concern:

- `Commons` (commons.dfy): the eight fields, `BASE_VALUES`, tables as ordered
  lists of (field, spellings) entries, error kinds, and `Completion`, a
  value or a thrown error.
- `Numbers` (numbers.dfy): JavaScript's `Number(string)` on decimal
  literals, over exact reals.
- `Tokenizer` (tokenizer.dfy): the pattern as a left-to-right scanner.
  `MatchAt` is the anchored match. `ScanFrom` and `Scan` are the global
  (`g`) scan that `matchAll` performs. It is proved to be the greedy match
  of the pattern at each position, with nothing skipped that could match.
- `ScanExamples` (scan_examples.dfy): the library's regex examples, proved
  on the exact strings.
- `Utils` (utils.dfy): `pluralize` (a loop proved against `Pluralized`),
  `errorOrNull`, and `validateTimeStrings` (a loop proved against
  `ValidationError`).
- `Locales` (locales.dfy): the three shipped tables, their derivation from
  `pluralize`, and the registry class `LocaleRegistry`. Its methods
  `DefaultLocales` and `RegisterLocale` change its `locales` map in place.
- `ParseTime` (parse_time.dfy): the locale choice and customStrings merge,
  unit resolution, and `ParseTime`. That method runs the source's loop with
  its early returns and is proved equal to the one-expression
  specification `ParseSpec`.
- `ParseTimeProperties` (parse_time.dfy): what `parseTime` promises, stated
  on `ParseSpec`.
- `Scenarios` (scenarios.dfy): the library's concrete examples (`".5ms"`,
  `"-.5h"`, `"1s 1m"`, pt-BR `"1m"`, a custom `"dia"` table, an unknown unit,
  an unknown locale), proved end to end.

Behaviours of the code that the model keeps as written:

- **Where the locale check happens.** The code checks the locale only after
  merging `customStrings` (lib/parseTime.ts:14-21). So with overrides, an
  unregistered locale parses against the overrides alone
  (`ParseTimeProperties.OverridesWithoutLocale`).
- **Unit search order.** The code searches `Object.keys` of the merged
  object (lib/parseTime.ts:16, lib/parseTime.ts:49): the base table's keys
  in their order, then the override keys the base lacks
  (`ParseTime.MergeKeyOrder`, `ParseTime.ResolveMeaning`).
- **Required fields.** Validation requires seven of the eight fields; it
  does not require `milliseconds` (lib/utils.ts:18-27,
  `Utils.MissingKeysReported`).
- **The numeric branch.** The code takes it when `Number(timeString)` is
  truthy (lib/parseTime.ts:25-27). So `"0"` takes the text path, which still
  yields 0. A string reading as Infinity takes the numeric branch and
  leaves through the range-error gate (`ParseTimeProperties.InfinityGate`).

## Model

| member | source | states |
|---|---|---|
| Commons.Rank | lib/commons.ts:3-12 | each field's position in the declared key order, milliseconds first and years last |
| Commons.BaseValue | lib/commons.ts:21-30 | `BASE_VALUES` as a function of the field; its values are pinned by BaseValueRatios and BaseValueMonotonic |
| Commons.BaseValueRatios | lib/commons.ts:21-30 | milliseconds is 1, a second is 1000 ms, a minute 60 s, an hour 60 min, a day 24 h, a week 7 days, a month 30 days, a year 365 days |
| Commons.BaseValueMonotonic | lib/commons.ts:21-30 | the base values strictly increase along the declared order and only along it; two fields share a value only if they are the same field |
| Commons.ScaledIsProduct | lib/parseTime.ts:57-58 | the amount of a token is its quantity times BASE_VALUES of its field |
| Commons.Lookup | lib/parseTime.ts:49 | reading a key of a table: absent exactly when no entry has that field, otherwise the spellings of an entry with that field |
| Numbers.StringToNumber | lib/parseTime.ts:25 | `Number(s)`: the empty string is 0, a negative result needs a leading '-', an infinite result needs the text "Infinity" at the end |
| Numbers.DigitsToNumber | lib/parseTime.ts:25 | a string of digits converts to its decimal value (so `"100"` is 100) |
| Numbers.LetterEndIsNaN | lib/parseTime.ts:25 | text ending in a unit letter other than the 'y' of "Infinity" is NaN, so it never takes the numeric branch |
| Numbers.NegatedDecimal | lib/parseTime.ts:58 | a leading '-' negates the value of a decimal quantity |
| Tokenizer.RunEnd | lib/commons.ts:15 | the greedy runs `\d+`, ` *` and `[a-z]+`: every character before the end is in the class and the character at the end is not |
| Tokenizer.QuantityEnd | lib/commons.ts:15 | where the quantity group ends at a position, when it matches there: strictly after the start, inside the text |
| Tokenizer.QuantityEndShape | lib/commons.ts:15 | what the quantity group takes is an optional '-', digits and at most one '.', ending in a digit |
| Tokenizer.QuantityEndIsLongest | lib/commons.ts:15 | the quantity group is greedy: no longer text is a quantity, and where it does not match no text from that position is a quantity |
| Tokenizer.MatchAt | lib/commons.ts:15 | the anchored match: it starts at the position and ends after it, inside the text |
| Tokenizer.MatchAtShape | lib/commons.ts:15 | a match is the quantity text, then only spaces, then a non-empty lower-case unit or nothing |
| Tokenizer.MatchAtIsRegexMatch | lib/commons.ts:15 | no match exactly when no text from the position is a quantity; otherwise the longest quantity, and the match stops neither before a lower-case letter nor, without a unit, before a space |
| Tokenizer.NoMatchAt | lib/commons.ts:15 | a position holding neither a digit, '-' nor '.' starts no match |
| Tokenizer.MatchOfParts | lib/commons.ts:15 | the match at a position read off its sign, digits, fraction, spaces and letters |
| Tokenizer.ScanFrom | lib/parseTime.ts:43 | the `g`-flag scan from a position: record the anchored match and resume at its end, or move one character on; its properties are ScanHit, ScanMiss, ScannedBounds and ScanFromIsGlobal |
| Tokenizer.Scan | lib/parseTime.ts:43 | `matchAll` over the whole text: the scan from position 0 |
| Tokenizer.ScanFromIsGlobal | lib/parseTime.ts:43 | the global scan returns the matches in input order, each the anchored match at its start, non-overlapping, with no match possible at any skipped position |
| Tokenizer.ScanHit | lib/parseTime.ts:43 | where a match starts, it is recorded and the scan resumes at its end |
| Tokenizer.ScanMiss | lib/parseTime.ts:43 | where no match starts, the scan moves one character on |
| Tokenizer.ScannedBounds | lib/parseTime.ts:43 | every match of the scan lies inside the text, in order, without overlap |
| Tokenizer.Tokens | lib/parseTime.ts:43-46 | the groups of every match in order; each quantity has the quantity shape and each unit is non-empty lower-case letters |
| Tokenizer.MatchedTexts | lib/commons.ts:15 | the global `match` result: one text per match, the exact slice of the input the match covers |
| ScanExamples.CompactMatches | __test__/utils.test.ts:12-16 | "1d 2h 3m 4s 5ms" matches exactly "1d", "2h", "3m", "4s", "5ms", with their quantity and unit groups |
| ScanExamples.SpacedMatches | __test__/utils.test.ts:18-22 | "1 d 2 h 3 m 4 s 5 ms" matches exactly "1 d", "2 h", "3 m", "4 s", "5 ms", the spaces inside the matches |
| ScanExamples.DottedMatches | __test__/utils.test.ts:24-28 | "1.5 d 2.5 h 3.5 m 4.5 s 5.5 ms" matches exactly "1.5 d", …, "5.5 ms", the decimals kept whole |
| ScanExamples.DayGroup | __test__/utils.test.ts:31-34 | "1 day" has the one match with quantity "1" and unit "day" |
| ScanExamples.DaysGroup | __test__/utils.test.ts:36-39 | "1.5 days" has the one match with quantity "1.5" and unit "days" |
| Utils.SliceIndex | lib/utils.ts:4-5 | the split point of `slice(0, k)` and `slice(k)`: never past the end; a start k in [0, n] is kept; a start past the end is clamped to n; a negative k leaves the last min(-k, n) entries after the point |
| Utils.Pluralized | lib/utils.ts:3-11 | the value `pluralize` returns, as a function of the input and the split point; its shape is stated by PluralizedShape, TwinsAt and PluralizeLength |
| Utils.Pluralize | lib/utils.ts:3-11 | the push loop returns the entries before the start unchanged, then each later entry followed by its "s" form |
| Utils.TwinsAppend | lib/utils.ts:5-8 | one more loop pass appends the item and then the item plus "s" |
| Utils.TwinsAt | lib/utils.ts:5-8 | every pluralized entry is followed directly by its "s" twin; the output has twice as many entries |
| Utils.PluralizedShape | lib/utils.ts:3-11 | entries before the start are kept in place; entry i after it sits at c + 2(i - c), with its "s" form next |
| Utils.PluralizeLength | lib/utils.ts:4-8 | for a start k ≥ 0 the output has n + max(0, n - k) entries |
| Utils.PluralizeFromEnd | lib/utils.ts:4-5 | a start at or past the end returns the input unchanged |
| Utils.PluralizeFromZero | lib/utils.ts:4-5 | start 0 gives every entry an "s" twin |
| Utils.PluralizeExamples | __test__/utils.test.ts:44-50 | the three calls on ["s", "sec", "second"] with the default start, start 0 and start 2 |
| Utils.ErrorOrNull | lib/utils.ts:13-16 | throws the given error exactly when asked to, and otherwise returns null |
| Utils.MissingAmong | lib/utils.ts:21 | the filter keeps exactly the listed keys that are absent or falsy, in list order |
| Utils.MissingRequired | lib/utils.ts:19-21 | exactly the absent or falsy keys among seconds … years, in declared order |
| Utils.RequiredRank | lib/utils.ts:19 | the required keys are the fields after milliseconds, in declared order |
| Utils.FirstBadEntry | lib/utils.ts:27-35 | the first entry that is not a non-empty array, with every earlier entry a non-empty array; none exactly when all are |
| Utils.ValidationError | lib/utils.ts:18-36 | the error `validateTimeStrings` throws, or none: the missing-keys error first, else the first entry that is not a non-empty array; stated by ValidationSucceedsIff and MissingKeysReported |
| Utils.ValidateTimeStrings | lib/utils.ts:18-36 | the filter and the entry loop with early throws: it fails exactly when the table has a validation error, and throws that error |
| Utils.ValidationSucceedsIff | lib/utils.ts:18-36 | validation succeeds exactly when every required key is truthy and every present key holds a non-empty array |
| Utils.MissingKeysReported | lib/utils.ts:19-35 | a missing milliseconds never counts as missing; the missing-keys error lists every missing key and comes before any entry check; otherwise the first bad entry gives a type error (non-array) or an empty-array error |
| Utils.PassesWellFormed | lib/utils.ts:18-36 | a table that validates has only array values and, viewed as typed, every required field present and every list non-empty |
| Utils.WellFormedIffValidates | lib/utils.ts:18-36 | a typed table handed to validation as an object of arrays is accepted exactly when it is well formed: every required field present and every list non-empty |
| Locales.PluralOfThree | lib/utils.ts:3-11 | the default `pluralize` of three spellings: [x, y, ys, z, zs] |
| Locales.PluralOfTwo | lib/utils.ts:3-11 | the default `pluralize` of two spellings: [x, y, ys] |
| Locales.EnUsPluralized | lib/locales.ts:4-13 | every en-US list is the default `pluralize` of the source's spellings |
| Locales.PtBrPluralized | lib/locales.ts:15-24 | every pt-BR list is the default `pluralize` of the source's spellings |
| Locales.EsPluralized | lib/locales.ts:26-35 | every es list is the default `pluralize` of the source's spellings |
| Locales.EnUsComplete | lib/locales.ts:4-13 | en-US has the eight fields in declared order, each non-empty, and `validateTimeStrings` accepts it |
| Locales.PtBrComplete | lib/locales.ts:15-24 | pt-BR has the eight fields in declared order, each non-empty, and `validateTimeStrings` accepts it |
| Locales.EsComplete | lib/locales.ts:26-35 | es has the eight fields in declared order, each non-empty, and `validateTimeStrings` accepts it |
| Locales.EnUsLengths | lib/locales.ts:4-13 | en-US list lengths: 5 each for ms, s, min, h, w and y; 3 for days and months |
| Locales.CompleteIsWellFormed | lib/utils.ts:18-36 | a table with all eight fields non-empty is well formed and `validateTimeStrings` accepts it |
| Locales.StorePreserves | lib/locales.ts:54 | storing a validated table keeps every table of the registry valid |
| Locales.Reseeded | lib/locales.ts:42-44 | the three `locales.set` calls of `defaultLocales` applied to a map; stated by ReseededContents |
| Locales.BuiltinsWellFormed | lib/locales.ts:37-45 | every table `defaultLocales` stores is well formed and `validateTimeStrings` accepts it |
| Locales.ReseededContents | lib/locales.ts:42-44 | after the three sets the keys are the old keys plus the shipped ones; the shipped keys map to the shipped tables and every other key keeps its table |
| Locales.ReseededWellFormed | lib/locales.ts:37-45 | reseeding keeps every table of the registry valid |
| Locales.ReseededEmpty | lib/locales.ts:38-44 | after clearing, the registry holds exactly "en-US", "pt-BR" and "es" with their shipped tables |
| Locales.LocaleRegistry.constructor | lib/commons.ts:19 | the registry starts as an empty map |
| Locales.LocaleRegistry.Valid | lib/locales.ts:52-54 | the registry invariant: every stored table is well formed, so `validateTimeStrings` accepts it (WellFormedIffValidates) |
| Locales.LocaleRegistry.Get | lib/parseTime.ts:14 | `locales.get`: a table exactly for a registered name, namely the registered one |
| Locales.LocaleRegistry.DefaultLocales | lib/locales.ts:37-45 | the registry becomes the reseeded old map, or the reseeded empty map when clean, and stays valid |
| Locales.LocaleRegistry.RegisterLocale | lib/locales.ts:47-55 | a taken name without overwrite throws already-registered before validation; otherwise it throws exactly the validation error; on any throw the registry is unchanged; on success the name maps to the table, nothing else changes, and the size grows by one exactly when the name was new |
| ParseTime.Override | lib/parseTime.ts:16 | a base entry keeps its key and takes the override's whole list when the override has that key |
| ParseTime.Added | lib/parseTime.ts:16 | exactly the override entries whose key the base lacks |
| ParseTime.AddedDisjoint | lib/parseTime.ts:16 | when the base has none of the override keys, the added entries are all the overrides, in their own order |
| ParseTime.Merge | lib/parseTime.ts:16 | `{ ...base, ...cs }`: the base entries with overridden lists, then the added override entries; stated by MergeLookup and MergeKeyOrder |
| ParseTime.AddedAppend | lib/parseTime.ts:16 | the added entries keep the overrides' order: those added from two consecutive runs of overrides are the first run's, then the second's |
| ParseTime.AddedSingle | lib/parseTime.ts:16 | a single override entry is added exactly when its key is new to the base |
| ParseTime.MergeLookup | lib/parseTime.ts:15-17 | the merged table answers a field from the overrides when they have it, else from the base |
| ParseTime.MergeKeyOrder | lib/parseTime.ts:16 | the merge keeps the base keys in front, in order; every later key is an override key the base lacks |
| ParseTime.MergeIntoNothing | lib/parseTime.ts:14-16 | spreading overrides over a missing table gives the overrides |
| ParseTime.EffectiveTable | lib/parseTime.ts:14-21 | no table exactly when the locale name is unregistered and there are no overrides |
| ParseTime.FirstKeyWith | lib/parseTime.ts:49 | the first key in table order whose list contains the unit; none exactly when no list contains it |
| ParseTime.Resolve | lib/parseTime.ts:49 | the `Object.keys(locale).find` over the lists; stated by ResolveMeaning and ResolveFirst |
| ParseTime.ResolveMeaning | lib/parseTime.ts:49-50 | resolution fails exactly when no list holds the unit; otherwise it names the field of the earliest key whose list does |
| ParseTime.ResolveFirst | lib/parseTime.ts:49 | conversely, the earliest list holding the unit decides its field |
| ParseTime.LowerChar | lib/parseTime.ts:43 | `toLowerCase` on one character: A-Z move to a-z, everything else is kept |
| ParseTime.ToLowerCase | lib/parseTime.ts:43 | same length, lowercased character by character, no upper-case letter left |
| ParseTime.ToLowerCaseFixes | lib/parseTime.ts:43 | text without upper-case letters is its own lower case |
| ParseTime.ToLowerCaseIdempotent | lib/parseTime.ts:43 | lowercasing twice is lowercasing once |
| ParseTime.QuantityIsFinite | lib/parseTime.ts:46-58 | `Number(quantity)` of a matched quantity is always finite |
| ParseTime.QuantityValue | lib/parseTime.ts:58 | the value `Number(quantity)` gives |
| ParseTime.Terms | lib/parseTime.ts:44-46 | one (value, unit) term per match, in match order |
| ParseTime.AmountOffset | lib/parseTime.ts:58-62 | the fromNow offset enters each amount as a plain addend |
| ParseTime.Contribution | lib/parseTime.ts:48-62 | one loop pass adds the amount when the unit is absent or resolves, and otherwise stops on that unit |
| ParseTime.Accumulate | lib/parseTime.ts:44-63 | the loop as a function: the running total from the left, stopping at the first unresolved unit; stated by AccumulateNext, AccumulateAllResolve and FirstUnknownStops |
| ParseTime.Total | lib/parseTime.ts:44-63 | the reference sum of every amount when all units resolve; stated by TotalAppend and TotalOffset |
| ParseTime.TotalAppend | lib/parseTime.ts:44-63 | the sum over two runs of matches is the sum of their sums |
| ParseTime.AccumulateAllResolve | lib/parseTime.ts:44-65 | when every unit resolves, the loop returns the sum of all amounts |
| ParseTime.AccumulateNext | lib/parseTime.ts:44-63 | the loop one match further on: the total grows by the amount, or the loop stops on the unit |
| ParseTime.StuckPersists | lib/parseTime.ts:50-55 | once the loop has stopped on a unit, later matches do not change the outcome |
| ParseTime.FirstUnknownStops | lib/parseTime.ts:48-55 | the first match whose unit no list holds decides the outcome: the loop stops on that unit |
| ParseTime.AccumulateCommutes | lib/parseTime.ts:44-63 | when all units resolve, swapping two runs of matches does not change the total |
| ParseTime.ResolvesPermuted | lib/parseTime.ts:48-50 | reordering the matches keeps every unit resolving |
| ParseTime.TotalRemove | lib/parseTime.ts:44-63 | the sum is any one amount plus the sum of the other matches, in their order |
| ParseTime.TotalPermuted | lib/parseTime.ts:44-63 | any two orderings of the same matches (equal as multisets) with every unit resolving have the same sum |
| ParseTime.AccumulatePermuted | lib/parseTime.ts:44-63 | when all units resolve, any reordering of the matches gives the loop the same total |
| ParseTime.RepeatedIsProduct | lib/parseTime.ts:58-62 | adding now once per match adds (number of matches) × now |
| ParseTime.TotalOffset | lib/parseTime.ts:58-62 | the sum with offset is the sum without it plus one offset per match |
| ParseTime.TotalPerMatch | lib/parseTime.ts:58-62 | the sum with offset is the sum without it plus (number of matches) × offset |
| ParseTime.ParseTime | lib/parseTime.ts:13-66 | the method with its early returns computes exactly `ParseSpec` for the registry's current map |
| ParseTime.ParseSpec | lib/parseTime.ts:13-66 | the whole of `parseTime` as one function; its properties are the ParseTimeProperties lemmas |
| ParseTime.SumMatches | lib/parseTime.ts:23-63 | the `for…of` loop with its early exit computes exactly the accumulation over the terms |
| ParseTime.AddMatch | lib/parseTime.ts:45-62 | one loop body: time plus the scaled quantity plus offset, the bare quantity plus offset without a unit, or the unresolved unit |
| ParseTimeProperties.UnknownLocaleThrows | lib/parseTime.ts:14-21 | an unregistered locale without overrides throws unknown-locale whatever throwError says |
| ParseTimeProperties.OverridesWithoutLocale | lib/parseTime.ts:14-21 | with overrides an unregistered locale does not throw, and the overrides alone are the table |
| ParseTimeProperties.OverridesReplaceFields | lib/parseTime.ts:15-17 | on a registered locale each field comes from the overrides if they have it, and from the locale otherwise |
| ParseTimeProperties.NumericPassthrough | lib/parseTime.ts:25-40 | a finite number, or a string whose number is finite and non-zero, is returned as is, plus now under fromNow |
| ParseTimeProperties.NaNGate | lib/parseTime.ts:26-31 | NaN returns null, or throws invalid-number under throwError |
| ParseTimeProperties.InfinityGate | lib/parseTime.ts:33-38 | an infinite number, or a string that reads as one, returns null, or throws non-finite under throwError |
| ParseTimeProperties.TextPath | lib/parseTime.ts:43-65 | text gives the sum of the match amounts when every unit resolves, and otherwise the gate on the first unresolved unit; never a partial total |
| ParseTimeProperties.TextParsesToSum | lib/parseTime.ts:43-65 | text whose units all resolve parses to the sum of its match amounts |
| ParseTimeProperties.FromNowPerMatch | lib/parseTime.ts:58-62 | under fromNow the text result is the plain sum plus now once per match |
| ParseTimeProperties.CaseInsensitive | lib/parseTime.ts:43 | two texts that both take the text path (neither reads as a truthy number) and are equal up to case parse the same |
| ParseTimeProperties.NoMatchesIsZero | lib/parseTime.ts:23-65 | text without any match parses to 0 |
| ParseTimeProperties.EmptyIsZero | lib/parseTime.ts:23-65 | the empty string parses to 0 |
| Scenarios.HalfMillisecond | __test__/time.test.ts:145-147 | ".5ms" parses to 0.5 |
| Scenarios.NegativeHalfHour | __test__/time.test.ts:158-160 | "-.5h" parses to -1 800 000 |
| Scenarios.PtBrMinute | lib/locales.ts:18-22 | in pt-BR "m" resolves to minutes, not months |
| Scenarios.PtBrSecond | lib/locales.ts:17-21 | in pt-BR "s" resolves to seconds, not weeks |
| Scenarios.PtBrOneMinute | __test__/time.test.ts:230 | "1m" with locale pt-BR parses to 60 000 |
| Scenarios.SecondAndMinute | __test__/time.test.ts:92 | "1s 1m" parses to 61 000 |
| Scenarios.UpperCaseUnit | __test__/time.test.ts:141-143 | "1.5H" parses as "1.5h" does |
| Scenarios.DiaResolves | lib/parseTime.ts:15-17 | with the overrides days: ["dia"], "dia" resolves to days in the merged en-US table |
| Scenarios.CustomDay | __test__/time.test.ts:246 | "1 dia" with the overrides days: ["dia"] parses to 86 400 000 |
| Scenarios.UnknownUnitGate | lib/parseTime.ts:48-55 | "1x" returns null, and throws unknown-unit "x" on en-US under throwError |
| Scenarios.PlainNumber | __test__/time.test.ts:105-107 | "100" parses to 100 |
| Scenarios.UnknownNameThrows | __test__/time.test.ts:237-239 | "1m" with locale "test" throws unknown-locale when only the shipped tables are registered |

## Left out

- Floating point: quantities, products and sums are exact reals. The IEEE rounding of `Number(quantity)` and of `*` and `+` in lib/parseTime.ts:58-62 is not modelled.
- `Date.now()` is the parameter `now`. Every read in one call sees the same instant, where the library reads the clock once per match.
- Numbers.StringToNumber: covers only optional sign, decimal digits with at most one point, "Infinity" and the empty string. Whitespace trimming, hex, binary, octal, exponents and numeric separators are not modelled and read as NaN.
- ParseTime.ToLowerCase: lowercases ASCII A-Z only, not the full Unicode case mapping.
- Utils.Pluralize: takes an integer starting index. JavaScript's conversion of a non-integer or non-numeric `startingIndex` is not modelled.
- Utils.FieldValue: a table handed to `registerLocale` can only hold the eight field names as keys. Extra keys, which the entry loop of lib/utils.ts:27-35 would also check, cannot be expressed.
- ParseTime.Options: `customStrings` values are lists of spellings. Non-array override values (a string, where `includes` would search substrings, or `undefined`, where it would throw) are not modelled. A table may repeat a key, which a JavaScript object cannot; the merge keeps the first occurrence.
- Locales.LocaleRegistry: the Map is modelled as a `map` value. Its insertion order, and the fact that it stores and returns the caller's object by reference (later changes to that object show in the registry), are not modelled. The same goes for direct changes to the exported `locales` Map.
- Tokenizer.MatchedTexts: with no match it gives the empty list where `String.prototype.match` gives null.
- The general regular-expression engine is not modelled, only this one pattern. `SEPERATORS_REGEX` (lib/commons.ts:17) is never used by the library.
- The TypeScript overloads of lib/parseTime.ts:11-12 are not modelled, and error messages are reduced to error kinds with their key, locale or unit.
- Concurrent access to the shared registry, and the timing test (`__test__/utils.test.ts:232-246`), are not modelled.
