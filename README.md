# Settlement reporting of trade instructions, modelled in Dafny

This project models the settlement pipeline of `com.woobadeau.jpmorgan`:

- A trade instruction is a line of text: entity, buy/sell flag, agreed FX rate, currency, instruction date, requested settlement date, units and price per unit. `InstructionParser.parseLine` reads it.
- A rule table says on which weekdays each currency settles, with an optional default for unlisted currencies. `SettlementDateManager` loads this table from property key/value pairs. It then moves each requested settlement date forward to the first allowed weekday within the seven days starting at the requested date.
- `SettlementReportManager.createReport` buckets the instructions by resolved date. Each date gets one `DailyReport`. A `DailyReport` keeps one `EntityReport` per entity, with names compared ignoring case. Sells add `price × fx × units` to the entity's incoming total and buys add it to its outgoing total.
- For each day the report prints the incoming and outgoing totals. After each total it prints the entities ranked by that total, ascending, with ties broken by name. Days are printed in date order.

Modules, one concept each:

| file | module | what it holds |
|---|---|---|
| `wrappers.dfy` | `Wrappers` | `Option` and `Result` |
| `calendar.dfy` | `Calendar` | days since 1970-01-01 and `Calendar.DAY_OF_WEEK` (Sunday = 1 … Saturday = 7) |
| `transaction.dfy` | `Transaction` | the `Instruction` value and `TransactionDirection` |
| `java_strings.dfy` | `JavaStrings` | the `String` operations the core relies on: `startsWith`, `replace`, `trim`, `toUpperCase`, `compareTo`, `split`, `String.join`, `Integer.parseInt` |
| `map_sums.dfy` | `MapSums` | sums over a map's values and the values of a map in any iteration order |
| `settlement_date_manager.dfy` | `SettlementDateManager` | the rule table, its loading, and the resolver |
| `daily_totals.dfy` | `DailyTotals` | one day's entity totals as a value, and what adding an instruction does to them |
| `ranking.dfy` | `EntityRanks` | the incoming/outgoing ranking and its uniqueness |
| `report_spec.dfy` | `ReportSpec` | the whole report as a value: instructions bucketed by resolved date |
| `report_layout.dfy` | `ReportLayout` | the text of a day and of a report, days in ascending date order |
| `settlement.dfy` | `Settlement` | the Java objects as classes (`EntityReport`, `DailyReport`, `SettlementReport`) and `SettlementReportManager`'s static operations as methods |
| `instruction_parser.dfy` | `InstructionParser` | `parseLine` and its overloads, and a write-then-read round trip |

The code that changes state stays imperative:

- `EntityReport` and `DailyReport` are classes whose methods update their fields. `SettlementReport` is a class whose fields are set once by its constructor and read by `ToString`.
- Each object carries a ghost value (`Totals()`, `totals`, `days`). A validity predicate ties the object to the value of `DailyTotals` or `ReportSpec` that the properties are proved on.
- Several loops are methods with loop invariants, each proved equal to a specification function:
  - `createReport`;
  - the summing loop of `aggregateIncomingOutgoing`;
  - the seven-day scan of `dateSettled`;
  - the property loop of `loadCurrencyDaySettlement`;
  - the token loop of `parseSettlementDays`.
- The field reads of `parseLine` are straight-line code, a method (`ReadFieldsInOrder`) proved equal to `ReadFields`.
- The rule table is built once and never changed afterwards, so it is an immutable `RuleTable` value.

Behaviour the code fixes where its Javadoc says otherwise or leaves it open:

- Weekdays are `Calendar.DAY_OF_WEEK` numbers, Sunday = 1 … Saturday = 7, as the tests' `Calendar.FRIDAY` and similar constants use.
  - The Javadoc example at `SettlementDateManager.java:45-48` uses 0 for Sunday.
  - Under the code, a configured 0 never matches any date. `ResolveFailsIff` states exactly when a configured set can never settle.
- Ties in a ranking are broken by `String.compareTo` on the stored spelling, which is case-sensitive (`SettlementReportManager.java:68`).
- Instructions are counted once per element of the input. `Instruction` does not override `equals`, so two instructions with equal fields are two elements, and both are counted.

## Model

| member | source | states |
|---|---|---|
| Calendar.DayOfWeek | src/main/java/com/woobadeau/jpmorgan/settlement/SettlementDateManager.java:129 | the weekday of a day is a `Calendar.DAY_OF_WEEK` number between Sunday (1) and Saturday (7) |
| Calendar.EpochIsThursday | src/main/java/com/woobadeau/jpmorgan/settlement/SettlementDateManager.java:129 | day 0, 1 January 1970, is a Thursday, which anchors every weekday the model computes |
| Calendar.NextDayOfWeek | src/main/java/com/woobadeau/jpmorgan/settlement/SettlementDateManager.java:133 | adding one day advances the weekday by one, wrapping from Saturday to Sunday |
| Calendar.WeekCovers | src/main/java/com/woobadeau/jpmorgan/settlement/SettlementDateManager.java:128-134 | any seven consecutive days starting from a date contain every weekday, so seven steps of the scan see the whole week |
| Transaction.DirectionOf | src/main/java/com/woobadeau/jpmorgan/transaction/InstructionParser.java:49 | `TransactionDirection.valueOf` accepts exactly the names `B` and `S`, and gives back the constant with that name |
| Transaction.DirectionRoundTrip | src/main/java/com/woobadeau/jpmorgan/transaction/InstructionParser.java:49 | reading the name of a direction gives that direction back |
| JavaStrings.RemoveLeading | src/main/java/com/woobadeau/jpmorgan/settlement/SettlementDateManager.java:57 | removing every `currency.settlementDays.` from that prefix followed by a text that does not contain it leaves exactly that text |
| JavaStrings.RemoveAllAbsent | src/main/java/com/woobadeau/jpmorgan/settlement/SettlementDateManager.java:57 | `replace` changes nothing in a string that does not contain the pattern |
| JavaStrings.TrimMeaning | src/main/java/com/woobadeau/jpmorgan/settlement/SettlementDateManager.java:77 | `trim` yields a contiguous slice of the input whose first and last characters are not blank, dropping only blanks on either side |
| JavaStrings.SameKeyIff | src/main/java/com/woobadeau/jpmorgan/settlement/DailyReport.java:20 | two entity names are the same key of the upper-casing `TreeMap` iff they have the same length and agree character by character up to ASCII case |
| JavaStrings.UpperIdempotent | src/main/java/com/woobadeau/jpmorgan/settlement/DailyReport.java:20 | an upper-cased name is its own key: upper-casing it again changes nothing |
| JavaStrings.StrLessTotal | src/main/java/com/woobadeau/jpmorgan/settlement/SettlementReportManager.java:68 | `compareTo` orders any two different strings one way or the other |
| JavaStrings.StrLessTransitive | src/main/java/com/woobadeau/jpmorgan/settlement/SettlementReportManager.java:68 | the `compareTo` order is transitive |
| JavaStrings.StrLessAsymmetric | src/main/java/com/woobadeau/jpmorgan/settlement/SettlementReportManager.java:68 | no two strings each precede the other |
| JavaStrings.DropTrailingEmpty | src/main/java/com/woobadeau/jpmorgan/transaction/InstructionParser.java:40 | `split` keeps a prefix of the pieces, drops only empty trailing pieces, and never ends with an empty piece |
| JavaStrings.JoinPieces | src/main/java/com/woobadeau/jpmorgan/transaction/InstructionParser.java:78 | joining the pieces of a string around a separator with that separator restores the string |
| JavaStrings.SplitJoin | src/main/java/com/woobadeau/jpmorgan/transaction/InstructionParser.java:40 | splitting on a one-character separator undoes joining fields that do not contain it, provided the last field is not empty |
| JavaStrings.SplitFree | src/main/java/com/woobadeau/jpmorgan/transaction/InstructionParser.java:40 | no field produced by splitting on a one-character separator contains that separator |
| JavaStrings.ParseIntSpelling | src/main/java/com/woobadeau/jpmorgan/settlement/SettlementDateManager.java:77 | every string `Integer.parseInt` accepts is a decimal spelling of the value it returns: the digits `Integer.toString` writes for its magnitude, after leading zeros, with an optional `+` for a non-negative value or `-` for a non-positive one |
| JavaStrings.ParseIntDecimalString | src/main/java/com/woobadeau/jpmorgan/transaction/InstructionParser.java:56 | every 32-bit integer written in decimal is read back by `Integer.parseInt` as itself |
| MapSums.ValuesInAnyOrder | src/main/java/com/woobadeau/jpmorgan/settlement/SettlementReportManager.java:44 | walking a map's `values()` yields each value once per key, whatever the iteration order |
| MapSums.SumByRemove | src/main/java/com/woobadeau/jpmorgan/settlement/SettlementReportManager.java:44-47 | a sum over a map's values is any one entry plus the sum over the others, so the summing order does not matter |
| SettlementDateManager.ParseSettlementDays | src/main/java/com/woobadeau/jpmorgan/settlement/SettlementDateManager.java:72-83 | the token loop returns exactly the day set or error that `SettlementDays` describes |
| SettlementDateManager.ParsedTokensMeaning | src/main/java/com/woobadeau/jpmorgan/settlement/SettlementDateManager.java:73-81 | a day list parses iff every token does; the set holds exactly the parsed tokens; otherwise the error names the currency and the first bad token |
| SettlementDateManager.ParsedTokensPrefixFailure | src/main/java/com/woobadeau/jpmorgan/settlement/SettlementDateManager.java:78-79 | once a token fails, later tokens change nothing: the whole list fails with that token's error |
| SettlementDateManager.CurrencyKeyRole | src/main/java/com/woobadeau/jpmorgan/settlement/SettlementDateManager.java:56-57 | the key `currency.settlementDays.<c>` configures currency `c` whenever `c` does not itself contain the prefix |
| SettlementDateManager.LoadCurrencyDaySettlement | src/main/java/com/woobadeau/jpmorgan/settlement/SettlementDateManager.java:53-65 | the property loop returns exactly the table or error that `LoadRules` describes |
| SettlementDateManager.LoadRulesPrefixFailure | src/main/java/com/woobadeau/jpmorgan/settlement/SettlementDateManager.java:59-62 | loading is fail-fast: once a prefix of the properties fails, the whole load fails with the same error |
| SettlementDateManager.LoadFailsIff | src/main/java/com/woobadeau/jpmorgan/settlement/SettlementDateManager.java:53-65 | loading fails iff some currency or default entry has a malformed day list, and then with the error of the first such entry; other keys never fail |
| SettlementDateManager.LoadedCurrency | src/main/java/com/woobadeau/jpmorgan/settlement/SettlementDateManager.java:56-60 | a currency is in the loaded table iff some key configures it, and its days are those of the last key that configures it |
| SettlementDateManager.LoadedDefault | src/main/java/com/woobadeau/jpmorgan/settlement/SettlementDateManager.java:61-62 | the default days are set iff `currency.default` occurs, and are those of its last occurrence |
| SettlementDateManager.FirstAllowed | src/main/java/com/woobadeau/jpmorgan/settlement/SettlementDateManager.java:128-134 | the scan finds the earliest allowed day within the week, or reports that none of those days is allowed |
| SettlementDateManager.Resolve | src/main/java/com/woobadeau/jpmorgan/settlement/SettlementDateManager.java:112-135 | unknown currency with no default fails as a configuration error; otherwise the result is the earliest allowed day from the requested date to six days later, or `NoValidSettlementDay` when none of them is allowed |
| SettlementDateManager.DateSettled | src/main/java/com/woobadeau/jpmorgan/settlement/SettlementDateManager.java:112-135 | the calendar-walking loop returns exactly the date or error `Resolve` describes |
| SettlementDateManager.ResolveSameDay | src/main/java/com/woobadeau/jpmorgan/settlement/SettlementDateManager.java:129-131 | a request settles on the requested date itself iff its weekday is allowed |
| SettlementDateManager.ResolveFailsIff | src/main/java/com/woobadeau/jpmorgan/settlement/SettlementDateManager.java:128-135 | with days configured, resolution fails iff the set holds none of the weekday numbers 1..7 |
| SettlementDateManager.ResolveIdempotent | src/main/java/com/woobadeau/jpmorgan/settlement/SettlementDateManager.java:112-135 | resolving an already resolved date again leaves it unchanged |
| DailyTotals.AddToDay | src/main/java/com/woobadeau/jpmorgan/settlement/DailyReport.java:22-38 | adding an instruction adds at most the instruction's upper-cased entity as a key; it leaves every other entity alone, keeps the spelling already stored, and keys each entry by its upper-cased name |
| DailyTotals.TotalAfterAdd | src/main/java/com/woobadeau/jpmorgan/settlement/DailyReport.java:29-37 | adding an instruction raises the day's incoming total by its value for a sell and the outgoing total by its value for a buy, and nothing else |
| DailyTotals.DayOfKeys | src/main/java/com/woobadeau/jpmorgan/settlement/DailyReport.java:20-28 | a day built from instructions has exactly one entry per entity name compared ignoring case |
| DailyTotals.DayOfSpelling | src/main/java/com/woobadeau/jpmorgan/settlement/DailyReport.java:24-27 | each entry keeps the spelling of the first instruction for that entity |
| DailyTotals.DayOfSums | src/main/java/com/woobadeau/jpmorgan/settlement/DailyReport.java:29-37 | each entity's incoming and outgoing totals are the sums of `price × fx × units` over its sell and buy instructions |
| DailyTotals.DayTotalConserved | src/main/java/com/woobadeau/jpmorgan/settlement/SettlementReportManager.java:42-49 | a day's total over its entities equals the sum of the values of its sell (incoming) or buy (outgoing) instructions |
| EntityRanks.PrecedesTotal | src/main/java/com/woobadeau/jpmorgan/settlement/SettlementReportManager.java:67-68 | the comparator orders any two entities with different names, by value and then by name |
| EntityRanks.NotPrecedesTransitive | src/main/java/com/woobadeau/jpmorgan/settlement/SettlementReportManager.java:67-68 | the comparator's "not after" relation is transitive |
| EntityRanks.SortByMetric | src/main/java/com/woobadeau/jpmorgan/settlement/SettlementReportManager.java:65-68 | sorting yields a permutation of the entries, ordered by the comparator |
| EntityRanks.SortedUnique | src/main/java/com/woobadeau/jpmorgan/settlement/SettlementReportManager.java:64-71 | two sorted permutations of entries with distinct names are equal, so the comparator fixes one ranking |
| EntityRanks.RankingOfAnyOrder | src/main/java/com/woobadeau/jpmorgan/settlement/SettlementReportManager.java:64-71 | sorting the day's entries, taken in any order, gives the same ranking |
| EntityRanks.RankingMeaning | src/main/java/com/woobadeau/jpmorgan/settlement/SettlementReportManager.java:56-71 | the ranking lists every entity of the day exactly once, under its stored spelling, in ascending order of the total with ties broken by name |
| ReportSpec.BucketPrefixFailure | src/main/java/com/woobadeau/jpmorgan/settlement/SettlementReportManager.java:25-26 | once an instruction cannot be resolved, later instructions change nothing: the report fails with that error |
| ReportSpec.BucketFailsIff | src/main/java/com/woobadeau/jpmorgan/settlement/SettlementReportManager.java:23-35 | building the report fails iff some instruction's date cannot be resolved, and then with the error of the first such instruction |
| ReportSpec.BucketKeys | src/main/java/com/woobadeau/jpmorgan/settlement/SettlementReportManager.java:26-31 | the report has a day exactly for each date some instruction settles on |
| ReportSpec.BucketDays | src/main/java/com/woobadeau/jpmorgan/settlement/SettlementReportManager.java:25-33 | each day of the report is built, in order, from exactly the instructions that settle on it |
| ReportSpec.BucketConserves | src/main/java/com/woobadeau/jpmorgan/settlement/SettlementReportManager.java:23-35 | summed over all days, the incoming (outgoing) totals equal the value of all sell (buy) instructions |
| ReportLayout.MinDay | src/main/java/com/woobadeau/jpmorgan/settlement/SettlementReport.java:17 | the first key of the date-ordered map is the earliest date |
| ReportLayout.AscendingMeaning | src/main/java/com/woobadeau/jpmorgan/settlement/SettlementReport.java:17 | the date-ordered map is walked over exactly its dates, each once, strictly increasing |
| ReportLayout.BodyAscending | src/main/java/com/woobadeau/jpmorgan/settlement/SettlementReport.java:31-36 | the report body is the days' blocks concatenated in ascending date order |
| ReportLayout.ReportInDateOrder | src/main/java/com/woobadeau/jpmorgan/settlement/SettlementReport.java:29-38 | the report text is the header followed by one block per date, walked in strictly increasing date order over exactly the report's dates |
| Settlement.EntityReport.constructor | src/main/java/com/woobadeau/jpmorgan/settlement/EntityReport.java:9-15 | a new entity report keeps its name and starts with zero incoming and outgoing totals |
| Settlement.EntityReport.AddIncomingValue | src/main/java/com/woobadeau/jpmorgan/settlement/EntityReport.java:25-27 | the incoming total grows by exactly the amount; the outgoing total is unchanged |
| Settlement.EntityReport.AddOutgoingValue | src/main/java/com/woobadeau/jpmorgan/settlement/EntityReport.java:29-31 | the outgoing total grows by exactly the amount; the incoming total is unchanged |
| Settlement.DailyReport.constructor | src/main/java/com/woobadeau/jpmorgan/settlement/DailyReport.java:20 | a new daily report has no entities |
| Settlement.DailyReport.EntityReportFor | src/main/java/com/woobadeau/jpmorgan/settlement/DailyReport.java:23-28 | returns the report stored for the entity ignoring case; if there is none, it stores a fresh zero report under this spelling and changes nothing else |
| Settlement.DailyReport.CreditEntity | src/main/java/com/woobadeau/jpmorgan/settlement/DailyReport.java:29-37 | credits the instruction's value to the incoming side for a sell or the outgoing side for a buy, of that entity only |
| Settlement.DailyReport.AddInstruction | src/main/java/com/woobadeau/jpmorgan/settlement/DailyReport.java:22-38 | the day's totals become `AddToDay` of the old totals; existing entity reports stay where they were, and only fresh ones are added |
| Settlement.DailyReport.ToString | src/main/java/com/woobadeau/jpmorgan/settlement/DailyReport.java:44-60 | the text is the incoming total and ranking, then the outgoing total and ranking, in that fixed order |
| Settlement.DailyReport.TotalsWellKeyed | src/main/java/com/woobadeau/jpmorgan/settlement/DailyReport.java:20 | every entity report of a valid day sits under its own upper-cased name |
| Settlement.SettlementReport.constructor | src/main/java/com/woobadeau/jpmorgan/settlement/SettlementReport.java:20-22 | the report holds exactly the given daily reports |
| Settlement.SettlementReport.ToString | src/main/java/com/woobadeau/jpmorgan/settlement/SettlementReport.java:29-38 | the text is `ReportText`: the header, then each date's block in ascending date order |
| Settlement.EarliestDate | src/main/java/com/woobadeau/jpmorgan/settlement/SettlementReport.java:17 | the loop finds the earliest of a non-empty set of dates |
| Settlement.AggregateIncomingOutgoing | src/main/java/com/woobadeau/jpmorgan/settlement/SettlementReportManager.java:42-49 | returns a fresh two-element array: index 0 holds the day's incoming total over all entities and index 1 the outgoing total |
| Settlement.CollectEntityTotals | src/main/java/com/woobadeau/jpmorgan/settlement/SettlementReportManager.java:65-66 | the stream over `values()` holds each entity's totals exactly once |
| Settlement.SortEntities | src/main/java/com/woobadeau/jpmorgan/settlement/SettlementReportManager.java:64-71 | returns the day's `Ranking` for the chosen total |
| Settlement.SortIncoming | src/main/java/com/woobadeau/jpmorgan/settlement/SettlementReportManager.java:56-58 | returns the ranking by incoming total |
| Settlement.SortOutgoing | src/main/java/com/woobadeau/jpmorgan/settlement/SettlementReportManager.java:60-62 | returns the ranking by outgoing total |
| Settlement.DailyReportFor | src/main/java/com/woobadeau/jpmorgan/settlement/SettlementReportManager.java:27-31 | returns the date's daily report, or stores and returns a fresh empty one; the other dates and their reports are untouched |
| Settlement.AddInstructionOn | src/main/java/com/woobadeau/jpmorgan/settlement/SettlementReportManager.java:32 | adding to one date's report moves that day to `AddToDay` and leaves every other date's totals unchanged |
| Settlement.OthersApart | src/main/java/com/woobadeau/jpmorgan/settlement/SettlementReportManager.java:27-32 | no two dates share an entity report, so updating one date cannot touch another |
| Settlement.AddToDate | src/main/java/com/woobadeau/jpmorgan/settlement/SettlementReportManager.java:26-32 | one loop iteration: the report of the resolved date becomes that day plus the instruction, and the other dates are unchanged |
| Settlement.CreateReport | src/main/java/com/woobadeau/jpmorgan/settlement/SettlementReportManager.java:23-35 | fails iff some instruction's date cannot be resolved, with the same error as `CreateSpec`; otherwise returns a fresh valid report whose days are exactly `CreateSpec` of the instructions |
| InstructionParser.ReadFieldsMeaning | src/main/java/com/woobadeau/jpmorgan/transaction/InstructionParser.java:46-59 | reading succeeds iff every field reads, and then each field of the instruction is what its reader returned; otherwise it fails at the first unreadable field, reporting the field counter Java has reached there |
| InstructionParser.Parse | src/main/java/com/woobadeau/jpmorgan/transaction/InstructionParser.java:40-45 | the field-count error occurs iff the field count, with each date counted once, is not 8 |
| InstructionParser.ReadFieldsInOrder | src/main/java/com/woobadeau/jpmorgan/transaction/InstructionParser.java:46-59 | reading the fields while advancing the offset gives exactly the instruction or error `ReadFields` describes |
| InstructionParser.ParseLine | src/main/java/com/woobadeau/jpmorgan/transaction/InstructionParser.java:32-63 | after replacing a missing separator with a space and a missing date format with `dd MMM yyyy`, the result is exactly what `Parse` describes |
| InstructionParser.ParseLineWithSeparator | src/main/java/com/woobadeau/jpmorgan/transaction/InstructionParser.java:99-101 | the two-argument overload parses with the default date format |
| InstructionParser.ParseLineWithDefaults | src/main/java/com/woobadeau/jpmorgan/transaction/InstructionParser.java:120-122 | the one-argument overload parses with a space separator and the default date format |
| InstructionParser.SplitRender | src/main/java/com/woobadeau/jpmorgan/transaction/InstructionParser.java:40-42 | a line written from an instruction splits back into its fields, with each date taking as many fields as the date format does |
| InstructionParser.ParseRender | src/main/java/com/woobadeau/jpmorgan/transaction/InstructionParser.java:32-63 | a line written from an instruction, with any suitable separator and date format, parses back to that instruction |
| InstructionParser.SameRecordAnyLayout | src/test/java/com/woobadeau/jpmorgan/transaction/InstructionParserTest.java:15-22 | the same record written with different separators and date formats parses to equal instructions |

## Left out

- Properties-file I/O, `Properties.load`, the singleton `getInstance`/`setup` and the `IOException` path are not modelled. Loading starts from the key/value pairs in the order `stringPropertyNames` yields them.
- Time zones and time of day are not modelled. A date is a whole day counted from 1970-01-01, so the reset to midnight and `Date.getTime` ordering become the integer and its order.
- `NumberFormat.getCurrencyInstance` (USD) and `SimpleDateFormat` formatting are not modelled; they are function parameters (`formatMoney`, `formatDate`).
- `SimpleDateFormat.parse` and `new BigDecimal(String)` are not modelled; they are the `Parsers` parameter, with `None` where the library throws.
- `BigDecimal` is modelled as an exact `real`, so its scale is not kept. Only `BigDecimal.equals` distinguishes scale (`2.0` from `2.00`), and the core never applies it to amounts. The ranking uses `compareTo`, which ignores scale, so the model's order is exact.
- `String.split` takes its separator as a regular expression. The model treats the separator as literal text, so separators holding regular-expression metacharacters are not modelled.
- `toUpperCase` is modelled for ASCII letters only. Locale-dependent and non-ASCII case mappings are not modelled.
- JavaStrings.ParseInt: accepts only the ASCII digits `0`–`9`. `Integer.parseInt` reads digits through `Character.digit`, so it also accepts other Unicode decimal digits, such as U+0663.
- JavaStrings.StrLess: compares characters as Unicode code points. `String.compareTo` compares UTF-16 code units, so the two orders differ between a character above U+FFFF and one in U+E000–U+FFFF.
- `Instruction`'s getters and setters, `ReportBuilder`, and the exception classes' messages and causes are not modelled. Errors are datatype values that keep the fields a message is built from.
- The `HashSet` of instructions and the `HashMap` of daily reports have no defined iteration order. The model walks the instructions as a sequence in whatever order iteration yields, and states its results independently of the map's order.
- The library sort is not modelled. The ranking is proved to be the unique sorted permutation, so any correct sort yields it; the model computes it by insertion sort.
- The date-ordered `TreeMap` is not modelled as a tree. Its in-order walk is realised by repeatedly taking the earliest remaining date.
- Settlement.CollectEntityTotals: states only that the values are each entity's totals once, not the `TreeMap`'s ascending-name iteration order, because the ranking does not depend on that order.
- InstructionParser.ParseRender: the round trip is proved for one-character separators that occur in no text field and printed number, and for formatters that read back what they print. Multi-character separators are not covered.
- The tests' `doubleValue` comparisons of totals are not modelled, because totals here are exact.
