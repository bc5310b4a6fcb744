# Prop validators of the Vue calendar component

This project is a Dafny model of the validation layer in `src/util/props.ts`
of the Vue calendar component. These are the predicates that the prop table
attaches to fields under the key `validate`; each decides whether a raw prop
value is acceptable:

- `validateNumber` accepts a value when `parseInt` of it is finite. It guards
  the interval sizes and counts.
- The inline `categoryDays` validator also demands that the parsed value is
  positive.
- `validateWeekdays` decides whether a list of weekday indices is a usable
  week view. The list arrives as a comma-separated string or as an array.

Modules, one per concern:

- `Wrappers`: `Option`. `None` stands for JavaScript's `NaN`.
- `Text`: `split(',')` and `join(',')`, proved inverse to each other.
- `ParseInt`: a leading-integer reading of `parseInt` on a string, and the
  decimal printing that `String(n)` performs. The two are proved to
  round-trip.
- `JsValues`: the loosely typed prop value as the datatype
  `Num | Str | Arr | Other`, with the `String(...)` coercion that `parseInt`
  applies to any argument.
- `Props`: the validators. It holds a declarative characterisation of the
  weekday check (`IsWeekdayList`: non-empty, every entry in `[0, 7)`, no
  repeats, at most one backward step). It also holds the method
  `CheckWeekdays`, which follows the source loop with its `visited` record
  and `wrapped` flag and is proved equal to that characterisation.
- `WeekdayFacts`: consequences of the characterisation. These are the
  individual rejection rules, the families of accepted lists, the agreement
  of string and array forms, the component's default `weekdays` value and a
  few concrete example lists.

`DAYS_IN_WEEK` comes from `src/util/timestamp.ts`, which is not part of this
model. It is taken to be 7 (`Props.DaysInWeek`).

The validator compares only adjacent entries, and only the sign of each
step: nothing checks that a step has size 1. So gapped lists without a wrap,
such as `[0, 2, 4]`, are accepted by design
(`WeekdayFacts.IncreasingAccepted`). The wrap-around check reads as if it
were meant to admit days in cyclic week order, that is, a rotation of a
sorted set of days. For that, every entry after the wrap would also have to
stay below the first entry, and the code does not check this. So `[1, 3, 2]`
is accepted: it steps `+2`, then wraps once with `-1` to a day above its
first entry `1`, and repeats nothing. The model keeps what the code does
(`WeekdayFacts.OutOfOrderInputAccepted`). Every rotation of the week is
accepted (`WeekdayFacts.RotationAccepted`), but the converse does not hold.

## Model

| member | source | states |
|---|---|---|
| Text.Split | src/util/props.ts:30 | `s.split(',')` always yields at least one piece, and no piece contains a comma |
| Text.JoinSplit | src/util/props.ts:30 | splitting loses nothing: joining the pieces with commas gives back the original string |
| Text.SplitJoin | src/util/props.ts:30 | splitting the comma-join of comma-free pieces gives back exactly those pieces |
| ParseInt.LeadingDigits | src/util/props.ts:25 | the digits `parseInt` reads are the longest all-digit prefix of the text |
| ParseInt.ParseInt | src/util/props.ts:25 | `parseInt` is finite exactly when the text opens with a digit, or with a sign followed by a digit |
| ParseInt.NatDigits | src/util/props.ts:34 | the decimal text of a natural number is non-empty, all digits, has no leading zero, and its digits evaluate back to the number |
| ParseInt.ParseIntToDecimal | src/util/props.ts:34 | the plain decimal text of an integer (an optional `-` and its digits) parses back to that integer |
| ParseInt.ParseIntIgnoresSuffix | src/util/props.ts:25 | appending text that cannot continue the leading integer leaves `parseInt`'s result unchanged |
| ParseInt.ParseIntTrailingText | src/util/props.ts:25 | a printed integer followed by a non-digit unit, such as `"42px"`, parses to that integer |
| JsValues.ParseNum | src/util/props.ts:34 | `parseInt` of an integer-valued number below 10^21 in magnitude is that number |
| JsValues.ParseOther | src/util/props.ts:25 | `parseInt` of `null`, `undefined`, a boolean or a plain object is `NaN` |
| JsValues.ParseArr | src/util/props.ts:25 | `parseInt` of an array is that of its first element, and `NaN` for an empty array |
| Props.ValidateNumberOfString | src/util/props.ts:24-26 | `validateNumber` accepts a string exactly when it opens with an integer literal |
| Props.ValidateNumberExamples | src/util/props.ts:24-26 | `"42px"` is accepted; `"abc"`, `""` and `null` are rejected |
| Props.ValidateNumberOfNumber | src/util/props.ts:24-26 | every integer-valued number is accepted, and so is its decimal text followed by a unit |
| Props.ValidateNumberOfArray | src/util/props.ts:24-26 | an array is accepted exactly when it is non-empty and its first element is accepted; other non-numeric values are rejected |
| Props.CategoryDaysNarrowsNumber | src/util/props.ts:219 | the `categoryDays` validator holds exactly when `validateNumber` holds and the parsed value is positive; on a number it accepts exactly `n > 0` |
| Props.SeenUpToMembers | src/util/props.ts:62-65 | after `n` rounds the `visited` record holds exactly the values among the first `n` entries |
| Props.SeenOfChecked | src/util/props.ts:43-65 | after `n` rounds without rejection, `visited` holds `n` distinct indices, all in `[0, 7)` |
| Props.AcceptedListIsShort | src/util/props.ts:36-65 | pigeonhole: an accepted list has at most 7 entries, so the explicit length bound only ever rejects lists the other checks reject too |
| Props.CheckWeekdays | src/util/props.ts:33-68 | the loop with `visited` and `wrapped` accepts exactly the non-empty lists of in-range, pairwise distinct indices with at most one backward step |
| Props.ValidateWeekdays | src/util/props.ts:28-72 | the whole validator: strings are split, arrays are parsed and checked by the loop, and any other value is rejected; the result equals `WeekdaysAccepted` |
| WeekdayFacts.EmptyOrTooLongRejected | src/util/props.ts:36-38 | an empty list, or one longer than 7, is rejected |
| WeekdayFacts.BadEntryRejected | src/util/props.ts:46-48 | an entry that is `NaN` or lies outside `[0, 7)` rejects the list wherever it stands |
| WeekdayFacts.DuplicateRejected | src/util/props.ts:57-65 | a repeated value rejects the list, adjacent or not |
| WeekdayFacts.TwoWrapsRejected | src/util/props.ts:51-56 | two backward steps reject the list |
| WeekdayFacts.IncreasingIsOrdered | src/util/props.ts:50-60 | in a list whose every adjacent step rises, each entry is below every later one |
| WeekdayFacts.IncreasingAccepted | src/util/props.ts:43-68 | every non-empty strictly increasing list of weekday indices (a week view that does not wrap) is accepted |
| WeekdayFacts.RotationAccepted | src/util/props.ts:43-68 | every stretch of 1 to 7 consecutive days, from any start day and wrapping past day 6 at most once, is accepted |
| WeekdayFacts.StringJudgedAsSplitArray | src/util/props.ts:28-72 | a string gets the same verdict as the array of its comma pieces; numbers and other non-list values are rejected |
| WeekdayFacts.DecimalStringMatchesArray | src/util/props.ts:29-34 | writing integers as `"a,b,c"` or passing them as `[a, b, c]` gives the same verdict, including for the empty list |
| WeekdayFacts.ArrayJudgedByValues | src/util/props.ts:33-34 | an array of numbers is judged by the numbers themselves |
| WeekdayFacts.DecimalStringJudgedByValues | src/util/props.ts:29-34 | a comma-separated string of integers is judged by those integers |
| WeekdayFacts.OutOfOrderListAccepted | src/util/props.ts:50-60 | the parsed list `[1, 3, 2]` is accepted: one wrap and no repeats |
| WeekdayFacts.WrappedListAccepted | src/util/props.ts:50-60 | the parsed list `[5, 6, 0, 1, 2]` is accepted |
| WeekdayFacts.RepeatedDayListRejected | src/util/props.ts:62-64 | the parsed list `[5, 6, 0, 6]` is rejected for repeating day 6 |
| WeekdayFacts.WrappedStringAccepted | src/util/props.ts:28-68 | the string `"5,6,0,1,2"` is accepted |
| WeekdayFacts.RepeatedDayStringRejected | src/util/props.ts:28-68 | the string `"5,6,0,6"` is rejected |
| WeekdayFacts.OutOfOrderInputAccepted | src/util/props.ts:28-68 | the string `"1,3,2"` and the array `[1, 3, 2]` are both accepted |
| WeekdayFacts.DefaultWeekdaysAccepted | src/util/props.ts:87 | the default `weekdays` value `[0, 1, 2, 3, 4, 5, 6]` satisfies the validator |
| WeekdayFacts.EmptyInputsRejected | src/util/props.ts:29-48 | `""` splits to `[""]`, whose one piece parses to `NaN`, so `""` is rejected by the entry check and not by the length check; `[]` is rejected too |

## Left out

- The prop-descriptor table (`src/util/props.ts:74-290`) and the `ExtractPropTypes` aliases (`294-303`) are declarative Vue metadata with no behaviour.
- `validateTimestamp`, `validateTime` and `parseDate` live in `src/util/timestamp.ts`, which is not part of this model. `DAYS_IN_WEEK` from the same file is taken to be 7.
- The `start` default `parseDate(new Date())` (line 79) depends on the wall clock.
- The `eventOverlapMode` validator (lines 270-271) depends on the `CalendarEventOverlapModes` object from `src/modes`, which is not part of this model, and on JavaScript's `typeof` and `in`.
- ParseInt.ParseInt: reads only an optional sign and decimal digits. It does not skip leading white space and does not treat a `0x` prefix as hexadecimal. It has no floating-point range: a digit run too long for a double gives `Infinity` in JavaScript, which `isFinite` rejects, but in the model it is an ordinary integer. It does not distinguish `-0` from `0`; the validators treat both alike anyway.
- JsValues.ToJsString: `Num` holds integer-valued numbers of magnitude below 10^21 only (the subset type `PlainInt`). Fractional numbers such as `3.9` are not modelled. Numbers from 10^21 up print in exponent notation (`String(1e21)` is `"1e+21"`, so `parseInt(1e21)` is 1), and they are not modelled either. The `Other` values print as one fixed non-numeric text. In JavaScript `null` and `undefined` print as `""` inside an array and differ between kinds of value. Every such text starts with neither a sign nor a digit, so `parseInt` yields `NaN` either way.
- JsValues.ParseOther: conversions to text that throw are not modelled. `parseInt` of a Symbol, or of an object with no callable `toString`/`valueOf` (such as `Object.create(null)`), throws a `TypeError`, so `validateNumber`, the `categoryDays` validator and `validateWeekdays` on an array holding one throw rather than return false. An object with a custom `toString` that returns numeric text is not modelled either. `Other` stands only for values whose conversion succeeds with text that does not start with an integer.
