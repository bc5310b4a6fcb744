/** The prop validators of the calendar component: `validateNumber`, the
    inline `categoryDays` validator and `validateWeekdays`. */
module Props {
  import opened Wrappers
  import Text
  import opened ParseInt
  import opened JsValues

  /** Days in a week; every weekday index lies in `[0, DaysInWeek)`. */
  const DaysInWeek: nat := 7

  /** The default value of the `weekdays` prop: the whole week from day 0. */
  const DefaultWeekdays: seq<PlainInt> := [0, 1, 2, 3, 4, 5, 6]

  // ---------------------------------------------------------------------
  // validateNumber and the categoryDays validator

  /** `validateNumber`: the value's leading-integer parse is finite. */
  predicate ValidateNumber(input: JsValue) {
    ParseValue(input).Some?
  }

  /** The `categoryDays` validator: a finite parse that is positive. */
  predicate ValidCategoryDays(input: JsValue) {
    ParseValue(input).Some? && ParseValue(input).value > 0
  }

  /** On a string, `validateNumber` holds exactly when the string opens with
      an integer literal, whatever follows it. */
  lemma ValidateNumberOfString(s: string)
    ensures ValidateNumber(Str(s)) <==> StartsWithInteger(s)
  {
  }

  /** `"42px"` is accepted; `"abc"`, `""` and `null` are not. */
  lemma ValidateNumberExamples()
    ensures ValidateNumber(Str("42px"))
    ensures !ValidateNumber(Str("abc")) && !ValidateNumber(Str("")) && !ValidateNumber(Other)
  {
    assert StartsWithInteger("42px");
  }

  /** Every integer-valued number is accepted, and so is its decimal text
      followed by a unit such as `px`. */
  lemma ValidateNumberOfNumber(n: PlainInt, unit: string)
    requires |unit| == 0 || !IsDigit(unit[0])
    ensures ValidateNumber(Num(n))
    ensures ValidateNumber(Str(ToDecimal(n) + unit))
  {
    ParseNum(n);
    ParseIntTrailingText(n, unit);
  }

  /** An array is accepted exactly when it is non-empty and its first
      element is; any other non-number, non-string value is rejected. */
  lemma ValidateNumberOfArray(items: seq<JsValue>)
    ensures ValidateNumber(Arr(items)) <==> |items| > 0 && ValidateNumber(items[0])
    ensures !ValidateNumber(Other)
  {
    ParseArr(items);
  }

  /** The `categoryDays` validator is `validateNumber` narrowed to positive
      values, and on a number it accepts exactly the positive ones. */
  lemma CategoryDaysNarrowsNumber(input: JsValue, n: PlainInt)
    ensures ValidCategoryDays(input) <==> ValidateNumber(input) && ParseValue(input).value > 0
    ensures ValidCategoryDays(Num(n)) <==> n > 0
  {
    ParseNum(n);
  }

  // ---------------------------------------------------------------------
  // validateWeekdays: the declarative characterisation

  /** A parse result that is a weekday index. */
  predicate InRange(p: Option<int>) {
    p.Some? && 0 <= p.value < DaysInWeek
  }

  /** Going from `prev` to `cur` steps backwards: the week wraps here. */
  predicate Descends(prev: Option<int>, cur: Option<int>) {
    prev.Some? && cur.Some? && cur.value < prev.value
  }

  /** The step into position `i` goes backwards. */
  predicate WrapsAt(xs: seq<Option<int>>, i: int)
    requires 0 < i < |xs|
  {
    Descends(xs[i - 1], xs[i])
  }

  // Each check of the loop, stated for the first `n` entries of the list.

  /** The first `n` entries are weekday indices. */
  predicate InRangeUpTo(xs: seq<Option<int>>, n: nat)
    requires n <= |xs|
  {
    forall k :: 0 <= k < n ==> InRange(xs[k])
  }

  /** No value repeats among the first `n` entries. */
  predicate DistinctUpTo(xs: seq<Option<int>>, n: nat)
    requires n <= |xs|
  {
    forall i, j :: 0 <= i < j < n ==> xs[i] != xs[j]
  }

  /** At most one step among the first `n` entries goes backwards. */
  predicate OneWrapUpTo(xs: seq<Option<int>>, n: nat)
    requires n <= |xs|
  {
    forall i, j :: 0 < i < j < n ==> !(WrapsAt(xs, i) && WrapsAt(xs, j))
  }

  /** An acceptable list of parsed weekdays: non-empty, every entry a
      weekday index, no index repeated, and at most one wrap.  Only adjacent
      steps are compared, so `[1, 3, 2]` qualifies.  No length bound is
      part of it: that follows (see `AcceptedListIsShort`). */
  predicate IsWeekdayList(xs: seq<Option<int>>) {
    && |xs| > 0
    && InRangeUpTo(xs, |xs|)
    && DistinctUpTo(xs, |xs|)
    && OneWrapUpTo(xs, |xs|)
  }

  /** `input.map(x => parseInt(x))`. */
  function ParseAll(items: seq<JsValue>): (ints: seq<Option<int>>)
    ensures |ints| == |items|
    ensures forall i :: 0 <= i < |items| ==> ints[i] == ParseValue(items[i])
  {
    seq(|items|, i requires 0 <= i < |items| => ParseValue(items[i]))
  }

  /** The array a string stands for: its comma-separated pieces. */
  function SplitValues(s: string): (items: seq<JsValue>)
    ensures |items| == |Text.Split(s)| >= 1
    ensures forall i :: 0 <= i < |items| ==> items[i] == Str(Text.Split(s)[i])
  {
    var pieces := Text.Split(s);
    seq(|pieces|, i requires 0 <= i < |pieces| => Str(pieces[i]))
  }

  /** Whether `validateWeekdays` accepts `input`: a string is judged by its
      comma-split pieces, an array by its elements, anything else is
      rejected. */
  predicate WeekdaysAccepted(input: JsValue) {
    match input
    case Str(s) => IsWeekdayList(ParseAll(SplitValues(s)))
    case Arr(items) => IsWeekdayList(ParseAll(items))
    case _ => false
  }

  /** The indices the first `n` parse results hold: the `visited` record
      after `n` rounds of the loop. */
  function SeenUpTo(xs: seq<Option<int>>, n: nat): (seen: set<int>)
    requires n <= |xs|
  {
    if n == 0 then {}
    else SeenUpTo(xs, n - 1) + (if xs[n - 1].Some? then {xs[n - 1].value} else {})
  }

  lemma {:induction false} SeenUpToMembers(xs: seq<Option<int>>, n: nat, v: int)
    requires n <= |xs|
    ensures v in SeenUpTo(xs, n) <==> exists k :: 0 <= k < n && xs[k] == Some(v)
    decreases n
  {
    if n > 0 {
      SeenUpToMembers(xs, n - 1, v);
    }
  }

  function DayIndices(n: nat): (r: set<int>)
    ensures forall d :: d in r <==> 0 <= d < n
    ensures |r| == n
  {
    if n == 0 then {}
    else
      var r := DayIndices(n - 1) + {n - 1};
      assert n - 1 !in DayIndices(n - 1);
      r
  }

  /** Distinct parse results hold as many indices as there are entries, and
      in-range ones hold only weekday indices. */
  lemma {:induction false} SeenOfChecked(xs: seq<Option<int>>, n: nat)
    requires n <= |xs|
    requires InRangeUpTo(xs, n) && DistinctUpTo(xs, n)
    ensures |SeenUpTo(xs, n)| == n
    ensures SeenUpTo(xs, n) <= DayIndices(DaysInWeek)
    decreases n
  {
    if n > 0 {
      assert InRangeUpTo(xs, n - 1) && DistinctUpTo(xs, n - 1);
      SeenOfChecked(xs, n - 1);
      var v := xs[n - 1].value;
      assert InRange(xs[n - 1]);
      SeenUpToMembers(xs, n - 1, v);
      assert forall k :: 0 <= k < n - 1 ==> xs[k] != xs[n - 1];
      assert v !in SeenUpTo(xs, n - 1);
      assert SeenUpTo(xs, n) == SeenUpTo(xs, n - 1) + {v};
    }
  }

  lemma SubsetCard(a: set<int>, b: set<int>)
    requires a <= b
    ensures |a| <= |b|
  {
    assert b == a + (b - a);
    assert a * (b - a) == {};
  }

  /** Pigeonhole: distinct weekday indices number at most `DaysInWeek`, so
      the explicit length bound of `validateWeekdays` never rejects a list
      the other checks let through. */
  lemma AcceptedListIsShort(xs: seq<Option<int>>)
    requires IsWeekdayList(xs)
    ensures |xs| <= DaysInWeek
  {
    assert InRangeUpTo(xs, |xs|) && DistinctUpTo(xs, |xs|);
    SeenOfChecked(xs, |xs|);
    SubsetCard(SeenUpTo(xs, |xs|), DayIndices(DaysInWeek));
  }

  // ---------------------------------------------------------------------
  // validateWeekdays: the loop

  /** The loop of `validateWeekdays` over the parsed list, with `visited`
      the set of indices met so far and `wrapped` recording whether a
      backward step has happened. */
  method CheckWeekdays(ints: seq<Option<int>>) returns (ok: bool)
    ensures ok == IsWeekdayList(ints)
  {
    if |ints| > DaysInWeek || |ints| == 0 {
      if |ints| > DaysInWeek && IsWeekdayList(ints) {
        AcceptedListIsShort(ints);
      }
      return false;
    }
    var visited: set<int> := {};
    var wrapped := false;
    var i := 0;
    while i < |ints|
      invariant 0 <= i <= |ints|
      invariant InRangeUpTo(ints, i) && DistinctUpTo(ints, i) && OneWrapUpTo(ints, i)
      invariant wrapped <==> exists k :: 0 < k < i && WrapsAt(ints, k)
      invariant visited == SeenUpTo(ints, i)
    {
      var x := ints[i];
      if !InRange(x) {
        return false;
      }
      if i > 0 {
        var d := x.value - ints[i - 1].value;
        if d < 0 {
          assert WrapsAt(ints, i);
          if wrapped {
            ghost var k :| 0 < k < i && WrapsAt(ints, k);
            assert !OneWrapUpTo(ints, |ints|);
            return false;
          }
          wrapped := true;
        } else if d == 0 {
          return false;
        }
      }
      if x.value in visited {
        SeenUpToMembers(ints, i, x.value);
        return false;
      }
      SeenUpToMembers(ints, i, x.value);
      assert i > 0 ==> (wrapped <==> (exists k :: 0 < k < i && WrapsAt(ints, k)) || WrapsAt(ints, i));
      visited := visited + {x.value};
      i := i + 1;
    }
    return true;
  }

  /** `validateWeekdays`: a string is first split on commas; an array has
      every element run through `parseInt` and the loop decides; any other
      value is rejected. */
  method ValidateWeekdays(input: JsValue) returns (ok: bool)
    ensures ok == WeekdaysAccepted(input)
  {
    var value := input;
    if value.Str? {
      value := Arr(SplitValues(value.s));
    }
    if value.Arr? {
      var ints := ParseAll(value.items);
      ok := CheckWeekdays(ints);
      return;
    }
    return false;
  }
}
