/** Consequences of the `validateWeekdays` characterisation: the rejection
    rules one by one, the families of lists it accepts, the agreement of the
    string and array forms, the component's default `weekdays` value and a
    few concrete example lists. */
module WeekdayFacts {
  import opened Wrappers
  import Text
  import opened ParseInt
  import opened JsValues
  import opened Props

  /** Empty lists and lists longer than a week are rejected. */
  lemma EmptyOrTooLongRejected(xs: seq<Option<int>>)
    requires |xs| == 0 || |xs| > DaysInWeek
    ensures !IsWeekdayList(xs)
  {
    if IsWeekdayList(xs) {
      AcceptedListIsShort(xs);
    }
  }

  /** An entry that does not parse, or parses outside `[0, DaysInWeek)`,
      rejects the list wherever it stands. */
  lemma BadEntryRejected(xs: seq<Option<int>>, i: nat)
    requires i < |xs| && !InRange(xs[i])
    ensures !IsWeekdayList(xs)
  {
  }

  /** A repeated index rejects the list, adjacent or not. */
  lemma DuplicateRejected(xs: seq<Option<int>>, i: nat, j: nat)
    requires i < j < |xs| && xs[i] == xs[j]
    ensures !IsWeekdayList(xs)
  {
  }

  /** Two backward steps reject the list. */
  lemma TwoWrapsRejected(xs: seq<Option<int>>, i: nat, j: nat)
    requires 0 < i < j < |xs| && WrapsAt(xs, i) && WrapsAt(xs, j)
    ensures !IsWeekdayList(xs)
  {
  }

  /** The step into position `i` goes forwards. */
  predicate RisesAt(xs: seq<Option<int>>, i: int)
    requires 0 < i < |xs|
  {
    xs[i - 1].Some? && xs[i].Some? && xs[i - 1].value < xs[i].value
  }

  predicate Increasing(xs: seq<Option<int>>) {
    forall i :: 0 < i < |xs| ==> RisesAt(xs, i)
  }

  lemma {:induction false} IncreasingIsOrdered(xs: seq<Option<int>>, i: nat, j: nat)
    requires Increasing(xs)
    requires i < j < |xs|
    ensures xs[i].Some? && xs[j].Some? && xs[i].value < xs[j].value
    decreases j - i
  {
    if i + 1 < j {
      IncreasingIsOrdered(xs, i + 1, j);
      assert RisesAt(xs, i + 1);
    } else {
      assert RisesAt(xs, j);
    }
  }

  /** A non-empty, strictly increasing list of weekday indices (a week that
      does not wrap) is accepted. */
  lemma IncreasingAccepted(xs: seq<Option<int>>)
    requires |xs| > 0
    requires forall i :: 0 <= i < |xs| ==> InRange(xs[i])
    requires Increasing(xs)
    ensures IsWeekdayList(xs)
  {
    forall i, j | 0 <= i < j < |xs|
      ensures xs[i] != xs[j]
    {
      IncreasingIsOrdered(xs, i, j);
    }
    forall i | 0 < i < |xs|
      ensures !WrapsAt(xs, i)
    {
      assert RisesAt(xs, i);
    }
  }

  /** `n` consecutive days of the week starting on `start`, wrapping from
      the last day back to day 0. */
  function Rotation(start: nat, n: nat): (r: seq<Option<int>>)
    requires start < DaysInWeek
    ensures |r| == n
    ensures forall j :: 0 <= j < n ==> r[j] == Some((start + j) % DaysInWeek)
  {
    seq(n, j requires 0 <= j < n => Some((start + j) % DaysInWeek))
  }

  lemma ModWeek(v: int)
    requires 0 <= v < 2 * DaysInWeek
    ensures v % DaysInWeek == if v < DaysInWeek then v else v - DaysInWeek
  {
  }

  /** Every stretch of at most a week that starts on any day, wrapping past
      the end of the week at most once, is accepted: `[5, 6, 0, 1, 2]` and
      the plain `[1, 2, 3]` alike. */
  lemma RotationAccepted(start: nat, n: nat)
    requires start < DaysInWeek && 0 < n <= DaysInWeek
    ensures IsWeekdayList(Rotation(start, n))
  {
    var r := Rotation(start, n);
    forall j | 0 <= j < n
      ensures r[j] == Some(if start + j < DaysInWeek then start + j else start + j - DaysInWeek)
    {
      ModWeek(start + j);
    }
    forall i | 0 < i < n
      ensures WrapsAt(r, i) <==> start + i == DaysInWeek
    {
    }
  }

  /** A string and an array of the same comma-free pieces are judged alike;
      numbers and other values are rejected outright. */
  lemma StringJudgedAsSplitArray(s: string, n: PlainInt)
    ensures WeekdaysAccepted(Str(s)) == WeekdaysAccepted(Arr(SplitValues(s)))
    ensures !WeekdaysAccepted(Num(n)) && !WeekdaysAccepted(Other)
  {
  }

  lemma DecimalHasNoComma(n: int)
    ensures Text.NoComma(ToDecimal(n))
  {
    var s := ToDecimal(n);
    forall k | 0 <= k < |s|
      ensures s[k] != Text.Comma
    {
      if n < 0 {
        assert k == 0 || s[k] == NatDigits(-n)[k - 1];
      }
    }
  }

  function Decimals(ds: seq<PlainInt>): (strs: seq<string>)
    ensures |strs| == |ds|
    ensures forall i :: 0 <= i < |ds| ==> strs[i] == ToDecimal(ds[i])
  {
    seq(|ds|, i requires 0 <= i < |ds| => ToDecimal(ds[i]))
  }

  function Nums(ds: seq<PlainInt>): (items: seq<JsValue>)
    ensures |items| == |ds|
    ensures forall i :: 0 <= i < |ds| ==> items[i] == Num(ds[i])
  {
    seq(|ds|, i requires 0 <= i < |ds| => Num(ds[i]))
  }

  /** Writing a list of integers as the string `"5,6,0,1,2"` or passing it
      as the array `[5, 6, 0, 1, 2]` gives the same verdict.  With no
      integers at all both forms are rejected: `""` splits to `[""]`, whose
      one piece does not parse, and `[]` is empty. */
  lemma DecimalStringMatchesArray(ds: seq<PlainInt>)
    ensures WeekdaysAccepted(Str(Text.Join(Decimals(ds)))) == WeekdaysAccepted(Arr(Nums(ds)))
  {
    var strs := Decimals(ds);
    if |ds| == 0 {
      assert Text.Join(strs) == "";
      assert Text.Split("") == [""];
      assert ParseAll(SplitValues(""))[0] == None;
    } else {
      forall k | 0 <= k < |strs|
        ensures Text.NoComma(strs[k])
      {
        DecimalHasNoComma(ds[k]);
      }
      Text.SplitJoin(strs);
      var a := ParseAll(SplitValues(Text.Join(strs)));
      var b := ParseAll(Nums(ds));
      forall i | 0 <= i < |ds|
        ensures a[i] == b[i]
      {
        ParseIntToDecimal(ds[i]);
        ParseNum(ds[i]);
      }
      assert a == b;
    }
  }

  /** `[1, 3, 2]` is accepted because only adjacent steps are compared:
      `+2`, then a single wrap of `-1`. */
  lemma OutOfOrderListAccepted()
    ensures IsWeekdayList([Some(1), Some(3), Some(2)])
  {
    var a := [Some(1), Some(3), Some(2)];
    assert !WrapsAt(a, 1);
  }

  /** `[5, 6, 0, 1, 2]` is five days from day 5, wrapping once. */
  lemma WrappedListAccepted()
    ensures IsWeekdayList([Some(5), Some(6), Some(0), Some(1), Some(2)])
  {
    RotationAccepted(5, 5);
    assert Rotation(5, 5) == [Some(5), Some(6), Some(0), Some(1), Some(2)];
  }

  /** `[5, 6, 0, 6]` repeats day 6 and is rejected. */
  lemma RepeatedDayListRejected()
    ensures !IsWeekdayList([Some(5), Some(6), Some(0), Some(6)])
  {
    DuplicateRejected([Some(5), Some(6), Some(0), Some(6)], 1, 3);
  }

  /** The parse results of a list of integers. */
  function Somes(ds: seq<PlainInt>): (xs: seq<Option<int>>)
    ensures |xs| == |ds|
    ensures forall i :: 0 <= i < |ds| ==> xs[i] == Some(ds[i])
  {
    seq(|ds|, i requires 0 <= i < |ds| => Some(ds[i]))
  }

  /** An array of numbers is judged by those numbers. */
  lemma ArrayJudgedByValues(ds: seq<PlainInt>)
    ensures WeekdaysAccepted(Arr(Nums(ds))) == IsWeekdayList(Somes(ds))
  {
    forall i | 0 <= i < |ds|
      ensures ParseAll(Nums(ds))[i] == Some(ds[i])
    {
      ParseNum(ds[i]);
    }
    assert ParseAll(Nums(ds)) == Somes(ds);
  }

  /** A string of comma-separated decimal integers is judged by the list
      of those integers. */
  lemma DecimalStringJudgedByValues(ds: seq<PlainInt>, s: string)
    requires s == Text.Join(Decimals(ds))
    ensures WeekdaysAccepted(Str(s)) == IsWeekdayList(Somes(ds))
  {
    DecimalStringMatchesArray(ds);
    ArrayJudgedByValues(ds);
  }

  lemma WrappedStringText()
    ensures Text.Join(Decimals([5, 6, 0, 1, 2])) == "5,6,0,1,2"
  {
    assert ToDecimal(5) == "5" && ToDecimal(6) == "6" && ToDecimal(0) == "0";
    assert ToDecimal(1) == "1" && ToDecimal(2) == "2";
    assert Decimals([5, 6, 0, 1, 2]) == ["5", "6", "0", "1", "2"];
    assert Text.Join(["1", "2"]) == "1,2";
    assert Text.Join(["0", "1", "2"]) == "0,1,2";
    assert Text.Join(["6", "0", "1", "2"]) == "6,0,1,2";
  }

  lemma WrappedValues()
    ensures IsWeekdayList(Somes([5, 6, 0, 1, 2]))
  {
    WrappedListAccepted();
    assert Somes([5, 6, 0, 1, 2]) == [Some(5), Some(6), Some(0), Some(1), Some(2)];
  }

  /** `"5,6,0,1,2"`, a week view from day 5 to day 2 of the next week, is
      accepted. */
  lemma WrappedStringAccepted()
    ensures WeekdaysAccepted(Str("5,6,0,1,2"))
  {
    WrappedStringText();
    DecimalStringJudgedByValues([5, 6, 0, 1, 2], "5,6,0,1,2");
    WrappedValues();
  }

  lemma RepeatedDayText()
    ensures Text.Join(Decimals([5, 6, 0, 6])) == "5,6,0,6"
  {
    assert ToDecimal(5) == "5" && ToDecimal(6) == "6" && ToDecimal(0) == "0";
    assert Decimals([5, 6, 0, 6]) == ["5", "6", "0", "6"];
    assert Text.Join(["0", "6"]) == "0,6";
    assert Text.Join(["6", "0", "6"]) == "6,0,6";
  }

  lemma RepeatedDayValues()
    ensures !IsWeekdayList(Somes([5, 6, 0, 6]))
  {
    var xs := Somes([5, 6, 0, 6]);
    DuplicateRejected(xs, 1, 3);
  }

  /** `"5,6,0,6"` repeats day 6 two places apart and is rejected. */
  lemma RepeatedDayStringRejected()
    ensures !WeekdaysAccepted(Str("5,6,0,6"))
  {
    RepeatedDayText();
    DecimalStringJudgedByValues([5, 6, 0, 6], "5,6,0,6");
    RepeatedDayValues();
  }

  lemma OutOfOrderText()
    ensures Text.Join(Decimals([1, 3, 2])) == "1,3,2"
  {
    assert ToDecimal(1) == "1" && ToDecimal(3) == "3" && ToDecimal(2) == "2";
    assert Decimals([1, 3, 2]) == ["1", "3", "2"];
    assert Text.Join(["3", "2"]) == "3,2";
  }

  lemma OutOfOrderValues()
    ensures IsWeekdayList(Somes([1, 3, 2]))
  {
    OutOfOrderListAccepted();
    assert Somes([1, 3, 2]) == [Some(1), Some(3), Some(2)];
  }

  /** `"1,3,2"` and `[1, 3, 2]` are accepted although they are not a
      stretch of consecutive days. */
  lemma OutOfOrderInputAccepted()
    ensures WeekdaysAccepted(Str("1,3,2"))
    ensures WeekdaysAccepted(Arr(Nums([1, 3, 2])))
  {
    OutOfOrderText();
    DecimalStringJudgedByValues([1, 3, 2], "1,3,2");
    ArrayJudgedByValues([1, 3, 2]);
    OutOfOrderValues();
  }

  /** The default `weekdays` value `[0, 1, 2, 3, 4, 5, 6]` satisfies the
      validator. */
  lemma DefaultWeekdaysAccepted()
    ensures WeekdaysAccepted(Arr(Nums(DefaultWeekdays)))
  {
    ArrayJudgedByValues(DefaultWeekdays);
    DefaultValues();
  }

  lemma DefaultValues()
    ensures IsWeekdayList(Somes(DefaultWeekdays))
  {
    var xs := Somes(DefaultWeekdays);
    assert forall i :: 0 <= i < |DefaultWeekdays| ==> DefaultWeekdays[i] == i;
    assert forall i :: 0 <= i < |xs| ==> xs[i] == Some(i);
    RotationAccepted(0, 7);
    assert xs == Rotation(0, 7);
  }

  /** The empty string and the empty array are rejected; the string is
      rejected for its one unparsable piece, not for being empty. */
  lemma EmptyInputsRejected()
    ensures Text.Split("") == [""] && ParseInt.ParseInt("") == None
    ensures !WeekdaysAccepted(Str("")) && !WeekdaysAccepted(Arr([]))
  {
    assert Text.Split("") == [""];
    assert ParseAll(SplitValues(""))[0] == None;
  }
}
