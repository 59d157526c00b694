/** The booked-dates list of a car and what `blockCarDates` does to it:
    expand an inclusive pickup-to-return range into one `yyyy-MM-dd` string
    per day and add them with the store's `arrayUnion`, which appends only
    the strings not already present. */
module DateLedger {
  import opened Wrappers
  import opened Calendar

  predicate NoDuplicates(s: seq<string>) {
    forall i, j :: 0 <= i < j < |s| ==> s[i] != s[j]
  }

  /** The store's `arrayUnion(...items)` applied to `list`: each item not
      yet present is appended, in order; the existing list is untouched. */
  function ArrayUnion(list: seq<string>, items: seq<string>): (r: seq<string>)
    ensures |list| <= |r| && r[..|list|] == list
    ensures forall x :: x in r <==> x in list || x in items
    ensures forall k :: |list| <= k < |r| ==> r[k] in items && r[k] !in list
    decreases |items|
  {
    if items == [] then list
    else
      var next := if items[0] in list then list else list + [items[0]];
      assert next[..|list|] == list;
      ArrayUnion(next, items[1..])
  }

  /** `arrayUnion` never adds a string twice. */
  lemma {:induction false} ArrayUnionNoDuplicates(list: seq<string>, items: seq<string>)
    requires NoDuplicates(list)
    ensures NoDuplicates(ArrayUnion(list, items))
    decreases |items|
  {
    if items != [] {
      var next := if items[0] in list then list else list + [items[0]];
      ArrayUnionNoDuplicates(next, items[1..]);
    }
  }

  /** Items that are all present already leave the list as it is. */
  lemma {:induction false} ArrayUnionPresent(list: seq<string>, items: seq<string>)
    requires forall x :: x in items ==> x in list
    ensures ArrayUnion(list, items) == list
    decreases |items|
  {
    if items != [] {
      ArrayUnionPresent(list, items[1..]);
    }
  }

  /** A second union of the same items changes nothing. */
  lemma ArrayUnionIdempotent(list: seq<string>, items: seq<string>)
    ensures ArrayUnion(ArrayUnion(list, items), items) == ArrayUnion(list, items)
  {
    ArrayUnionPresent(ArrayUnion(list, items), items);
  }

  /** Duplicate-free items that are all new are all appended. */
  lemma {:induction false} ArrayUnionFreshCount(list: seq<string>, items: seq<string>)
    requires NoDuplicates(items)
    requires forall x :: x in items ==> x !in list
    ensures |ArrayUnion(list, items)| == |list| + |items|
    decreases |items|
  {
    if items != [] {
      var next := list + [items[0]];
      assert forall x :: x in items[1..] ==> x != items[0] by {
        forall x | x in items[1..] ensures x != items[0] {
          var j :| 0 <= j < |items[1..]| && items[1..][j] == x;
          assert items[j + 1] == x;
        }
      }
      ArrayUnionFreshCount(next, items[1..]);
    }
  }

  /** The strings `blockCarDates` computes for a range:
      `eachDayOfInterval(...).map(d => format(d, 'yyyy-MM-dd'))`. */
  function DateStrings(start: Date, end: Date): (r: seq<string>)
    requires Valid(start) && Valid(end) && DayNumber(start) <= DayNumber(end)
  {
    var days := EachDayOfInterval(start, end);
    seq(|days|, i requires 0 <= i < |days| => FormatDate(days[i]))
  }

  predicate InRange(d: Date, start: Date, end: Date)
    requires Valid(start) && Valid(end)
  {
    Valid(d) && DayNumber(start) <= DayNumber(d) <= DayNumber(end)
  }

  /** `s` is the text form of a day between `start` and `end`. */
  predicate NamesDayIn(s: string, start: Date, end: Date)
    requires Valid(start) && Valid(end)
  {
    ParseIsoDate(s).Some? && InRange(ParseIsoDate(s).value, start, end)
  }

  /** The range yields (return - pickup) + 1 strings, all distinct, each in
      `yyyy-MM-dd` form and naming a day of the range; every day of the
      range is among them. */
  lemma DateStringsFacts(start: Date, end: Date)
    requires Valid(start) && Valid(end) && DayNumber(start) <= DayNumber(end)
    ensures |DateStrings(start, end)| == DayNumber(end) - DayNumber(start) + 1
    ensures NoDuplicates(DateStrings(start, end))
    ensures forall s :: s in DateStrings(start, end) ==>
              IsIsoShaped(s) && ParseIsoDate(s).Some? && InRange(ParseIsoDate(s).value, start, end)
    ensures forall d :: InRange(d, start, end) ==> FormatDate(d) in DateStrings(start, end)
  {
    var days := EachDayOfInterval(start, end);
    var r := DateStrings(start, end);
    forall i, j | 0 <= i < j < |r| ensures r[i] != r[j] {
      if r[i] == r[j] {
        FormatInjective(days[i], days[j]);
      }
    }
    forall s | s in r
      ensures IsIsoShaped(s) && ParseIsoDate(s).Some? && InRange(ParseIsoDate(s).value, start, end)
    {
      var i :| 0 <= i < |r| && r[i] == s;
      ParseFormat(days[i]);
    }
    forall d | InRange(d, start, end) ensures FormatDate(d) in r {
      EachDayMembership(start, end, d);
      var i :| 0 <= i < |days| && days[i] == d;
      assert r[i] == FormatDate(d);
    }
  }

  /** The new booked-dates list after blocking `pickup`..`return` (both
      stored as `yyyy-MM-dd` text): an Invalid Date or a return before the
      pickup is the date library's "Invalid interval" error. */
  function BlockRange(booked: seq<string>, pickup: string, return_: string): (r: Result<seq<string>>)
  {
    match (ParseIsoDate(pickup), ParseIsoDate(return_))
    case (Some(p), Some(q)) =>
      if DayNumber(p) <= DayNumber(q) then Ok(ArrayUnion(booked, DateStrings(p, q)))
      else Err("Invalid interval")
    case _ => Err("Invalid interval")
  }

  predicate IsInterval(pickup: string, return_: string) {
    ParseIsoDate(pickup).Some? && ParseIsoDate(return_).Some? &&
    DayNumber(ParseIsoDate(pickup).value) <= DayNumber(ParseIsoDate(return_).value)
  }

  /** Blocking succeeds exactly for two real dates in order. */
  lemma BlockRangeSucceeds(booked: seq<string>, pickup: string, return_: string)
    ensures BlockRange(booked, pickup, return_).Ok? <==> IsInterval(pickup, return_)
  {
  }

  /** After blocking, every day from pickup to return inclusive is booked. */
  lemma BlockRangeCovers(booked: seq<string>, pickup: string, return_: string, d: Date)
    requires IsInterval(pickup, return_)
    requires InRange(d, ParseIsoDate(pickup).value, ParseIsoDate(return_).value)
    ensures FormatDate(d) in BlockRange(booked, pickup, return_).value
  {
    DateStringsFacts(ParseIsoDate(pickup).value, ParseIsoDate(return_).value);
  }

  /** Blocking keeps the previous list as a prefix and adds only days of
      the range that were not booked yet. */
  lemma BlockRangeAddsOnlyRange(booked: seq<string>, pickup: string, return_: string)
    requires IsInterval(pickup, return_)
    ensures var r := BlockRange(booked, pickup, return_).value;
      |booked| <= |r| && r[..|booked|] == booked &&
      forall k :: |booked| <= k < |r| ==>
        r[k] !in booked && ParseIsoDate(r[k]).Some? &&
        InRange(ParseIsoDate(r[k]).value, ParseIsoDate(pickup).value, ParseIsoDate(return_).value)
  {
    DateStringsFacts(ParseIsoDate(pickup).value, ParseIsoDate(return_).value);
  }

  /** Blocking the same range a second time gives the same list. */
  lemma BlockRangeIdempotent(booked: seq<string>, pickup: string, return_: string)
    requires IsInterval(pickup, return_)
    ensures BlockRange(BlockRange(booked, pickup, return_).value, pickup, return_)
            == BlockRange(booked, pickup, return_)
  {
    var p, q := ParseIsoDate(pickup).value, ParseIsoDate(return_).value;
    ArrayUnionIdempotent(booked, DateStrings(p, q));
  }

  /** A duplicate-free list stays duplicate-free. */
  lemma BlockRangeNoDuplicates(booked: seq<string>, pickup: string, return_: string)
    requires NoDuplicates(booked) && IsInterval(pickup, return_)
    ensures NoDuplicates(BlockRange(booked, pickup, return_).value)
  {
    var p, q := ParseIsoDate(pickup).value, ParseIsoDate(return_).value;
    ArrayUnionNoDuplicates(booked, DateStrings(p, q));
  }

  /** On a car with none of the range booked, exactly (return - pickup) + 1
      strings are added. */
  lemma BlockRangeFreshCount(booked: seq<string>, pickup: string, return_: string)
    requires IsInterval(pickup, return_)
    requires forall s :: s in booked ==>
               !NamesDayIn(s, ParseIsoDate(pickup).value, ParseIsoDate(return_).value)
    ensures |BlockRange(booked, pickup, return_).value| ==
            |booked| + DayNumber(ParseIsoDate(return_).value) - DayNumber(ParseIsoDate(pickup).value) + 1
  {
    var p, q := ParseIsoDate(pickup).value, ParseIsoDate(return_).value;
    DateStringsFacts(p, q);
    ArrayUnionFreshCount(booked, DateStrings(p, q));
  }
}
