/** The daily forecast aggregation of app.py:134-142: walk the forecast
    samples in order, split each `dt_txt` at the space into a date and a
    time, and add `date -> temp` to an insertion-ordered dict when the time
    is noon and the date is not yet a key. */
module Forecast {
  import Text

  /** One entry of the forecast's `list`: its `dt_txt` and `main.temp`. */
  datatype Sample = Sample(dtTxt: string, temp: real)

  /** One entry of the resulting dict, in insertion order. */
  datatype Point = Point(date: string, temp: real)

  const Noon := "12:00:00"

  /** Line 138 reads field 1 of `dt_txt.split(" ")`, so every `dt_txt` must
      hold a space; otherwise the script raises. */
  predicate WellFormed(samples: seq<Sample>)
  {
    forall i :: 0 <= i < |samples| ==> ' ' in samples[i].dtTxt
  }

  /** `dt_txt.split(" ")[0]`: it ends at the first space of `dt_txt`, or
      at its end when there is none (`DatePartIsPrefix` adds that it is
      the start of `dt_txt`). */
  function DatePart(dtTxt: string): (date: string)
    ensures |date| <= |dtTxt|
    ensures |date| < |dtTxt| ==> dtTxt[|date|] == ' '
  {
    Text.SplitFirstPrefix(dtTxt, ' ');
    Text.SplitFirstEnd(dtTxt, ' ');
    Text.Split(dtTxt, ' ')[0]
  }

  /** `dt_txt.split(" ")[1]`: it fits after the date and the first space
      (`TimePartFollowsDate` adds that it is the text found there). */
  function TimePart(dtTxt: string): (time: string)
    requires ' ' in dtTxt
    ensures |DatePart(dtTxt)| + 1 + |time| <= |dtTxt|
  {
    Text.SplitFirstTwo(dtTxt, ' ');
    Text.Split(dtTxt, ' ')[1]
  }

  /** The date is the start of `dt_txt`. */
  lemma DatePartIsPrefix(dtTxt: string)
    ensures DatePart(dtTxt) == dtTxt[..|DatePart(dtTxt)|]
  {
    Text.SplitFirstPrefix(dtTxt, ' ');
  }

  /** The time is the text right after the date and the first space. */
  lemma TimePartFollowsDate(dtTxt: string)
    requires ' ' in dtTxt
    ensures |DatePart(dtTxt)| + 1 + |TimePart(dtTxt)| <= |dtTxt|
    ensures TimePart(dtTxt) == dtTxt[|DatePart(dtTxt)| + 1..|DatePart(dtTxt)| + 1 + |TimePart(dtTxt)|]
  {
    Text.SplitFirstTwo(dtTxt, ' ');
    var fields := Text.Split(dtTxt, ' ');
    assert dtTxt[..|fields[0]| + 1 + |fields[1]|] == fields[0] + [' '] + fields[1];
  }

  /** The date holds no space, so the space after it is the first one. */
  lemma DatePartHasNoSpace(dtTxt: string)
    ensures ' ' !in DatePart(dtTxt)
  {
    Text.SplitFieldsFree(dtTxt, ' ');
  }

  /** The time holds no space. */
  lemma TimePartHasNoSpace(dtTxt: string)
    requires ' ' in dtTxt
    ensures ' ' !in TimePart(dtTxt)
  {
    Text.SplitHasTwoFields(dtTxt, ' ');
    Text.SplitFieldsFree(dtTxt, ' ');
  }

  /** The time ends at the next space or at the end of `dt_txt`. */
  lemma TimePartEnds(dtTxt: string)
    requires ' ' in dtTxt
    ensures var e := |DatePart(dtTxt)| + 1 + |TimePart(dtTxt)|;
      e == |dtTxt| || (e < |dtTxt| && dtTxt[e] == ' ')
  {
    Text.SplitFirstTwo(dtTxt, ' ');
    Text.SplitFieldsFree(dtTxt, ' ');
    var f0 := Text.Split(dtTxt, ' ')[0];
    var rest := dtTxt[|f0| + 1..];
    assert dtTxt == f0 + [' '] + rest;
    Text.SplitAfterField(f0, ' ', rest);
    Text.SplitFirstEnd(rest, ' ');
    assert TimePart(dtTxt) == Text.Split(rest, ' ')[0];
  }

  predicate IsNoon(s: Sample)
    requires ' ' in s.dtTxt
  {
    TimePart(s.dtTxt) == Noon
  }

  function PointOf(s: Sample): Point
  {
    Point(DatePart(s.dtTxt), s.temp)
  }

  /** The keys of the dict. */
  function Dates(daily: seq<Point>): set<string>
  {
    set k | 0 <= k < |daily| :: daily[k].date
  }

  /** The dict after the loop has seen the first `n` samples. */
  function DailyUpTo(samples: seq<Sample>, n: nat): seq<Point>
    requires WellFormed(samples) && n <= |samples|
  {
    if n == 0 then []
    else
      var prev := DailyUpTo(samples, n - 1);
      var s := samples[n - 1];
      if IsNoon(s) && DatePart(s.dtTxt) !in Dates(prev) then prev + [PointOf(s)] else prev
  }

  /** The dict after the whole forecast. */
  function Daily(samples: seq<Sample>): seq<Point>
    requires WellFormed(samples)
  {
    DailyUpTo(samples, |samples|)
  }

  /** The loop of app.py:134-142, with the dict as its entries in insertion
      order plus the set of its keys for the membership test. */
  method DailyForecast(samples: seq<Sample>) returns (daily: seq<Point>)
    requires WellFormed(samples)
    ensures daily == Daily(samples)
  {
    daily := [];
    var keys: set<string> := {};
    for i := 0 to |samples|
      invariant daily == DailyUpTo(samples, i)
      invariant keys == Dates(daily)
    {
      var item := samples[i];
      Text.SplitHasTwoFields(item.dtTxt, ' ');
      var date := Text.Split(item.dtTxt, ' ')[0];
      var time := Text.Split(item.dtTxt, ' ')[1];
      assert date == DatePart(item.dtTxt) && (time == Noon <==> IsNoon(item));
      if time == Noon && date !in keys {
        DatesAppend(daily, Point(date, item.temp));
        daily := daily + [Point(date, item.temp)];
        keys := keys + {date};
      }
    }
  }

  lemma DatesAppend(daily: seq<Point>, p: Point)
    ensures Dates(daily + [p]) == Dates(daily) + {p.date}
  {
    var d := daily + [p];
    assert d[|daily|] == p;
    forall x | x in Dates(daily) ensures x in Dates(d) {
      var k :| 0 <= k < |daily| && daily[k].date == x;
      assert d[k] == daily[k];
    }
  }

  // ----- The reference: the first noon sample of each date -----

  /** The dates of the noon samples among the first `n`. */
  function NoonDates(samples: seq<Sample>, n: nat): set<string>
    requires WellFormed(samples) && n <= |samples|
  {
    set j | 0 <= j < n && IsNoon(samples[j]) :: DatePart(samples[j].dtTxt)
  }

  /** Sample `j` is a noon sample of date `date`. */
  predicate NoonOn(samples: seq<Sample>, j: nat, date: string)
    requires WellFormed(samples) && j < |samples|
  {
    IsNoon(samples[j]) && DatePart(samples[j].dtTxt) == date
  }

  /** Sample `i` is a noon sample, and no earlier noon sample has its date. */
  predicate IsFirstNoon(samples: seq<Sample>, i: nat)
    requires WellFormed(samples) && i < |samples|
  {
    && IsNoon(samples[i])
    && forall j :: 0 <= j < i ==> !NoonOn(samples, j, DatePart(samples[i].dtTxt))
  }

  /** The first noon sample of each date among the first `n`, as points,
      in input order: a filter over the input positions. */
  function FirstNoonPoints(samples: seq<Sample>, n: nat): seq<Point>
    requires WellFormed(samples) && n <= |samples|
  {
    if n == 0 then []
    else FirstNoonPoints(samples, n - 1) + (if IsFirstNoon(samples, n - 1) then [PointOf(samples[n - 1])] else [])
  }

  /** The keys after `n` samples are the dates of the noon samples so far. */
  lemma {:induction false} DatesUpTo(samples: seq<Sample>, n: nat)
    requires WellFormed(samples) && n <= |samples|
    ensures Dates(DailyUpTo(samples, n)) == NoonDates(samples, n)
  {
    if n > 0 {
      DatesUpTo(samples, n - 1);
      var prev := DailyUpTo(samples, n - 1);
      var s := samples[n - 1];
      if IsNoon(s) && DatePart(s.dtTxt) !in Dates(prev) {
        DatesAppend(prev, PointOf(s));
      }
      NoonDatesStep(samples, n);
    }
  }

  /** One more sample adds its date to the noon dates when it is a noon sample. */
  lemma NoonDatesStep(samples: seq<Sample>, n: nat)
    requires WellFormed(samples) && 0 < n <= |samples|
    ensures NoonDates(samples, n)
        == NoonDates(samples, n - 1) + (if IsNoon(samples[n - 1]) then {DatePart(samples[n - 1].dtTxt)} else {})
  {
  }

  /** The membership test `date not in daily_forecast` at sample `n - 1`
      says exactly that it is the first noon sample of its date. */
  lemma FreshKeyIsFirstNoon(samples: seq<Sample>, n: nat)
    requires WellFormed(samples) && 0 < n <= |samples|
    ensures var s := samples[n - 1];
      IsNoon(s) && DatePart(s.dtTxt) !in Dates(DailyUpTo(samples, n - 1))
      <==> IsFirstNoon(samples, n - 1)
  {
    DatesUpTo(samples, n - 1);
    var s := samples[n - 1];
    var date := DatePart(s.dtTxt);
    if IsNoon(s) && date in NoonDates(samples, n - 1) {
      var j :| 0 <= j < n - 1 && IsNoon(samples[j]) && DatePart(samples[j].dtTxt) == date;
      assert NoonOn(samples, j, date);
    }
    if IsNoon(s) && !IsFirstNoon(samples, n - 1) {
      var j :| 0 <= j < n - 1 && NoonOn(samples, j, date);
      assert date in NoonDates(samples, n - 1);
    }
  }

  /** The dict holds, in input order, the first noon sample of every date
      that has one. */
  lemma {:induction false} DailyIsFirstNoonSamples(samples: seq<Sample>, n: nat)
    requires WellFormed(samples) && n <= |samples|
    ensures DailyUpTo(samples, n) == FirstNoonPoints(samples, n)
  {
    if n > 0 {
      DailyIsFirstNoonSamples(samples, n - 1);
      FreshKeyIsFirstNoon(samples, n);
    }
  }

  /** Every entry after `n` samples is the point of a first noon sample
      among them. */
  lemma {:induction false} EntryOrigin(samples: seq<Sample>, n: nat, k: nat)
    requires WellFormed(samples) && n <= |samples| && k < |DailyUpTo(samples, n)|
    ensures exists i :: 0 <= i < n && IsFirstNoon(samples, i) && DailyUpTo(samples, n)[k] == PointOf(samples[i])
  {
    if n > 0 {
      var prev := DailyUpTo(samples, n - 1);
      FreshKeyIsFirstNoon(samples, n);
      if k < |prev| {
        EntryOrigin(samples, n - 1, k);
        var i :| 0 <= i < n - 1 && IsFirstNoon(samples, i) && prev[k] == PointOf(samples[i]);
        assert DailyUpTo(samples, n)[k] == prev[k];
      } else {
        assert DailyUpTo(samples, n)[k] == PointOf(samples[n - 1]);
      }
    }
  }

  /** After `n` samples, entries `k < l` are the points of first noon
      samples at positions `i < j`. */
  lemma {:induction false} OrderUpTo(samples: seq<Sample>, n: nat, k: nat, l: nat)
    requires WellFormed(samples) && n <= |samples| && k < l < |DailyUpTo(samples, n)|
    ensures exists i, j ::
      && 0 <= i < j < n
      && IsFirstNoon(samples, i) && IsFirstNoon(samples, j)
      && DailyUpTo(samples, n)[k] == PointOf(samples[i])
      && DailyUpTo(samples, n)[l] == PointOf(samples[j])
  {
    if n > 0 {
      FreshKeyIsFirstNoon(samples, n);
      var prev := DailyUpTo(samples, n - 1);
      var d := DailyUpTo(samples, n);
      assert d[k] == prev[k];
      if l < |prev| {
        OrderUpTo(samples, n - 1, k, l);
        assert d[l] == prev[l];
        var i, j :| 0 <= i < j < n - 1 && IsFirstNoon(samples, i) && IsFirstNoon(samples, j)
          && prev[k] == PointOf(samples[i]) && prev[l] == PointOf(samples[j]);
      } else {
        EntryOrigin(samples, n - 1, k);
        var i :| 0 <= i < n - 1 && IsFirstNoon(samples, i) && prev[k] == PointOf(samples[i]);
        assert d[l] == PointOf(samples[n - 1]);
      }
    }
  }

  // ----- Properties of the result -----

  /** Every entry comes from a noon sample with that date and temperature,
      the first such sample for the date; later noon samples of the same
      date are ignored. */
  lemma EntriesAreFirstNoonSamples(samples: seq<Sample>, k: nat)
    requires WellFormed(samples) && k < |Daily(samples)|
    ensures exists i ::
      && 0 <= i < |samples|
      && IsFirstNoon(samples, i)
      && Daily(samples)[k] == Point(DatePart(samples[i].dtTxt), samples[i].temp)
  {
    EntryOrigin(samples, |samples|, k);
  }

  /** Every date that has a noon sample gets an entry, and no other date. */
  lemma NoonDatesAreKeys(samples: seq<Sample>)
    requires WellFormed(samples)
    ensures Dates(Daily(samples)) == NoonDates(samples, |samples|)
  {
    DatesUpTo(samples, |samples|);
  }

  /** Entries appear in the order in which the first noon sample of their
      date appears in the input. */
  lemma EntriesInInputOrder(samples: seq<Sample>, k: nat, l: nat)
    requires WellFormed(samples) && k < l < |Daily(samples)|
    ensures exists i, j ::
      && 0 <= i < j < |samples|
      && IsFirstNoon(samples, i) && IsFirstNoon(samples, j)
      && Daily(samples)[k] == PointOf(samples[i])
      && Daily(samples)[l] == PointOf(samples[j])
  {
    OrderUpTo(samples, |samples|, k, l);
  }

  /** No date is the key of two entries. */
  predicate DistinctDates(daily: seq<Point>)
  {
    forall k, l :: 0 <= k < l < |daily| ==> daily[k].date != daily[l].date
  }

  /** Each date is a key at most once. */
  lemma {:induction false} DatesDistinct(samples: seq<Sample>, n: nat)
    requires WellFormed(samples) && n <= |samples|
    ensures DistinctDates(DailyUpTo(samples, n))
  {
    if n > 0 {
      DatesDistinct(samples, n - 1);
      var prev := DailyUpTo(samples, n - 1);
      var s := samples[n - 1];
      if IsNoon(s) && DatePart(s.dtTxt) !in Dates(prev) {
        var d := prev + [PointOf(s)];
        forall k, l | 0 <= k < l < |d| ensures d[k].date != d[l].date {
          if l == |prev| {
            assert d[l] == PointOf(s) && d[l].date == DatePart(s.dtTxt);
            assert d[k] == prev[k] && prev[k].date in Dates(prev);
          } else {
            assert d[k] == prev[k] && d[l] == prev[l];
          }
        }
      }
    }
  }

  /** Distinct dates: there are as many keys as entries. */
  lemma {:induction false} DistinctDatesCount(daily: seq<Point>)
    requires DistinctDates(daily)
    ensures |Dates(daily)| == |daily|
  {
    if |daily| > 0 {
      var prefix := daily[..|daily| - 1];
      DistinctDatesCount(prefix);
      DatesAppend(prefix, daily[|daily| - 1]);
      assert prefix + [daily[|daily| - 1]] == daily;
      assert daily[|daily| - 1].date !in Dates(prefix);
    }
  }

  /** All dates of the input. */
  function AllDates(samples: seq<Sample>): set<string>
  {
    set i | 0 <= i < |samples| :: DatePart(samples[i].dtTxt)
  }

  /** There are never more entries than distinct dates in the input. */
  lemma AtMostOnePerDate(samples: seq<Sample>)
    requires WellFormed(samples)
    ensures |Daily(samples)| <= |AllDates(samples)|
  {
    DatesDistinct(samples, |samples|);
    assert Daily(samples) == DailyUpTo(samples, |samples|);
    DistinctDatesCount(Daily(samples));
    NoonDatesAreKeys(samples);
    assert NoonDates(samples, |samples|) <= AllDates(samples);
    SubsetCard(NoonDates(samples, |samples|), AllDates(samples));
  }

  lemma SubsetCard(a: set<string>, b: set<string>)
    requires a <= b
    ensures |a| <= |b|
  {
    assert b == a + (b - a);
  }

  /** A `dt_txt` of a date, one space and a time splits back into the two. */
  lemma DateTimeParts(date: string, time: string)
    requires ' ' !in date && ' ' !in time
    ensures ' ' in date + " " + time
    ensures DatePart(date + " " + time) == date && TimePart(date + " " + time) == time
  {
    var dt := date + " " + time;
    assert dt[|date|] == ' ';
    assert Text.Join(" ", [date, time]) == dt;
    Text.SplitJoin([date, time], ' ');
  }

  /** What the loop sees of a sample whose `dt_txt` is a date, one space
      and a time. */
  lemma SampleParts(date: string, time: string, temp: real)
    requires ' ' !in date && ' ' !in time
    ensures var s := Sample(date + " " + time, temp);
      && ' ' in s.dtTxt
      && PointOf(s) == Point(date, temp)
      && (IsNoon(s) <==> time == Noon)
  {
    DateTimeParts(date, time);
  }

  /** A sample at another time is ignored, and of two noon samples of one
      day the first one's temperature is kept. */
  lemma FirstNoonWinsExample(day: string, other: string, t1: real, t2: real, t3: real)
    requires ' ' !in day && ' ' !in other && other != Noon
    ensures var samples := [Sample(day + " " + other, t1), Sample(day + " " + Noon, t2), Sample(day + " " + Noon, t3)];
      WellFormed(samples) && Daily(samples) == [Point(day, t2)]
  {
    assert ' ' !in Noon;
    SampleParts(day, other, t1);
    SampleParts(day, Noon, t2);
    SampleParts(day, Noon, t3);
    var samples := [Sample(day + " " + other, t1), Sample(day + " " + Noon, t2), Sample(day + " " + Noon, t3)];
    assert DailyUpTo(samples, 1) == [];
    assert DailyUpTo(samples, 2) == [Point(day, t2)];
    DatesAppend([], Point(day, t2));
    assert [] + [Point(day, t2)] == [Point(day, t2)];
  }
}
