/** `calculate_weekly_average`: the mean mood of the entries dated in the seven
    days ending today, or `None` when there are none. `today` is a parameter and
    the mean is an exact real. */
module Weekly {
  import opened Optional
  import opened Calendar
  import opened JournalStore

  /** Day `day` lies in `[today - 6, today]`, both ends included. */
  predicate InWindow(day: int, today: int) {
    today - 6 <= day <= today
  }

  predicate InWeek(e: Entry, today: Date) {
    InWindow(Ordinal(e.date), Ordinal(today))
  }

  /** The rows the date filter keeps, in their original order. */
  function WeekEntries(es: seq<Entry>, today: Date): seq<Entry>
    decreases |es|
  {
    if es == [] then []
    else (if InWeek(es[0], today) then [es[0]] else []) + WeekEntries(es[1..], today)
  }

  function MoodSum(es: seq<Entry>): int
    decreases |es|
  {
    if es == [] then 0 else es[0].mood + MoodSum(es[1..])
  }

  /** Each entry occurs in the filtered rows as often as in `es` when it is dated
      in the window, and not at all otherwise. */
  lemma {:induction false} WeekEntriesCount(es: seq<Entry>, today: Date, e: Entry)
    ensures multiset(WeekEntries(es, today))[e] == if InWeek(e, today) then multiset(es)[e] else 0
    decreases |es|
  {
    if es != [] {
      assert es == [es[0]] + es[1..];
      WeekEntriesCount(es[1..], today, e);
    }
  }

  /** An entry is counted by the filter exactly when it is dated in the window. */
  lemma WeekMembers(es: seq<Entry>, today: Date, e: Entry)
    ensures e in WeekEntries(es, today) <==> e in es && InWeek(e, today)
  {
  }

  /** The weekly average: `None` exactly when no entry is dated in the window,
      otherwise the sum of the in-window moods over their count. */
  function WeeklyAverage(es: seq<Entry>, today: Date): (r: Option<real>)
    ensures r.None? <==> forall e | e in es :: !InWeek(e, today)
    ensures r.Some? <==> |WeekEntries(es, today)| > 0
    ensures r.Some? ==> r.value == MoodSum(WeekEntries(es, today)) as real / |WeekEntries(es, today)| as real
  {
    var w := WeekEntries(es, today);
    if |w| == 0 then
      assert forall e | e in es :: !InWeek(e, today) by {
        forall e | e in es ensures !InWeek(e, today) {
          WeekMembers(es, today, e);
        }
      }
      None
    else
      WeekMembers(es, today, w[0]);
      Some(MoodSum(w) as real / |w| as real)
  }

  /** The window's edges: six days ago and today are counted, seven days ago and
      tomorrow are not. */
  lemma WindowEdges(es: seq<Entry>, today: Date, e: Entry)
    requires e in es
    ensures Ordinal(e.date) == Ordinal(today) - 6 ==> e in WeekEntries(es, today)
    ensures Ordinal(e.date) == Ordinal(today) ==> e in WeekEntries(es, today)
    ensures Ordinal(e.date) == Ordinal(today) - 7 ==> e !in WeekEntries(es, today)
    ensures Ordinal(e.date) == Ordinal(today) + 1 ==> e !in WeekEntries(es, today)
  {
    WeekMembers(es, today, e);
  }

  /** Saving one more entry adds it to the week's entries exactly when it is
      dated in the window. */
  lemma {:induction false} WeekEntriesAppend(es: seq<Entry>, e: Entry, today: Date)
    ensures WeekEntries(es + [e], today)
         == WeekEntries(es, today) + (if InWeek(e, today) then [e] else [])
    decreases |es|
  {
    if es == [] {
      assert [] + [e] == [e];
    } else {
      assert (es + [e])[1..] == es[1..] + [e];
      WeekEntriesAppend(es[1..], e, today);
    }
  }

  lemma {:induction false} MoodSumBounds(es: seq<Entry>)
    requires forall e | e in es :: 1 <= e.mood <= 5
    ensures |es| <= MoodSum(es) <= 5 * |es|
    decreases |es|
  {
    if es != [] {
      assert es[0] in es;
      assert forall e | e in es[1..] :: e in es;
      MoodSumBounds(es[1..]);
    }
  }

  /** With every in-window mood on the 1..5 scale the average lies in [1, 5]. */
  lemma AverageInRange(es: seq<Entry>, today: Date)
    requires forall e | e in es && InWeek(e, today) :: 1 <= e.mood <= 5
    ensures WeeklyAverage(es, today).Some? ==> 1.0 <= WeeklyAverage(es, today).value <= 5.0
  {
    var w := WeekEntries(es, today);
    forall e | e in w ensures 1 <= e.mood <= 5 {
      WeekMembers(es, today, e);
    }
    MoodSumBounds(w);
    if |w| > 0 {
      RatioBounds(MoodSum(w), |w|);
    }
  }

  lemma RatioBounds(s: int, n: int)
    requires 0 < n <= s <= 5 * n
    ensures 1.0 <= s as real / n as real <= 5.0
  {
  }

  /** When every entry is dated in the window, the filter keeps them all. */
  lemma {:induction false} WeekEntriesAll(es: seq<Entry>, today: Date)
    requires forall e | e in es :: InWeek(e, today)
    ensures WeekEntries(es, today) == es
    decreases |es|
  {
    if es != [] {
      assert es[0] in es;
      assert forall e | e in es[1..] :: e in es;
      WeekEntriesAll(es[1..], today);
    }
  }

  /** Moods 5, 3 and 1 recorded for 2024-01-09, 2024-01-12 and 2024-01-15
      average to 3 on 2024-01-15. */
  lemma ThreeMoodsExample(j: string)
    ensures var today := Ymd(2024, 1, 15);
            WeeklyAverage([Entry(Ymd(2024, 1, 9), 5, j), Entry(Ymd(2024, 1, 12), 3, j), Entry(today, 1, j)], today)
            == Some(3.0)
  {
    var today := Ymd(2024, 1, 15);
    var es := [Entry(Ymd(2024, 1, 9), 5, j), Entry(Ymd(2024, 1, 12), 3, j), Entry(today, 1, j)];
    assert Ordinal(Ymd(2024, 1, 9)) == Ordinal(today) - 6;
    assert Ordinal(Ymd(2024, 1, 12)) == Ordinal(today) - 3;
    WeekEntriesAll(es, today);
    assert MoodSum(es) == 9 by {
      assert es[1..] == [Entry(Ymd(2024, 1, 12), 3, j), Entry(today, 1, j)];
      assert es[1..][1..] == [Entry(today, 1, j)];
      assert MoodSum([Entry(today, 1, j)]) == 1;
    }
  }
}
