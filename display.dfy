/** What the page derives for display: Python `round` of the average, the fixed
    mood-to-emoji map, and the log table sorted by its `YYYY-MM-DD` text. */
module Display {
  import opened Optional
  import opened Calendar
  import opened JournalStore

  /** The emoji map used by the mood picker, the weekly metric and the log:
      1 to 5, and nothing for any other key. */
  function MoodEmoji(m: int): (g: Option<string>)
    ensures g.Some? <==> 1 <= m <= 5
  {
    if m == 1 then Some("😞")
    else if m == 2 then Some("😐")
    else if m == 3 then Some("🙂")
    else if m == 4 then Some("😊")
    else if m == 5 then Some("😄")
    else None
  }

  /** The five moods have five different emoji. */
  lemma MoodEmojiDistinct(m: int, n: int)
    requires 1 <= m <= 5 && 1 <= n <= 5 && m != n
    ensures MoodEmoji(m) != MoodEmoji(n)
  {
  }

  /** Python's `round` on a number: the nearest integer, and on a tie the even one. */
  function RoundHalfEven(x: real): (r: int)
    ensures x - 0.5 <= r as real <= x + 0.5
    ensures (r as real == x - 0.5 || r as real == x + 0.5) ==> r % 2 == 0
  {
    var f := x.Floor;
    var frac := x - f as real;
    if frac < 0.5 then f
    else if frac > 0.5 then f + 1
    else if f % 2 == 0 then f
    else f + 1
  }

  /** The two properties of `RoundHalfEven` determine it. */
  lemma RoundUnique(x: real, k: int)
    requires x - 0.5 <= k as real <= x + 0.5
    requires (k as real == x - 0.5 || k as real == x + 0.5) ==> k % 2 == 0
    ensures k == RoundHalfEven(x)
  {
  }

  /** An average in [1, 5] rounds to a mood in 1..5. */
  lemma RoundInRange(x: real)
    requires 1.0 <= x <= 5.0
    ensures 1 <= RoundHalfEven(x) <= 5
  {
  }

  /** `mood_emoji.get(round(avg), "😐")`. */
  function AverageEmoji(avg: real): string {
    match MoodEmoji(RoundHalfEven(avg))
    case Some(g) => g
    case None => "😐"
  }

  /** For an average in [1, 5] the emoji is the rounded mood's own; the fallback
      is never taken. */
  lemma AverageEmojiNoFallback(avg: real)
    requires 1.0 <= avg <= 5.0
    ensures MoodEmoji(RoundHalfEven(avg)).Some?
    ensures AverageEmoji(avg) == MoodEmoji(RoundHalfEven(avg)).value
  {
  }

  /** One line of the log table: date text, mood emoji (missing for a mood the
      map lacks, as pandas `map` gives NaN), note. */
  datatype LogRow = LogRow(date: string, mood: Option<string>, journal: string)

  /** `strftime('%Y-%m-%d')` on the date, `map(mood_emoji_map)` on the mood. */
  function ToRow(e: Entry): LogRow {
    LogRow(FormatIso(e.date), MoodEmoji(e.mood), e.journal)
  }

  /** One display row per entry, in order: its date text reads back as the
      entry's date, its emoji is the mood's `MoodEmoji` (so present exactly
      when the mood is on the 1..5 scale), and the note is unchanged. */
  function Rows(es: seq<Entry>): (rs: seq<LogRow>)
    ensures |rs| == |es|
    ensures forall k | 0 <= k < |es| :: ParseIso(rs[k].date) == Some(es[k].date)
    ensures forall k | 0 <= k < |es| :: rs[k].mood == MoodEmoji(es[k].mood)
    ensures forall k | 0 <= k < |es| :: rs[k].mood.Some? <==> 1 <= es[k].mood <= 5
    ensures forall k | 0 <= k < |es| :: rs[k].journal == es[k].journal
  {
    var rs := seq(|es|, k requires 0 <= k < |es| => ToRow(es[k]));
    assert forall k | 0 <= k < |es| :: ParseIso(rs[k].date) == Some(es[k].date) by {
      forall k | 0 <= k < |es| ensures ParseIso(rs[k].date) == Some(es[k].date) {
        ParseFormat(es[k].date);
      }
    }
    rs
  }

  /** No row's date text sorts after an earlier one's. */
  predicate DescendingByDate(rs: seq<LogRow>) {
    forall i, j | 0 <= i < j < |rs| :: !LexLess(rs[i].date, rs[j].date)
  }

  /** `!LexLess` is transitive: the log order is a total preorder. */
  lemma NotLessTransitive(a: string, b: string, c: string)
    requires !LexLess(a, b) && !LexLess(b, c)
    ensures !LexLess(a, c)
  {
  }

  /** A row whose date text is not below any of a descending list's may go first. */
  lemma PrependDescending(x: LogRow, rs: seq<LogRow>)
    requires DescendingByDate(rs)
    requires forall y | y in rs :: !LexLess(x.date, y.date)
    ensures DescendingByDate([x] + rs)
  {
  }

  /** Puts `x` before the first row whose date text is not above its own. */
  function Insert(x: LogRow, rs: seq<LogRow>): (r: seq<LogRow>)
    requires DescendingByDate(rs)
    ensures multiset(r) == multiset(rs) + multiset{x}
    ensures DescendingByDate(r)
    decreases |rs|
  {
    if rs == [] then [x]
    else if !LexLess(x.date, rs[0].date) then
      InsertFirst(x, rs);
      [x] + rs
    else
      var tail := Insert(x, rs[1..]);
      InsertLater(x, rs, tail);
      [rs[0]] + tail
  }

  lemma InsertFirst(x: LogRow, rs: seq<LogRow>)
    requires DescendingByDate(rs) && rs != [] && !LexLess(x.date, rs[0].date)
    ensures DescendingByDate([x] + rs)
  {
    forall y | y in rs ensures !LexLess(x.date, y.date) {
      var j :| 0 <= j < |rs| && rs[j] == y;
      if j > 0 {
        NotLessTransitive(x.date, rs[0].date, y.date);
      }
    }
    PrependDescending(x, rs);
  }

  lemma InsertLater(x: LogRow, rs: seq<LogRow>, tail: seq<LogRow>)
    requires DescendingByDate(rs) && rs != [] && LexLess(x.date, rs[0].date)
    requires multiset(tail) == multiset(rs[1..]) + multiset{x} && DescendingByDate(tail)
    ensures multiset([rs[0]] + tail) == multiset(rs) + multiset{x}
    ensures DescendingByDate([rs[0]] + tail)
  {
    assert rs == [rs[0]] + rs[1..];
    forall y | y in tail ensures !LexLess(rs[0].date, y.date) {
      assert y in multiset(tail);
      if y == x {
        if LexLess(rs[0].date, x.date) {
          LexLessTransitive(x.date, rs[0].date, x.date);
          LexLessIrreflexive(x.date);
        }
      } else {
        assert y in multiset(rs[1..]);
        var j :| 0 <= j < |rs[1..]| && rs[1..][j] == y;
        assert rs[j + 1] == y;
      }
    }
    PrependDescending(rs[0], tail);
  }

  /** `sort_values(date, ascending=False)`: a permutation of the rows whose date
      texts do not increase. */
  function SortDescending(rs: seq<LogRow>): (r: seq<LogRow>)
    ensures multiset(r) == multiset(rs)
    ensures DescendingByDate(r)
    decreases |rs|
  {
    if rs == [] then []
    else
      assert rs == [rs[0]] + rs[1..];
      Insert(rs[0], SortDescending(rs[1..]))
  }

  /** The log table, newest date first. */
  function LogOf(es: seq<Entry>): seq<LogRow> {
    SortDescending(Rows(es))
  }

  /** The log holds one row per entry and lists the entries newest first: of two
      rows, the upper one's date is not earlier in the calendar. */
  lemma LogNewestFirst(es: seq<Entry>)
    ensures multiset(LogOf(es)) == multiset(Rows(es))
    ensures forall i, j, a, b |
              0 <= i < j < |LogOf(es)| && LogOf(es)[i] == ToRow(a) && LogOf(es)[j] == ToRow(b) ::
              Ordinal(a.date) >= Ordinal(b.date)
  {
    var log := LogOf(es);
    forall i, j, a, b |
      0 <= i < j < |log| && log[i] == ToRow(a) && log[j] == ToRow(b)
      ensures Ordinal(a.date) >= Ordinal(b.date)
    {
      assert !LexLess(log[i].date, log[j].date);
      FormatOrder(a.date, b.date);
    }
  }

  /** An entry of 2024-01-20 is listed above one of 2024-01-10. */
  lemma LaterDateListedFirst(m1: int, m2: int, j1: string, j2: string)
    ensures var early, late := Entry(Ymd(2024, 1, 10), m1, j1), Entry(Ymd(2024, 1, 20), m2, j2);
            LogOf([early, late]) == [ToRow(late), ToRow(early)]
  {
    var early, late := Entry(Ymd(2024, 1, 10), m1, j1), Entry(Ymd(2024, 1, 20), m2, j2);
    var r1, r2 := ToRow(early), ToRow(late);
    assert Ordinal(early.date) < Ordinal(late.date);
    FormatOrder(early.date, late.date);
    assert LexLess(r1.date, r2.date);
    var rows := Rows([early, late]);
    assert rows[0] == r1 && rows[1] == r2;
    assert rows == [r1, r2];
    assert [r1, r2][1..] == [r2];
    assert SortDescending([r2]) == [r2];
    assert Insert(r1, [r2]) == [r2, r1];
  }
}
