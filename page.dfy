/** The page script: the submit guard of the entry form, and the statistics
    and log sections that read the file back. Widgets and layout are not
    modelled; what the page shows is the `View` value. */
module Page {
  import opened Optional
  import opened Calendar
  import opened Text
  import opened JournalStore
  import opened Weekly
  import opened Display

  // ----- the entry form -----

  /** `journal_text.strip()` is truthy. */
  predicate HasText(journal: string) {
    Strip(journal) != []
  }

  /** The file after a submit: saved when the note has text, untouched otherwise. */
  function AfterSubmit(f: File, e: Entry): File {
    if HasText(e.journal) then Saved(f, e) else f
  }

  /** An empty or all-whitespace note writes nothing; any other note adds
      exactly its entry after the existing rows. */
  lemma SubmitGuard(f: File, e: Entry)
    ensures AllSpace(e.journal) ==> AfterSubmit(f, e) == f
    ensures !AllSpace(e.journal) ==> Loaded(AfterSubmit(f, e)) == Loaded(f) + [e]
    ensures !AllSpace(e.journal) ==> |Loaded(AfterSubmit(f, e))| == |Loaded(f)| + 1
  {
  }

  /** The submit branch of the form, which hands over the picked date, the
      mood from the 1..5 picker and the note: save the note as typed (not
      stripped). */
  method SubmitForm(file: CsvFile, s: Entry) returns (saved: bool)
    modifies file
    ensures saved == HasText(s.journal)
    ensures file.Contents() == AfterSubmit(old(file.Contents()), s)
  {
    saved := Strip(s.journal) != [];
    if saved {
      file.SaveEntry(s.date, s.mood, s.journal);
    }
  }

  // ----- frames and their columns -----

  /** Assigning `df[name]` adds the column unless it is already there. */
  function WithColumn(columns: seq<string>, name: string): seq<string> {
    if name in columns then columns else columns + [name]
  }

  /** `calculate_weekly_average(df)`: besides the average it leaves a `date_only`
      column in the caller's frame. */
  method CalculateWeeklyAverage(df: Frame, today: Date) returns (avg: Option<real>)
    modifies df
    ensures df.rows == old(df.rows)
    ensures df.columns == WithColumn(old(df.columns), "date_only")
    ensures avg == WeeklyAverage(df.rows, today)
  {
    df.columns := WithColumn(df.columns, "date_only");
    avg := WeeklyAverage(df.rows, today);
  }

  /** The display names of the log table's columns (date, mood, journal). */
  const DisplayColumns: seq<string> := ["날짜", "기분", "일기"]

  datatype PageError = ColumnCountMismatch(columns: nat, names: nat)

  /** `df.columns = names`: pandas refuses a list whose length differs. */
  function SetColumns(columns: seq<string>, names: seq<string>): Result<seq<string>, PageError> {
    if |columns| == |names| then Ok(names) else Err(ColumnCountMismatch(|columns|, |names|))
  }

  /** The log section on a frame copy with these columns: format the dates, map
      the moods, rename the columns, sort newest first. */
  function DisplayLog(columns: seq<string>, es: seq<Entry>): Result<seq<LogRow>, PageError> {
    match SetColumns(columns, DisplayColumns)
    case Err(e) => Err(e)
    case Ok(_) => Ok(LogOf(es))
  }

  /** A frame that went through `calculate_weekly_average` has four columns, so
      the renaming of the log section fails on it. */
  lemma AverageBreaksRenaming(es: seq<Entry>)
    ensures WithColumn(Header, "date_only") == ["date", "mood", "journal", "date_only"]
    ensures DisplayLog(WithColumn(Header, "date_only"), es) == Err(ColumnCountMismatch(4, 3))
    ensures DisplayLog(Header, es) == Ok(LogOf(es))
  {
  }

  // ----- what the page shows -----

  /** The statistics section: no rows at all, no row this week, or the metric. */
  datatype Summary = NoRecords | NoneThisWeek | Metric(average: real, rounded: int, emoji: string)

  /** The page below the form; an empty log is the "no records yet" message. */
  datatype View = View(summary: Summary, log: seq<LogRow>)

  /** A run that raised: the statistics section already drawn, and the error
      Streamlit shows below it. */
  datatype Crash = Crash(shown: Summary, error: PageError)

  function SummaryOf(es: seq<Entry>, today: Date): Summary {
    if es == [] then NoRecords
    else match WeeklyAverage(es, today)
      case None => NoneThisWeek
      case Some(avg) => Metric(avg, RoundHalfEven(avg), AverageEmoji(avg))
  }

  function ViewOf(es: seq<Entry>, today: Date): View {
    View(SummaryOf(es, today), LogOf(es))
  }

  predicate MoodsOnScale(es: seq<Entry>) {
    forall e | e in es :: 1 <= e.mood <= 5
  }

  /** The three states of the statistics section, and for moods on the 1..5
      scale a metric whose average and rounded score lie on the scale and whose
      emoji is the rounded score's own. */
  lemma SummaryStates(es: seq<Entry>, today: Date)
    ensures SummaryOf(es, today).NoRecords? <==> es == []
    ensures SummaryOf(es, today).NoneThisWeek? <==> es != [] && forall e | e in es :: !InWeek(e, today)
    ensures SummaryOf(es, today).Metric? && MoodsOnScale(es) ==>
              var m := SummaryOf(es, today);
              1.0 <= m.average <= 5.0 && 1 <= m.rounded <= 5 && MoodEmoji(m.rounded) == Some(m.emoji)
  {
    if es != [] && WeeklyAverage(es, today).Some? && MoodsOnScale(es) {
      var avg := WeeklyAverage(es, today).value;
      AverageInRange(es, today);
      RoundInRange(avg);
      AverageEmojiNoFallback(avg);
    }
  }

  /** Lines 101-157 as written: reading the file, the statistics section, and a
      log section that fails on every non-empty file after the statistics are
      drawn. */
  method RenderAsWritten(file: CsvFile, today: Date) returns (r: Result<View, Crash>)
    ensures Loaded(file.Contents()) == [] ==> r == Ok(View(NoRecords, []))
    ensures Loaded(file.Contents()) != [] ==>
              r == Err(Crash(SummaryOf(Loaded(file.Contents()), today), ColumnCountMismatch(4, 3)))
  {
    var df := file.LoadData();
    var summary := NoRecords;
    if |df.rows| > 0 {
      var avg := CalculateWeeklyAverage(df, today);
      summary := match avg
        case None => NoneThisWeek
        case Some(a) => Metric(a, RoundHalfEven(a), AverageEmoji(a));
    }
    var log: seq<LogRow> := [];
    if |df.rows| > 0 {
      var shown := new Frame(df.columns, df.rows);
      var table := DisplayLog(shown.columns, shown.rows);
      match table
      case Err(e) => return Err(Crash(summary, e));
      case Ok(rows) => log := rows;
    }
    r := Ok(View(summary, log));
  }

  /** Lines 101-157 with the log built from the three stored columns only: the
      page shows the view of the file's rows. */
  method Render(file: CsvFile, today: Date) returns (v: View)
    ensures v == ViewOf(Loaded(file.Contents()), today)
  {
    var df := file.LoadData();
    var summary := NoRecords;
    if |df.rows| > 0 {
      var avg := CalculateWeeklyAverage(df, today);
      summary := match avg
        case None => NoneThisWeek
        case Some(a) => Metric(a, RoundHalfEven(a), AverageEmoji(a));
    }
    var log: seq<LogRow> := [];
    if |df.rows| > 0 {
      var shown := new Frame(Header, df.rows);
      var table := DisplayLog(shown.columns, shown.rows);
      log := table.value;
    }
    v := View(summary, log);
  }

  /** Initialising and a submit with a mood on the scale keep every stored mood
      on the scale. */
  lemma RunKeepsScale(f: File, e: Entry)
    requires MoodsOnScale(Loaded(f)) && 1 <= e.mood <= 5
    ensures MoodsOnScale(Loaded(Initialized(f)))
    ensures MoodsOnScale(Loaded(AfterSubmit(Initialized(f), e)))
  {
  }

  /** One run of the script with the corrected log section (`Render`):
      initialise the file, handle a submit if there is one, then show the page.
      After a save `st.rerun` shows the same view. */
  method RunScript(file: CsvFile, today: Date, form: Option<Entry>) returns (v: View)
    requires form.Some? ==> 1 <= form.value.mood <= 5
    modifies file
    ensures form.None? ==> file.Contents() == Initialized(old(file.Contents()))
    ensures form.Some? ==>
              file.Contents() == AfterSubmit(Initialized(old(file.Contents())), form.value)
    ensures MoodsOnScale(Loaded(old(file.Contents()))) ==> MoodsOnScale(Loaded(file.Contents()))
    ensures v == ViewOf(Loaded(file.Contents()), today)
  {
    ghost var before := file.Contents();
    file.InitCsvFile();
    if form.Some? {
      var s := form.value;
      var saved := SubmitForm(file, s);
      if MoodsOnScale(Loaded(before)) {
        RunKeepsScale(before, s);
      }
    }
    v := Render(file, today);
  }

  /** One run of the script as written (`RenderAsWritten`): the same file
      updates, and a page that ends in the column-count error whenever the file
      then holds a row, which after any successful save it always does. */
  method RunScriptAsWritten(file: CsvFile, today: Date, form: Option<Entry>) returns (r: Result<View, Crash>)
    requires form.Some? ==> 1 <= form.value.mood <= 5
    modifies file
    ensures form.None? ==> file.Contents() == Initialized(old(file.Contents()))
    ensures form.Some? ==>
              file.Contents() == AfterSubmit(Initialized(old(file.Contents())), form.value)
    ensures Loaded(file.Contents()) == [] ==> r == Ok(View(NoRecords, []))
    ensures Loaded(file.Contents()) != [] ==>
              r == Err(Crash(SummaryOf(Loaded(file.Contents()), today), ColumnCountMismatch(4, 3)))
    ensures form.Some? && HasText(form.value.journal) ==> r.Err?
  {
    file.InitCsvFile();
    if form.Some? {
      var saved := SubmitForm(file, form.value);
    }
    r := RenderAsWritten(file, today);
  }
}
