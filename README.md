# Daily Mood Tracker: a verified model of its record keeping

The repository is a one-page Streamlit app (`app.py`). Each day the user records
a mood from 1 to 5 and a one-line note. The app appends the record to a CSV file
(`mood_data.csv`). It shows the mean mood of the last seven days, with an emoji,
and lists every record with the newest date first.

This Dafny project models the part of the page that is not UI wiring:

- **The file** (`journal_store.dfy`). A class `CsvFile` holds a `present` flag and
  the rows after the header. `InitCsvFile`, `LoadData` and `SaveEntry` update it or
  read it. The functions `Initialized`, `Loaded` and `Saved` give the new state as
  a value of `File` (`Absent` or `Present(rows)`).
- **Dates** (`calendar.dfy`). A date is a validated year, month and day. Its day
  ordinal is the one Python's `date.toordinal` gives. The module also has the
  `YYYY-MM-DD` text, the parser that reads that text back, and Python's string
  order.
- **The submit guard** (`text.dfy`, `page.dfy`). Python's `str.strip()` is modelled
  with the exact whitespace set of `str.isspace`. A note is saved only when it
  contains a non-space character.
- **The weekly average** (`weekly.dfy`). The filter keeps entries dated in
  `[today-6, today]`. Its mean is an exact `real`, and `None` means no entry is in
  the window.
- **The display** (`display.dfy`, `page.dfy`). Python `round` is round-half-to-even.
  The emoji map has keys 1 to 5, with a fallback. The log is sorted by its date
  text. Two methods model the page: `Page.RenderAsWritten` is the code as written,
  and `Page.Render` is the corrected version (see Findings).

Notes on the code:

- `save_entry` does not check the mood. The 1..5 range comes only from the radio
  picker, so `Page.RunScript` requires it of the submission.
- The note is saved as typed. Only the emptiness check uses the stripped text.
- The average shown as an emoji is rounded with Python's `round` (ties go to the
  even integer). It is not rounded half away from zero, and it is not clamped.
- Duplicate dates are kept. Nothing is merged or deduplicated.

## Model

| member | source | states |
|---|---|---|
| `JournalStore.InitIdempotent` | app.py:13-16 | initialising twice equals initialising once; an existing file is unchanged; a missing file becomes a header with zero rows |
| `JournalStore.CsvFile.InitCsvFile` | app.py:13-16 | the file's new state is `Initialized` of its old state |
| `JournalStore.CsvFile.LoadData` | app.py:19-26 | returns a new frame with columns date, mood, journal and the file's rows; no rows when the file is absent |
| `JournalStore.CsvFile.SaveEntry` | app.py:29-38 | the file exists afterwards and holds its old rows followed by the one new entry |
| `JournalStore.SaveAppends` | app.py:29-38 | saving keeps every earlier row in place and in order, and adds exactly one row at the end |
| `JournalStore.SavedAllAppends` | app.py:29-38 | after n saves the file holds the earlier rows followed by the n entries in save order, with no deduplication by date |
| `JournalStore.SaveLoadRoundTrip` | app.py:13-38 | an entry saved into a freshly initialised file is read back as the only row |
| `Calendar.ParseFormat` | app.py:21-31 | every valid date written by `strftime('%Y-%m-%d')` is read back as the same date |
| `Calendar.FormatParse` | app.py:23 | any text the parser accepts is exactly the `YYYY-MM-DD` text of the date it yields |
| `Calendar.OrdinalOrder` | app.py:43-47 | for valid dates, ordinal order is calendar (year, month, day) order, and equal ordinals mean equal dates |
| `Calendar.FormatOrder` | app.py:136-152 | comparing two `YYYY-MM-DD` strings with Python's `<` is comparing the dates' ordinals |
| `Text.TrimStart` | app.py:90 | the result is a suffix of the input; everything removed is whitespace; the result starts with a non-space or is empty |
| `Text.TrimEnd` | app.py:90 | the result is a prefix of the input; everything removed is whitespace; the result ends with a non-space or is empty |
| `Text.StripEmptyIff` | app.py:90 | `s.strip()` is empty exactly when every character of `s` is whitespace |
| `Text.StripIdempotent` | app.py:90 | stripping a stripped text changes nothing |
| `Page.SubmitGuard` | app.py:89-95 | an empty or all-whitespace note leaves the file unchanged; any other note adds exactly its entry after the existing rows |
| `Page.SubmitForm` | app.py:89-95 | reports a save exactly when the stripped note is non-empty, and leaves the file in the state `AfterSubmit` gives |
| `Weekly.WeekEntriesCount` | app.py:46-47 | each entry occurs in the filtered rows as often as in the input when it is dated in the window, and not at all otherwise |
| `Weekly.WeekMembers` | app.py:46-47 | an entry is kept by the filter exactly when it is in the input and dated in `[today-6, today]` |
| `Weekly.WindowEdges` | app.py:42-47 | an entry dated today-6 or today is counted; one dated today-7 or today+1 is not |
| `Weekly.WeeklyAverage` | app.py:41-52 | `None` exactly when no entry is dated in the window; otherwise the sum of the in-window moods divided by their count |
| `Weekly.WeekEntriesAppend` | app.py:29-47 | appending one entry adds it to the week's entries exactly when it is dated in the window |
| `Weekly.AverageInRange` | app.py:47-52 | when every in-window mood is in 1..5, the average lies in [1, 5] |
| `Weekly.ThreeMoodsExample` | app.py:47-52 | moods 5, 3 and 1 dated 2024-01-09 (the window's first day), 2024-01-12 and 2024-01-15 average to 3 on 2024-01-15 |
| `Page.CalculateWeeklyAverage` | app.py:41-52 | returns the weekly average of the frame's rows and leaves a `date_only` column in the caller's frame |
| `Display.MoodEmoji` | app.py:109-116 | the map has an emoji exactly for the keys 1 to 5 |
| `Display.MoodEmojiDistinct` | app.py:68-74 | the five moods map to five different emoji |
| `Display.RoundHalfEven` | app.py:108 | the result is within 1/2 of the input, and on a tie it is even |
| `Display.RoundUnique` | app.py:108 | the two rounding properties determine the result uniquely |
| `Display.RoundInRange` | app.py:108 | an average in [1, 5] rounds to an integer in 1..5 |
| `Display.AverageEmojiNoFallback` | app.py:108-116 | for an average in [1, 5] the lookup finds the rounded score's emoji, so the fallback is never used |
| `Display.Rows` | app.py:136-146 | one display row per entry, in order; each row's date text reads back as the entry's date, the emoji is its mood's `MoodEmoji` (so present exactly when the mood is in 1..5), and the note is unchanged |
| `Display.Insert` | app.py:152 | inserting into a date-descending list gives a date-descending list with the row added to the multiset |
| `Display.SortDescending` | app.py:152 | the sorted rows are a permutation of the input, and their date texts never increase |
| `Display.LogNewestFirst` | app.py:136-152 | the log is a permutation of the entries' rows; of two rows, the upper one's date is not earlier in the calendar |
| `Display.LaterDateListedFirst` | app.py:152 | an entry of 2024-01-20 is listed above one of 2024-01-10 |
| `Page.SetColumns` | app.py:149 | definition of pandas' rule for `df.columns = names` (a list of another length is refused, reporting both counts); its consequence is stated by `Page.AverageBreaksRenaming` |
| `Page.AverageBreaksRenaming` | app.py:46-149 | after the average, the frame has four columns, so the log's renaming fails; the three stored columns rename fine |
| `Page.SummaryStates` | app.py:101-127 | the statistics section shows "no records" exactly for an empty file, and "none this week" exactly when no row is in the window; with moods in 1..5 the metric's average, rounded score and emoji fit the scale |
| `Page.RenderAsWritten` | app.py:101-157 | as written: an empty file shows the two empty-state messages; every non-empty file shows its statistics section (`SummaryOf` of the rows) and then fails with a 4-versus-3 column mismatch |
| `Page.Render` | app.py:101-157 | corrected: the page shows the summary and the newest-first log of the file's rows |
| `Page.RunScript` | app.py:55-157 | with the corrected log section (`Page.Render`): one run initialises the file and applies the submit guard; it keeps moods on the 1..5 scale and shows the view of the new contents |
| `Page.RunScriptAsWritten` | app.py:55-157 | as written (`Page.RenderAsWritten`): the same file updates; the run ends in the column-count error after the statistics whenever the file holds a row, so always after a successful save |
| `Text.Strip` | app.py:90 | definition of `str.strip()`; its properties are in `Text.StripEmptyIff` and `Text.StripIdempotent`, built on `Text.TrimStart` and `Text.TrimEnd` |
| `Display.AverageEmoji` | app.py:116 | definition of `mood_emoji.get(avg_rounded, "😐")`; its property is in `Display.AverageEmojiNoFallback` |
| `Weekly.WeekEntries` | app.py:46-47 | definition of the date filter; its properties are in `Weekly.WeekEntriesCount`, `Weekly.WeekMembers` and `Weekly.WeekEntriesAppend` |
| `Calendar.Ordinal` | app.py:43-47 | definition of `date.toordinal()`; its properties are in `Calendar.OrdinalOrder` |
| `Calendar.FormatIso` | app.py:31 | definition of `strftime('%Y-%m-%d')`; its properties are in `Calendar.ParseFormat`, `Calendar.FormatParse` and `Calendar.FormatOrder` |
| `Calendar.ParseIso` | app.py:23 | definition of reading `YYYY-MM-DD` back; its properties are in `Calendar.ParseFormat` and `Calendar.FormatParse` |
| `JournalStore.Loaded` | app.py:19-26 | definition of what `load_data` returns; its properties are in `JournalStore.InitIdempotent` and `JournalStore.SaveAppends` |
| `JournalStore.Initialized` | app.py:13-16 | definition of the file after `init_csv_file`; its properties are in `JournalStore.InitIdempotent` |
| `JournalStore.Saved` | app.py:29-38 | definition of the file after `save_entry`; its properties are in `JournalStore.SaveAppends`, `JournalStore.SavedAllAppends` and `JournalStore.SaveLoadRoundTrip` |
| `Page.AfterSubmit` | app.py:89-95 | definition of the file after a submit; its properties are in `Page.SubmitGuard` |
| `Page.SummaryOf` | app.py:101-127 | definition of the statistics section; its properties are in `Page.SummaryStates` |
| `Calendar.LexLess` | app.py:152 | definition of Python's `<` on `str`, which `sort_values` compares; its properties are in `Calendar.LexLessIrreflexive`, `Calendar.LexLessTransitive`, `Calendar.LexLessConcat` and `Calendar.FormatOrder` |
| `Page.WithColumn` | app.py:46 | definition of `df['date_only'] = …` on the column list; its consequence is in `Page.AverageBreaksRenaming` and `Page.CalculateWeeklyAverage` |
| `Page.DisplayLog` | app.py:135-152 | definition of the log section, including the rename that can fail; its properties are in `Page.AverageBreaksRenaming` |
| `Display.ToRow` | app.py:136-146 | definition of one log row; its properties are in `Display.Rows` and `Display.LogNewestFirst` |
| `Page.HasText` | app.py:90 | definition of the truthiness of `journal_text.strip()`; its properties are in `Page.SubmitGuard` and `Text.StripEmptyIff` |
| `Weekly.InWeek` | app.py:47 | definition of the two date comparisons of the filter; its properties are in `Weekly.WeekMembers` and `Weekly.WindowEdges` |
| `Display.LogOf` | app.py:133-157 | definition of the log table; its properties are in `Display.LogNewestFirst` and `Display.LaterDateListedFirst` |

## Findings

| source | as written | input that shows it | evidently intended | confidence | as-written member | corrected member |
|---|---|---|---|---|---|---|
| app.py:149 | `calculate_weekly_average` (line 46) adds `date_only` to the caller's frame; line 135 copies that frame; line 149 assigns three names to its four columns, and pandas raises a length mismatch | any file with at least one row | the log table lists the stored rows under three display names | high, not executed | `Page.RenderAsWritten` | `Page.Render` |

## Left out

- Streamlit widgets, page layout, `st.success`, `st.warning` and `st.info` texts are UI only. They are represented by the `View` value. `st.rerun` is represented by the view of the file's new contents.
- The CSV encoding is not modelled: the UTF-8 byte-order mark, quoting and escaping. Neither is `pd.read_csv` type inference (a note `NA` comes back as a missing value, and a note like `123` comes back as a number when every note in the file is numeric), nor how pandas re-serialises earlier rows when it rewrites the file. These belong to pandas.
- A stored date is kept as a `Date`. `Calendar.ParseFormat` and `Calendar.FormatParse` justify this for the `YYYY-MM-DD` text that `save_entry` writes. Other text that `pd.to_datetime` would accept is not modelled.
- A file with a row that does not parse makes `load_data` raise; this is not modelled. How pandas re-serialises and re-parses dates depends on its version. Under pandas 2 or later the page's own rewrite can cause it. `load_data` returns `date` as datetime64. `save_entry` concatenates that column with the new row's text date, so `to_csv` writes the earlier dates as `YYYY-MM-DD 00:00:00` next to a bare `YYYY-MM-DD`. The next `pd.to_datetime` infers one format from the first value and rejects the other rows, and `load_data` catches only `FileNotFoundError`. From the second save on, `JournalStore.SavedAllAppends` therefore describes file states that this page, under such a pandas, cannot load, and the run then fails in `load_data` (app.py:101) before the statistics section, not at the rename where `Page.RenderAsWritten` and `Page.RunScriptAsWritten` place the failure. This rests on pandas' documented behaviour and was not executed.
- `datetime.now()` is wall-clock time. `today` is a parameter instead. The `OverflowError` of `today - timedelta(days=6)` for dates in the first week of year 1 is not modelled.
- Floating point is not modelled. The mean is an exact real, and `f"{weekly_avg:.1f}"` formatting is left out. For sums and counts of small integers, the float mean is a tie exactly when the real mean is, so `round` agrees with the exact model.
- `Calendar.FormatIso` always pads the year to four digits. `strftime('%Y')` does not zero-pad years below 1000 on some platforms. Pandas timestamps cover only 1677 to 2262, so every displayed year has four digits.
- `Calendar.ParseIso` reads only the `YYYY-MM-DD` shape that `save_entry` writes, for every year 1 to 9999. `pd.to_datetime` accepts other shapes, such as `2024/01/15` or `20240115`, and raises for years outside 1677 to 2262; neither difference is modelled.
- `Display.SortDescending` puts rows with equal dates in one fixed order. pandas `sort_values` (quicksort) may order them differently. The model states only that the result is a permutation and that dates do not increase.
- Concurrent writers and the lost update of two overlapping read-modify-write saves are not modelled: this is concurrency.
