/** The CSV file `mood_data.csv` and the operations on it: `init_csv_file`,
    `load_data` and `save_entry`. The file is either absent or a header line
    followed by one row per entry; the text encoding of a row is not modelled. */
module JournalStore {
  import opened Calendar

  /** One journal entry: the day it is about, a mood score, and the note. */
  datatype Entry = Entry(date: Date, mood: int, journal: string)

  /** What is on disk: no file, or the header and the rows after it. */
  datatype File = Absent | Present(rows: seq<Entry>)

  /** The header `init_csv_file` and `save_entry` write, and the columns of a
      frame `load_data` returns. */
  const Header: seq<string> := ["date", "mood", "journal"]

  /** The rows `load_data` returns: those on disk, or none when the file is
      missing (`FileNotFoundError` is caught). */
  function Loaded(f: File): seq<Entry> {
    match f
    case Absent => []
    case Present(rows) => rows
  }

  /** The file after `init_csv_file`. */
  function Initialized(f: File): File {
    if f.Absent? then Present([]) else f
  }

  /** The file after `save_entry` of `e`: load, append one row, rewrite all. */
  function Saved(f: File, e: Entry): File {
    Present(Loaded(f) + [e])
  }

  /** The file after saving each of `es` in turn. */
  function SavedAll(f: File, es: seq<Entry>): File
    decreases |es|
  {
    if es == [] then f else SavedAll(Saved(f, es[0]), es[1..])
  }

  /** Initialising twice is initialising once; an existing file is left alone;
      a missing one becomes a header with no rows. */
  lemma InitIdempotent(f: File)
    ensures Initialized(Initialized(f)) == Initialized(f)
    ensures f.Present? ==> Initialized(f) == f
    ensures f.Absent? ==> Initialized(f) == Present([]) && Loaded(Initialized(f)) == []
  {
  }

  /** Saving keeps every earlier row, in order, and adds exactly the new one at
      the end, whatever its date. */
  lemma SaveAppends(f: File, e: Entry)
    ensures Saved(f, e).Present?
    ensures Loaded(Saved(f, e)) == Loaded(f) + [e]
    ensures |Loaded(Saved(f, e))| == |Loaded(f)| + 1
    ensures forall k | 0 <= k < |Loaded(f)| :: Loaded(Saved(f, e))[k] == Loaded(f)[k]
  {
  }

  /** After `n` saves the file holds the earlier rows followed by the `n` new
      ones in the order they were saved; nothing is merged, even for equal dates. */
  lemma {:induction false} SavedAllAppends(f: File, es: seq<Entry>)
    ensures Loaded(SavedAll(f, es)) == Loaded(f) + es
    decreases |es|
  {
    if es != [] {
      SavedAllAppends(Saved(f, es[0]), es[1..]);
      assert Loaded(f) + es == Loaded(f) + [es[0]] + es[1..];
    }
  }

  /** An entry saved into a freshly initialised file is read back alone. */
  lemma SaveLoadRoundTrip(f: File, e: Entry)
    requires f.Absent? || f == Present([])
    ensures Loaded(Saved(Initialized(f), e)) == [e]
  {
  }

  /** The in-memory table `pd.read_csv` builds: column names and rows. */
  class Frame {
    var columns: seq<string>
    var rows: seq<Entry>

    constructor (columns: seq<string>, rows: seq<Entry>)
      ensures this.columns == columns && this.rows == rows
    {
      this.columns := columns;
      this.rows := rows;
    }
  }

  /** The CSV file as the page sees it: whether it exists, and its rows. */
  class CsvFile {
    var present: bool
    var rows: seq<Entry>

    function Contents(): File
      reads this
    {
      if present then Present(rows) else Absent
    }

    constructor (initial: File)
      ensures Contents() == initial
    {
      present := initial.Present?;
      rows := Loaded(initial);
    }

    /** `init_csv_file`: create a header-only file when there is none. */
    method InitCsvFile()
      modifies this
      ensures Contents() == Initialized(old(Contents()))
    {
      if !present {
        present := true;
        rows := [];
      }
    }

    /** `load_data`: a new frame holding the rows, empty when the file is absent. */
    method LoadData() returns (df: Frame)
      ensures fresh(df) && df.columns == Header && df.rows == Loaded(Contents())
    {
      if present {
        df := new Frame(Header, rows);
      } else {
        df := new Frame(Header, []);
      }
    }

    /** `save_entry`: read the table, concatenate one row, write the whole file. */
    method SaveEntry(date: Date, mood: int, journal: string)
      modifies this
      ensures Contents() == Saved(old(Contents()), Entry(date, mood, journal))
    {
      var newRow := new Frame(Header, [Entry(date, mood, journal)]);
      var df := LoadData();
      var joined := new Frame(df.columns, df.rows + newRow.rows);
      present := true;
      rows := joined.rows;
    }
  }
}
