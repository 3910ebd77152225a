/**
 The spreadsheet file that mirrors every registration, seen as an optional
 workbook (absent when the file does not exist) whose sheets are sequences
 of rows of text cells.
 */
module Sink {

  datatype Option<T> = None | Some(value: T)

  datatype Result<T, E> = Ok(value: T) | Err(error: E)

  type Row = seq<string>

  /** A workbook: each sheet's title mapped to its rows, first row first. */
  type Book = map<string, seq<Row>>

  /** The title of the one sheet the registry uses. */
  const SheetTitle: string := "Interns"

  /** The header row a new file is created with. */
  const Header: Row := ["Name", "Email", "Department", "Status"]

  /** Why saving a row can fail: no file at all, or a file without the "Interns" sheet. */
  datatype StorageError = StorageNotFound | SheetNotFound

  /** A store that a row can be saved to. */
  predicate Ready(file: Option<Book>) {
    file.Some? && SheetTitle in file.value
  }

  /** The store after initialisation: created with only the header row when absent, else as it was. */
  function Initialized(file: Option<Book>): (f: Option<Book>)
    ensures f.Some?
    ensures file.Some? ==> f == file
  {
    if file.None? then Some(map[SheetTitle := [Header]]) else file
  }

  /** The store after one row is saved to the "Interns" sheet, or why that fails. */
  function SaveRow(file: Option<Book>, row: Row): (r: Result<Book, StorageError>)
    ensures r.Ok? <==> Ready(file)
    ensures r.Ok? ==> SheetTitle in r.value && |r.value[SheetTitle]| == |file.value[SheetTitle]| + 1
  {
    if file.None? then Err(StorageNotFound)
    else if SheetTitle !in file.value then Err(SheetNotFound)
    else Ok(file.value[SheetTitle := file.value[SheetTitle] + [row]])
  }

  /** Initialising an absent store gives a file holding the header row and nothing else. */
  lemma InitializeAbsent()
    ensures Initialized(None) == Some(map[SheetTitle := [Header]])
    ensures Ready(Initialized(None))
  {
  }

  /** Initialising never overwrites an existing store, and a second call changes nothing. */
  lemma InitializeIdempotent(file: Option<Book>)
    ensures file.Some? ==> Initialized(file) == file
    ensures Initialized(Initialized(file)) == Initialized(file)
  {
  }

  /**
   Saving succeeds exactly when the store exists and has the "Interns" sheet;
   then that sheet gains the row after all its rows and no other sheet changes.
   */
  lemma SaveRowAppends(file: Option<Book>, row: Row)
    ensures SaveRow(file, row).Ok? <==> Ready(file)
    ensures file.None? ==> SaveRow(file, row) == Err(StorageNotFound)
    ensures Ready(file) ==>
      var b := SaveRow(file, row).value;
      b.Keys == file.value.Keys &&
      b[SheetTitle] == file.value[SheetTitle] + [row] &&
      (forall t :: t in b && t != SheetTitle ==> b[t] == file.value[t])
  {
  }

  /** A store that accepts one row accepts the next one too. */
  lemma SaveKeepsReady(file: Option<Book>, row: Row)
    requires Ready(file)
    ensures Ready(Some(SaveRow(file, row).value))
  {
  }

  /** A row saved to a freshly initialised store is its one data row, after the header. */
  lemma SaveAfterInitialize(row: Row)
    ensures SaveRow(Initialized(None), row) == Ok(map[SheetTitle := [Header, row]])
  {
    var created := map[SheetTitle := [Header]];
    assert [Header] + [row] == [Header, row];
    assert created[SheetTitle := [Header, row]] == map[SheetTitle := [Header, row]];
  }

  /** The workbook file, which initialisation may create and each registration rewrites with one more row. */
  class Store {
    var file: Option<Book>

    /** The store as found on disk when the process starts. */
    constructor (onDisk: Option<Book>)
      ensures file == onDisk
    {
      file := onDisk;
    }

    /** Creates the file with its header row if there is none. */
    method EnsureInitialized()
      modifies this
      ensures file == Initialized(old(file))
      ensures Ready(old(file)) ==> file == old(file)
      ensures old(file).None? ==> Ready(file) && file.value[SheetTitle] == [Header]
    {
      if file.None? {
        file := Some(map[SheetTitle := [Header]]);
      }
    }

    /** Loads the file, appends one four-cell row to its "Interns" sheet and saves it. */
    method AppendRow(name: string, email: string, dept: string, status: string)
      returns (r: Result<Book, StorageError>)
      modifies this
      ensures r == SaveRow(old(file), [name, email, dept, status])
      ensures r.Ok? ==> file == Some(r.value)
      ensures r.Err? ==> file == old(file)
    {
      if file.None? {
        return Err(StorageNotFound);
      }
      var book := file.value;
      if SheetTitle !in book {
        return Err(SheetNotFound);
      }
      book := book[SheetTitle := book[SheetTitle] + [[name, email, dept, status]]];
      file := Some(book);
      r := Ok(book);
    }
  }
}
