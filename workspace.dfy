/**
 * The service account's Google Drive, as the registration routes see it:
 * the spreadsheets it owns in the order Drive lists them, the cells of each
 * one's first sheet, and the bold formatting requests applied so far.
 */
module Workspace {
  import opened Wrappers
  import opened ConfigStore

  datatype DriveFile = DriveFile(id: string, name: string)

  /** A half-open cell range of one sheet, as in a `repeatCell` request. */
  datatype GridRange = GridRange(startRow: nat, endRow: nat, startColumn: nat, endColumn: nat)

  datatype Format = Bold(sheetId: string, range: GridRange)

  datatype DriveState = DriveState(files: seq<DriveFile>, grids: map<string, Table>, formats: seq<Format>)

  /** The rows of a spreadsheet; one the model has no cells for is empty. */
  function Grid(grids: map<string, Table>, id: string): Table {
    if id in grids then grids[id] else []
  }

  /** `drive.files.list` with `name='<name>'`: the listed files of that name, in listing order. */
  function Named(files: seq<DriveFile>, name: string): (hits: seq<DriveFile>)
    ensures |hits| <= |files|
    ensures forall f :: f in hits <==> f in files && f.name == name
  {
    if files == [] then []
    else
      var rest := Named(files[..|files| - 1], name);
      assert files == files[..|files| - 1] + [files[|files| - 1]];
      if files[|files| - 1].name == name then rest + [files[|files| - 1]] else rest
  }

  /** Listing after one more file: it follows the earlier hits exactly when it has the name. */
  lemma NamedSnoc(files: seq<DriveFile>, f: DriveFile, name: string)
    ensures Named(files + [f], name) == Named(files, name) + (if f.name == name then [f] else [])
  {
    assert (files + [f])[..|files + [f]| - 1] == files;
  }

  /** `values.update` of row 1: the first row becomes `row`, the others stay. */
  function WriteFirstRow(grid: Table, row: Row): (g: Table)
    ensures |g| == if grid == [] then 1 else |grid|
    ensures g[0] == row && g[1..] == (if grid == [] then [] else grid[1..])
  {
    if grid == [] then [row] else [row] + grid[1..]
  }

  class Workspace {
    var files: seq<DriveFile>
    var grids: map<string, Table>
    var formats: seq<Format>

    function State(): DriveState
      reads this
    {
      DriveState(files, grids, formats)
    }

    constructor (s: DriveState)
      ensures State() == s
    {
      files, grids, formats := s.files, s.grids, s.formats;
    }

    /** `drive.files.list`, which reads nothing back into the drive. */
    method ListFiles(name: string, fails: bool) returns (hits: Option<seq<DriveFile>>)
      ensures hits.Some? <==> !fails
      ensures hits.Some? ==> forall f :: f in hits.value <==> f in files && f.name == name
      ensures hits.Some? ==> hits.value == Named(files, name)
    {
      hits := if fails then None else Some(Named(files, name));
    }

    /**
     * `drive.files.create` of an empty spreadsheet. `issuedId` is the id
     * the service answers with, `None` when the call throws or answers
     * without one; only a file with a non-empty id is added.
     */
    method CreateFile(name: string, issuedId: Option<string>) returns (id: Option<string>)
      modifies this`files, this`grids
      ensures id == if issuedId.Some? && issuedId.value != "" then issuedId else None
      ensures id.Some? ==> files == old(files) + [DriveFile(id.value, name)] && grids == old(grids)[id.value := []]
      ensures id.None? ==> files == old(files) && grids == old(grids)
    {
      if issuedId.Some? && issuedId.value != "" {
        id := issuedId;
        files := files + [DriveFile(issuedId.value, name)];
        grids := grids[issuedId.value := []];
      } else {
        id := None;
      }
    }

    /** `values.update` of A1:F1. */
    method WriteHeader(sheetId: string, row: Row, fails: bool) returns (ok: bool)
      modifies this`grids
      ensures ok == !fails
      ensures grids == if fails then old(grids) else old(grids)[sheetId := WriteFirstRow(Grid(old(grids), sheetId), row)]
    {
      ok := !fails;
      if ok {
        grids := grids[sheetId := WriteFirstRow(Grid(grids, sheetId), row)];
      }
    }

    /** `spreadsheets.batchUpdate` with one bold `repeatCell` request. */
    method Embolden(sheetId: string, range: GridRange, fails: bool) returns (ok: bool)
      modifies this`formats
      ensures ok == !fails
      ensures formats == if fails then old(formats) else old(formats) + [Bold(sheetId, range)]
    {
      ok := !fails;
      if ok {
        formats := formats + [Bold(sheetId, range)];
      }
    }

    /** `values.append`: the rows go after the last row of the spreadsheet. */
    method AppendRows(sheetId: string, values: Table, fails: bool) returns (ok: bool)
      modifies this`grids
      ensures ok == !fails
      ensures grids == if fails then old(grids) else old(grids)[sheetId := Grid(old(grids), sheetId) + values]
    {
      ok := !fails;
      if ok {
        grids := grids[sheetId := Grid(grids, sheetId) + values];
      }
    }
  }
}
