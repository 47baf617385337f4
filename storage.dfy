/** The shared data file and the Collect step that appends to it. A
    collected dataset is flattened into rows tagged with its category,
    description and units, and the file is rewritten as its old rows
    followed by the new ones; a missing file counts as holding no rows. */
module Storage {
  import opened Wrappers
  import Catalog

  /** One entry of the dataset's `data` list. */
  datatype Record = Record(year: int, value: real, notes: Option<string>)

  /** The parsed reply of the fetcher. */
  datatype Dataset = Dataset(description: string, units: string, records: seq<Record>)

  /** One row of the data file: year, value, notes, category, description, units. */
  datatype Row = Row(year: int, value: real, notes: Option<string>,
                     category: string, description: string, units: string)

  /** What the fetcher hands back. `FetchFailed` is its `None` after a failed
      call or unparsable reply; `Falsy` a parsed value Python treats as false
      (`{}`, `[]`, `null`, `0`, `""`); `Malformed` any truthy value that is
      not a usable dataset: an object lacking the `data`, `description` or
      `units` key, a non-empty list, string or number (indexing it by key
      fails), or a `data` value the data-frame constructor rejects. */
  datatype FetchResult = FetchFailed | Falsy | Malformed | Fetched(dataset: Dataset)

  /** The response of a Collect request. `ServerError` is the uncaught
      exception (a key, type or value error) that a malformed reply raises
      before the file is written. */
  datatype CollectOutcome = InvalidCategory | CollectFailed | ServerError | Redirect(category: string)

  function Tag(rec: Record, category: string, description: string, units: string): Row
  {
    Row(rec.year, rec.value, rec.notes, category, description, units)
  }

  function Untag(row: Row): Record
  {
    Record(row.year, row.value, row.notes)
  }

  /** The data frame built from the dataset's records, with the category,
      description and units columns set on every row. */
  function Flatten(category: string, ds: Dataset): (rows: seq<Row>)
    ensures |rows| == |ds.records|
    ensures forall i :: 0 <= i < |rows| ==>
      rows[i].category == category && rows[i].description == ds.description && rows[i].units == ds.units
  {
    seq(|ds.records|, i requires 0 <= i < |ds.records| =>
      Tag(ds.records[i], category, ds.description, ds.units))
  }

  /** The year, value and notes columns of some rows. */
  function Records(rows: seq<Row>): (recs: seq<Record>)
    ensures |recs| == |rows|
  {
    if rows == [] then [] else [Untag(rows[0])] + Records(rows[1..])
  }

  /** Flattening keeps every record, in order: dropping the tag columns
      gives back the dataset's records. */
  lemma {:induction false} FlattenRoundTrip(category: string, ds: Dataset)
    ensures Records(Flatten(category, ds)) == ds.records
    decreases |ds.records|
  {
    if ds.records != [] {
      var tail := Dataset(ds.description, ds.units, ds.records[1..]);
      assert Flatten(category, ds) == [Flatten(category, ds)[0]] + Flatten(category, tail);
      FlattenRoundTrip(category, tail);
    }
  }

  /** The rows `read_csv` yields: a missing file reads as no rows. */
  function Loaded(file: Option<seq<Row>>): (rows: seq<Row>)
    ensures file.None? ==> rows == []
    ensures file.Some? ==> rows == file.value
  {
    match file
    case None => []
    case Some(rows) => rows
  }

  /** The data file. `contents` is `None` while the file does not exist. */
  class DataFile {
    var contents: Option<seq<Row>>

    /** Before the first collection there is no file. */
    constructor ()
      ensures contents == None
    {
      contents := None;
    }

    function Rows(): seq<Row>
      reads this
    {
      Loaded(contents)
    }

    /** The POST branch of Collect. The category is checked against the
        catalog before the fetcher is asked; only a fetched dataset changes
        the file, which then holds the old rows followed by one new row per
        record. */
    method Collect(category: Option<string>, years: int, fetch: (string, int) -> FetchResult)
      returns (outcome: CollectOutcome)
      modifies this
      ensures !Catalog.IsSupported(category) ==> outcome == InvalidCategory && contents == old(contents)
      ensures Catalog.IsSupported(category) ==>
        match fetch(category.value, years)
        case FetchFailed => outcome == CollectFailed && contents == old(contents)
        case Falsy => outcome == CollectFailed && contents == old(contents)
        case Malformed => outcome == ServerError && contents == old(contents)
        case Fetched(ds) =>
          && outcome == Redirect(category.value)
          && contents == Some(old(Rows()) + Flatten(category.value, ds))
      ensures old(Rows()) <= Rows()
    {
      if !Catalog.IsSupported(category) {
        return InvalidCategory;
      }
      var name := category.value;
      var historical := fetch(name, years);
      match historical {
        case FetchFailed =>
          return CollectFailed;
        case Falsy =>
          return CollectFailed;
        case Malformed =>
          return ServerError;
        case Fetched(ds) =>
          var added := Flatten(name, ds);
          var existing := Loaded(contents);
          contents := Some(existing + added);
          return Redirect(name);
      }
    }
  }
}
