/** What cleanup does, as functions: the same walk as processing (direct
    entries and row lists, not plain nested dictionaries), deleting the file
    of every picture it meets when that file exists. */
module Cleanup {
  import opened Fields
  import opened Disk

  /** Cleaning up only deletes files: whatever is left was there before,
      with the same contents. */
  function CleanupValue(v: Value, files: FileMap): (r: FileMap)
    ensures Extends(r, files)
  {
    match v
    case Picture(p, _, _) => if p in files then files - {p} else files
    case Rows(rows) => CleanupRows(rows, files)
    case _ => files
  }

  function CleanupRows(rows: seq<Dict>, files: FileMap): (r: FileMap)
    ensures Extends(r, files)
  {
    if rows == [] then files else CleanupRows(rows[1..], CleanupDict(rows[0], files))
  }

  function CleanupDict(d: Dict, files: FileMap): (r: FileMap)
    ensures Extends(r, files)
  {
    CleanupFields(d.fields, files)
  }

  function CleanupFields(fields: seq<Field>, files: FileMap): (r: FileMap)
    ensures Extends(r, files)
  {
    if fields == [] then files else CleanupFields(fields[1..], CleanupValue(fields[0].value, files))
  }

  /** Cleanup removes exactly the files of the pictures it reaches: every
      such file is gone afterwards, a missing one is simply skipped, and
      every other file is left as it was. */
  lemma {:induction false} CleanupValueRemovesPictures(v: Value, files: FileMap)
    ensures CleanupValue(v, files) == files - PicturePaths(v)
    decreases v, 1
  {
    match v
    case Picture(p, _, _) =>
      assert p !in files ==> files - {p} == files;
    case Rows(rows) =>
      CleanupRowsRemovesPictures(rows, files);
    case _ =>
      assert files - {} == files;
  }

  lemma {:induction false} CleanupRowsRemovesPictures(rows: seq<Dict>, files: FileMap)
    ensures CleanupRows(rows, files) == files - RowsPicturePaths(rows)
    decreases rows, 1
  {
    if rows == [] {
      assert files - {} == files;
    } else {
      CleanupDictRemovesPictures(rows[0], files);
      CleanupRowsRemovesPictures(rows[1..], CleanupDict(rows[0], files));
      assert files - DictPicturePaths(rows[0]) - RowsPicturePaths(rows[1..]) == files - RowsPicturePaths(rows);
    }
  }

  lemma {:induction false} CleanupDictRemovesPictures(d: Dict, files: FileMap)
    ensures CleanupDict(d, files) == files - DictPicturePaths(d)
    decreases d, 1
  {
    CleanupFieldsRemovesPictures(d.fields, files);
  }

  lemma {:induction false} CleanupFieldsRemovesPictures(fields: seq<Field>, files: FileMap)
    ensures CleanupFields(fields, files) == files - FieldsPicturePaths(fields)
    decreases fields, 1
  {
    if fields == [] {
      assert files - {} == files;
    } else {
      CleanupValueRemovesPictures(fields[0].value, files);
      CleanupFieldsRemovesPictures(fields[1..], CleanupValue(fields[0].value, files));
      assert files - PicturePaths(fields[0].value) - FieldsPicturePaths(fields[1..])
          == files - FieldsPicturePaths(fields);
    }
  }

  /** Running cleanup a second time on the same data changes nothing. */
  lemma CleanupIdempotent(d: Dict, files: FileMap)
    ensures CleanupDict(d, CleanupDict(d, files)) == CleanupDict(d, files)
  {
    CleanupDictRemovesPictures(d, files);
    CleanupDictRemovesPictures(d, CleanupDict(d, files));
    assert files - DictPicturePaths(d) - DictPicturePaths(d) == files - DictPicturePaths(d);
  }
}
