/** What processing the field data does, as functions: each byte array the
    walk reaches is written to a new temporary file and replaced by a
    picture of that file; each row list is replaced by the list of its
    processed rows; everything else is kept as it is. The file map is
    threaded through the walk in enumeration order. */
module Processing {
  import opened Fields
  import opened Disk

  /** A processed value together with the file system after processing it. */
  datatype Processed<T> = Processed(result: T, files: FileMap)

  /** The pictures created for the byte arrays of `v`: the paths that `w`
      holds at the places where `v` holds raw bytes. */
  function ImagePaths(v: Value, w: Value): set<Path> {
    match v
    case Bytes(_) => if w.Picture? then {w.path} else {}
    case Rows(rows) => if w.Rows? then RowsImagePaths(rows, w.rows) else {}
    case _ => {}
  }

  function RowsImagePaths(rows: seq<Dict>, out: seq<Dict>): set<Path> {
    if rows == [] || out == [] then {}
    else DictImagePaths(rows[0], out[0]) + RowsImagePaths(rows[1..], out[1..])
  }

  function DictImagePaths(d: Dict, e: Dict): set<Path> {
    FieldsImagePaths(d.fields, e.fields)
  }

  function FieldsImagePaths(fields: seq<Field>, out: seq<Field>): set<Path> {
    if fields == [] || out == [] then {}
    else ImagePaths(fields[0].value, out[0].value) + FieldsImagePaths(fields[1..], out[1..])
  }

  /** Processing one value: every file that existed is kept, unchanged. */
  function ProcessValue(v: Value, files: FileMap): (r: Processed<Value>)
    ensures Extends(files, r.files)
  {
    match v
    case Bytes(b) =>
      var p := FreshPath(files);
      Processed(Picture(p, DefaultWidth, DefaultHeight), files[p := b])
    case Rows(rows) =>
      var r := ProcessRows(rows, files);
      Processed(Rows(r.result), r.files)
    case _ => Processed(v, files)
  }

  /** Processing a row list: a new list of the same length. */
  function ProcessRows(rows: seq<Dict>, files: FileMap): (r: Processed<seq<Dict>>)
    ensures |r.result| == |rows|
    ensures Extends(files, r.files)
  {
    if rows == [] then Processed([], files)
    else
      var h := ProcessDict(rows[0], files);
      var t := ProcessRows(rows[1..], h.files);
      var out := [h.result] + t.result;
      assert out[0] == h.result && out[1..] == t.result;
      Processed(out, t.files)
  }

  /** Processing a dictionary: a new dictionary with the same keys. */
  function ProcessDict(d: Dict, files: FileMap): (r: Processed<Dict>)
    ensures Keys(r.result) == Keys(d)
    ensures UniqueKeys(d) ==> UniqueKeys(r.result)
    ensures Extends(files, r.files)
  {
    var r := ProcessFields(d.fields, files);
    Processed(Dict(r.result), r.files)
  }

  function ProcessFields(fields: seq<Field>, files: FileMap): (r: Processed<seq<Field>>)
    ensures |r.result| == |fields|
    ensures forall i :: 0 <= i < |fields| ==> r.result[i].key == fields[i].key
    ensures Extends(files, r.files)
  {
    if fields == [] then Processed([], files)
    else
      var h := ProcessValue(fields[0].value, files);
      var t := ProcessFields(fields[1..], h.files);
      var out := [Field(fields[0].key, h.result)] + t.result;
      assert out[0].value == h.result && out[1..] == t.result;
      Processed(out, t.files)
  }
}
