/** The field data handed to the document generator: a dictionary from
    field names to values, where a value is raw image bytes, a picture
    descriptor, a list of row dictionaries (a repeating table section),
    a plain nested dictionary, or any other object. */
module Fields {

  newtype byte = x: int | 0 <= x < 256

  /** A file-system path. */
  type Path = string

  /** Display size given to every picture built from raw bytes. */
  const DefaultWidth: int := 100
  const DefaultHeight: int := 100

  /** What a dictionary entry can hold, as the generator tells values apart:
      - Bytes: a `byte[]`;
      - Picture: a `MiniWordPicture` (path to an image file, display size);
      - Rows: a `List<Dictionary<string, object>>`;
      - Record: a plain nested `Dictionary<string, object>`;
      - Scalar: any other object (text, a number, a date), by its text. */
  datatype Value =
    | Bytes(bytes: seq<byte>)
    | Picture(path: Path, width: int, height: int)
    | Rows(rows: seq<Dict>)
    | Record(record: Dict)
    | Scalar(text: string)

  datatype Field = Field(key: string, value: Value)

  /** A `Dictionary<string, object>`, as its entries in enumeration order. */
  datatype Dict = Dict(fields: seq<Field>)

  /** The keys of a dictionary, in enumeration order. */
  function Keys(d: Dict): (ks: seq<string>)
    ensures |ks| == |d.fields|
    ensures forall i :: 0 <= i < |ks| ==> ks[i] == d.fields[i].key
  {
    seq(|d.fields|, i requires 0 <= i < |d.fields| => d.fields[i].key)
  }

  /** A real dictionary never holds the same key twice. */
  predicate UniqueKeys(d: Dict) {
    forall i, j :: 0 <= i < j < |d.fields| ==> d.fields[i].key != d.fields[j].key
  }

  /** The number of raw image byte arrays the generator reaches: those stored
      directly in a dictionary and those inside row lists, to any depth, but
      not those inside a plain nested dictionary. */
  function ImageCount(v: Value): nat {
    match v
    case Bytes(_) => 1
    case Rows(rows) => RowsImageCount(rows)
    case _ => 0
  }

  function RowsImageCount(rows: seq<Dict>): nat {
    if rows == [] then 0 else DictImageCount(rows[0]) + RowsImageCount(rows[1..])
  }

  function DictImageCount(d: Dict): nat {
    FieldsImageCount(d.fields)
  }

  function FieldsImageCount(fields: seq<Field>): nat {
    if fields == [] then 0 else ImageCount(fields[0].value) + FieldsImageCount(fields[1..])
  }

  /** The paths of the pictures the generator reaches, by the same walk. */
  function PicturePaths(v: Value): set<Path> {
    match v
    case Picture(p, _, _) => {p}
    case Rows(rows) => RowsPicturePaths(rows)
    case _ => {}
  }

  function RowsPicturePaths(rows: seq<Dict>): set<Path> {
    if rows == [] then {} else DictPicturePaths(rows[0]) + RowsPicturePaths(rows[1..])
  }

  function DictPicturePaths(d: Dict): set<Path> {
    FieldsPicturePaths(d.fields)
  }

  function FieldsPicturePaths(fields: seq<Field>): set<Path> {
    if fields == [] then {} else PicturePaths(fields[0].value) + FieldsPicturePaths(fields[1..])
  }

  /** The pictures of a concatenation are those of its parts. */
  lemma {:induction false} FieldsPicturePathsAppend(a: seq<Field>, b: seq<Field>)
    ensures FieldsPicturePaths(a + b) == FieldsPicturePaths(a) + FieldsPicturePaths(b)
    decreases a
  {
    if a != [] {
      assert (a + b)[0] == a[0] && (a + b)[1..] == a[1..] + b;
      FieldsPicturePathsAppend(a[1..], b);
    } else {
      assert a + b == b;
    }
  }
}
