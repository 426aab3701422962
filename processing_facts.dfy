/** Properties of processing: which files it creates, and how each
    processed value relates to the value it came from. */
module ProcessingFacts {
  import opened Fields
  import opened Disk
  import opened Processing

  /** Going from `before` to `after`, exactly the files `created` were added,
      none of them existed before, and there are n of them. */
  predicate CreatesExactly(before: FileMap, after: FileMap, created: set<Path>, n: nat) {
    && after.Keys == before.Keys + created
    && before.Keys !! created
    && |created| == n
  }

  /** Two creation steps in a row are one creation step. */
  lemma CreatesCompose(f0: FileMap, f1: FileMap, f2: FileMap, h: set<Path>, t: set<Path>, n: nat, m: nat)
    requires CreatesExactly(f0, f1, h, n) && CreatesExactly(f1, f2, t, m)
    ensures CreatesExactly(f0, f2, h + t, n + m)
  {
    assert h * t == {};
  }

  /** A byte array becomes a picture of one new file. */
  lemma BytesCreateOneFile(b: seq<byte>, files: FileMap)
    ensures var v := Bytes(b); var r := ProcessValue(v, files);
      CreatesExactly(files, r.files, ImagePaths(v, r.result), 1)
  {
    var p := FreshPath(files);
    var r := ProcessValue(Bytes(b), files);
    assert r == Processed(Picture(p, DefaultWidth, DefaultHeight), files[p := b]);
    assert files[p := b].Keys == files.Keys + {p};
  }

  /** Processing creates one new, distinct file for each byte array it
      reaches, and nothing else. */
  lemma {:induction false} ValueCreatesOneFilePerImage(v: Value, files: FileMap)
    ensures var r := ProcessValue(v, files);
      CreatesExactly(files, r.files, ImagePaths(v, r.result), ImageCount(v))
    decreases v, 1
  {
    var r := ProcessValue(v, files);
    if v.Bytes? {
      BytesCreateOneFile(v.bytes, files);
    } else if v.Rows? {
      var q := ProcessRows(v.rows, files);
      assert r == Processed(Rows(q.result), q.files);
      RowsCreateOneFilePerImage(v.rows, files);
    } else {
      assert r == Processed(v, files);
      assert ImagePaths(v, v) == {};
    }
  }

  lemma {:induction false} RowsCreateOneFilePerImage(rows: seq<Dict>, files: FileMap)
    ensures var r := ProcessRows(rows, files);
      CreatesExactly(files, r.files, RowsImagePaths(rows, r.result), RowsImageCount(rows))
    decreases rows, 1
  {
    if rows != [] {
      var h := ProcessDict(rows[0], files);
      var t := ProcessRows(rows[1..], h.files);
      var out := [h.result] + t.result;
      assert ProcessRows(rows, files) == Processed(out, t.files);
      assert out[0] == h.result && out[1..] == t.result;
      DictCreatesOneFilePerImage(rows[0], files);
      RowsCreateOneFilePerImage(rows[1..], h.files);
      var hp := DictImagePaths(rows[0], h.result);
      var tp := RowsImagePaths(rows[1..], t.result);
      CreatesCompose(files, h.files, t.files, hp, tp, DictImageCount(rows[0]), RowsImageCount(rows[1..]));
    }
  }

  lemma {:induction false} DictCreatesOneFilePerImage(d: Dict, files: FileMap)
    ensures var r := ProcessDict(d, files);
      CreatesExactly(files, r.files, DictImagePaths(d, r.result), DictImageCount(d))
    decreases d, 1
  {
    FieldsCreateOneFilePerImage(d.fields, files);
  }

  lemma {:induction false} FieldsCreateOneFilePerImage(fields: seq<Field>, files: FileMap)
    ensures var r := ProcessFields(fields, files);
      CreatesExactly(files, r.files, FieldsImagePaths(fields, r.result), FieldsImageCount(fields))
    decreases fields, 1
  {
    if fields != [] {
      var h := ProcessValue(fields[0].value, files);
      var t := ProcessFields(fields[1..], h.files);
      var out := [Field(fields[0].key, h.result)] + t.result;
      assert ProcessFields(fields, files) == Processed(out, t.files);
      assert out[0].value == h.result && out[1..] == t.result;
      ValueCreatesOneFilePerImage(fields[0].value, files);
      FieldsCreateOneFilePerImage(fields[1..], h.files);
      var hp := ImagePaths(fields[0].value, h.result);
      var tp := FieldsImagePaths(fields[1..], t.result);
      CreatesCompose(files, h.files, t.files, hp, tp, ImageCount(fields[0].value), FieldsImageCount(fields[1..]));
    }
  }

  /** Data that holds no byte array the walk reaches comes out of
      processing as it went in, and the file system is left alone. */
  lemma {:induction false} ValueWithoutImagesUnchanged(v: Value, files: FileMap)
    requires ImageCount(v) == 0
    ensures ProcessValue(v, files) == Processed(v, files)
    decreases v, 1
  {
    if v.Rows? {
      RowsWithoutImagesUnchanged(v.rows, files);
    }
  }

  lemma {:induction false} RowsWithoutImagesUnchanged(rows: seq<Dict>, files: FileMap)
    requires RowsImageCount(rows) == 0
    ensures ProcessRows(rows, files) == Processed(rows, files)
    decreases rows, 1
  {
    if rows != [] {
      DictWithoutImagesUnchanged(rows[0], files);
      RowsWithoutImagesUnchanged(rows[1..], files);
      assert [rows[0]] + rows[1..] == rows;
    }
  }

  lemma {:induction false} DictWithoutImagesUnchanged(d: Dict, files: FileMap)
    requires DictImageCount(d) == 0
    ensures ProcessDict(d, files) == Processed(d, files)
    decreases d, 1
  {
    FieldsWithoutImagesUnchanged(d.fields, files);
  }

  lemma {:induction false} FieldsWithoutImagesUnchanged(fields: seq<Field>, files: FileMap)
    requires FieldsImageCount(fields) == 0
    ensures ProcessFields(fields, files) == Processed(fields, files)
    decreases fields, 1
  {
    if fields != [] {
      ValueWithoutImagesUnchanged(fields[0].value, files);
      FieldsWithoutImagesUnchanged(fields[1..], files);
      assert [Field(fields[0].key, fields[0].value)] + fields[1..] == fields;
    }
  }

  /** Processing an entry in front of others: first the entry, then the
      rest from the file system the entry left. */
  lemma ProcessFieldsCons(x: Field, rest: seq<Field>, files: FileMap)
    ensures var h := ProcessValue(x.value, files); var t := ProcessFields(rest, h.files);
      ProcessFields([x] + rest, files) == Processed([Field(x.key, h.result)] + t.result, t.files)
  {
    assert ([x] + rest)[0] == x && ([x] + rest)[1..] == rest;
  }

  lemma ConsAppend<T>(x: T, u: seq<T>, v: seq<T>)
    ensures [x] + (u + v) == ([x] + u) + v
  {
  }

  /** An entry without byte arrays in front of others is kept as it is. */
  lemma KeptEntryCons(x: Field, tail: seq<Field>, files: FileMap, done: seq<Field>, files': FileMap)
    requires ImageCount(x.value) == 0
    requires ProcessFields(tail, files) == Processed(done, files')
    ensures ProcessFields([x] + tail, files) == Processed([x] + done, files')
  {
    ValueWithoutImagesUnchanged(x.value, files);
    ProcessFieldsCons(x, tail, files);
  }

  /** Entries without byte arrays in front of other entries are kept as
      they are, and the rest is processed from the same file system. */
  lemma {:induction false} FieldsWithoutImagesPrefix(a: seq<Field>, rest: seq<Field>, files: FileMap)
    requires FieldsImageCount(a) == 0
    ensures var t := ProcessFields(rest, files);
      ProcessFields(a + rest, files) == Processed(a + t.result, t.files)
    decreases a
  {
    var t := ProcessFields(rest, files);
    if a == [] {
      assert a + rest == rest && a + t.result == t.result;
    } else {
      FieldsWithoutImagesPrefix(a[1..], rest, files);
      KeptEntryCons(a[0], a[1..] + rest, files, a[1..] + t.result, t.files);
      assert a == [a[0]] + a[1..];
      ConsAppend(a[0], a[1..], rest);
      ConsAppend(a[0], a[1..], t.result);
    }
  }

  /** The pictures reachable in the result are those reachable in the input
      (pictures the caller supplied are passed through) plus one picture for
      each byte array. */
  lemma {:induction false} ValuePicturesAfterProcessing(v: Value, files: FileMap)
    ensures var r := ProcessValue(v, files);
      PicturePaths(r.result) == PicturePaths(v) + ImagePaths(v, r.result)
    decreases v, 1
  {
    if v.Rows? {
      var q := ProcessRows(v.rows, files);
      assert ProcessValue(v, files) == Processed(Rows(q.result), q.files);
      RowsPicturesAfterProcessing(v.rows, files);
    }
  }

  lemma {:induction false} RowsPicturesAfterProcessing(rows: seq<Dict>, files: FileMap)
    ensures var r := ProcessRows(rows, files);
      RowsPicturePaths(r.result) == RowsPicturePaths(rows) + RowsImagePaths(rows, r.result)
    decreases rows, 1
  {
    if rows != [] {
      var h := ProcessDict(rows[0], files);
      var t := ProcessRows(rows[1..], h.files);
      var out := [h.result] + t.result;
      assert ProcessRows(rows, files) == Processed(out, t.files);
      assert out[0] == h.result && out[1..] == t.result;
      DictPicturesAfterProcessing(rows[0], files);
      RowsPicturesAfterProcessing(rows[1..], h.files);
    }
  }

  lemma {:induction false} DictPicturesAfterProcessing(d: Dict, files: FileMap)
    ensures var r := ProcessDict(d, files);
      DictPicturePaths(r.result) == DictPicturePaths(d) + DictImagePaths(d, r.result)
    decreases d, 1
  {
    FieldsPicturesAfterProcessing(d.fields, files);
  }

  lemma {:induction false} FieldsPicturesAfterProcessing(fields: seq<Field>, files: FileMap)
    ensures var r := ProcessFields(fields, files);
      FieldsPicturePaths(r.result) == FieldsPicturePaths(fields) + FieldsImagePaths(fields, r.result)
    decreases fields, 1
  {
    if fields != [] {
      var h := ProcessValue(fields[0].value, files);
      var t := ProcessFields(fields[1..], h.files);
      var out := [Field(fields[0].key, h.result)] + t.result;
      assert ProcessFields(fields, files) == Processed(out, t.files);
      assert out[0].value == h.result && out[1..] == t.result;
      ValuePicturesAfterProcessing(fields[0].value, files);
      FieldsPicturesAfterProcessing(fields[1..], h.files);
    }
  }

  /** The loop invariant of the walk over entries, after the first i:
      `done` is what processing made of them, and processing the rest from
      `files` gives the overall result. */
  predicate FieldsWalkAt(fields: seq<Field>, i: nat, done: seq<Field>, files0: FileMap, files: FileMap)
    requires i <= |fields|
  {
    var rest := ProcessFields(fields[i..], files);
    ProcessFields(fields, files0) == Processed(done + rest.result, rest.files)
  }

  lemma FieldsWalkStart(fields: seq<Field>, files: FileMap)
    ensures FieldsWalkAt(fields, 0, [], files, files)
  {
    assert fields[0..] == fields;
    var all := ProcessFields(fields, files);
    assert [] + all.result == all.result;
  }

  /** Processing the i-th value from `files` gives `w` and `files'`. */
  lemma FieldsWalkStep(fields: seq<Field>, i: nat, done: seq<Field>, files0: FileMap, files: FileMap,
                       w: Value, files': FileMap)
    requires i < |fields| && FieldsWalkAt(fields, i, done, files0, files)
    requires ProcessValue(fields[i].value, files) == Processed(w, files')
    ensures FieldsWalkAt(fields, i + 1, done + [Field(fields[i].key, w)], files0, files')
  {
    assert fields[i..][0] == fields[i] && fields[i..][1..] == fields[i + 1..];
    var rest := ProcessFields(fields[i + 1..], files');
    assert done + ([Field(fields[i].key, w)] + rest.result) == (done + [Field(fields[i].key, w)]) + rest.result;
  }

  lemma FieldsWalkEnd(fields: seq<Field>, done: seq<Field>, files0: FileMap, files: FileMap)
    requires FieldsWalkAt(fields, |fields|, done, files0, files)
    ensures ProcessFields(fields, files0) == Processed(done, files)
  {
    assert fields[|fields|..] == [];
    assert done + [] == done;
  }

  /** The same for the walk over a row list. */
  predicate RowsWalkAt(rows: seq<Dict>, j: nat, done: seq<Dict>, files0: FileMap, files: FileMap)
    requires j <= |rows|
  {
    var rest := ProcessRows(rows[j..], files);
    ProcessRows(rows, files0) == Processed(done + rest.result, rest.files)
  }

  lemma RowsWalkStart(rows: seq<Dict>, files: FileMap)
    ensures RowsWalkAt(rows, 0, [], files, files)
  {
    assert rows[0..] == rows;
    var all := ProcessRows(rows, files);
    assert [] + all.result == all.result;
  }

  lemma RowsWalkStep(rows: seq<Dict>, j: nat, done: seq<Dict>, files0: FileMap, files: FileMap,
                     e: Dict, files': FileMap)
    requires j < |rows| && RowsWalkAt(rows, j, done, files0, files)
    requires ProcessDict(rows[j], files) == Processed(e, files')
    ensures RowsWalkAt(rows, j + 1, done + [e], files0, files')
  {
    assert rows[j..][0] == rows[j] && rows[j..][1..] == rows[j + 1..];
    var rest := ProcessRows(rows[j + 1..], files');
    assert done + ([e] + rest.result) == (done + [e]) + rest.result;
  }

  lemma RowsWalkEnd(rows: seq<Dict>, done: seq<Dict>, files0: FileMap, files: FileMap)
    requires RowsWalkAt(rows, |rows|, done, files0, files)
    ensures ProcessRows(rows, files0) == Processed(done, files)
  {
    assert rows[|rows|..] == [];
    assert done + [] == done;
  }

  /** `w` is what the generator makes of `v`, given the file system before
      and after processing: a byte array becomes a 100 by 100 picture of a
      file that did not exist before and now holds exactly those bytes; a
      row list becomes a list of the same length whose i-th dictionary is
      the i-th dictionary processed; any other value (a picture, a plain
      nested dictionary, a scalar) is kept as it is. */
  predicate ValueNormalized(v: Value, w: Value, before: FileMap, after: FileMap) {
    match v
    case Bytes(b) =>
      && w.Picture? && w.width == DefaultWidth && w.height == DefaultHeight
      && w.path !in before && w.path in after && after[w.path] == b
    case Rows(rows) => w.Rows? && RowsNormalized(rows, w.rows, before, after)
    case _ => w == v
  }

  predicate RowsNormalized(rows: seq<Dict>, out: seq<Dict>, before: FileMap, after: FileMap) {
    && |out| == |rows|
    && forall i :: 0 <= i < |rows| ==> DictNormalized(rows[i], out[i], before, after)
  }

  predicate DictNormalized(d: Dict, e: Dict, before: FileMap, after: FileMap) {
    FieldsNormalized(d.fields, e.fields, before, after)
  }

  /** Same keys in the same order, each value normalized. */
  predicate FieldsNormalized(fields: seq<Field>, out: seq<Field>, before: FileMap, after: FileMap) {
    && |out| == |fields|
    && forall i :: 0 <= i < |fields| ==>
         out[i].key == fields[i].key && ValueNormalized(fields[i].value, out[i].value, before, after)
  }

  /** Checking against fewer earlier files, or against a later file system
      that keeps every file, keeps a value normalized. */
  lemma {:induction false} ValueNormalizedWeaken(v: Value, w: Value, before: FileMap, after: FileMap,
                                                 before': FileMap, after': FileMap)
    requires ValueNormalized(v, w, before, after)
    requires before'.Keys <= before.Keys && Extends(after, after')
    ensures ValueNormalized(v, w, before', after')
    decreases v, 1
  {
    if v.Rows? {
      RowsNormalizedWeaken(v.rows, w.rows, before, after, before', after');
    }
  }

  lemma {:induction false} RowsNormalizedWeaken(rows: seq<Dict>, out: seq<Dict>, before: FileMap, after: FileMap,
                                                before': FileMap, after': FileMap)
    requires RowsNormalized(rows, out, before, after)
    requires before'.Keys <= before.Keys && Extends(after, after')
    ensures RowsNormalized(rows, out, before', after')
    decreases rows, 1
  {
    forall i | 0 <= i < |rows| ensures DictNormalized(rows[i], out[i], before', after') {
      DictNormalizedWeaken(rows[i], out[i], before, after, before', after');
    }
  }

  lemma {:induction false} DictNormalizedWeaken(d: Dict, e: Dict, before: FileMap, after: FileMap,
                                                before': FileMap, after': FileMap)
    requires DictNormalized(d, e, before, after)
    requires before'.Keys <= before.Keys && Extends(after, after')
    ensures DictNormalized(d, e, before', after')
    decreases d, 1
  {
    FieldsNormalizedWeaken(d.fields, e.fields, before, after, before', after');
  }

  lemma {:induction false} FieldsNormalizedWeaken(fields: seq<Field>, out: seq<Field>, before: FileMap, after: FileMap,
                                                  before': FileMap, after': FileMap)
    requires FieldsNormalized(fields, out, before, after)
    requires before'.Keys <= before.Keys && Extends(after, after')
    ensures FieldsNormalized(fields, out, before', after')
    decreases fields, 1
  {
    forall i | 0 <= i < |fields|
      ensures ValueNormalized(fields[i].value, out[i].value, before', after')
    {
      ValueNormalizedWeaken(fields[i].value, out[i].value, before, after, before', after');
    }
  }

  /** What processing computes, in terms of the file system it leaves. */
  lemma {:induction false} ProcessValueNormalizes(v: Value, files: FileMap)
    ensures var r := ProcessValue(v, files); ValueNormalized(v, r.result, files, r.files)
    decreases v, 1
  {
    if v.Rows? {
      ProcessRowsNormalizes(v.rows, files);
    }
  }

  lemma {:induction false} ProcessRowsNormalizes(rows: seq<Dict>, files: FileMap)
    ensures var r := ProcessRows(rows, files); RowsNormalized(rows, r.result, files, r.files)
    decreases rows, 1
  {
    if rows != [] {
      var r := ProcessRows(rows, files);
      var h := ProcessDict(rows[0], files);
      var t := ProcessRows(rows[1..], h.files);
      assert r.result[0] == h.result && r.result[1..] == t.result && r.files == t.files;
      ProcessDictNormalizes(rows[0], files);
      DictNormalizedWeaken(rows[0], h.result, files, h.files, files, t.files);
      ProcessRowsNormalizes(rows[1..], h.files);
      RowsNormalizedWeaken(rows[1..], t.result, h.files, t.files, files, t.files);
      forall i | 1 <= i < |rows| ensures DictNormalized(rows[i], r.result[i], files, r.files) {
        assert rows[i] == rows[1..][i - 1] && r.result[i] == t.result[i - 1];
      }
    }
  }

  lemma {:induction false} ProcessDictNormalizes(d: Dict, files: FileMap)
    ensures var r := ProcessDict(d, files); DictNormalized(d, r.result, files, r.files)
    decreases d, 1
  {
    ProcessFieldsNormalizes(d.fields, files);
  }

  lemma {:induction false} ProcessFieldsNormalizes(fields: seq<Field>, files: FileMap)
    ensures var r := ProcessFields(fields, files); FieldsNormalized(fields, r.result, files, r.files)
    decreases fields, 1
  {
    if fields != [] {
      var r := ProcessFields(fields, files);
      var h := ProcessValue(fields[0].value, files);
      var t := ProcessFields(fields[1..], h.files);
      assert r.result[0].value == h.result && r.result[1..] == t.result && r.files == t.files;
      ProcessValueNormalizes(fields[0].value, files);
      ValueNormalizedWeaken(fields[0].value, h.result, files, h.files, files, t.files);
      ProcessFieldsNormalizes(fields[1..], h.files);
      FieldsNormalizedWeaken(fields[1..], t.result, h.files, t.files, files, t.files);
      forall i | 1 <= i < |fields|
        ensures ValueNormalized(fields[i].value, r.result[i].value, files, r.files)
      {
        assert fields[i] == fields[1..][i - 1] && r.result[i] == t.result[i - 1];
      }
    }
  }
}
