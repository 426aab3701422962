/** The generator itself: turn byte arrays into temporary picture files,
    hand the result to the template engine, then delete the files again.
    Each method walks the data with loops and recursive calls, changing the
    file system in place, and is proved against the functions of
    `Processing` and `Cleanup`. */
module WordGenerator {
  import opened Fields
  import opened Disk
  import opened Processing
  import opened ProcessingFacts
  import opened Cleanup

  /** Writes the bytes to a new temporary file and returns its path. */
  method SaveToTempFile(fs: FileSystem, bytes: seq<byte>) returns (path: Path)
    modifies fs
    ensures path == FreshPath(old(fs.files)) && path !in old(fs.files)
    ensures fs.files == old(fs.files)[path := bytes]
  {
    path := fs.TempFilePath();
    fs.WriteAllBytes(path, bytes);
  }

  /** What a dictionary and file system equal to the result of processing
      are known to satisfy. */
  lemma ProcessedDictFacts(data: Dict, files0: FileMap, processed: Dict, files: FileMap)
    requires ProcessDict(data, files0) == Processed(processed, files)
    ensures Keys(processed) == Keys(data) && Extends(files0, files)
    ensures DictNormalized(data, processed, files0, files)
    ensures CreatesExactly(files0, files, DictImagePaths(data, processed), DictImageCount(data))
  {
    ProcessDictNormalizes(data, files0);
    DictCreatesOneFilePerImage(data, files0);
  }

  /** Builds a new dictionary in which every byte array (directly or inside
      row lists) is replaced by a 100 by 100 picture of a new temporary file
      holding those bytes: one new file per byte array, no other file
      created or changed, every other value kept. */
  method ProcessImageBytes(fs: FileSystem, data: Dict) returns (processed: Dict)
    modifies fs
    ensures Processed(processed, fs.files) == ProcessDict(data, old(fs.files))
    ensures Keys(processed) == Keys(data)
    ensures Extends(old(fs.files), fs.files)
    ensures DictNormalized(data, processed, old(fs.files), fs.files)
    ensures CreatesExactly(old(fs.files), fs.files, DictImagePaths(data, processed), DictImageCount(data))
    decreases data
  {
    ghost var files0 := fs.files;
    var fields := data.fields;
    var processedData: seq<Field> := [];
    FieldsWalkStart(fields, files0);
    for i := 0 to |fields|
      invariant FieldsWalkAt(fields, i, processedData, files0, fs.files)
    {
      var key := fields[i].key;
      ghost var filesAt := fs.files;
      var processedValue := ProcessEntryValue(fs, fields[i].value);
      FieldsWalkStep(fields, i, processedData, files0, filesAt, processedValue, fs.files);
      processedData := processedData + [Field(key, processedValue)];
    }
    FieldsWalkEnd(fields, processedData, files0, fs.files);
    processed := Dict(processedData);
    ProcessedDictFacts(data, files0, processed, fs.files);
  }

  /** The body of the entry loop of ProcessImageBytes: a byte array is
      saved to a temporary file and replaced by a 100 by 100 picture of it,
      a row list is replaced by its processed rows, anything else is kept. */
  method ProcessEntryValue(fs: FileSystem, value: Value) returns (processedValue: Value)
    modifies fs
    ensures Processed(processedValue, fs.files) == ProcessValue(value, old(fs.files))
    decreases value
  {
    if value.Bytes? {
      var tempFilePath := SaveToTempFile(fs, value.bytes);
      processedValue := Picture(tempFilePath, DefaultWidth, DefaultHeight);
    } else if value.Rows? {
      var processedList := ProcessList(fs, value.rows);
      processedValue := Rows(processedList);
    } else {
      processedValue := value;
    }
  }

  /** The inner loop of ProcessImageBytes: a new list holding each row of
      `list`, in order, processed. */
  method ProcessList(fs: FileSystem, list: seq<Dict>) returns (processedList: seq<Dict>)
    modifies fs
    ensures Processed(processedList, fs.files) == ProcessRows(list, old(fs.files))
    ensures |processedList| == |list|
    decreases list
  {
    ghost var files0 := fs.files;
    processedList := [];
    RowsWalkStart(list, files0);
    for j := 0 to |list|
      invariant RowsWalkAt(list, j, processedList, files0, fs.files)
    {
      ghost var filesAt := fs.files;
      var item := ProcessImageBytes(fs, list[j]);
      RowsWalkStep(list, j, processedList, files0, filesAt, item, fs.files);
      processedList := processedList + [item];
    }
    RowsWalkEnd(list, processedList, files0, fs.files);
  }

  /** Deletes the file of every picture the walk reaches, if it exists. */
  method CleanupTempFiles(fs: FileSystem, data: Dict)
    modifies fs
    ensures fs.files == CleanupDict(data, old(fs.files))
    ensures fs.files == old(fs.files) - DictPicturePaths(data)
    decreases data
  {
    ghost var files0 := fs.files;
    for i := 0 to |data.fields|
      invariant CleanupFields(data.fields[i..], fs.files) == CleanupDict(data, files0)
    {
      var value := data.fields[i].value;
      assert data.fields[i..] == [data.fields[i]] + data.fields[i + 1..];
      if value.Picture? {
        if fs.Exists(value.path) {
          fs.Delete(value.path);
        }
      } else if value.Rows? {
        var list := value.rows;
        ghost var filesAt := fs.files;
        for j := 0 to |list|
          invariant CleanupRows(list[j..], fs.files) == CleanupRows(list, filesAt)
        {
          assert list[j..] == [list[j]] + list[j + 1..];
          assert list[j] in list;
          CleanupTempFiles(fs, list[j]);
        }
      }
    }
    CleanupDictRemovesPictures(data, files0);
  }

  /** Adding the files `created` and then deleting them together with the
      files `gone` is the same as deleting the files `gone`. */
  lemma RemovingCreatedRestores(before: FileMap, after: FileMap, created: set<Path>, gone: set<Path>)
    requires after.Keys == before.Keys + created && before.Keys !! created && Extends(before, after)
    ensures after - (gone + created) == before - gone
  {
    var l, r := after - (gone + created), before - gone;
    forall p ensures p in l <==> p in r {
      assert p in l <==> p in after && p !in gone && p !in created;
    }
    forall p | p in l ensures l[p] == r[p] {
    }
  }

  /** Processing followed by cleanup leaves the file system as it was,
      except that the files of pictures the caller supplied are deleted:
      no temporary file survives, and no other file is touched. */
  lemma GenerationLeavesNoTempFiles(data: Dict, files: FileMap)
    ensures var r := ProcessDict(data, files);
      && CleanupDict(r.result, r.files) == files - DictPicturePaths(data)
      && (forall p :: p in r.files && p !in files ==> p !in CleanupDict(r.result, r.files))
  {
    var r := ProcessDict(data, files);
    DictCreatesOneFilePerImage(data, files);
    DictPicturesAfterProcessing(data, files);
    CleanupDictRemovesPictures(r.result, r.files);
    RemovingCreatedRestores(files, r.files, DictImagePaths(data, r.result), DictPicturePaths(data));
  }

  /** Fills the template with the data and returns the document. The
      template engine is `render`: it sees the template, the processed data
      and the file system as it is between processing and cleanup, so every
      picture made from a byte array names a file that exists and holds those
      bytes; a picture the caller supplied is passed through as it is. */
  method GenerateWordDocument(fs: FileSystem, template: seq<byte>, data: Dict,
                              render: (seq<byte>, Dict, FileMap) -> seq<byte>)
    returns (document: seq<byte>)
    modifies fs
    ensures var r := ProcessDict(data, old(fs.files));
      document == render(template, r.result, r.files)
    ensures fs.files == old(fs.files) - DictPicturePaths(data)
  {
    ghost var files0 := fs.files;
    var processedData := ProcessImageBytes(fs, data);
    document := render(template, processedData, fs.files);
    CleanupTempFiles(fs, processedData);
    GenerationLeavesNoTempFiles(data, files0);
  }
}
