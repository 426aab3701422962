# WordGenerator: image normalization and temporary-file lifecycle

The `WordGenerator` class fills a Word template with a dictionary of field
values through an external template engine. Before rendering, it walks the
field data and replaces every raw image byte array with a picture descriptor.
The descriptor names a new temporary `.png` file holding those bytes, with a
fixed display size of 100 by 100. The walk covers entries stored directly in
the dictionary and entries inside lists of row dictionaries (repeating table
sections), to any depth. After rendering, the class walks the processed data
the same way and deletes the file of every picture it finds, skipping files
that no longer exist.

This project models that logic in Dafny and proves what it does to the file
system.

- `fields.dfy` (module `Fields`) holds the field data. A dictionary is its
  entries in enumeration order. An entry's value is one of: raw bytes; a
  picture (path, width, height); a list of row dictionaries; a plain nested
  dictionary; or any other object, represented by its text. The module also
  counts the byte arrays, and collects the picture paths, that the walk
  reaches.
- `disk.dfy` (module `Disk`) holds the file system: a map from paths to
  contents, kept in a `FileSystem` class whose operations change it in
  place. A random temporary name is modelled as a name no existing file has.
- `processing.dfy` (module `Processing`) gives processing as functions that
  thread the file map through the walk in enumeration order.
  `processing_facts.dfy` (module `ProcessingFacts`) proves:
  - processing creates exactly one new, distinct file per byte array and
    leaves every other file alone;
  - every entry keeps its key and position;
  - every byte array becomes a 100 by 100 picture of a new file holding
    those bytes;
  - row lists keep their order;
  - everything else passes through unchanged.
- `cleanup.dfy` (module `Cleanup`) gives cleanup as functions. It proves that
  cleanup deletes exactly the reachable pictures' files and that running it
  twice changes nothing.
- `word_generator.dfy` (module `WordGenerator`) holds the generator's
  methods. They are imperative, with loops over the entries and the rows and
  recursive calls, and each is proved against the functions above. It also
  holds the end-to-end property: after generation no temporary file is
  left, and no other file is touched, except the files of pictures the
  caller passed in.
- `example.dfy` (module `Example`) works through the library's certificate
  scenario from `WordGeneratorTests.cs`.

The template engine is a function parameter `render`. It receives the
template, the processed data and the file system as it stands between
processing and cleanup, so every picture made from a byte array names a
file that exists and holds those bytes; a picture the caller supplied is
passed through as it is. It cannot change the file system.

`ProcessImageBytes` and `CleanupTempFiles` only distinguish `byte[]`,
`MiniWordPicture` and `List<Dictionary<string, object>>` values
(WordGenerator.cs:45, 55, 100, 107). A plain nested dictionary is neither
entered nor changed: `ProcessImageBytes` copies it as it is
(WordGenerator.cs:64-67), and `CleanupTempFiles` skips it. So byte arrays
inside a plain nested dictionary are not turned into pictures, and pictures
inside one are not deleted.

## Model

| member | source | states |
|---|---|---|
| WordGenerator.GenerateWordDocument | WordDocumentGenerator/WordGenerator.cs:23-33 | The document is the template rendered with the processed data and the file system as processing left it, so the new temporary files exist while rendering. Afterwards the file system is exactly what it was, minus the files of pictures the caller supplied; no temporary file survives. |
| WordGenerator.ProcessImageBytes | WordDocumentGenerator/WordGenerator.cs:40-70 | The new dictionary and file system are those of `ProcessDict`. Keys stay in the same order, every old file is kept unchanged, and each value is normalized (`DictNormalized`). Exactly one new file is created per reachable byte array. |
| WordGenerator.ProcessEntryValue | WordDocumentGenerator/WordGenerator.cs:45-67 | Handling one entry's value gives the same value and file system as `ProcessValue`. |
| WordGenerator.ProcessList | WordDocumentGenerator/WordGenerator.cs:55-62 | Each row is processed in order into a list of the same length, with the same result and file system as `ProcessRows`. |
| WordGenerator.SaveToTempFile | WordDocumentGenerator/WordGenerator.cs:77-89 | Returns a path that no file had before. The file system gains exactly that file, holding the given bytes. |
| WordGenerator.CleanupTempFiles | WordDocumentGenerator/WordGenerator.cs:96-115 | The new file system is `CleanupDict` of the old one: the old one minus the paths of all pictures the walk reaches. A missing file is skipped. |
| WordGenerator.GenerationLeavesNoTempFiles | WordDocumentGenerator/WordGenerator.cs:28-30 | Processing then cleanup leaves the original file system minus the caller's picture files. Every file processing created is gone afterwards. |
| Disk.FreshPath | WordDocumentGenerator/WordGenerator.cs:80-83 | The temporary name chosen is not the name of any existing file. |
| Disk.FileSystem.TempFilePath | WordDocumentGenerator/WordGenerator.cs:80-83 | Returns a path that no existing file has, without changing the file system. |
| Disk.FileSystem.WriteAllBytes | WordDocumentGenerator/WordGenerator.cs:86 | The file at the path now holds exactly the bytes; every other file is unchanged. |
| Disk.FileSystem.Delete | WordDocumentGenerator/WordGenerator.cs:104 | The file at the path is gone; every other file is unchanged. |
| Processing.ProcessValue | WordDocumentGenerator/WordGenerator.cs:45-67 | Processing one value keeps every existing file, with the same contents. |
| Processing.ProcessRows | WordDocumentGenerator/WordGenerator.cs:55-62 | A processed row list has as many rows as the input and keeps every existing file. |
| Processing.ProcessDict | WordDocumentGenerator/WordGenerator.cs:40-70 | The processed dictionary has the same keys in the same order, so keys that were unique stay unique. Every existing file is kept. |
| Processing.ProcessFields | WordDocumentGenerator/WordGenerator.cs:43-68 | One output entry per input entry, with the same key at the same position; every existing file is kept. |
| ProcessingFacts.BytesCreateOneFile | WordDocumentGenerator/WordGenerator.cs:45-53 | A byte array becomes a picture of exactly one new file that did not exist before. |
| ProcessingFacts.ValueCreatesOneFilePerImage | WordDocumentGenerator/WordGenerator.cs:45-67 | Processing a value adds exactly the files of the new pictures: none existed before, and there are as many as the value has reachable byte arrays. |
| ProcessingFacts.RowsCreateOneFilePerImage | WordDocumentGenerator/WordGenerator.cs:57-61 | The same for a row list: one new, distinct file per byte array across all rows. |
| ProcessingFacts.DictCreatesOneFilePerImage | WordDocumentGenerator/WordGenerator.cs:40-70 | The same for a dictionary. |
| ProcessingFacts.FieldsCreateOneFilePerImage | WordDocumentGenerator/WordGenerator.cs:43-68 | The same for a sequence of entries. |
| ProcessingFacts.ValueWithoutImagesUnchanged | WordDocumentGenerator/WordGenerator.cs:55-67 | A value with no reachable byte array comes out unchanged, and the file system is untouched. |
| ProcessingFacts.RowsWithoutImagesUnchanged | WordDocumentGenerator/WordGenerator.cs:57-61 | The same for a row list. |
| ProcessingFacts.DictWithoutImagesUnchanged | WordDocumentGenerator/WordGenerator.cs:40-70 | The same for a dictionary. |
| ProcessingFacts.FieldsWithoutImagesUnchanged | WordDocumentGenerator/WordGenerator.cs:43-68 | The same for a sequence of entries. |
| ProcessingFacts.FieldsWithoutImagesPrefix | WordDocumentGenerator/WordGenerator.cs:43-68 | Leading entries without byte arrays are copied unchanged; the rest is processed from the same file system. |
| ProcessingFacts.ValuePicturesAfterProcessing | WordDocumentGenerator/WordGenerator.cs:45-67 | The pictures reachable after processing are the caller's own pictures plus the new ones. |
| ProcessingFacts.RowsPicturesAfterProcessing | WordDocumentGenerator/WordGenerator.cs:57-61 | The same for a row list. |
| ProcessingFacts.DictPicturesAfterProcessing | WordDocumentGenerator/WordGenerator.cs:40-70 | The same for a dictionary. |
| ProcessingFacts.FieldsPicturesAfterProcessing | WordDocumentGenerator/WordGenerator.cs:43-68 | The same for a sequence of entries. |
| ProcessingFacts.ProcessValueNormalizes | WordDocumentGenerator/WordGenerator.cs:45-67 | Bytes become a 100 by 100 picture of a file that is new and holds exactly those bytes. A row list becomes a list of the same length, each row normalized. Anything else is kept as it is. |
| ProcessingFacts.ProcessRowsNormalizes | WordDocumentGenerator/WordGenerator.cs:55-62 | The i-th output row is the i-th input row normalized, so order is preserved. |
| ProcessingFacts.ProcessDictNormalizes | WordDocumentGenerator/WordGenerator.cs:40-70 | Each entry keeps its key and position, and its value is normalized. |
| ProcessingFacts.ProcessFieldsNormalizes | WordDocumentGenerator/WordGenerator.cs:43-68 | The same for a sequence of entries. |
| Disk.FileSystem.Exists | WordDocumentGenerator/WordGenerator.cs:102 | Holds exactly when the file system has a file at the path. |
| Cleanup.CleanupValue | WordDocumentGenerator/WordGenerator.cs:100-113 | Cleaning a value only deletes files: every file left was there before, with the same contents. |
| Cleanup.CleanupRows | WordDocumentGenerator/WordGenerator.cs:107-112 | The same for a row list, cleaned row by row in order. |
| Cleanup.CleanupDict | WordDocumentGenerator/WordGenerator.cs:96-115 | The same for a dictionary; `CleanupTempFiles` is proved equal to it. |
| Cleanup.CleanupFields | WordDocumentGenerator/WordGenerator.cs:98-114 | The same for a sequence of entries, cleaned in enumeration order. |
| Cleanup.CleanupValueRemovesPictures | WordDocumentGenerator/WordGenerator.cs:100-113 | Cleaning a value deletes exactly its reachable picture files; missing files are skipped and other files are untouched. |
| Cleanup.CleanupRowsRemovesPictures | WordDocumentGenerator/WordGenerator.cs:107-112 | The same for a row list. |
| Cleanup.CleanupDictRemovesPictures | WordDocumentGenerator/WordGenerator.cs:96-115 | The same for a dictionary. |
| Cleanup.CleanupFieldsRemovesPictures | WordDocumentGenerator/WordGenerator.cs:98-114 | The same for a sequence of entries. |
| Cleanup.CleanupIdempotent | WordDocumentGenerator/WordGenerator.cs:102-104 | Running cleanup a second time on the same data changes nothing. |
| Example.BodyProcessed | WordDocumentGenerator.Tests/WordGeneratorTests.cs:32-38 | The logo becomes a 100 by 100 picture of one new file holding its bytes. The employee table passes through unchanged. |
| Example.CertificateProcessed | WordDocumentGenerator.Tests/WordGeneratorTests.cs:27-42 | Processing the certificate changes only the logo entry and adds only the logo's file. |
| Example.CertificateHasNoPictures | WordDocumentGenerator.Tests/WordGeneratorTests.cs:27-39 | The certificate data holds no picture of its own. |
| Example.CertificateUsesOneTempFile | WordDocumentGenerator.Tests/WordGeneratorTests.cs:27-42 | Generating the certificate creates exactly one temporary file, and afterwards the file system is exactly as before. |

## Left out

- The template engine (`MiniWord.SaveAsByTemplate`, WordGenerator.cs:29) is the function parameter `render`. Its output is not modelled. It is given the file system as processing left it, but it can only read it, never change it.
- `ConvertToPdf` (WordGenerator.cs:122-131) is left out. It only calls a PDF library on the document bytes and has no logic of its own.
- Disk.FreshPath: does not model the temporary directory or the random file name. It picks a name that no existing file has. With a random name a collision is possible in principle, and then `File.WriteAllBytes` would overwrite an existing file; the model excludes that. No proof depends on which unused name is chosen.
- I/O errors (an unwritable temporary directory, a full disk, a failing delete) and exceptions are left out. A render that throws would skip `CleanupTempFiles`, since the source has no `try`/`finally`, and the temporary files would remain.
- The private field `tempFilePaths` (WordGenerator.cs:15) is never used by the source and is left out.
- References and aliasing are left out: values are immutable Dafny values. That the input dictionary is not changed holds by construction. A value that is neither bytes nor a row list is shared by reference in the source and copied in the model.
- Any value other than bytes, a picture, a row list or a plain dictionary is represented by its text. Numbers, dates and other objects are passed through unchanged, so their contents do not matter.
- Key uniqueness of a dictionary is the predicate `Fields.UniqueKeys`, not a precondition. `Processing.ProcessDict` keeps the keys and their order, so unique keys stay unique, and appending each new entry has the same effect as the source's `processedData[key] = …`.
- Files of pictures the caller supplied are deleted by cleanup, as in the source. Byte arrays inside a plain nested dictionary are not turned into pictures. Both follow the code.
- The test runner (`TestRunner/Program.cs`), the QR-code generator used by the test, and writing the results to the desktop are not part of this model.
- Paths are compared as exact strings. Two spellings of one file, such as a relative and an absolute path or a different letter case on a case-insensitive file system, are two files in the model, whereas `File.Exists` and `File.Delete` (WordGenerator.cs:102-104) resolve them to the same file. This matters only for pictures the caller supplies; temporary files are always named by the path that created them.
- Concurrency between generation calls is left out; each call is modelled as one sequential run on one file system.
