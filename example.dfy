/** The data of the library's own usage scenario: a certificate with three
    text fields, a QR-code logo given as raw bytes, and an employee table of
    two rows. The date and the image bytes are parameters. */
module Example {
  import opened Fields
  import opened Disk
  import opened Processing
  import opened ProcessingFacts
  import opened Cleanup
  import opened WordGenerator

  function Employee(id: string, name: string, role: string): Dict {
    Dict([Field("ID", Scalar(id)), Field("Name", Scalar(name)), Field("Role", Scalar(role))])
  }

  /** The three text entries at the head of the certificate. */
  function Heading(date: string): seq<Field> {
    [Field("Title", Scalar("Certificate of Completion")),
     Field("Recipient", Scalar("John Doe")),
     Field("Date", Scalar(date))]
  }

  function Staff(): seq<Dict> {
    [Employee("001", "Alice", "Developer"), Employee("002", "Bob", "Designer")]
  }

  /** Entries holding only text reach no byte array and no picture. */
  lemma {:induction false} TextOnly(fields: seq<Field>)
    requires forall i :: 0 <= i < |fields| ==> fields[i].value.Scalar?
    ensures FieldsImageCount(fields) == 0 && FieldsPicturePaths(fields) == {}
    decreases fields
  {
    if fields != [] {
      assert fields[0].value.Scalar?;
      TextOnly(fields[1..]);
    }
  }

  /** Rows of text entries reach no byte array and no picture either. */
  lemma {:induction false} TextRowsOnly(rows: seq<Dict>)
    requires forall j, i :: 0 <= j < |rows| && 0 <= i < |rows[j].fields| ==> rows[j].fields[i].value.Scalar?
    ensures RowsImageCount(rows) == 0 && RowsPicturePaths(rows) == {}
    decreases rows
  {
    if rows != [] {
      TextOnly(rows[0].fields);
      TextRowsOnly(rows[1..]);
    }
  }

  /** The entries after the heading: the logo and the employee table. */
  function Body(logo: seq<byte>): seq<Field> {
    [Field("Logo", Bytes(logo)), Field("Employees", Rows(Staff()))]
  }

  function Certificate(date: string, logo: seq<byte>): Dict {
    Dict(Heading(date) + Body(logo))
  }

  lemma BodyProcessed(logo: seq<byte>, files: FileMap)
    ensures var p := FreshPath(files);
      ProcessFields(Body(logo), files)
        == Processed([Field("Logo", Picture(p, 100, 100)), Field("Employees", Rows(Staff()))], files[p := logo])
      && FieldsPicturePaths(Body(logo)) == {}
  {
    var p := FreshPath(files);
    var files1 := files[p := logo];
    var b := Body(logo);
    var staff := [b[1]];
    assert b[1..] == staff && staff[1..] == [];
    TextRowsOnly(Staff());
    assert FieldsImageCount(staff) == 0 && FieldsPicturePaths(staff) == {};
    FieldsWithoutImagesUnchanged(staff, files1);
    assert ProcessValue(b[0].value, files) == Processed(Picture(p, 100, 100), files1);
    assert b == [b[0]] + staff;
    ProcessFieldsCons(b[0], staff, files);
    var pic := Field("Logo", Picture(p, 100, 100));
    assert ProcessFields(b, files) == Processed([pic] + staff, files1);
    assert [pic] + staff == [pic, Field("Employees", Rows(Staff()))];
  }

  /** Processing the certificate replaces the logo by a 100 by 100 picture
      of one new file holding the logo's bytes, and nothing else. */
  lemma CertificateProcessed(date: string, logo: seq<byte>, files: FileMap)
    ensures var p := FreshPath(files);
      ProcessDict(Certificate(date, logo), files)
        == Processed(Dict(Heading(date) + [Field("Logo", Picture(p, 100, 100)), Field("Employees", Rows(Staff()))]),
                     files[p := logo])
  {
    BodyProcessed(logo, files);
    TextOnly(Heading(date));
    FieldsWithoutImagesPrefix(Heading(date), Body(logo), files);
  }

  /** The caller supplies no picture of their own. */
  lemma CertificateHasNoPictures(date: string, logo: seq<byte>)
    ensures DictPicturePaths(Certificate(date, logo)) == {}
  {
    FieldsPicturePathsAppend(Heading(date), Body(logo));
    TextOnly(Heading(date));
    BodyProcessed(logo, map[]);
  }
  /** Generating the certificate writes exactly one temporary file, the
      logo, and afterwards the file system is back to what it was. */
  lemma CertificateUsesOneTempFile(date: string, logo: seq<byte>, files: FileMap)
    ensures var r := ProcessDict(Certificate(date, logo), files);
      && r.files.Keys == files.Keys + {FreshPath(files)}
      && CleanupDict(r.result, r.files) == files
  {
    CertificateProcessed(date, logo, files);
    CertificateHasNoPictures(date, logo);
    GenerationLeavesNoTempFiles(Certificate(date, logo), files);
    assert files - {} == files;
  }
}
