/**
 * The upload route: every form entry that is a file with an `image/` type becomes a record
 * holding its data URL; other entries are dropped. The base64 encoder is an oracle.
 */
module Upload {
  import opened Wrappers
  import opened Text
  import opened Gemini
  import opened Http

  /** A `files` entry of the multipart body: a file, or a plain text value. */
  datatype FormEntry =
    | FileEntry(name: string, size: nat, mimeType: string, bytes: seq<bv8>)
    | TextEntry(value: string)

  datatype UploadedFile = UploadedFile(name: string, size: nat, mimeType: string, data: string)

  datatype UploadBody = UploadBody(files: seq<UploadedFile>, message: string)

  /** `buffer.toString('base64')`. */
  type Base64Encoder = seq<bv8> -> string

  const ImageTypePrefix: string := "image/"
  const NoFilesProvided: string := "No files provided"
  const FilesUploaded: string := "Files uploaded successfully"

  /** `data:${type};base64,${base64}`. */
  function DataUrl(mimeType: string, base64: string): string {
    "data:" + mimeType + ";base64," + base64
  }

  predicate IsImageFile(entry: FormEntry) {
    entry.FileEntry? && StartsWith(entry.mimeType, ImageTypePrefix)
  }

  function RecordOf(entry: FormEntry, encode: Base64Encoder): UploadedFile
    requires entry.FileEntry?
  {
    UploadedFile(entry.name, entry.size, entry.mimeType, DataUrl(entry.mimeType, encode(entry.bytes)))
  }

  /** The records of the image files, in input order. */
  function UploadRecords(entries: seq<FormEntry>, encode: Base64Encoder): (r: seq<UploadedFile>)
    ensures |r| <= |entries|
    ensures forall i :: 0 <= i < |r| ==> StartsWith(r[i].mimeType, ImageTypePrefix)
    decreases |entries|
  {
    if |entries| == 0 then []
    else
      var rest := UploadRecords(entries[1..], encode);
      if IsImageFile(entries[0]) then [RecordOf(entries[0], encode)] + rest else rest
  }

  /** Records are made entry by entry. */
  lemma {:induction false} UploadRecordsConcat(a: seq<FormEntry>, b: seq<FormEntry>, encode: Base64Encoder)
    ensures UploadRecords(a + b, encode) == UploadRecords(a, encode) + UploadRecords(b, encode)
    decreases |a|
  {
    if |a| > 0 {
      assert (a + b)[1..] == a[1..] + b;
      assert (a + b)[0] == a[0];
      UploadRecordsConcat(a[1..], b, encode);
    } else {
      assert a + b == b;
    }
  }

  /** When every entry is an image file, each gets its record, in the same position. */
  lemma {:induction false} AllImagesKept(entries: seq<FormEntry>, encode: Base64Encoder)
    requires forall i :: 0 <= i < |entries| ==> IsImageFile(entries[i])
    ensures |UploadRecords(entries, encode)| == |entries|
    ensures forall i :: 0 <= i < |entries| ==> entries[i].FileEntry? && UploadRecords(entries, encode)[i] == RecordOf(entries[i], encode)
    decreases |entries|
  {
    if |entries| > 0 {
      AllImagesKept(entries[1..], encode);
      var r := UploadRecords(entries, encode);
      assert r == [RecordOf(entries[0], encode)] + UploadRecords(entries[1..], encode);
      assert forall i :: 1 <= i < |entries| ==> entries[1..][i - 1] == entries[i];
    }
  }

  /** Entries that are not image files leave no record, and the route still answers with success. */
  lemma {:induction false} OthersDropped(entries: seq<FormEntry>, encode: Base64Encoder)
    requires forall i :: 0 <= i < |entries| ==> !IsImageFile(entries[i])
    ensures UploadRecords(entries, encode) == []
    decreases |entries|
  {
    if |entries| > 0 {
      OthersDropped(entries[1..], encode);
    }
  }

  /** The `POST` upload route: the `for` loop pushing one record per image file. */
  method Upload(userId: Option<string>, files: seq<FormEntry>, encode: Base64Encoder)
    returns (r: Response<UploadBody>)
    ensures !Truthy(userId) ==> r == Failure(401, Unauthorized)
    ensures Truthy(userId) && files == [] ==> r == Failure(400, NoFilesProvided)
    ensures Truthy(userId) && files != [] ==> r == Success(UploadBody(UploadRecords(files, encode), FilesUploaded))
  {
    if !Truthy(userId) {
      return Failure(401, Unauthorized);
    }
    if |files| == 0 {
      return Failure(400, NoFilesProvided);
    }
    var uploadedFiles: seq<UploadedFile> := [];
    var i := 0;
    while i < |files|
      invariant 0 <= i <= |files|
      invariant uploadedFiles == UploadRecords(files[..i], encode)
    {
      var file := files[i];
      if file.FileEntry? && StartsWith(file.mimeType, ImageTypePrefix) {
        var dataUrl := "data:" + file.mimeType + ";base64," + encode(file.bytes);
        uploadedFiles := uploadedFiles + [UploadedFile(file.name, file.size, file.mimeType, dataUrl)];
      }
      assert files[..i + 1] == files[..i] + [file];
      UploadRecordsConcat(files[..i], [file], encode);
      i := i + 1;
    }
    assert files[..i] == files;
    r := Success(UploadBody(uploadedFiles, FilesUploaded));
  }

  /** The characters base64 output is made of. */
  predicate IsBase64Char(c: char) {
    'A' <= c <= 'Z' || 'a' <= c <= 'z' || '0' <= c <= '9' || c == '+' || c == '/' || c == '='
  }

  /**
   * The data URL round trip: when the type contains no `;`, `:` or `,` and the payload has no
   * `,`, the inline part built from the URL carries exactly that type and payload.
   */
  lemma DataUrlRoundTrip(mimeType: string, base64: string)
    requires NoneIn(mimeType, {';', ':', ','})
    requires NoneIn(base64, {','})
    ensures InlineDataOf(DataUrl(mimeType, base64)) == InlineDataPart(Some(base64), Some(mimeType))
  {
    var url := DataUrl(mimeType, base64);
    var beforeComma := "data:" + mimeType + ";base64";
    assert NoneIn(beforeComma, {','}) by {
      assert beforeComma == "data:" + mimeType + ";base64";
      forall k | 0 <= k < |beforeComma| ensures beforeComma[k] != ',' {
        if 5 <= k < 5 + |mimeType| {
          assert beforeComma[k] == mimeType[k - 5];
        }
      }
    }
    assert url == beforeComma + [','] + base64;
    SplitAtSeparator(beforeComma, ',', base64, {','});
    SplitNoSeparator(base64, {','});
    var beforeSemicolon := "data:" + mimeType;
    assert NoneIn(beforeSemicolon, {';'}) by {
      forall k | 0 <= k < |beforeSemicolon| ensures beforeSemicolon[k] != ';' {
        if 5 <= k {
          assert beforeSemicolon[k] == mimeType[k - 5];
        }
      }
    }
    assert url == beforeSemicolon + [';'] + ("base64," + base64);
    SplitAtSeparator(beforeSemicolon, ';', "base64," + base64, {';'});
    assert beforeSemicolon == "data" + [':'] + mimeType;
    SplitAtSeparator("data", ':', mimeType, {':'});
    SplitNoSeparator(mimeType, {':'});
  }

  /**
   * An uploaded image reaches the model intact: its data URL passes the `data:image/` test and
   * becomes one inline part with the file's type and the encoder's output, provided the type has
   * no `;`, `:` or `,` and the output is base64 text.
   */
  lemma UploadedImageReachesProvider(file: FormEntry, encode: Base64Encoder)
    requires IsImageFile(file)
    requires NoneIn(file.mimeType, {';', ':', ','})
    requires forall k :: 0 <= k < |encode(file.bytes)| ==> IsBase64Char(encode(file.bytes)[k])
    ensures ImageParts([RecordOf(file, encode).data])
      == [InlineDataPart(Some(encode(file.bytes)), Some(file.mimeType))]
  {
    var b := encode(file.bytes);
    var url := RecordOf(file, encode).data;
    DataUrlRoundTrip(file.mimeType, b);
    assert url == "data:" + file.mimeType + ";base64," + b;
    var t := file.mimeType;
    assert t == ImageTypePrefix + t[|ImageTypePrefix|..];
    assert url[..|ImageUrlPrefix|] == ImageUrlPrefix by {
      assert url == "data:" + t + (";base64," + b);
      assert url[..5] == "data:";
      forall k | 5 <= k < |ImageUrlPrefix| ensures url[k] == ImageUrlPrefix[k] {
        assert url[k] == t[k - 5];
      }
    }
    assert [url][1..] == [];
  }
}
