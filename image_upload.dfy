/**
 * The image-upload component: which chosen files it starts to read, the images it holds, and
 * the lists it passes to `onImagesChange`.
 *
 * As written, every file of one selection is admitted against the image count at the start of
 * the selection, so one selection can take the list past `maxImages`. `AdmittedAsWritten` and
 * `AdmissionOverflows` show this; `AdmittedCapped` is the rule that keeps the limit, and the
 * component's `HandleImageUpload` uses it.
 */
module ImageUpload {
  import opened Wrappers
  import opened ImageList

  const DefaultMaxImages: nat := 5
  const DefaultAcceptedTypes: seq<string> := ["image/jpeg", "image/png", "image/webp", "image/gif"]

  /** The admission rule as written: an accepted type, and fewer than `maxImages` images when the selection began. */
  function AdmittedAsWritten(files: seq<SelectedFile>, count: nat, maxImages: nat, acceptedTypes: seq<string>)
    : (r: seq<SelectedFile>)
    ensures count >= maxImages ==> r == []
    ensures forall i :: 0 <= i < |r| ==> r[i].mimeType in acceptedTypes
    decreases |files|
  {
    if |files| == 0 then []
    else
      var rest := AdmittedAsWritten(files[1..], count, maxImages, acceptedTypes);
      if files[0].mimeType in acceptedTypes && count < maxImages then [files[0]] + rest else rest
  }

  /** Six JPEG files chosen at once with no image yet: all six are admitted, one over the default limit of five. */
  lemma AdmissionOverflows()
    ensures var six := seq(6, i => SelectedFile("scan.jpg", 1000, "image/jpeg"));
      |AdmittedAsWritten(six, 0, DefaultMaxImages, DefaultAcceptedTypes)| == 6 > DefaultMaxImages
  {
    var six := seq(6, i => SelectedFile("scan.jpg", 1000, "image/jpeg"));
    assert "image/jpeg" in DefaultAcceptedTypes;
    WrittenAdmitsAllAccepted(six, 0, DefaultMaxImages, DefaultAcceptedTypes);
    AllAccepted(six, DefaultAcceptedTypes);
  }

  /** A selection of accepted files only is kept whole by the type test. */
  lemma {:induction false} AllAccepted(files: seq<SelectedFile>, acceptedTypes: seq<string>)
    requires forall i :: 0 <= i < |files| ==> files[i].mimeType in acceptedTypes
    ensures AcceptedFiles(files, acceptedTypes) == files
    decreases |files|
  {
    if |files| > 0 {
      AllAccepted(files[1..], acceptedTypes);
      assert files == [files[0]] + files[1..];
    }
  }

  /** The admission rule that keeps the limit: each accepted file counts against the images and the admitted files before it. */
  function AdmittedCapped(files: seq<SelectedFile>, count: nat, maxImages: nat, acceptedTypes: seq<string>)
    : (r: seq<SelectedFile>)
    ensures count <= maxImages ==> count + |r| <= maxImages
    ensures count >= maxImages ==> r == []
    ensures forall i :: 0 <= i < |r| ==> r[i].mimeType in acceptedTypes
    decreases |files|
  {
    if |files| == 0 then []
    else if files[0].mimeType in acceptedTypes && count < maxImages then
      [files[0]] + AdmittedCapped(files[1..], count + 1, maxImages, acceptedTypes)
    else
      AdmittedCapped(files[1..], count, maxImages, acceptedTypes)
  }

  function AcceptedFiles(files: seq<SelectedFile>, acceptedTypes: seq<string>): (r: seq<SelectedFile>)
    ensures |r| <= |files|
    decreases |files|
  {
    if |files| == 0 then []
    else
      var rest := AcceptedFiles(files[1..], acceptedTypes);
      if files[0].mimeType in acceptedTypes then [files[0]] + rest else rest
  }

  /** When the whole selection fits, the capped rule admits exactly what the written rule admits. */
  lemma {:induction false} CappedAgreesWhenBatchFits(files: seq<SelectedFile>, count: nat, maxImages: nat, acceptedTypes: seq<string>)
    requires count + |AcceptedFiles(files, acceptedTypes)| <= maxImages
    ensures AdmittedCapped(files, count, maxImages, acceptedTypes) == AcceptedFiles(files, acceptedTypes)
    ensures count < maxImages ==> AdmittedAsWritten(files, count, maxImages, acceptedTypes) == AcceptedFiles(files, acceptedTypes)
    decreases |files|
  {
    if |files| > 0 {
      if files[0].mimeType in acceptedTypes {
        CappedAgreesWhenBatchFits(files[1..], count + 1, maxImages, acceptedTypes);
        if count < maxImages {
          WrittenAdmitsAllAccepted(files[1..], count, maxImages, acceptedTypes);
        }
      } else {
        CappedAgreesWhenBatchFits(files[1..], count, maxImages, acceptedTypes);
        if count < maxImages {
          WrittenAdmitsAllAccepted(files[1..], count, maxImages, acceptedTypes);
        }
      }
    }
  }

  /** Below the limit, the written rule admits every accepted file of the selection. */
  lemma {:induction false} WrittenAdmitsAllAccepted(files: seq<SelectedFile>, count: nat, maxImages: nat, acceptedTypes: seq<string>)
    requires count < maxImages
    ensures AdmittedAsWritten(files, count, maxImages, acceptedTypes) == AcceptedFiles(files, acceptedTypes)
    decreases |files|
  {
    if |files| > 0 {
      WrittenAdmitsAllAccepted(files[1..], count, maxImages, acceptedTypes);
    }
  }

  class Uploader {
    const maxImages: nat
    const acceptedTypes: seq<string>
    var images: seq<ImageItem>
    /** Admitted files whose reading has not finished. */
    var pending: seq<SelectedFile>
    /** The lists passed to `onImagesChange`, oldest first. */
    var notified: seq<seq<ImageItem>>

    /** Images held and files being read never exceed the limit. */
    ghost predicate WithinLimit()
      reads this
    {
      |images| + |pending| <= maxImages
    }

    constructor(maxImages: nat, acceptedTypes: seq<string>)
      ensures this.maxImages == maxImages && this.acceptedTypes == acceptedTypes
      ensures images == [] && pending == [] && notified == []
      ensures WithinLimit()
    {
      this.maxImages := maxImages;
      this.acceptedTypes := acceptedTypes;
      images := [];
      pending := [];
      notified := [];
    }

    /** `handleImageUpload` as written: the `forEach` tests every file against the count at the start. */
    method HandleImageUploadAsWritten(files: seq<SelectedFile>)
      modifies this
      ensures pending == old(pending) + AdmittedAsWritten(files, |images|, maxImages, acceptedTypes)
      ensures images == old(images) && notified == old(notified)
    {
      var count := |images|;
      var i := 0;
      while i < |files|
        invariant 0 <= i <= |files|
        invariant pending == old(pending) + AdmittedAsWritten(files[..i], count, maxImages, acceptedTypes)
        invariant images == old(images) && notified == old(notified)
      {
        var file := files[i];
        if file.mimeType in acceptedTypes && count < maxImages {
          pending := pending + [file];
        }
        assert files[..i + 1] == files[..i] + [file];
        AdmittedAsWrittenConcat(files[..i], [file], count, maxImages, acceptedTypes);
        i := i + 1;
      }
      assert files[..i] == files;
    }

    /** `handleImageUpload` with the limit kept: each admitted file is counted at once. */
    method HandleImageUpload(files: seq<SelectedFile>)
      requires WithinLimit()
      modifies this
      ensures WithinLimit()
      ensures pending == old(pending) + AdmittedCapped(files, |images| + |old(pending)|, maxImages, acceptedTypes)
      ensures images == old(images) && notified == old(notified)
    {
      var count := |images|;
      var admitted := pending;
      ghost var target := pending + AdmittedCapped(files, count + |pending|, maxImages, acceptedTypes);
      var i := 0;
      while i < |files|
        invariant 0 <= i <= |files|
        invariant count + |admitted| <= maxImages
        invariant target == admitted + AdmittedCapped(files[i..], count + |admitted|, maxImages, acceptedTypes)
        modifies {}
      {
        var file := files[i];
        CappedStep(files, i, count + |admitted|, maxImages, acceptedTypes);
        if file.mimeType in acceptedTypes && count + |admitted| < maxImages {
          ghost var rest := AdmittedCapped(files[i + 1..], count + |admitted| + 1, maxImages, acceptedTypes);
          assert admitted + ([file] + rest) == (admitted + [file]) + rest;
          admitted := admitted + [file];
        }
        i := i + 1;
      }
      pending := admitted;
    }

    /** The `onload` of the read of `pending[k]`: the image is appended and the new list passed on. */
    method OnLoad(k: nat, id: int, data: string)
      requires k < |pending|
      modifies this
      ensures images == old(images)
        + [ImageItem(id, old(pending)[k].name, old(pending)[k].size, Some(old(pending)[k].mimeType), data)]
      ensures pending == old(pending)[..k] + old(pending)[k + 1..]
      ensures notified == old(notified) + [images]
      ensures old(WithinLimit()) ==> WithinLimit()
    {
      var file := pending[k];
      var newImage := ImageItem(id, file.name, file.size, Some(file.mimeType), data);
      var updated := images + [newImage];
      notified := notified + [updated];
      images := updated;
      pending := pending[..k] + pending[k + 1..];
    }

    /** `removeImage`: the filtered list is kept and passed on. */
    method RemoveImage(imageId: int)
      modifies this
      ensures images == RemoveById(old(images), imageId)
      ensures pending == old(pending)
      ensures notified == old(notified) + [images]
      ensures old(WithinLimit()) ==> WithinLimit()
    {
      var updated := RemoveById(images, imageId);
      notified := notified + [updated];
      images := updated;
    }
  }

  /** The capped rule, one file at a time. */
  lemma CappedStep(files: seq<SelectedFile>, i: nat, count: nat, maxImages: nat, acceptedTypes: seq<string>)
    requires i < |files|
    ensures AdmittedCapped(files[i..], count, maxImages, acceptedTypes)
      == if files[i].mimeType in acceptedTypes && count < maxImages
         then [files[i]] + AdmittedCapped(files[i + 1..], count + 1, maxImages, acceptedTypes)
         else AdmittedCapped(files[i + 1..], count, maxImages, acceptedTypes)
  {
    assert files[i..][1..] == files[i + 1..];
  }

  lemma {:induction false} AdmittedAsWrittenConcat(
    a: seq<SelectedFile>, b: seq<SelectedFile>, count: nat, maxImages: nat, acceptedTypes: seq<string>)
    ensures AdmittedAsWritten(a + b, count, maxImages, acceptedTypes)
      == AdmittedAsWritten(a, count, maxImages, acceptedTypes) + AdmittedAsWritten(b, count, maxImages, acceptedTypes)
    decreases |a|
  {
    if |a| > 0 {
      assert (a + b)[1..] == a[1..] + b;
      assert (a + b)[0] == a[0];
      AdmittedAsWrittenConcat(a[1..], b, count, maxImages, acceptedTypes);
    } else {
      assert a + b == b;
    }
  }
}
