/**
 * The image lists the form page and the image-upload component keep: files chosen by the user,
 * the images read from them, and removal by id.
 */
module ImageList {
  import opened Wrappers
  import opened Text

  /** A file chosen in the browser: its name, size in bytes and MIME type. */
  datatype SelectedFile = SelectedFile(name: string, size: nat, mimeType: string)

  /**
   * An image read from a file. `id` is the value the page draws when the read completes;
   * `mimeType` is kept by the upload component only.
   */
  datatype ImageItem = ImageItem(id: int, name: string, size: nat, mimeType: Option<string>, data: string)

  /** `prev.filter(img => img.id !== imageId)`. */
  function RemoveById(images: seq<ImageItem>, id: int): (r: seq<ImageItem>)
    ensures |r| <= |images|
    ensures forall i :: 0 <= i < |r| ==> r[i].id != id && r[i] in images
    decreases |images|
  {
    if |images| == 0 then []
    else
      var rest := RemoveById(images[1..], id);
      if images[0].id != id then [images[0]] + rest else rest
  }

  lemma {:induction false} RemoveByIdConcat(a: seq<ImageItem>, b: seq<ImageItem>, id: int)
    ensures RemoveById(a + b, id) == RemoveById(a, id) + RemoveById(b, id)
    decreases |a|
  {
    if |a| > 0 {
      assert (a + b)[1..] == a[1..] + b;
      assert (a + b)[0] == a[0];
      RemoveByIdConcat(a[1..], b, id);
    } else {
      assert a + b == b;
    }
  }

  /** Every image with another id stays. */
  lemma {:induction false} RemoveByIdKeepsOthers(images: seq<ImageItem>, id: int, x: ImageItem)
    requires x in images && x.id != id
    ensures x in RemoveById(images, id)
    decreases |images|
  {
    if images[0] != x {
      RemoveByIdKeepsOthers(images[1..], id, x);
    }
  }

  /** Removing an id that is not there changes nothing. */
  lemma {:induction false} RemoveAbsentId(images: seq<ImageItem>, id: int)
    requires forall i :: 0 <= i < |images| ==> images[i].id != id
    ensures RemoveById(images, id) == images
    decreases |images|
  {
    if |images| > 0 {
      RemoveAbsentId(images[1..], id);
      assert images == [images[0]] + images[1..];
    }
  }

  /** The others keep their order: removing the image in the middle joins the two sides. */
  lemma RemoveOneOfDistinct(before: seq<ImageItem>, x: ImageItem, after: seq<ImageItem>)
    requires forall i :: 0 <= i < |before| ==> before[i].id != x.id
    requires forall i :: 0 <= i < |after| ==> after[i].id != x.id
    ensures RemoveById(before + [x] + after, x.id) == before + after
  {
    var id := x.id;
    RemoveByIdConcat(before + [x], after, id);
    RemoveByIdConcat(before, [x], id);
    RemoveAbsentId(before, id);
    RemoveAbsentId(after, id);
    assert RemoveById([x], id) == [] by {
      assert [x][1..] == [];
    }
    assert RemoveById(before + [x], id) == before;
  }

  /** Removing is idempotent. */
  lemma RemoveByIdIdempotent(images: seq<ImageItem>, id: int)
    ensures RemoveById(RemoveById(images, id), id) == RemoveById(images, id)
  {
    RemoveAbsentId(RemoveById(images, id), id);
  }

  const ImageTypePrefix: string := "image/"

  /** The files the form page reads: those whose type starts with `image/`, in order. */
  function ImageFiles(files: seq<SelectedFile>): (r: seq<SelectedFile>)
    ensures |r| <= |files|
    ensures forall i :: 0 <= i < |r| ==> StartsWith(r[i].mimeType, ImageTypePrefix) && r[i] in files
    decreases |files|
  {
    if |files| == 0 then []
    else
      var rest := ImageFiles(files[1..]);
      if StartsWith(files[0].mimeType, ImageTypePrefix) then [files[0]] + rest else rest
  }

  lemma {:induction false} ImageFilesConcat(a: seq<SelectedFile>, b: seq<SelectedFile>)
    ensures ImageFiles(a + b) == ImageFiles(a) + ImageFiles(b)
    decreases |a|
  {
    if |a| > 0 {
      assert (a + b)[1..] == a[1..] + b;
      assert (a + b)[0] == a[0];
      ImageFilesConcat(a[1..], b);
    } else {
      assert a + b == b;
    }
  }

  /** Every image file of the selection is read. */
  lemma {:induction false} ImageFilesComplete(files: seq<SelectedFile>, f: SelectedFile)
    requires f in files && StartsWith(f.mimeType, ImageTypePrefix)
    ensures f in ImageFiles(files)
    decreases |files|
  {
    if files[0] != f {
      ImageFilesComplete(files[1..], f);
    }
  }
}
