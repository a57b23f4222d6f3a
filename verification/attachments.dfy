/**
  The photo attachment list: the upload guard, the append of an accepted
  file, and the index-based comment edit and removal.
 */
module Attachments {
  import opened Outcomes
  import opened SurveyConfig

  /** A selected file, reduced to what the form inspects: its size in bytes and its MIME type. */
  datatype ImageFile = ImageFile(name: string, size: nat, mimeType: string)

  /** An uploaded photo: the file, its decoded preview (opaque here) and the user's comment. */
  datatype Attachment = Attachment(file: ImageFile, preview: string, comment: string)

  datatype UploadError = TooLarge | UnsupportedType

  /** What happened to one change event of the file input. */
  datatype UploadOutcome = NoFile | Rejected(error: UploadError) | Added

  datatype Upload = Upload(images: seq<Attachment>, outcome: UploadOutcome)

  /** The alert shown for a rejected file: the two errors read differently. */
  function AlertText(e: UploadError): (r: string)
    ensures r == "File size must be less than 5MB" <==> e == TooLarge
    ensures r == "Only .jpg, .jpeg, .png and .webp files are accepted" <==> e == UnsupportedType
  {
    match e
    case TooLarge => "File size must be less than 5MB"
    case UnsupportedType => "Only .jpg, .jpeg, .png and .webp files are accepted"
  }

  /** A file the form accepts: at most 5 MiB and of one of the four image types. */
  predicate Acceptable(f: ImageFile) {
    f.size <= MaxFileSize && f.mimeType in AcceptedImageTypes
  }

  /**
    The upload guard. The size is checked before the type, so a file that
    is both too large and of the wrong type reports the size error.
   */
  function CheckFile(f: ImageFile): (r: Option<UploadError>)
    ensures r == None <==> Acceptable(f)
    ensures r == Some(TooLarge) <==> f.size > 5242880
    ensures r == Some(UnsupportedType) <==> (
      && f.size <= 5242880
      && f.mimeType != "image/jpeg" && f.mimeType != "image/jpg"
      && f.mimeType != "image/png" && f.mimeType != "image/webp")
  {
    if f.size > MaxFileSize then Some(TooLarge)
    else if f.mimeType !in AcceptedImageTypes then Some(UnsupportedType)
    else None
  }

  /**
    The file input's change handler. Only the first selected file is
    looked at; an empty selection does nothing. An accepted file is appended
    with its preview and an empty comment.
   */
  function HandleUpload(images: seq<Attachment>, files: seq<ImageFile>, preview: string): (r: Upload)
    ensures |files| == 0 ==> r == Upload(images, NoFile)
    ensures r.outcome == NoFile <==> |files| == 0
    ensures r.outcome == Added <==> |files| > 0 && Acceptable(files[0])
    ensures r.outcome != Added ==> r.images == images
    ensures |files| > 0 && !Acceptable(files[0]) ==> r.outcome == Rejected(CheckFile(files[0]).value)
    ensures |files| > 0 && files[0].size > MaxFileSize ==> r.outcome == Rejected(TooLarge)
    ensures r.outcome == Added ==>
      && |r.images| == |images| + 1
      && r.images[..|images|] == images
      && r.images[|images|] == Attachment(files[0], preview, "")
  {
    if |files| == 0 then Upload(images, NoFile)
    else
      match CheckFile(files[0])
      case Some(e) => Upload(images, Rejected(e))
      case None => Upload(images + [Attachment(files[0], preview, "")], Added)
  }

  /**
    Sets the comment of the photo at `index`. The source writes through
    `newImages[index]`, which fails on a missing element, so the index must
    be in range.
   */
  function UpdateComment(images: seq<Attachment>, index: int, comment: string): (r: seq<Attachment>)
    requires 0 <= index < |images|
    ensures |r| == |images|
    ensures r[index].comment == comment
    ensures r[index].file == images[index].file && r[index].preview == images[index].preview
    ensures forall k :: 0 <= k < |r| && k != index ==> r[k] == images[k]
  {
    images[index := images[index].(comment := comment)]
  }

  /**
    The elements of `s` whose position, counted from `offset`, is not
    `index`: a filter on the index, as the removal callback is written.
   */
  function Without<T>(s: seq<T>, index: int, offset: int): (r: seq<T>)
    ensures offset <= index < offset + |s| ==> r == s[..index - offset] + s[index - offset + 1..]
    ensures !(offset <= index < offset + |s|) ==> r == s
    decreases |s|
  {
    if |s| == 0 then []
    else
      var rest := Without(s[1..], index, offset + 1);
      if offset == index then
        assert s[1..] == s[..0] + s[1..];
        rest
      else
        assert offset < index < offset + |s| ==> s[..index - offset] == [s[0]] + s[1..][..index - offset - 1];
        [s[0]] + rest
  }

  /**
    Removes the photo at `index`; the others keep their relative order. An
    index outside the list matches nothing in the filter and changes nothing.
   */
  function RemoveImage(images: seq<Attachment>, index: int): (r: seq<Attachment>)
    ensures 0 <= index < |images| ==> |r| == |images| - 1
    ensures 0 <= index < |images| ==> forall k :: 0 <= k < index ==> r[k] == images[k]
    ensures 0 <= index < |images| ==> forall k :: index <= k < |r| ==> r[k] == images[k + 1]
    ensures !(0 <= index < |images|) ==> r == images
  {
    Without(images, index, 0)
  }

  /** Removing the photo just uploaded gives back the list as it was before. */
  lemma RemoveUndoesUpload(images: seq<Attachment>, f: ImageFile, preview: string)
    requires Acceptable(f)
    ensures RemoveImage(HandleUpload(images, [f], preview).images, |images|) == images
  {
    var added := HandleUpload(images, [f], preview).images;
    assert added[..|images|] == images;
  }

  /** A comment edit never changes which photo is removed nor what remains. */
  lemma RemoveForgetsComment(images: seq<Attachment>, index: int, comment: string)
    requires 0 <= index < |images|
    ensures RemoveImage(UpdateComment(images, index, comment), index) == RemoveImage(images, index)
  {
    var u := UpdateComment(images, index, comment);
    assert u[..index] == images[..index];
    assert u[index + 1..] == images[index + 1..];
  }

  /** Editing the same comment twice keeps only the second text. */
  lemma UpdateCommentLastWins(images: seq<Attachment>, index: int, c1: string, c2: string)
    requires 0 <= index < |images|
    ensures UpdateComment(UpdateComment(images, index, c1), index, c2) == UpdateComment(images, index, c2)
  {
  }

  /** A 6 MB JPEG on an empty list is refused for its size and nothing is stored. */
  lemma SixMegabyteJpegRejected(preview: string)
    ensures HandleUpload([], [ImageFile("photo.jpg", 6 * 1024 * 1024, "image/jpeg")], preview)
         == Upload([], Rejected(TooLarge))
  {
  }

  /** A small GIF passes the size check but not the type check, and nothing is stored. */
  lemma SmallGifRejected(images: seq<Attachment>, preview: string)
    ensures HandleUpload(images, [ImageFile("anim.gif", 1024, "image/gif")], preview)
         == Upload(images, Rejected(UnsupportedType))
  {
  }

  /** Exactly 5 MiB is still accepted; one byte more is not. */
  lemma SizeLimitIsInclusive(name: string, preview: string)
    ensures HandleUpload([], [ImageFile(name, 5242880, "image/png")], preview).outcome == Added
    ensures HandleUpload([], [ImageFile(name, 5242881, "image/png")], preview).outcome == Rejected(TooLarge)
  {
  }
}
