// The upload hook of the web client: a drag-over flag and a status that goes
// idle -> uploading -> success or error -> idle, driven by the drag, drop,
// file-input and paste handlers. The upload request and the reset timers are
// explicit events: the request settles with `UploadSettled`, and a scheduled
// reset fires with `ResetFired`.

module Uploads {
  import opened Wrappers
  import opened Strings

  /** null | 'uploading' | 'success' | 'error'. */
  datatype Status = Idle | Uploading | Succeeded | Failed

  /** How long the outcome stays shown before the status returns to null. */
  const SuccessResetDelay: int := 2000
  const ErrorResetDelay: int := 3000

  /** A file handed over by the browser, with its MIME type. */
  datatype File = File(name: string, mime: string)

  predicate IsImage(f: File) {
    HasPrefix(f.mime, "image/")
  }

  /** `files.filter(file => file.type.startsWith('image/'))`. */
  function ImageFiles(files: seq<File>): (r: seq<File>)
    ensures |r| <= |files|
    decreases |files|
  {
    if files == [] then []
    else (if IsImage(files[0]) then [files[0]] else []) + ImageFiles(files[1..])
  }

  /** The filter keeps exactly the images. */
  lemma {:induction false} ImageFilesMembers(files: seq<File>, f: File)
    ensures f in ImageFiles(files) <==> f in files && IsImage(f)
    decreases |files|
  {
    if files != [] {
      ImageFilesMembers(files[1..], f);
      assert f in files <==> f == files[0] || f in files[1..];
    }
  }

  /** The filter works piecewise, so the images keep their order. */
  lemma {:induction false} ImageFilesOfConcat(a: seq<File>, b: seq<File>)
    ensures ImageFiles(a + b) == ImageFiles(a) + ImageFiles(b)
    decreases |a|
  {
    if a == [] {
      assert a + b == b;
    } else {
      var c := a + b;
      assert c[0] == a[0] && c[1..] == a[1..] + b;
      ImageFilesOfConcat(a[1..], b);
      if IsImage(a[0]) {
        assert ImageFiles(c) == [a[0]] + ImageFiles(c[1..]);
        assert ImageFiles(a) == [a[0]] + ImageFiles(a[1..]);
      } else {
        assert ImageFiles(c) == ImageFiles(c[1..]);
        assert ImageFiles(a) == ImageFiles(a[1..]);
      }
    }
  }

  /** Nothing is left exactly when no file is an image. */
  lemma NoImagesLeft(files: seq<File>)
    ensures ImageFiles(files) == [] <==> forall k :: 0 <= k < |files| ==> !IsImage(files[k])
  {
    if ImageFiles(files) != [] {
      var f := ImageFiles(files)[0];
      ImageFilesMembers(files, f);
    } else {
      forall k | 0 <= k < |files| ensures !IsImage(files[k]) {
        ImageFilesMembers(files, files[k]);
      }
    }
  }

  /** One entry of clipboardData.items: its MIME type and what getAsFile()
      returns. */
  datatype ClipItem = ClipItem(mime: string, file: Option<File>)

  /** The files the paste handler collects: those of image items whose
      getAsFile() is not null, in clipboard order. */
  function PastedImages(items: seq<ClipItem>): (r: seq<File>)
    ensures |r| <= |items|
  {
    if items == [] then []
    else
      var last := items[|items| - 1];
      var r := PastedImages(items[..|items| - 1]);
      if HasPrefix(last.mime, "image/") && last.file.Some? then r + [last.file.value] else r
  }

  lemma PastedImagesOfPrefix(items: seq<ClipItem>, i: nat)
    requires i < |items|
    ensures PastedImages(items[..i + 1]) ==
      if HasPrefix(items[i].mime, "image/") && items[i].file.Some? then PastedImages(items[..i]) + [items[i].file.value]
      else PastedImages(items[..i])
  {
    assert items[..i + 1][..i] == items[..i];
  }

  /** A file is collected exactly when some image item yields it. */
  lemma {:induction false} PastedImagesMembers(items: seq<ClipItem>, f: File)
    ensures f in PastedImages(items) <==>
      exists it :: it in items && HasPrefix(it.mime, "image/") && it.file == Some(f)
  {
    if items != [] {
      var init := items[..|items| - 1];
      var last := items[|items| - 1];
      assert items == init + [last];
      PastedImagesMembers(init, f);
      if f in PastedImages(items) && f !in PastedImages(init) {
        assert last in items;
      }
      if exists it :: it in items && HasPrefix(it.mime, "image/") && it.file == Some(f) {
        var it :| it in items && HasPrefix(it.mime, "image/") && it.file == Some(f);
        if it != last {
          assert it in init;
        }
      }
    }
  }

  /** The loop of the paste listener: pushes the file of every image item
      whose getAsFile() is not null. */
  method CollectImages(items: seq<ClipItem>) returns (imageFiles: seq<File>)
    ensures imageFiles == PastedImages(items)
  {
    imageFiles := [];
    var i := 0;
    while i < |items|
      invariant 0 <= i <= |items|
      invariant imageFiles == PastedImages(items[..i])
    {
      PastedImagesOfPrefix(items, i);
      var item := items[i];
      if HasPrefix(item.mime, "image/") {
        var file := item.file;
        if file.Some? {
          imageFiles := imageFiles + [file.value];
        }
      }
      i := i + 1;
    }
    assert items[..i] == items;
  }

  /** The state of useUpload, with the uploads sent and the reset timers
      pending. */
  class Uploader {
    var dragging: bool
    var status: Status
    /** The batches handed to the upload mutation, oldest first. */
    var sent: seq<seq<File>>
    /** The delays of the scheduled status resets that have not fired. */
    var resets: seq<int>

    /** An outcome on screen always has a reset pending, so it goes away. */
    ghost predicate Valid()
      reads this
    {
      (status == Succeeded || status == Failed) ==> |resets| > 0
    }

    constructor()
      ensures Valid()
      ensures !dragging && status == Idle && sent == [] && resets == []
    {
      dragging := false;
      status := Idle;
      sent := [];
      resets := [];
    }

    /** uploadFiles up to its await: status 'uploading', request sent. */
    method UploadFiles(files: seq<File>)
      requires Valid()
      modifies this
      ensures Valid()
      ensures status == Uploading
      ensures sent == old(sent) + [files]
      ensures dragging == old(dragging) && resets == old(resets)
    {
      status := Uploading;
      sent := sent + [files];
    }

    /** The await in uploadFiles settles: 'success' with a reset after 2 s,
        or 'error' with a reset after 3 s. */
    method UploadSettled(ok: bool)
      requires Valid()
      modifies this
      ensures Valid()
      ensures status == (if ok then Succeeded else Failed)
      ensures resets == old(resets) + [if ok then SuccessResetDelay else ErrorResetDelay]
      ensures dragging == old(dragging) && sent == old(sent)
    {
      if ok {
        status := Succeeded;
        resets := resets + [SuccessResetDelay];
      } else {
        status := Failed;
        resets := resets + [ErrorResetDelay];
      }
    }

    /** The k-th pending reset fires: the status goes back to null. */
    method ResetFired(k: nat)
      requires k < |resets|
      requires Valid()
      modifies this
      ensures Valid()
      ensures status == Idle
      ensures resets == old(resets[..k] + resets[k + 1..])
      ensures dragging == old(dragging) && sent == old(sent)
    {
      status := Idle;
      resets := resets[..k] + resets[k + 1..];
    }

    method DragEnter()
      requires Valid()
      modifies this
      ensures Valid()
      ensures dragging
      ensures status == old(status) && sent == old(sent) && resets == old(resets)
    {
      dragging := true;
    }

    /** Leaving into an element inside the drop zone keeps the flag. */
    method DragLeave(relatedInside: bool)
      requires Valid()
      modifies this
      ensures Valid()
      ensures dragging == (old(dragging) && relatedInside)
      ensures status == old(status) && sent == old(sent) && resets == old(resets)
    {
      if relatedInside {
        return;
      }
      dragging := false;
    }

    /** handleDrop: clears the flag and uploads the image files, if any. */
    method Drop(files: seq<File>)
      requires Valid()
      modifies this
      ensures Valid()
      ensures !dragging
      ensures ImageFiles(files) == [] ==> status == old(status) && sent == old(sent)
      ensures ImageFiles(files) != [] ==> status == Uploading && sent == old(sent) + [ImageFiles(files)]
      ensures resets == old(resets)
    {
      dragging := false;
      var images := ImageFiles(files);
      if |images| == 0 {
        return;
      }
      UploadFiles(images);
    }

    /** handleFileInputChange: uploads the image files, if any. The result
        says whether the input is cleared once the upload settles. */
    method FileInputChange(files: seq<File>) returns (clearsInput: bool)
      requires Valid()
      modifies this
      ensures Valid()
      ensures clearsInput <==> ImageFiles(files) != []
      ensures ImageFiles(files) == [] ==> status == old(status) && sent == old(sent)
      ensures ImageFiles(files) != [] ==> status == Uploading && sent == old(sent) + [ImageFiles(files)]
      ensures dragging == old(dragging) && resets == old(resets)
    {
      var images := ImageFiles(files);
      if |images| == 0 {
        return false;
      }
      UploadFiles(images);
      return true;
    }

    /** The window's paste listener over clipboardData.items (None when the
        event has none): collects the image files and, when there is at
        least one, cancels the default and uploads them. */
    method Paste(items: Option<seq<ClipItem>>) returns (preventDefault: bool)
      requires Valid()
      modifies this
      ensures Valid()
      ensures preventDefault <==> items.Some? && PastedImages(items.value) != []
      ensures preventDefault ==> status == Uploading && sent == old(sent) + [PastedImages(items.value)]
      ensures !preventDefault ==> status == old(status) && sent == old(sent)
      ensures dragging == old(dragging) && resets == old(resets)
    {
      if items.None? {
        return false;
      }
      var imageFiles := CollectImages(items.value);
      if |imageFiles| > 0 {
        UploadFiles(imageFiles);
        return true;
      }
      return false;
    }
  }
}
