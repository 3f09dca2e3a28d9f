/**
 * The profile photo upload (script.js lines 32-101): a chosen or dropped image
 * file is read as a data URL, shown in place of the profile photo and saved in
 * the `profilePhotoData` storage slot; on page load a saved photo is shown.
 * Everything is wired only when the upload area, the file input and the photo
 * are all on the page.
 *
 * The storage slot is a field; a read or write that the browser refuses is a
 * boolean parameter (`readOk`, `writeOk`), the case the source catches.
 */
module PhotoUpload {
  import opened Wrappers

  /** A file from the input or the drop: its MIME type and its content, already base64-encoded. */
  datatype FileInfo = FileInfo(mediaType: string, base64: string)

  const ImagePrefix := "image/"

  /** `file.type.startsWith('image/')`. */
  predicate IsImage(mediaType: string)
    ensures IsImage(mediaType) <==> |mediaType| >= 6 && mediaType[..6] == "image/"
  {
    ImagePrefix <= mediaType
  }

  /** What `readAsDataURL` delivers for a file: a non-empty `data:` URL that names the file's type. */
  function DataUrl(file: FileInfo): (url: string)
    ensures |url| == 13 + |file.mediaType| + |file.base64| && url[..5] == "data:"
    ensures url[5..5 + |file.mediaType|] == file.mediaType
  {
    "data:" + file.mediaType + ";base64," + file.base64
  }

  /** The file the change handler takes, `files[0]`, when there is one and it is an image. */
  function ImageOf(files: seq<FileInfo>): (chosen: Option<FileInfo>)
    ensures chosen.Some? <==> |files| > 0 && IsImage(files[0].mediaType)
    ensures chosen.Some? ==> chosen.value == files[0]
  {
    if |files| > 0 && IsImage(files[0].mediaType) then Some(files[0]) else None
  }

  /** The photo the page shows at load from the slot: only a readable, non-empty saved value. */
  function SavedPhoto(slot: Option<string>, readOk: bool): (photo: Option<string>)
    ensures photo.Some? <==> readOk && slot.Some? && slot.value != ""
    ensures photo.Some? ==> photo == slot
  {
    if readOk && slot.Some? && slot.value != "" then slot else None
  }

  /** A data URL is never empty, so a saved upload is always shown again at the next load. */
  lemma SavedUploadIsShown(file: FileInfo)
    ensures SavedPhoto(Some(DataUrl(file)), true) == Some(DataUrl(file))
  {
  }

  class PhotoUploader {
    /** Whether `#photoUploadArea`, `#photoInput` and `#profilePhoto` all exist. */
    const wired: bool
    /** The `src` of `#profilePhoto`. */
    var src: string
    /** Whether `#profilePhoto` has the `loaded` class. */
    var loaded: bool
    /** The `profilePhotoData` storage slot. */
    var slot: Option<string>

    /** Page load: with everything wired, a saved photo replaces the markup's picture. */
    constructor (wired: bool, markupSrc: string, slot0: Option<string>, readOk: bool)
      ensures this.wired == wired && slot == slot0
      ensures wired && SavedPhoto(slot0, readOk).Some? ==> src == SavedPhoto(slot0, readOk).value && loaded
      ensures !(wired && SavedPhoto(slot0, readOk).Some?) ==> src == markupSrc && !loaded
    {
      this.wired := wired;
      slot := slot0;
      var saved := SavedPhoto(slot0, readOk);
      if wired && saved.Some? {
        src := saved.value;
        loaded := true;
      } else {
        src := markupSrc;
        loaded := false;
      }
    }

    /**
     * The change handler with the reader's load callback: an image is shown first
     * and saved after, so a refused write leaves it shown; anything else (no file,
     * or a file that is not an image) changes neither the photo nor the slot.
     */
    method FileChosen(files: seq<FileInfo>, writeOk: bool)
      modifies this
      ensures wired && ImageOf(files).Some? ==> src == DataUrl(files[0]) && loaded
      ensures wired && ImageOf(files).Some? && writeOk ==> slot == Some(DataUrl(files[0]))
      ensures !(wired && ImageOf(files).Some? && writeOk) ==> slot == old(slot)
      ensures !(wired && ImageOf(files).Some?) ==> src == old(src) && loaded == old(loaded)
    {
      if !wired {
        return;
      }
      var chosen := ImageOf(files);
      if chosen.Some? {
        var url := DataUrl(chosen.value);
        src := url;
        loaded := true;
        if writeOk {
          slot := Some(url);
        }
      }
    }

    /** The drop handler: a drop with files hands them to the input and fires its change handler. */
    method Dropped(files: seq<FileInfo>, writeOk: bool)
      modifies this
      ensures wired && ImageOf(files).Some? ==> src == DataUrl(files[0]) && loaded
      ensures wired && ImageOf(files).Some? && writeOk ==> slot == Some(DataUrl(files[0]))
      ensures !(wired && ImageOf(files).Some? && writeOk) ==> slot == old(slot)
      ensures !(wired && ImageOf(files).Some?) ==> src == old(src) && loaded == old(loaded)
    {
      if wired && |files| > 0 {
        FileChosen(files, writeOk);
      }
    }
  }

  /**
   * Choose `file` on a page with an empty slot, then load the page again. An image
   * is shown at once whether or not it could be saved, and again after the reload
   * exactly when it was saved; a file that is not an image changes nothing.
   */
  method UploadThenReload(markupSrc: string, file: FileInfo, writeOk: bool) returns (shownNow: string, saved: Option<string>, shownAfterReload: string)
    ensures IsImage(file.mediaType) ==> shownNow == DataUrl(file)
    ensures IsImage(file.mediaType) && writeOk ==> saved == Some(DataUrl(file)) && shownAfterReload == DataUrl(file)
    ensures !(IsImage(file.mediaType) && writeOk) ==> saved == None && shownAfterReload == markupSrc
    ensures !IsImage(file.mediaType) ==> shownNow == markupSrc
  {
    var page := new PhotoUploader(true, markupSrc, None, true);
    page.FileChosen([file], writeOk);
    shownNow, saved := page.src, page.slot;
    SavedUploadIsShown(file);
    var next := new PhotoUploader(true, markupSrc, page.slot, true);
    shownAfterReload := next.src;
  }
}
