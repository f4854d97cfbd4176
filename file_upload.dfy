/**
 * The upload dialog: the files chosen so far, a progress percentage, an
 * uploading flag and the dialog's open flag. A selection is checked for
 * count and size before it replaces the chosen files; uploading steps the
 * progress by 5 on each timer tick and, at 100, hands the files to the
 * page's callback, when the page gave one, and resets.
 *
 * The interval timer is modelled by calling `Tick` once per firing. The
 * callback invocations are recorded, in order, in `delivered`.
 */
module FileUpload {

  /** A chosen file: its name and its size in bytes. */
  datatype FileInfo = FileInfo(name: string, size: nat)

  /** What `handleFileChange` made of a selection. */
  datatype SelectionOutcome = Ignored | TooManyFiles | TooLarge | Accepted

  /** The files larger than `limit` bytes (`selectedFiles.filter(...)`), in selection order. */
  function Oversized(selection: seq<FileInfo>, limit: int): (r: seq<FileInfo>)
    ensures |r| <= |selection|
    ensures forall f :: f in r <==> f in selection && f.size > limit
  {
    if selection == [] then []
    else (if selection[0].size > limit then [selection[0]] else []) + Oversized(selection[1..], limit)
  }

  /** The byte limit behind a limit in megabytes. */
  function ByteLimit(maxSizeMB: int): int {
    maxSizeMB * 1024 * 1024
  }

  /** `handleFileChange`'s checks, in the code's order: empty, then count, then size. */
  function CheckSelection(selection: seq<FileInfo>, maxFiles: int, maxSizeMB: int): SelectionOutcome {
    if |selection| == 0 then Ignored
    else if |selection| > maxFiles then TooManyFiles
    else if |Oversized(selection, ByteLimit(maxSizeMB))| > 0 then TooLarge
    else Accepted
  }

  /**
   * A selection is accepted exactly when it is non-empty, within the count
   * limit, and no file is strictly larger than the byte limit (a file
   * exactly at the limit passes).
   */
  lemma AcceptedIff(selection: seq<FileInfo>, maxFiles: int, maxSizeMB: int)
    ensures CheckSelection(selection, maxFiles, maxSizeMB) == Accepted <==>
      0 < |selection| <= maxFiles &&
      forall i :: 0 <= i < |selection| ==> selection[i].size <= ByteLimit(maxSizeMB)
  {
    var over := Oversized(selection, ByteLimit(maxSizeMB));
    if |over| > 0 {
      assert over[0] in over;
    } else {
      forall i | 0 <= i < |selection| ensures selection[i].size <= ByteLimit(maxSizeMB) {
        assert selection[i] in selection;
      }
    }
  }

  /** The count check comes first: too many files is reported even when some are also too large. */
  lemma CountBeforeSize(selection: seq<FileInfo>, maxFiles: int, maxSizeMB: int)
    requires |selection| > maxFiles && |selection| > 0
    ensures CheckSelection(selection, maxFiles, maxSizeMB) == TooManyFiles
  {
  }

  /** With the default limits, one file of exactly 10 MB passes and one byte more is refused. */
  lemma DefaultLimitBoundary(name: string)
    ensures CheckSelection([FileInfo(name, 10485760)], 1, 10) == Accepted
    ensures CheckSelection([FileInfo(name, 10485761)], 1, 10) == TooLarge
  {
  }

  /** `files.filter((_, i) => i !== index)`: drops the file at `index`, if there is one. */
  function WithoutIndex(files: seq<FileInfo>, index: int): (r: seq<FileInfo>)
    ensures 0 <= index < |files| ==> r == files[..index] + files[index + 1..]
    ensures !(0 <= index < |files|) ==> r == files
  {
    if files == [] then []
    else (if index != 0 then [files[0]] else []) + WithoutIndex(files[1..], index - 1)
  }

  class FileUploader {
    const maxFiles: int
    const maxSizeMB: int
    /** Whether the page passed the optional `onUploadComplete` callback. */
    const hasCallback: bool
    var files: seq<FileInfo>
    var progress: int
    var isUploading: bool
    var open: bool
    /** The upload loop's own counter (`currentProgress`). */
    var currentProgress: int
    /** The files the running upload will hand over: those chosen when it started. */
    var uploadBatch: seq<FileInfo>
    /** Every `onUploadComplete` call so far, in order. */
    var delivered: seq<seq<FileInfo>>

    /** The progress is a multiple of 5 in [0, 100]; while uploading it is the loop's counter, below 100. */
    ghost predicate Valid()
      reads this
    {
      && 0 <= progress <= 100 && progress % 5 == 0
      && (isUploading ==> progress == currentProgress < 100 && uploadBatch != [])
      && (!isUploading ==> progress == 0)
    }

    constructor(maxFiles: int, maxSizeMB: int, hasCallback: bool)
      ensures Valid() && this.maxFiles == maxFiles && this.maxSizeMB == maxSizeMB && this.hasCallback == hasCallback
      ensures files == [] && progress == 0 && !isUploading && !open && delivered == []
    {
      this.maxFiles := maxFiles;
      this.maxSizeMB := maxSizeMB;
      this.hasCallback := hasCallback;
      files := [];
      progress := 0;
      isUploading := false;
      open := false;
      currentProgress := 0;
      uploadBatch := [];
      delivered := [];
    }

    /** `handleFileChange`: an accepted selection replaces the chosen files wholesale; otherwise nothing changes. */
    method FileChange(selection: seq<FileInfo>) returns (outcome: SelectionOutcome)
      requires Valid()
      modifies this`files
      ensures Valid()
      ensures outcome == CheckSelection(selection, maxFiles, maxSizeMB)
      ensures files == if outcome == Accepted then selection else old(files)
    {
      if |selection| == 0 {
        return Ignored;
      }
      if |selection| > maxFiles {
        return TooManyFiles;
      }
      var oversizedFiles := Oversized(selection, maxSizeMB * 1024 * 1024);
      if |oversizedFiles| > 0 {
        return TooLarge;
      }
      files := selection;
      outcome := Accepted;
    }

    /** `removeFile`: drops exactly the file at `index`, keeping the others in order. */
    method RemoveFile(index: int)
      requires Valid()
      modifies this`files
      ensures Valid()
      ensures files == WithoutIndex(old(files), index)
    {
      files := WithoutIndex(files, index);
    }

    /** `handleUpload`: with files chosen and no upload running, starts one from 0; with no files, nothing. */
    method StartUpload()
      requires Valid() && !isUploading
      modifies this
      ensures Valid()
      ensures old(files) == [] ==> unchanged(this)
      ensures old(files) != [] ==>
        isUploading && currentProgress == 0 && progress == 0 && uploadBatch == old(files) &&
        files == old(files) && open == old(open) && delivered == old(delivered)
    {
      if |files| == 0 {
        return;
      }
      isUploading := true;
      currentProgress := 0;
      uploadBatch := files;
    }

    /**
     * One firing of the upload interval: progress rises by 5; at 100 the
     * upload ends, the batch goes to the callback if the page gave one, the dialog closes and the
     * files and progress reset.
     */
    method Tick()
      requires Valid() && isUploading
      modifies this
      ensures Valid()
      ensures old(currentProgress) + 5 < 100 ==>
        isUploading && currentProgress == progress == old(currentProgress) + 5 &&
        files == old(files) && open == old(open) && delivered == old(delivered) && uploadBatch == old(uploadBatch)
      ensures old(currentProgress) + 5 >= 100 ==>
        !isUploading && !open && files == [] && progress == 0 &&
        delivered == old(delivered) + (if hasCallback then [old(uploadBatch)] else [])
    {
      currentProgress := currentProgress + 5;
      progress := currentProgress;
      if currentProgress >= 100 {
        isUploading := false;
        if hasCallback {
          delivered := delivered + [uploadBatch];
        }
        open := false;
        files := [];
        progress := 0;
      }
    }

    /** An upload started on chosen files completes after exactly 20 ticks, handing those files once to the callback, if any. */
    method UploadToCompletion() returns (ticks: nat)
      requires Valid() && !isUploading && files != []
      modifies this
      ensures Valid()
      ensures ticks == 20
      ensures !isUploading && files == [] && progress == 0 && !open
      ensures delivered == old(delivered) + (if hasCallback then [old(files)] else [])
    {
      StartUpload();
      ticks := 0;
      while isUploading
        invariant Valid()
        invariant isUploading ==> currentProgress == 5 * ticks && uploadBatch == old(files) && delivered == old(delivered)
        invariant !isUploading ==> ticks == 20 && files == [] && !open && delivered == old(delivered) + (if hasCallback then [old(files)] else [])
        decreases 100 - 5 * ticks
      {
        Tick();
        ticks := ticks + 1;
      }
    }
  }
}
