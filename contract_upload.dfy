/**
 * The upload form (frontend/src/components/ContractUpload.tsx): the type and size checks a
 * file must pass before it is sent, and the idle/uploading/success/error state the form
 * moves through. The outcome of `ApiService.uploadContract` is a parameter; the
 * `onUploadSuccess` callback is counted rather than called.
 */
module ContractUpload {
  import opened Common
  import opened Text
  import opened UploadTypes
  import FileProcessor

  /** The browser's `File`: its name, its reported MIME type (possibly empty) and its size in bytes. */
  datatype File = File(name: string, mimeType: string, size: nat)

  /**
   * `file.name.toLowerCase().substring(file.name.lastIndexOf("."))`: from the last dot on,
   * lowercased; with no dot `substring(-1)` is the whole name.
   */
  function UploadExtension(name: string): (ext: string)
    ensures var k := LastIndexOf(name, '.');
      (k >= 0 ==> ext == Lower(name[k..])) && (k < 0 ==> ext == Lower(name))
  {
    var k := LastIndexOf(name, '.');
    var lowered := Lower(name);
    var start := if k < 0 then 0 else k;
    assert lowered[start..] == Lower(name[start..]);
    lowered[start..]
  }

  /** With a dot in the name, the form's extension is the back end's extension with its dot in front. */
  lemma UploadExtensionIsDotted(name: string)
    requires LastIndexOf(name, '.') >= 0
    ensures UploadExtension(name) == "." + FileProcessor.FileExtension(name)
  {
    var k := LastIndexOf(name, '.');
    var front := UploadExtension(name);
    var back := "." + FileProcessor.FileExtension(name);
    assert |front| == |back|;
    forall i | 0 <= i < |front|
      ensures front[i] == back[i]
    {
      if i > 0 {
        assert front[i] == LowerChar(name[k + i]);
        assert back[i] == Lower(name[k + 1..])[i - 1];
      }
    }
  }

  /** For a name ending in a dot and a dotless suffix, the form's extension is that suffix lowercased, with its dot. */
  lemma UploadExtensionOfDottedName(base: string, ext: string)
    requires '.' !in ext
    ensures UploadExtension(base + "." + ext) == "." + Lower(ext)
  {
    FileProcessor.ExtensionOfDottedName(base, ext);
    UploadExtensionIsDotted(base + "." + ext);
  }

  /** The largest accepted size: 10 MiB. */
  const MaxSize: nat := 10 * 1024 * 1024

  /** `isValidMimeType || isValidExtension`. */
  predicate TypeAllowed(f: File) {
    f.mimeType in AllowedTypes || UploadExtension(f.name) in AllowedExtensions
  }

  /** The type error names the reported MIME type, or "unknown type" when there is none. */
  function TypeMessage(mimeType: string): string {
    TypeMessagePrefix + (if mimeType != "" then mimeType else UnknownType)
  }

  /** The two checks, in order: `None` lets the upload start, `Some(m)` shows `m` instead. */
  function Validation(f: File): (r: Option<string>)
    ensures !TypeAllowed(f) ==> r == Some(TypeMessage(f.mimeType))
    ensures TypeAllowed(f) && f.size > MaxSize ==> r == Some(SizeMessage)
    ensures r.None? <==> TypeAllowed(f) && f.size <= MaxSize
  {
    if !TypeAllowed(f) then Some(TypeMessage(f.mimeType))
    else if f.size > MaxSize then Some(SizeMessage)
    else None
  }

  /** A file of exactly 10 MiB with an accepted type is let through. */
  lemma ExactlyTenMiBPasses(name: string, mimeType: string)
    requires mimeType in AllowedTypes
    ensures Validation(File(name, mimeType, 10485760)).None?
  {
  }

  /** One byte more is refused with the size message. */
  lemma OneByteOverIsRefused(name: string, mimeType: string)
    requires mimeType in AllowedTypes
    ensures Validation(File(name, mimeType, 10485761)) == Some(SizeMessage)
  {
  }

  /** The type check takes the name alone: a ".doc" file passes with any reported type, even none. */
  lemma DocPassesTypeCheck(base: string, mimeType: string)
    ensures TypeAllowed(File(base + ".doc", mimeType, 0))
  {
    assert "." + "doc" in AllowedExtensions by {
      assert "." + "doc" == AllowedExtensions[1];
    }
    assert base + ".doc" == base + "." + "doc";
    UploadExtensionOfDottedName(base, "doc");
    FileProcessor.LowerKeeps("doc");
  }

  /**
   * The form and the server disagree on Word 97 files: a ".doc" file of accepted size passes
   * every check of the form, and the server then refuses it with a 400.
   */
  lemma DocPassesFormButServerRefuses(base: string, mimeType: string, size: nat, lib: FileProcessor.Extractors,
                                      fileBytes: seq<bv8>, round2: real -> real)
    requires size <= MaxSize
    ensures Validation(File(base + ".doc", mimeType, size)).None?
    ensures FileProcessor.ExtractText(lib, fileBytes, base + ".doc", mimeType, round2)
         == Err(FileProcessor.HttpError(400, "Unsupported file type: ." + "doc"))
  {
    DocPassesTypeCheck(base, mimeType);
    assert UploadExtension(File(base + ".doc", mimeType, size).name) == UploadExtension(File(base + ".doc", mimeType, 0).name);
    FileProcessor.DocIsRefused(lib, fileBytes, base, mimeType, round2);
  }

  /** An ".html" file, which the server could read, is refused by the form unless its MIME type is listed. */
  lemma HtmlNeedsListedMimeType(base: string, mimeType: string, size: nat)
    requires mimeType !in AllowedTypes
    ensures Validation(File(base + ".html", mimeType, size)) == Some(TypeMessage(mimeType))
  {
    assert "." + "html" !in AllowedExtensions by {
      var ext := "." + "html";
      assert ext[1] != ".docx"[1] && |ext| != |".pdf"| && |ext| != |".md"|;
    }
    assert base + ".html" == base + "." + "html";
    UploadExtensionOfDottedName(base, "html");
    FileProcessor.LowerKeeps("html");
  }

  /** `uploadStatus`. */
  datatype Status = Idle | Success | Failure

  /** How `ApiService.uploadContract` ended: resolved, or threw; `Some(m)` is an `Error` with message `m`. */
  datatype UploadOutcome = Uploaded | Threw(errorMessage: Option<string>)

  /** The catch block's message: the error's own, or "Upload failed" for anything that is not an `Error`. */
  function FailureMessage(thrown: Option<string>): (m: string)
    ensures thrown.Some? ==> m == thrown.value
    ensures thrown.None? ==> m == "Upload failed"
  {
    thrown.GetOr("Upload failed")
  }

  /** The form's state. */
  class ContractUploadState {
    var isDragOver: bool
    var isUploading: bool
    var uploadStatus: Status
    var errorMessage: string
    /** The files handed to `ApiService.uploadContract`, in order. */
    var uploads: seq<File>
    /** How many times `onUploadSuccess` has been called. */
    var successCallbacks: nat

    /** The `useState` initial values. */
    constructor ()
      ensures !isDragOver && !isUploading && uploadStatus == Idle && errorMessage == ""
      ensures uploads == [] && successCallbacks == 0
    {
      isDragOver := false;
      isUploading := false;
      uploadStatus := Idle;
      errorMessage := "";
      uploads := [];
      successCallbacks := 0;
    }

    /**
     * The part of `handleFileUpload` before the `await`: the checks, then, for a file that
     * passes them, the upload call with the flags set. `started` says whether the call was made.
     */
    method BeginUpload(file: Option<File>) returns (started: bool)
      modifies this
      ensures started <==> file.Some? && Validation(file.value).None?
      ensures file.None? ==> uploadStatus == old(uploadStatus) && errorMessage == old(errorMessage)
      ensures file.Some? && !started ==>
        uploadStatus == Failure && errorMessage == Validation(file.value).value
      ensures started ==> isUploading && uploadStatus == Idle && errorMessage == ""
      ensures started ==> uploads == old(uploads) + [file.value]
      ensures !started ==> uploads == old(uploads) && isUploading == old(isUploading)
      ensures isDragOver == old(isDragOver) && successCallbacks == old(successCallbacks)
    {
      started := false;
      if file.None? {
        return;
      }
      var f := file.value;
      var problem := Validation(f);
      if problem.Some? {
        errorMessage := problem.value;
        uploadStatus := Failure;
        return;
      }
      isUploading := true;
      uploadStatus := Idle;
      errorMessage := "";
      uploads := uploads + [f];
      started := true;
    }

    /** The part after the `await`: the `try`, `catch` and `finally` of the upload call. */
    method FinishUpload(outcome: UploadOutcome)
      modifies this
      ensures !isUploading
      ensures outcome.Uploaded? ==> uploadStatus == Success && successCallbacks == old(successCallbacks) + 1
      ensures outcome.Uploaded? ==> errorMessage == old(errorMessage)
      ensures outcome.Threw? ==> uploadStatus == Failure && errorMessage == FailureMessage(outcome.errorMessage)
      ensures outcome.Threw? ==> successCallbacks == old(successCallbacks)
      ensures isDragOver == old(isDragOver) && uploads == old(uploads)
    {
      match outcome {
        case Uploaded =>
          uploadStatus := Success;
          successCallbacks := successCallbacks + 1;
        case Threw(thrown) =>
          errorMessage := FailureMessage(thrown);
          uploadStatus := Failure;
      }
      isUploading := false;
    }

    /** `handleFileUpload` run to completion, with `outcome` what the upload call does if it is made. */
    method HandleFileUpload(file: Option<File>, outcome: UploadOutcome)
      modifies this
      ensures file.None? ==> isUploading == old(isUploading) && uploadStatus == old(uploadStatus)
      ensures file.None? ==> errorMessage == old(errorMessage) && uploads == old(uploads)
      ensures file.Some? && Validation(file.value).Some? ==>
        uploadStatus == Failure && errorMessage == Validation(file.value).value
        && uploads == old(uploads) && isUploading == old(isUploading)
      ensures file.Some? && Validation(file.value).None? ==>
        uploads == old(uploads) + [file.value] && !isUploading
      ensures file.Some? && Validation(file.value).None? && outcome.Uploaded? ==>
        uploadStatus == Success && errorMessage == "" && successCallbacks == old(successCallbacks) + 1
      ensures file.Some? && Validation(file.value).None? && outcome.Threw? ==>
        uploadStatus == Failure && errorMessage == FailureMessage(outcome.errorMessage)
      ensures !(file.Some? && Validation(file.value).None? && outcome.Uploaded?) ==>
        successCallbacks == old(successCallbacks)
      ensures isDragOver == old(isDragOver)
    {
      var started := BeginUpload(file);
      if started {
        FinishUpload(outcome);
      }
    }

    /** `handleDragOver`. */
    method DragOver()
      modifies this
      ensures isDragOver
      ensures isUploading == old(isUploading) && uploadStatus == old(uploadStatus) && errorMessage == old(errorMessage)
      ensures uploads == old(uploads) && successCallbacks == old(successCallbacks)
    {
      isDragOver := true;
    }

    /** `handleDragLeave`. */
    method DragLeave()
      modifies this
      ensures !isDragOver
      ensures isUploading == old(isUploading) && uploadStatus == old(uploadStatus) && errorMessage == old(errorMessage)
      ensures uploads == old(uploads) && successCallbacks == old(successCallbacks)
    {
      isDragOver := false;
    }

    /** `handleDrop`: only the first dropped file is handled; an empty drop only clears the highlight. */
    method HandleDrop(files: seq<File>, outcome: UploadOutcome)
      modifies this
      ensures !isDragOver
      ensures files == [] ==> isUploading == old(isUploading) && uploadStatus == old(uploadStatus)
      ensures files == [] ==> errorMessage == old(errorMessage) && uploads == old(uploads)
      ensures files != [] && Validation(files[0]).Some? ==>
        uploadStatus == Failure && errorMessage == Validation(files[0]).value
        && uploads == old(uploads) && isUploading == old(isUploading)
      ensures files != [] && Validation(files[0]).None? ==>
        uploads == old(uploads) + [files[0]] && !isUploading
      ensures files != [] && Validation(files[0]).None? && outcome.Uploaded? ==>
        uploadStatus == Success && errorMessage == "" && successCallbacks == old(successCallbacks) + 1
      ensures files != [] && Validation(files[0]).None? && outcome.Threw? ==>
        uploadStatus == Failure && errorMessage == FailureMessage(outcome.errorMessage)
      ensures !(files != [] && Validation(files[0]).None? && outcome.Uploaded?) ==>
        successCallbacks == old(successCallbacks)
    {
      isDragOver := false;
      if |files| > 0 {
        HandleFileUpload(Some(files[0]), outcome);
      }
    }

    /** `handleFileInput`: the first chosen file, if the input holds any. */
    method HandleFileInput(files: Option<seq<File>>, outcome: UploadOutcome)
      modifies this
      ensures files.None? || files.value == [] ==> isUploading == old(isUploading) && uploadStatus == old(uploadStatus)
      ensures files.None? || files.value == [] ==> errorMessage == old(errorMessage) && uploads == old(uploads)
      ensures files.Some? && files.value != [] && Validation(files.value[0]).Some? ==>
        uploadStatus == Failure && errorMessage == Validation(files.value[0]).value
        && uploads == old(uploads) && isUploading == old(isUploading)
      ensures files.Some? && files.value != [] && Validation(files.value[0]).None? ==>
        uploads == old(uploads) + [files.value[0]] && !isUploading
      ensures files.Some? && files.value != [] && Validation(files.value[0]).None? && outcome.Uploaded? ==>
        uploadStatus == Success && errorMessage == "" && successCallbacks == old(successCallbacks) + 1
      ensures files.Some? && files.value != [] && Validation(files.value[0]).None? && outcome.Threw? ==>
        uploadStatus == Failure && errorMessage == FailureMessage(outcome.errorMessage)
      ensures !(files.Some? && files.value != [] && Validation(files.value[0]).None? && outcome.Uploaded?) ==>
        successCallbacks == old(successCallbacks)
      ensures isDragOver == old(isDragOver)
    {
      if files.Some? && |files.value| > 0 {
        HandleFileUpload(Some(files.value[0]), outcome);
      }
    }

    /** "Upload another contract", which is only offered after a success. */
    method UploadAnother()
      requires uploadStatus == Success
      modifies this
      ensures uploadStatus == Idle
      ensures isDragOver == old(isDragOver) && isUploading == old(isUploading) && errorMessage == old(errorMessage)
      ensures uploads == old(uploads) && successCallbacks == old(successCallbacks)
    {
      uploadStatus := Idle;
    }
  }
}
