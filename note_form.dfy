/**
 * The submission form (BillNote_frontend/src/pages/components/NoteForm.tsx)
 * without its markup: the form values, the selected file, the field errors,
 * the hidden file input, and the handlers that change them.
 */
module NoteForm {
  import opened Wrappers
  import opened NoteApi
  import opened TaskStore
  import opened NoteService

  /** The values react-hook-form holds; quality is limited to the three tiers. */
  datatype FormValues = FormValues(
    videoUrl: string, platform: string, quality: Quality, screenshot: Option<bool>, link: Option<bool>)

  /** The messages `setError` attached to a field, if any. */
  datatype FieldErrors = FieldErrors(videoUrl: Option<string>, platform: Option<string>)

  const BILIBILI := "bilibili"
  const DEFAULT_VALUES := FormValues("", BILIBILI, Medium, Some(false), Some(false))
  const NO_ERRORS := FieldErrors(None, None)

  const TEXT_PLAIN := "text/plain"
  const AUDIO_MPEG := "audio/mpeg"
  const VIDEO_MP4 := "video/mp4"
  const ALLOWED_TYPES := [TEXT_PLAIN, AUDIO_MPEG, VIDEO_MP4]

  const UNSUPPORTED_TYPE := "不支持的文件类型。请上传 txt, mp3 或 mp4 文件。"
  const URL_NEEDS_REMOTE_PLATFORM := "请选择哔哩哔哩或 Youtube 平台以使用视频链接。"
  const WRONG_PLATFORM := "请选择正确的平台"
  const NO_SOURCE := "请输入视频链接或选择一个文件"

  predicate AllowedType(mimeType: string) {
    mimeType in ALLOWED_TYPES
  }

  /** The screenshot checkbox is greyed out for a text or audio file. */
  predicate ScreenshotDisabled(selected: Option<FileRef>) {
    selected.Some? && (selected.value.mimeType == TEXT_PLAIN || selected.value.mimeType == AUDIO_MPEG)
  }

  /** The link checkbox is greyed out whenever a file is selected. */
  predicate LinkDisabled(selected: Option<FileRef>) {
    selected.Some?
  }

  /** Of the files the form can accept, only a video keeps the screenshot
      option; and whenever screenshots are off, links are off too. */
  lemma CheckboxRules(selected: Option<FileRef>)
    ensures ScreenshotDisabled(selected) ==> LinkDisabled(selected)
    ensures selected.Some? && AllowedType(selected.value.mimeType) ==>
              (ScreenshotDisabled(selected) <==> selected.value.mimeType != VIDEO_MP4)
  {
  }

  /** Why the form turns an input away without calling a service. */
  datatype Reason = UnsupportedType | PlatformMismatch | NoSource

  /** Which branch of `onSubmit` runs. */
  datatype Dispatch =
    | Upload(upload: UploadRequest)
    | Generate(generate: GenerateRequest)
    | Refused(reason: Reason)

  /** A selected file wins over the URL (and is uploaded without a platform);
      a URL is refused while the platform is `local`; with neither, the form
      reports a missing source. */
  function DispatchOf(selected: Option<FileRef>, v: FormValues): (d: Dispatch)
    ensures d.Upload? <==> selected.Some?
    ensures d.Upload? ==> d.upload == UploadRequest(selected.value, v.link, v.screenshot, v.quality)
    ensures d.Generate? <==> selected.None? && v.videoUrl != "" && v.platform != LOCAL
    ensures d.Generate? ==> d.generate == GenerateRequest(v.videoUrl, v.link, v.screenshot, v.platform, v.quality)
    ensures d == Refused(PlatformMismatch) <==> selected.None? && v.videoUrl != "" && v.platform == LOCAL
    ensures d == Refused(NoSource) <==> selected.None? && v.videoUrl == ""
  {
    if selected.Some? then Upload(UploadRequest(selected.value, v.link, v.screenshot, v.quality))
    else if v.videoUrl != "" then
      if v.platform == LOCAL then Refused(PlatformMismatch)
      else Generate(GenerateRequest(v.videoUrl, v.link, v.screenshot, v.platform, v.quality))
    else Refused(NoSource)
  }

  /** What a refusal leaves behind: the toasts it shows, the field errors,
      the hidden file input, and how the handler settles. */
  datatype Reaction = Reaction(
    toasts: seq<Toast>, errors: FieldErrors, fileInput: seq<FileRef>, outcome: Outcome<()>)

  /** The message a refusal toasts. */
  function ReasonText(reason: Reason): string {
    match reason
    case UnsupportedType => UNSUPPORTED_TYPE
    case PlatformMismatch => URL_NEEDS_REMOTE_PLATFORM
    case NoSource => NO_SOURCE
  }

  /** A refusal as the form means it, with `toast` being react-hot-toast's:
      one error toast, the error on the offending field, an emptied input for
      a refused file, and a handler that resolves. */
  function Refusal(reason: Reason, errors: FieldErrors, fileInput: seq<FileRef>): (r: Reaction)
    ensures r.toasts == [ErrorToast(ReasonText(reason))] && r.outcome == Returned(())
    ensures r.fileInput == (if reason == UnsupportedType then [] else fileInput)
    ensures reason == UnsupportedType ==> r.errors == errors
    ensures reason == PlatformMismatch ==> r.errors == errors.(platform := Some(WRONG_PLATFORM))
    ensures reason == NoSource ==> r.errors == errors.(videoUrl := Some(NO_SOURCE))
  {
    var shown := [ErrorToast(ReasonText(reason))];
    match reason
    case UnsupportedType => Reaction(shown, errors, [], Returned(()))
    case PlatformMismatch => Reaction(shown, errors.(platform := Some(WRONG_PLATFORM)), fileInput, Returned(()))
    case NoSource => Reaction(shown, errors.(videoUrl := Some(NO_SOURCE)), fileInput, Returned(()))
  }

  /** A refusal as NoteForm.tsx is written: it calls `toast.error` without
      importing `toast`, so that call throws a ReferenceError. No toast
      appears and nothing after the call runs: the refused file stays in the
      input and the URL-on-local branch never sets its field error. Only the
      missing-source branch sets its error, because it does so before the call. */
  function RefusalAsWritten(reason: Reason, errors: FieldErrors, fileInput: seq<FileRef>): (r: Reaction)
    ensures r.toasts == [] && r.outcome == Thrown(ReferenceError("toast")) && r.fileInput == fileInput
    ensures r.errors == (if reason == NoSource then errors.(videoUrl := Some(NO_SOURCE)) else errors)
  {
    var thrown := Thrown(ReferenceError("toast"));
    if reason == NoSource then Reaction([], errors.(videoUrl := Some(NO_SOURCE)), fileInput, thrown)
    else Reaction([], errors, fileInput, thrown)
  }

  /** The unbound `toast` turns every refusal into a rejected handler with no
      message for the user, where the form means one toast and a resolved
      handler; a refused file stays in the input instead of being cleared,
      and a URL on the local platform gets no field error. */
  lemma ToastUnboundRejects(reason: Reason, errors: FieldErrors, fileInput: seq<FileRef>)
    ensures var written := RefusalAsWritten(reason, errors, fileInput);
            var meant := Refusal(reason, errors, fileInput);
            written.outcome.Thrown? && meant.outcome.Returned? &&
            written.toasts == [] && |meant.toasts| == 1 &&
            (reason == UnsupportedType && fileInput != [] ==> written.fileInput != meant.fileInput) &&
            (reason == PlatformMismatch && errors.platform.None? ==> written.errors != meant.errors) &&
            (reason == NoSource ==> written.errors == meant.errors)
  {
  }

  /** `onSubmit` resolves to nothing; it only lets a thrown error through. */
  function Settled(o: Outcome<Option<CreateReply>>): (r: Outcome<()>)
    ensures r.Thrown? <==> o.Thrown?
    ensures r.Thrown? ==> r.fault == o.fault
  {
    match o
    case Returned(_) => Returned(())
    case Thrown(f) => Thrown(f)
  }

  class Form {
    var selectedFile: Option<FileRef>
    var values: FormValues
    var errors: FieldErrors
    /** The files the hidden `<input type="file">` holds. */
    var fileInput: seq<FileRef>

    constructor ()
      ensures selectedFile == None && values == DEFAULT_VALUES && errors == NO_ERRORS && fileInput == []
    {
      selectedFile := None;
      values := DEFAULT_VALUES;
      errors := NO_ERRORS;
      fileInput := [];
    }

    /** The change handler of the file input. Only the first file counts. A file
        of another type is refused as `Refusal(UnsupportedType, ..)` says: a
        toast and an emptied input. An accepted one becomes the selection,
        empties the URL, switches the platform to `local` and clears the URL's
        error. */
    method HandleFileChange(toaster: Toaster)
      modifies this, toaster
      ensures old(fileInput) == [] ==>
                selectedFile == old(selectedFile) && values == old(values) && errors == old(errors) &&
                fileInput == old(fileInput) && toaster.shown == old(toaster.shown)
      ensures old(fileInput) != [] && !AllowedType(old(fileInput)[0].mimeType) ==>
                var r := Refusal(UnsupportedType, old(errors), old(fileInput));
                selectedFile == old(selectedFile) && values == old(values) && errors == r.errors &&
                fileInput == r.fileInput && toaster.shown == old(toaster.shown) + r.toasts
      ensures old(fileInput) != [] && AllowedType(old(fileInput)[0].mimeType) ==>
                selectedFile == Some(old(fileInput)[0]) &&
                values == old(values).(videoUrl := "", platform := LOCAL) &&
                errors == old(errors).(videoUrl := None) &&
                fileInput == old(fileInput) && toaster.shown == old(toaster.shown)
    {
      if fileInput != [] {
        var file := fileInput[0];
        if !AllowedType(file.mimeType) {
          toaster.Show([ErrorToast(UNSUPPORTED_TYPE)]);
          fileInput := [];
          return;
        }
        selectedFile := Some(file);
        values := values.(videoUrl := "");
        values := values.(platform := LOCAL);
        errors := errors.(videoUrl := None);
      }
    }

    /** The remove-file button: no selection, empty input, platform back to bilibili. */
    method ClearFile()
      modifies this
      ensures selectedFile == None && fileInput == []
      ensures values == old(values).(platform := BILIBILI) && errors == old(errors)
    {
      selectedFile := None;
      fileInput := [];
      values := values.(platform := BILIBILI);
    }

    /** `onSubmit` with the current values: runs the branch `DispatchOf` names.
        A refusal does what `Refusal` says and calls no service; a service
        branch leaves the form as it is. */
    method OnSubmit(store: Store, toaster: Toaster,
                    generateBackend: GenerateRequest -> Transport<CreateReply>,
                    uploadBackend: UploadForm -> Transport<CreateReply>, createdAt: string)
      returns (outcome: Outcome<()>)
      modifies this, store, toaster
      ensures selectedFile == old(selectedFile) && values == old(values) && fileInput == old(fileInput)
      ensures store.currentTaskId == old(store.currentTaskId)
      ensures match DispatchOf(old(selectedFile), old(values))
              case Upload(req) =>
                var e := CreateEffect(uploadBackend(UploadFormOf(req)), UPLOAD_TEXTS);
                toaster.shown == old(toaster.shown) + e.toasts && errors == old(errors) &&
                store.tasks == Registered(old(store.tasks), e, LOCAL, Some(req.file.name), createdAt) &&
                outcome == Settled(e.outcome)
              case Generate(req) =>
                var e := CreateEffect(generateBackend(req), GENERATE_TEXTS);
                toaster.shown == old(toaster.shown) + e.toasts && errors == old(errors) &&
                store.tasks == Registered(old(store.tasks), e, req.platform, None, createdAt) &&
                outcome == Settled(e.outcome)
              case Refused(reason) =>
                var r := Refusal(reason, old(errors), old(fileInput));
                toaster.shown == old(toaster.shown) + r.toasts && errors == r.errors &&
                store.tasks == old(store.tasks) && outcome == r.outcome
    {
      match DispatchOf(selectedFile, values)
      case Upload(req) =>
        var o := UploadFileAndGenerateNote(store, toaster, req, uploadBackend, createdAt);
        outcome := Settled(o);
      case Generate(req) =>
        var o := GenerateNote(store, toaster, req, generateBackend, createdAt);
        outcome := Settled(o);
      case Refused(PlatformMismatch) =>
        toaster.Show([ErrorToast(URL_NEEDS_REMOTE_PLATFORM)]);
        errors := errors.(platform := Some(WRONG_PLATFORM));
        outcome := Returned(());
      case Refused(NoSource) =>
        errors := errors.(videoUrl := Some(NO_SOURCE));
        toaster.Show([ErrorToast(NO_SOURCE)]);
        outcome := Returned(());
      case Refused(UnsupportedType) =>
        // `DispatchOf` never refuses a file's type
        assert false;
    }
  }

  /** Picking an accepted file and submitting uploads that file, whatever URL
      and platform the form held before. */
  lemma AcceptedFileIsUploaded(file: FileRef, v: FormValues)
    requires AllowedType(file.mimeType)
    ensures var after := v.(videoUrl := "", platform := LOCAL);
            DispatchOf(Some(file), after) == Upload(UploadRequest(file, v.link, v.screenshot, v.quality))
  {
  }

  /** A URL can only reach the backend when no file is selected and the
      platform is a remote one; the fresh form has no source to submit. */
  lemma GenerateNeedsRemoteUrl(selected: Option<FileRef>, v: FormValues)
    ensures DispatchOf(selected, v).Generate? ==>
              selected.None? && DispatchOf(selected, v).generate.platform != LOCAL &&
              DispatchOf(selected, v).generate.videoUrl == v.videoUrl != ""
    ensures DispatchOf(None, DEFAULT_VALUES) == Refused(NoSource)
  {
  }
}
