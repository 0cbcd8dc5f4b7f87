/**
 * The two submission calls of BillNote_frontend/src/services/note.ts,
 * `generateNote` and `uploadFileAndGenerateNote`: post the request, toast the
 * outcome, register a pending task on success, and return the reply, null or
 * the error.
 */
module NoteService {
  import opened Wrappers
  import opened NoteApi
  import opened TaskStore

  /** The three fixed texts a submission call may toast. `rejected` is the
      fallback shown when a refusal carries no `msg` (None: show nothing). */
  datatype Texts = Texts(submitted: string, rejected: Option<string>, failed: string)

  const GENERATE_TEXTS := Texts("笔记生成任务已提交！", None, "笔记生成失败，请稍后重试")
  const UPLOAD_TEXTS := Texts("文件上传成功，笔记生成任务已提交！", Some("文件上传或笔记生成失败"), "文件上传失败，请稍后重试")

  /** What a submission call does with the backend's answer: the toasts it
      shows, the task id it registers (if any) and how it settles. */
  datatype Effect = Effect(toasts: seq<Toast>, registered: Option<string>, outcome: Outcome<Option<CreateReply>>)

  /** The decision logic shared by both calls.
      - A refusal (code != 0) returns null, registers nothing, and toasts `msg`
        when it is truthy, otherwise the fallback if there is one.
      - Code 0 toasts success, registers `data.task_id` once and returns the reply.
        If `data` is absent, reading `task_id` throws inside the `try`, so the
        catch block toasts the failure text and rethrows.
      - A transport failure toasts the failure text once, registers nothing
        and rethrows the same error. */
  function CreateEffect(reply: Transport<CreateReply>, texts: Texts): (e: Effect)
    ensures e.registered.Some? <==> reply.Delivered? && reply.reply.code == 0 && reply.reply.data.Some?
    ensures e.registered.Some? ==>
              e.registered.value == reply.reply.data.value.taskId &&
              e.outcome == Returned(Some(reply.reply)) &&
              e.toasts == [SuccessToast(texts.submitted)]
    ensures reply.Delivered? && reply.reply.code != 0 ==>
              e.outcome == Returned(None) &&
              e.toasts == (if Truthy(reply.reply.msg) then [ErrorToast(reply.reply.msg.value)]
                           else if texts.rejected.Some? then [ErrorToast(texts.rejected.value)]
                           else [])
    ensures reply.Delivered? && reply.reply.code == 0 && reply.reply.data.None? ==>
              e.outcome == Thrown(MissingData) &&
              e.toasts == [SuccessToast(texts.submitted), ErrorToast(texts.failed)]
    ensures reply.TransportError? ==>
              e.outcome == Thrown(RequestFailed(reply.detail)) && e.toasts == [ErrorToast(texts.failed)]
  {
    match reply
    case TransportError(d) => Effect([ErrorToast(texts.failed)], None, Thrown(RequestFailed(d)))
    case Delivered(r) =>
      if r.code != 0 then
        var shown := if r.msg.Some? && r.msg.value != "" then [ErrorToast(r.msg.value)]
                     else if texts.rejected.Some? then [ErrorToast(texts.rejected.value)]
                     else [];
        Effect(shown, None, Returned(None))
      else if r.data.None? then
        Effect([SuccessToast(texts.submitted), ErrorToast(texts.failed)], None, Thrown(MissingData))
      else
        Effect([SuccessToast(texts.submitted)], Some(r.data.value.taskId), Returned(Some(r)))
  }

  /** Every submission shows at least one toast, except a refusal without
      `msg` in `generateNote`, which is silent. */
  lemma SilentOnlyWhenRefusedWithoutMsg(reply: Transport<CreateReply>, texts: Texts)
    ensures CreateEffect(reply, texts).toasts == [] <==>
              reply.Delivered? && reply.reply.code != 0 && !Truthy(reply.reply.msg) && texts.rejected.None?
  {
  }

  /** A call that throws never registers a task, and a task is registered
      exactly when the call resolves to the reply. */
  lemma RegisteredIffReplyReturned(reply: Transport<CreateReply>, texts: Texts)
    ensures var e := CreateEffect(reply, texts);
            (e.outcome.Thrown? ==> e.registered.None?) &&
            (e.registered.Some? <==> e.outcome.Returned? && e.outcome.value.Some?)
  {
  }

  /** The store after a submission registered `e.registered` (or nothing). */
  function Registered(tasks: seq<Task>, e: Effect, platform: string, fileName: Option<string>, createdAt: string): (r: seq<Task>)
    ensures e.registered.None? ==> r == tasks
    ensures e.registered.Some? ==> |r| == |tasks| + 1 && r[1..] == tasks && r[0] == PendingTask(e.registered.value, platform, fileName, createdAt)
  {
    match e.registered
    case None => tasks
    case Some(id) => [PendingTask(id, platform, fileName, createdAt)] + tasks
  }

  /** `generateNote`: posts the request as given; a registered task carries
      the request's platform and no file name. */
  method GenerateNote(store: Store, toaster: Toaster, req: GenerateRequest,
                      backend: GenerateRequest -> Transport<CreateReply>, createdAt: string)
    returns (outcome: Outcome<Option<CreateReply>>)
    modifies store, toaster
    ensures var e := CreateEffect(backend(req), GENERATE_TEXTS);
            toaster.shown == old(toaster.shown) + e.toasts &&
            store.tasks == Registered(old(store.tasks), e, req.platform, None, createdAt) &&
            store.currentTaskId == old(store.currentTaskId) &&
            outcome == e.outcome
  {
    var reply := backend(req);
    match reply
    case TransportError(d) =>
      toaster.Show([ErrorToast(GENERATE_TEXTS.failed)]);
      outcome := Thrown(RequestFailed(d));
    case Delivered(r) =>
      if r.code != 0 {
        if r.msg.Some? && r.msg.value != "" {
          toaster.Show([ErrorToast(r.msg.value)]);
        }
        outcome := Returned(None);
        return;
      }
      toaster.Show([SuccessToast(GENERATE_TEXTS.submitted)]);
      if r.data.None? {
        toaster.Show([ErrorToast(GENERATE_TEXTS.failed)]);
        outcome := Thrown(MissingData);
        return;
      }
      store.AddPendingTask(r.data.value.taskId, req.platform, None, createdAt);
      outcome := Returned(Some(r));
  }

  /** `uploadFileAndGenerateNote`: posts the multipart form built from the
      request; a registered task is a `local` one titled by the file name. */
  method UploadFileAndGenerateNote(store: Store, toaster: Toaster, req: UploadRequest,
                                   backend: UploadForm -> Transport<CreateReply>, createdAt: string)
    returns (outcome: Outcome<Option<CreateReply>>)
    modifies store, toaster
    ensures var e := CreateEffect(backend(UploadFormOf(req)), UPLOAD_TEXTS);
            toaster.shown == old(toaster.shown) + e.toasts &&
            store.tasks == Registered(old(store.tasks), e, LOCAL, Some(req.file.name), createdAt) &&
            store.currentTaskId == old(store.currentTaskId) &&
            outcome == e.outcome
  {
    var form := UploadFormOf(req);
    var reply := backend(form);
    match reply
    case TransportError(d) =>
      toaster.Show([ErrorToast(UPLOAD_TEXTS.failed)]);
      outcome := Thrown(RequestFailed(d));
    case Delivered(r) =>
      if r.code != 0 {
        if r.msg.Some? && r.msg.value != "" {
          toaster.Show([ErrorToast(r.msg.value)]);
        } else {
          toaster.Show([ErrorToast(UPLOAD_TEXTS.rejected.value)]);
        }
        outcome := Returned(None);
        return;
      }
      toaster.Show([SuccessToast(UPLOAD_TEXTS.submitted)]);
      if r.data.None? {
        toaster.Show([ErrorToast(UPLOAD_TEXTS.failed)]);
        outcome := Thrown(MissingData);
        return;
      }
      store.AddPendingTask(r.data.value.taskId, LOCAL, Some(req.file.name), createdAt);
      outcome := Returned(Some(r));
  }
}
