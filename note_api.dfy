/**
 * The request/reply vocabulary of the note service client
 * (BillNote_frontend/src/services/note.ts) and its two calls that only map a
 * reply to a result: `delete_task` and `get_task_status`.
 *
 * An HTTP call is a function from the request to a `Transport` value (the
 * reply the backend gives, or a transport failure); a toast is an entry
 * appended to a notification log.
 */
module NoteApi {
  import opened Wrappers

  datatype Toast = SuccessToast(text: string) | ErrorToast(text: string)

  /** The toast log that `react-hot-toast` displays, in order of appearance. */
  class Toaster {
    var shown: seq<Toast>

    constructor ()
      ensures shown == []
    {
      shown := [];
    }

    method Show(toasts: seq<Toast>)
      modifies this
      ensures shown == old(shown) + toasts
    {
      shown := shown + toasts;
    }
  }

  /** What `request.post`/`request.get` resolves to: the reply body, or the
      error the transport rejected with. */
  datatype Transport<R> = Delivered(reply: R) | TransportError(detail: string)

  /** What a service function throws. */
  datatype Fault =
    | RequestFailed(detail: string)  // the transport error, rethrown as is
    | MissingData                    // TypeError reading `data.task_id` of a reply without `data`
    | Rejected(message: string)      // `new Error(message)` thrown for a refused delete
    | ReferenceError(name: string)   // a call through an identifier the module never binds

  /** How an async service call settles. */
  datatype Outcome<T> = Returned(value: T) | Thrown(fault: Fault)

  /** The toasts a call shows together with how it settles. */
  datatype Call<T> = Call(toasts: seq<Toast>, outcome: Outcome<T>)

  /** JavaScript truthiness of an optional string field. */
  predicate Truthy(s: Option<string>) {
    s.Some? && s.value != ""
  }

  datatype Quality = Fast | Medium | Slow

  function QualityName(q: Quality): string {
    match q
    case Fast => "fast"
    case Medium => "medium"
    case Slow => "slow"
  }

  /** A local file chosen in the browser: its name and its MIME type. */
  datatype FileRef = FileRef(name: string, mimeType: string)

  /** The object `generateNote` posts to /generate_note. */
  datatype GenerateRequest = GenerateRequest(
    videoUrl: string, link: Option<bool>, screenshot: Option<bool>, platform: string, quality: Quality)

  /** The argument of `uploadFileAndGenerateNote`. */
  datatype UploadRequest = UploadRequest(
    file: FileRef, link: Option<bool>, screenshot: Option<bool>, quality: Quality)

  /** The multipart form `uploadFileAndGenerateNote` posts to /upload_generate_note. */
  datatype UploadForm = UploadForm(file: FileRef, quality: string, screenshot: string, link: string)

  /** `data.data` of a successful creation reply. */
  datatype Created = Created(taskId: string)

  /** The body of a /generate_note or /upload_generate_note reply. */
  datatype CreateReply = CreateReply(code: int, msg: Option<string>, data: Option<Created>)

  /** What `removeTask` passes to `delete_task`. */
  datatype DeleteRequest = DeleteRequest(videoId: string, platform: string)

  /** The body of a /delete_task reply. */
  datatype DeleteReply = DeleteReply(code: int, message: Option<string>)

  /** The body of a /task_status reply; `payload` stands for the fields the
      client passes on without looking at them. */
  datatype StatusReply = StatusReply(code: int, status: string, payload: Option<string>)

  const DELETE_SUCCESS := "任务已成功删除"
  const DELETE_FALLBACK := "删除失败"
  const DELETE_REQUEST_FAILED := "请求异常，删除任务失败"
  const STATUS_REQUEST_FAILED := "笔记生成失败，请稍后重试"

  /** `String(flag || false)`: how a checkbox value travels in the upload form. */
  function FlagField(flag: Option<bool>): (r: string)
    ensures r == "true" || r == "false"
    ensures r == "true" <==> flag == Some(true)
  {
    if flag.Some? && flag.value then "true" else "false"
  }

  /** The form `uploadFileAndGenerateNote` builds from its argument. */
  function UploadFormOf(req: UploadRequest): (form: UploadForm)
    ensures form.file == req.file && form.quality == QualityName(req.quality)
    ensures form.screenshot == "true" <==> req.screenshot == Some(true)
    ensures form.link == "true" <==> req.link == Some(true)
  {
    UploadForm(req.file, QualityName(req.quality), FlagField(req.screenshot), FlagField(req.link))
  }

  /** `delete_task`: code 0 resolves to the reply after a success toast; any
      other code throws `Error(message || "删除失败")`, which its own catch block
      toasts a second time before rethrowing; a transport failure is toasted
      once and rethrown. */
  function DeleteTask(reply: Transport<DeleteReply>): (c: Call<DeleteReply>)
    ensures c.outcome.Returned? <==> reply.Delivered? && reply.reply.code == 0
    ensures c.outcome.Returned? ==> c.outcome.value == reply.reply && c.toasts == [SuccessToast(DELETE_SUCCESS)]
    ensures reply.TransportError? ==>
              c.outcome == Thrown(RequestFailed(reply.detail)) && c.toasts == [ErrorToast(DELETE_REQUEST_FAILED)]
    ensures reply.Delivered? && reply.reply.code != 0 ==>
              var m := if Truthy(reply.reply.message) then reply.reply.message.value else DELETE_FALLBACK;
              c.outcome == Thrown(Rejected(m)) && c.toasts == [ErrorToast(m), ErrorToast(DELETE_REQUEST_FAILED)]
    ensures c.outcome.Thrown? ==> c.toasts[|c.toasts| - 1] == ErrorToast(DELETE_REQUEST_FAILED)
  {
    match reply
    case TransportError(d) => Call([ErrorToast(DELETE_REQUEST_FAILED)], Thrown(RequestFailed(d)))
    case Delivered(r) =>
      if r.code == 0 then Call([SuccessToast(DELETE_SUCCESS)], Returned(r))
      else
        var m := r.message.GetOr(DELETE_FALLBACK);
        var m := if m == "" then DELETE_FALLBACK else m;
        // the thrown Error is caught by the same function's catch block
        Call([ErrorToast(m)] + [ErrorToast(DELETE_REQUEST_FAILED)], Thrown(Rejected(m)))
  }

  /** The path `get_task_status` requests. */
  function StatusPath(taskId: string): (p: string)
    ensures |p| == |"/task_status/"| + |taskId|
    ensures p[..|"/task_status/"|] == "/task_status/" && p[|"/task_status/"|..] == taskId
  {
    "/task_status/" + taskId
  }

  /** `get_task_status`: whatever the reply's code and status, the reply itself
      is returned without a toast; a transport failure is toasted once and
      rethrown. */
  function GetTaskStatus(taskId: string, backend: string -> Transport<StatusReply>): (c: Call<StatusReply>)
    ensures backend(StatusPath(taskId)).Delivered? ==>
              c == Call([], Returned(backend(StatusPath(taskId)).reply))
    ensures backend(StatusPath(taskId)).TransportError? ==>
              c == Call([ErrorToast(STATUS_REQUEST_FAILED)], Thrown(RequestFailed(backend(StatusPath(taskId)).detail)))
  {
    match backend(StatusPath(taskId))
    case Delivered(r) => Call([], Returned(r))
    case TransportError(d) => Call([ErrorToast(STATUS_REQUEST_FAILED)], Thrown(RequestFailed(d)))
  }
}
