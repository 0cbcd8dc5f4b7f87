# BiliNote job submission and tracking, modelled in Dafny

This project models the client-side core of BiliNote, the application that
turns a video, audio or text source into notes. The model covers:

- the browser-side task registry (`useTaskStore`): an ordered list of note
  tasks, newest first, and the id of the selected task;
- the service calls in `note.ts`: submitting a URL, uploading a file,
  deleting a task and fetching a task's status, each with the toasts it
  shows, the task it registers and the way it settles (resolves or throws);
- the submission form `NoteForm`: its default values, the file picker's
  change handler, the remove-file button, the submit handler and the rules
  that grey out the two checkboxes;
- the string handling of the custom GPT backend adapter (`custom_gpt.py`):
  `_format_time`, the transcript text, the two chat messages, the cookie
  header parser and the loop that gathers a streamed answer.

Each HTTP call is a function parameter from the request to a `Transport`
value: either the reply body or a transport failure. Toasts are appended to a
log held by a `Toaster` object. The timestamp `new Date().toISOString()` is a
parameter. UTF-8 decoding and `json.loads` are function parameters that yield
`None` where the Python code catches an error.

Files:

- `wrappers.dfy`: `Option`.
- `strings.dfy`: the Python string primitives the adapter uses. These are
  `strip`, `split`, `split(sep, 1)`, `join`, `str` of a natural number and
  `%02d`.
- `note_api.dfy`: the request and reply vocabulary, `delete_task` and
  `get_task_status`.
- `task_store.dfy`: tasks and the `Store` class.
- `note_service.dfy`: `generateNote` and `uploadFileAndGenerateNote`.
- `note_form.dfy`: the `Form` class.
- `custom_gpt.dfy`: the GPT adapter.

Some facts about the code that the model keeps:

- There is no batch upload. The form uploads exactly one file.
- Nothing prevents a finished task from going back to pending
  (`TaskStore.UpdateCanRegressStatus`).
- `addPendingTask` never checks whether the id is already listed, so a
  second registration of the same id lists it twice
  (`TaskStore.AddPendingTaskShape`).
- A successful submission does not reset the form.

## Model

| member | source | states |
|---|---|---|
| TaskStore.PendingTask | BillNote_frontend/src/store/taskStore/index.ts:59-80 | A new task is PENDING, with empty markdown, an empty transcript and the given platform and time. A local task's `video_id` is its own id; any other task's is empty |
| TaskStore.Merge | BillNote_frontend/src/store/taskStore/index.ts:88 | `{...task, ...data}`: every supplied field replaces the task's own; id, platform and creation time are kept |
| TaskStore.FindTask | BillNote_frontend/src/store/taskStore/index.ts:93 | `find` gives None exactly when no task has the id; otherwise it gives a listed task with that id |
| TaskStore.DeleteRequestFor | BillNote_frontend/src/store/taskStore/index.ts:107-120 | A local task is deleted by its own id and any other task by `audioMeta.video_id`; both pass the task's platform |
| TaskStore.Store.constructor | BillNote_frontend/src/store/taskStore/index.ts:53-54 | The registry starts with no tasks and no selection |
| TaskStore.Store.AddPendingTask | BillNote_frontend/src/store/taskStore/index.ts:56-83 | The pending task is put in front of the old list and the selection is unchanged |
| TaskStore.Store.UpdateTaskContent | BillNote_frontend/src/store/taskStore/index.ts:85-90 | The new list is the old one with the patch merged into every task that has the id |
| TaskStore.Store.GetCurrentTask | BillNote_frontend/src/store/taskStore/index.ts:91-94 | The result is a listed task whose id is the selection. It is null exactly when nothing is selected or no task has the selected id |
| TaskStore.Store.RemoveTask | BillNote_frontend/src/store/taskStore/index.ts:95-121 | Every task with the id is dropped and a selection of that id is cleared, whatever the backend replies. `delete_task` is called only when a task was found, and its toasts and error pass through |
| TaskStore.Store.ClearTasks | BillNote_frontend/src/store/taskStore/index.ts:123 | No tasks and no selection remain |
| TaskStore.Store.SetCurrentTask | BillNote_frontend/src/store/taskStore/index.ts:125 | Any id is stored, known or not, and the list is unchanged |
| TaskStore.AddPendingTaskShape | BillNote_frontend/src/store/taskStore/index.ts:58-82 | The new task comes first and the old ones follow in order. A repeated id occurs once more, and `find` then returns the new task |
| TaskStore.UpdateMatchingSpec | BillNote_frontend/src/store/taskStore/index.ts:87-89 | An update keeps the length, the order and every id. It leaves tasks with other ids alone and merges into those with the id |
| TaskStore.UpdateUnknownId | BillNote_frontend/src/store/taskStore/index.ts:87-89 | An update for an id no task has changes nothing |
| TaskStore.UpdateMatchingIdempotent | BillNote_frontend/src/store/taskStore/index.ts:85-90 | Applying the same update twice equals applying it once |
| TaskStore.UpdateCanRegressStatus | BillNote_frontend/src/store/taskStore/index.ts:85-90 | A SUCCESS task can be set back to PENDING: nothing guards the status |
| TaskStore.RemoveMatchingMembers | BillNote_frontend/src/store/taskStore/index.ts:101 | A task survives the filter exactly when it was listed and has another id |
| TaskStore.RemoveMatchingGone | BillNote_frontend/src/store/taskStore/index.ts:101 | After removal no task has the id, and the list is shorter by the number of tasks that had it |
| TaskStore.RemoveMatchingAppend | BillNote_frontend/src/store/taskStore/index.ts:101 | The filter distributes over concatenation, so the tasks that remain keep their order |
| TaskStore.RemoveMatchingIdempotent | BillNote_frontend/src/store/taskStore/index.ts:101 | Removing twice equals removing once |
| TaskStore.RemoveUnknownId | BillNote_frontend/src/store/taskStore/index.ts:96-103 | Removing an id no task has leaves the list unchanged |
| TaskStore.FindTaskFirst | BillNote_frontend/src/store/taskStore/index.ts:96 | `find` returns the first task with the id: every earlier task has another id |
| TaskStore.LocalDeleteKeyAgrees | BillNote_frontend/src/store/taskStore/index.ts:107-120 | For a freshly added local task, both delete branches send the same key: its id equals its `video_id` |
| NoteApi.FlagField | BillNote_frontend/src/services/note.ts:59-60 | `String(flag \|\| false)` is "true" exactly when the flag is true, and "false" otherwise |
| NoteApi.UploadFormOf | BillNote_frontend/src/services/note.ts:56-60 | The multipart form carries the file, the quality name and the two flags as "true"/"false" |
| NoteApi.DeleteTask | BillNote_frontend/src/services/note.ts:95-116 | Code 0 resolves to the reply after a success toast. Any other code throws `message \|\| "删除失败"` after two error toasts, because the catch block toasts again. A transport failure is toasted once and rethrown. Every thrown case ends with "请求异常，删除任务失败" |
| NoteApi.StatusPath | BillNote_frontend/src/services/note.ts:120 | The path starts with "/task_status/" and the rest of it is exactly the task id |
| NoteApi.GetTaskStatus | BillNote_frontend/src/services/note.ts:118-140 | Any delivered reply is returned as is, without a toast and whatever its code and status. A transport failure is toasted and rethrown |
| NoteService.CreateEffect | BillNote_frontend/src/services/note.ts:18-46 | Code 0 with data toasts success, registers `data.task_id` and returns the reply. Another code returns null and toasts the message or the fallback. Code 0 without data toasts success, then failure, and throws. A transport failure toasts failure and rethrows |
| NoteService.SilentOnlyWhenRefusedWithoutMsg | BillNote_frontend/src/services/note.ts:21-26 | A call shows no toast exactly when it is a refusal without a message in `generateNote`, which has no fallback text |
| NoteService.RegisteredIffReplyReturned | BillNote_frontend/src/services/note.ts:28-36 | A call that throws registers nothing, and a task is registered exactly when the call resolves to the reply |
| NoteService.Registered | BillNote_frontend/src/services/note.ts:34 | A registration puts one pending task in front of the list; no registration leaves the list unchanged |
| NoteService.GenerateNote | BillNote_frontend/src/services/note.ts:11-47 | Toasts, registration under the request's platform, and the result, as `CreateEffect` gives them for the /generate_note reply; the selection is untouched |
| NoteService.UploadFileAndGenerateNote | BillNote_frontend/src/services/note.ts:50-93 | The same for the /upload_generate_note reply to the multipart form; the task is registered as local and titled by the file name |
| NoteForm.CheckboxRules | BillNote_frontend/src/pages/components/NoteForm.tsx:276-298 | Whenever the screenshot box is disabled, the link box is too. For an accepted file, screenshots are disabled exactly when it is not an mp4 video |
| NoteForm.DispatchOf | BillNote_frontend/src/pages/components/NoteForm.tsx:99-122 | A selected file is uploaded. Otherwise a URL is submitted exactly when the platform is not local, and refused when it is. With neither, the source is reported missing |
| NoteForm.Refusal | BillNote_frontend/src/pages/components/NoteForm.tsx:67-72 | A refusal as intended: exactly one error toast with the reason's message and a resolved handler. A refused file empties the input; a URL on the local platform marks the platform field; a missing source marks the URL field; nothing else changes |
| NoteForm.RefusalAsWritten | BillNote_frontend/src/pages/components/NoteForm.tsx:107-122 | A refusal as written, with `toast` unbound: no toast, a ReferenceError thrown, the input kept; only the missing-source branch, which sets its error before the call, marks a field |
| NoteForm.ToastUnboundRejects | BillNote_frontend/src/pages/components/NoteForm.tsx:68 | Against the intended refusal, the written one rejects instead of resolving and shows nothing instead of one toast. It keeps a refused file and leaves the platform field unmarked; the missing-source field error agrees |
| NoteForm.Settled | BillNote_frontend/src/pages/components/NoteForm.tsx:96-123 | `onSubmit` resolves to nothing and throws exactly the error the service threw |
| NoteForm.Form.constructor | BillNote_frontend/src/pages/components/NoteForm.tsx:54-60 | Empty URL, bilibili, medium quality, both boxes unchecked, no file, no errors |
| NoteForm.Form.HandleFileChange | BillNote_frontend/src/pages/components/NoteForm.tsx:63-80 | With no file, nothing changes. A file of another type is refused as `Refusal(UnsupportedType, ..)` says: one toast and an emptied input. An accepted file becomes the selection, the URL is emptied, the platform becomes local and the URL's error is cleared |
| NoteForm.Form.ClearFile | BillNote_frontend/src/pages/components/NoteForm.tsx:82-88 | No selection, an empty input, and the platform back to bilibili; nothing else changes |
| NoteForm.Form.OnSubmit | BillNote_frontend/src/pages/components/NoteForm.tsx:96-123 | The branch `DispatchOf` names runs. A service branch has exactly that service's effect. A refused submission reacts as `Refusal` says for its reason, without touching the registry or the input |
| NoteForm.AcceptedFileIsUploaded | BillNote_frontend/src/pages/components/NoteForm.tsx:75-105 | After an accepted file is picked, submitting uploads that file, whatever URL and platform the form held before |
| NoteForm.GenerateNeedsRemoteUrl | BillNote_frontend/src/pages/components/NoteForm.tsx:106-118 | A URL reaches /generate_note only when it is non-empty, no file is selected and the platform is not local; the untouched form has no source |
| Strings.StripIsSlice | backend/app/gpt/custom_gpt.py:34 | `strip` cuts off whitespace-only margins and keeps the middle unchanged |
| Strings.StripEnds | backend/app/gpt/custom_gpt.py:34 | A stripped string neither starts nor ends with whitespace |
| Strings.StripKeeps | backend/app/gpt/custom_gpt.py:67-68 | Stripping keeps every non-whitespace character, so an item with "=" still has one after `strip` |
| Strings.SplitOnce | backend/app/gpt/custom_gpt.py:68 | `split("=", 1)` gives the text before the first separator and everything after it |
| Strings.Split | backend/app/gpt/custom_gpt.py:66 | `split(";")` gives at least one part; no part holds the separator; joining the parts gives the string back |
| Strings.SplitJoin | backend/app/gpt/custom_gpt.py:33-36 | Splitting a join of separator-free parts gives the parts back |
| CustomGpt.FormatTimeUnderTenHours | backend/app/gpt/custom_gpt.py:28-30 | Below ten hours the result is `MM:SS` |
| CustomGpt.FormatTimeTenHoursToADay | backend/app/gpt/custom_gpt.py:28-30 | From ten hours up to a day, the cut leaves a leading ":" before `MM:SS` |
| CustomGpt.FormatTimeNegative | backend/app/gpt/custom_gpt.py:29 | A negative time formats as "00:00" |
| CustomGpt.FormatTimeWholeSeconds | backend/app/gpt/custom_gpt.py:30 | The fraction of a second is dropped |
| CustomGpt.FormatTimeDropsHours | backend/app/gpt/custom_gpt.py:30 | Below ten hours, a time and the same time one hour later format the same: the hour is lost |
| CustomGpt.EnsureSegmentsType | backend/app/gpt/custom_gpt.py:38-42 | Dicts become segments with the same fields, segments pass through, and length and order are kept |
| CustomGpt.EnsureSegmentsTypeIdempotent | backend/app/gpt/custom_gpt.py:38-42 | Converting already converted segments changes nothing |
| CustomGpt.SegmentLines | backend/app/gpt/custom_gpt.py:33-35 | There is one line per segment, in order, each `time - stripped text` |
| CustomGpt.NoNewlineAfterStrip | backend/app/gpt/custom_gpt.py:34 | Stripping adds no newline |
| CustomGpt.BuildSegmentTextLines | backend/app/gpt/custom_gpt.py:32-36 | When no segment text holds a newline, splitting the transcript at newlines gives one line per segment |
| CustomGpt.BuildSegmentTextNoTrailingNewline | backend/app/gpt/custom_gpt.py:32-36 | The transcript text is never empty for a non-empty segment list and never ends with a newline |
| CustomGpt.LineEnd | backend/app/gpt/custom_gpt.py:34 | A transcript line is never empty and never ends with a newline |
| CustomGpt.SystemContent | backend/app/gpt/custom_gpt.py:53-56 | The system prompt is the base, then "\n\n" + SCREENSHOT if asked, then "\n\n" + LINK if asked |
| CustomGpt.CreateMessages | backend/app/gpt/custom_gpt.py:44-63 | There are two messages, system then user, with the system prompt and the user prompt |
| CustomGpt.CreateMessagesFlagsDistinct | backend/app/gpt/custom_gpt.py:53-56 | Different screenshot/link settings always give different messages |
| CustomGpt.UserContentTranscript | backend/app/gpt/custom_gpt.py:58 | The transcript text sits between the fixed header and the footer followed by AI_SUM |
| CustomGpt.CookiePair | backend/app/gpt/custom_gpt.py:67-68 | The name holds no "=", and name + "=" + value is the stripped item |
| CustomGpt.ParseCookieString | backend/app/gpt/custom_gpt.py:64-70 | The loop builds the same dict as the left fold `CookieJar` over the ";"-separated items |
| CustomGpt.EmptyCookieString | backend/app/gpt/custom_gpt.py:64-70 | An empty cookie header gives an empty dict |
| CustomGpt.CookieJarNames | backend/app/gpt/custom_gpt.py:66-69 | A name is in the dict exactly when some item sets it |
| CustomGpt.CookieJarSetter | backend/app/gpt/custom_gpt.py:66-69 | Every name in the dict comes from an item that sets it |
| CustomGpt.SetterInJar | backend/app/gpt/custom_gpt.py:66-69 | Every item with "=" puts its name in the dict |
| CustomGpt.CookieJarLastWins | backend/app/gpt/custom_gpt.py:69 | The last item that sets a name decides its value |
| CustomGpt.DeltaContent | backend/app/gpt/custom_gpt.py:121-122 | Content is taken exactly when `choices` is a non-empty list whose first delta is present and has a non-empty content; the content taken is that one, so it is never empty |
| CustomGpt.ClassifySkips | backend/app/gpt/custom_gpt.py:104-112 | Empty lines, undecodable lines and lines without "data: " are skipped |
| CustomGpt.ClassifyData | backend/app/gpt/custom_gpt.py:112-123 | A data line stops the loop on "[DONE]". It is skipped on bad JSON or a missing delta, raises on a non-object value, and otherwise appends the content |
| CustomGpt.ReadStream | backend/app/gpt/custom_gpt.py:102-125 | The loop returns the stripped text that `Collected` gathers from the lines, and raises exactly when `Collected` does |
| CustomGpt.CollectedStopsAtDone | backend/app/gpt/custom_gpt.py:114-115 | Nothing after a "[DONE]" line is looked at |
| CustomGpt.CollectedIgnoresSkip | backend/app/gpt/custom_gpt.py:104-111 | A skipped line changes nothing |
| CustomGpt.CollectedIsContents | backend/app/gpt/custom_gpt.py:102-125 | With no "[DONE]" and no raising line, the result is every appended content, in order |
| CustomGpt.CollectedCrash | backend/app/gpt/custom_gpt.py:121 | A non-object JSON value before any "[DONE]" makes the loop raise |

## Left out

- Persistence in local storage (zustand `persist`) is a library feature. The model keeps the registry in memory only.
- The zod schema that `handleSubmit` checks before `onSubmit` runs is not modelled. For example, the URL must parse as a URL. The model starts from values that passed it.
- The JSX markup is not modelled, apart from the two `disabled` rules of the checkboxes.
- `BASE_PROMPT.format(...)`, the `replace` and the `strip` in `create_messages` are not modelled. `CustomGpt.SystemContent` takes their result as the parameter `base`. The `replace` pattern contains `{segment_text}`, which `format` has already filled in, so the pattern never matches.
- `custom_gpt.py` lines 71-100 are not modelled: building the payload, reading the environment and sending the HTTP request. `ReadStream` receives the response lines as a sequence.
- UTF-8 decoding and `json.loads` are function parameters, and the logging calls are left out. A JSON value is reduced to the fields the loop reads, plus one case for a value that is not an object.
- `CustomGpt.DeltaContent`: a `choices` element or a `delta` that is a JSON value other than an object is not modelled. Neither is a non-string `content`. Nor is a truthy `choices` that is not a list: a dict makes `[0]` raise KeyError and a number raises TypeError.
- `CustomGpt.EnsureSegmentsType`: a dict with missing or extra keys, which makes `TranscriptSegment(**seg)` raise, is not modelled.
- `CustomGpt.FormatTime`: seconds are exact reals, so float rounding, NaN and infinity are not modelled. Nor is the OverflowError `timedelta` raises above 999999999 days.
- `TaskStore.Merge`: a patch field that is present but `undefined` erases the task's field under `{...task, ...data}`; the model's `None` keeps it, so that case is not modelled.
- `NoteService.GenerateNote`, `NoteService.UploadFileAndGenerateNote`: a `data.data` object without `task_id` registers the id `undefined`; in the model `Created` always carries a `taskId`, so that reply is not modelled.
- Timestamps are parameters: `new Date().toISOString()` is `createdAt`.
- The interleaving of concurrent async calls is not modelled. Each service call runs to completion before the next one starts.
- `console.log` and `console.error` output is not modelled.

## Findings

| source | as written | input that shows it | evidently intended | confidence | as-written member | corrected member |
|---|---|---|---|---|---|---|
| BillNote_frontend/src/pages/components/NoteForm.tsx:68 | `toast.error` is called, but `toast` is imported nowhere in the file (imports are lines 1-28); the call throws a ReferenceError, so no toast shows and the input is not emptied | choosing a `.pdf` file | one error toast, then the input emptied | medium (assumes no global `toast`); not executed | NoteForm.RefusalAsWritten, NoteForm.ToastUnboundRejects | NoteForm.Form.HandleFileChange |
| BillNote_frontend/src/pages/components/NoteForm.tsx:108 | the same unbound call throws before `setError` on line 109; `onSubmit` rejects and the platform field stays unmarked | a URL submitted with platform `local` and no file | one toast, the platform field marked, `onSubmit` resolving | medium (assumes no global `toast`); not executed | NoteForm.RefusalAsWritten, NoteForm.ToastUnboundRejects | NoteForm.Form.OnSubmit |
| BillNote_frontend/src/pages/components/NoteForm.tsx:121 | `setError` on line 120 runs, then the unbound call throws; `onSubmit` rejects with no toast | submitting with no file and an empty URL | one toast, the URL field marked, `onSubmit` resolving | medium (assumes no global `toast`); not executed | NoteForm.RefusalAsWritten, NoteForm.ToastUnboundRejects | NoteForm.Form.OnSubmit |
