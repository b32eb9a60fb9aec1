/** The file service: upload validation, the backend record built by `create`, the
    field mapping of `update`, the rule by which the record SDK's replies turn into
    results or thrown errors, and one tick of the upload-progress simulator. The SDK
    itself is not modelled: each call's reply is an input. */
module FileService {
  import opened Js

  /** A browser `File` as `validateFile` and the drop zone read it. */
  datatype File = File(name: string, size: nat, mediaType: string)

  /** 50 MiB. */
  const MaxSize: int := 50 * 1024 * 1024

  const AllowedTypes: seq<string> := [
    "image/jpeg",
    "image/png",
    "image/gif",
    "image/webp",
    "application/pdf",
    "application/msword",
    "application/vnd.openxmlformats-officedocument.wordprocessingml.document",
    "application/vnd.ms-excel",
    "application/vnd.openxmlformats-officedocument.spreadsheetml.sheet",
    "text/plain",
    "text/csv"
  ]

  const SizeLimitError: string := "File size exceeds 50MB limit"
  const UnsupportedTypeError: string := "File type not supported"

  /** `{valid: true}` or `{valid: false, error}`. */
  datatype Validation = Accepted | Rejected(error: string)

  /** `validateFile`: the size limit is checked before the media type. */
  function ValidateFile(f: File): (v: Validation)
    ensures f.size > MaxSize ==> v == Rejected(SizeLimitError)
    ensures f.size <= MaxSize && f.mediaType !in AllowedTypes ==> v == Rejected(UnsupportedTypeError)
    ensures v == Accepted <==> f.size <= MaxSize && f.mediaType in AllowedTypes
    ensures f.size == 52428800 ==> v != Rejected(SizeLimitError)
  {
    if f.size > MaxSize then Rejected(SizeLimitError)
    else if f.mediaType !in AllowedTypes then Rejected(UnsupportedTypeError)
    else Accepted
  }

  /** Three validation cases: a 60 MiB image, a 2 MiB executable and a 2 MiB PNG. */
  lemma ValidationScenarios()
    ensures ValidateFile(File("photo.png", 60 * 1024 * 1024, "image/png")) == Rejected(SizeLimitError)
    ensures ValidateFile(File("tool.exe", 2 * 1024 * 1024, "application/x-msdownload")) == Rejected(UnsupportedTypeError)
    ensures ValidateFile(File("photo.png", 2 * 1024 * 1024, "image/png")) == Accepted
  {
    assert AllowedTypes[1] == "image/png";
  }

  /** Each public record key and the backend field it is stored under. */
  const FieldNames: seq<(string, string)> := [
    ("uploadProgress", "upload_progress_c"),
    ("status", "status_c"),
    ("preview", "preview_c"),
    ("name", "Name"),
    ("size", "size_c"),
    ("type", "type_c")
  ]

  const BackendFields: set<string> :=
    {"upload_progress_c", "status_c", "preview_c", "Name", "size_c", "type_c"}

  /** The record `create` sends to the backend for a public file item; `now` stands for
      `new Date().toISOString()`. */
  function CreateRecord(item: Obj, now: string): (r: Obj)
    ensures r.Keys == BackendFields + {"uploaded_at_c"}
    ensures forall i :: 0 <= i < |FieldNames| && Truthy(Get(item, FieldNames[i].0)) ==>
      r[FieldNames[i].1] == Get(item, FieldNames[i].0)
    ensures r["Name"] == Get(item, "name") && r["size_c"] == Get(item, "size") && r["type_c"] == Get(item, "type")
    ensures !Truthy(Get(item, "uploadProgress")) ==> r["upload_progress_c"] == Num(0)
    ensures !Truthy(Get(item, "status")) ==> r["status_c"] == Str("uploading")
    ensures !Truthy(Get(item, "preview")) ==> r["preview_c"] == Null
    ensures r["uploaded_at_c"] == Str(now)
  {
    map[
      "Name" := Get(item, "name"),
      "size_c" := Get(item, "size"),
      "type_c" := Get(item, "type"),
      "upload_progress_c" := Or(Get(item, "uploadProgress"), Num(0)),
      "status_c" := Or(Get(item, "status"), Str("uploading")),
      "preview_c" := Or(Get(item, "preview"), Null),
      "uploaded_at_c" := Str(now)
    ]
  }

  /** The payload `update(id, data)` sends: the `Id` and, for every public key `data`
      defines, that value under its backend name. `uploaded_at_c` is never written. */
  method BuildUpdateData(id: int, data: Obj) returns (u: Obj)
    ensures IsUpdatePayload(id, data, u)
    ensures "uploaded_at_c" !in u
  {
    u := map["Id" := Num(id)];
    if Get(data, "uploadProgress") != Undefined { u := u["upload_progress_c" := Get(data, "uploadProgress")]; }
    if Get(data, "status") != Undefined { u := u["status_c" := Get(data, "status")]; }
    if Get(data, "preview") != Undefined { u := u["preview_c" := Get(data, "preview")]; }
    if Get(data, "name") != Undefined { u := u["Name" := Get(data, "name")]; }
    if Get(data, "size") != Undefined { u := u["size_c" := Get(data, "size")]; }
    if Get(data, "type") != Undefined { u := u["type_c" := Get(data, "type")]; }
  }

  /** `u` is an update payload for `data`: the `Id` and, for every public key `data`
      defines, that value under its backend name, and no other field. */
  predicate IsUpdatePayload(id: int, data: Obj, u: Obj)
  {
    && "Id" in u && u["Id"] == Num(id)
    && (forall i :: 0 <= i < |FieldNames| ==> (FieldNames[i].1 in u <==> Get(data, FieldNames[i].0) != Undefined))
    && (forall i :: 0 <= i < |FieldNames| && FieldNames[i].1 in u ==> u[FieldNames[i].1] == Get(data, FieldNames[i].0))
    && u.Keys <= BackendFields + {"Id"}
  }

  /** The payload of a progress update names only the `Id` and the new percentage. */
  lemma ProgressPayload(id: int, n: int, u: Obj)
    requires IsUpdatePayload(id, map["uploadProgress" := Num(n)], u)
    ensures u == map["Id" := Num(id), "upload_progress_c" := Num(n)]
  {
    var data := map["uploadProgress" := Num(n)];
    assert FieldNames[0] == ("uploadProgress", "upload_progress_c") && Get(data, FieldNames[0].0) == Num(n);
    assert FieldNames[1].1 == "status_c" && Get(data, FieldNames[1].0) == Undefined;
    assert FieldNames[2].1 == "preview_c" && Get(data, FieldNames[2].0) == Undefined;
    assert FieldNames[3].1 == "Name" && Get(data, FieldNames[3].0) == Undefined;
    assert FieldNames[4].1 == "size_c" && Get(data, FieldNames[4].0) == Undefined;
    assert FieldNames[5].1 == "type_c" && Get(data, FieldNames[5].0) == Undefined;
    assert u.Keys == {"Id", "upload_progress_c"};
  }

  /** The payload of the completing update names the `Id`, 100 and "completed". */
  lemma CompletionPayload(id: int, u: Obj)
    requires IsUpdatePayload(id, map["uploadProgress" := Num(100), "status" := Str("completed")], u)
    ensures u == map["Id" := Num(id), "upload_progress_c" := Num(100), "status_c" := Str("completed")]
  {
    var data := map["uploadProgress" := Num(100), "status" := Str("completed")];
    assert FieldNames[0] == ("uploadProgress", "upload_progress_c") && Get(data, FieldNames[0].0) == Num(100);
    assert FieldNames[1] == ("status", "status_c") && Get(data, FieldNames[1].0) == Str("completed");
    assert FieldNames[2].1 == "preview_c" && Get(data, FieldNames[2].0) == Undefined;
    assert FieldNames[3].1 == "Name" && Get(data, FieldNames[3].0) == Undefined;
    assert FieldNames[4].1 == "size_c" && Get(data, FieldNames[4].0) == Undefined;
    assert FieldNames[5].1 == "type_c" && Get(data, FieldNames[5].0) == Undefined;
    assert u.Keys == {"Id", "upload_progress_c", "status_c"};
  }

  /** A call into the record SDK either rejects (with the SDK's own error) or answers. */
  datatype SdkReply<R> = Threw(message: string) | Answered(response: R)

  /** One entry of a write reply's `results`. `data` is `None` when it is absent. */
  datatype RecordResult = RecordResult(success: bool, data: Option<Obj>)

  /** The reply of `createRecord`, `updateRecord` or `deleteRecord`; `results` is `None`
      when the reply carries none. */
  datatype WriteResponse = WriteResponse(success: bool, results: Option<seq<RecordResult>>)

  /** The reply of `fetchRecords`; `data` is `None` when it is absent. */
  datatype FetchResponse = FetchResponse(success: bool, data: Option<seq<Obj>>)

  /** Any per-record result failed. */
  predicate AnyFailed(rs: seq<RecordResult>)
  {
    exists i :: 0 <= i < |rs| && !rs[i].success
  }

  /** `results.filter(r => r.success)[0]?.data`. */
  function FirstSuccessData(rs: seq<RecordResult>): (d: Option<Obj>)
    ensures (forall i :: 0 <= i < |rs| ==> !rs[i].success) ==> d == None
    ensures forall i :: 0 <= i < |rs| && rs[i].success && (forall j :: 0 <= j < i ==> !rs[j].success) ==>
      d == rs[i].data
  {
    if rs == [] then None
    else if rs[0].success then rs[0].data
    else FirstSuccessData(rs[1..])
  }

  /** How `create` and `update` turn a write reply into their result: they throw when the
      SDK rejects, when the reply is unsuccessful or when any per-record result failed,
      and otherwise resolve to the first successful record's data, or to `undefined`
      (`None`) when there is none or the reply carries no results. */
  function WriteOutcome(reply: SdkReply<WriteResponse>, failure: string): Result<Option<Obj>>
  {
    match reply
    case Threw(m) => Err(m)
    case Answered(resp) =>
      if !resp.success then Err(failure)
      else match resp.results
        case None => Ok(None)
        case Some(rs) => if AnyFailed(rs) then Err(failure) else Ok(FirstSuccessData(rs))
  }

  /** `create`'s result for the SDK's reply. */
  function CreateOutcome(reply: SdkReply<WriteResponse>): Result<Option<Obj>>
  {
    WriteOutcome(reply, "Failed to create file record")
  }

  /** `update`'s result for the SDK's reply. */
  function UpdateOutcome(reply: SdkReply<WriteResponse>): Result<Option<Obj>>
  {
    WriteOutcome(reply, "Failed to update file")
  }

  /** `delete`'s result for the SDK's reply: `true`, or a thrown error. */
  function DeleteOutcome(reply: SdkReply<WriteResponse>): (r: Result<bool>)
    ensures r.Ok? ==> r.value
  {
    match reply
    case Threw(m) => Err(m)
    case Answered(resp) =>
      if !resp.success then Err("Failed to delete file")
      else if resp.results.Some? && AnyFailed(resp.results.value) then Err("Failed to delete file")
      else Ok(true)
  }

  /** `getAll`'s result for the SDK's reply: `response.data || []`, or a thrown error. */
  function GetAllOutcome(reply: SdkReply<FetchResponse>): (r: Result<seq<Obj>>)
    ensures r.Ok? <==> reply.Answered? && reply.response.success
    ensures reply.Threw? ==> r == Err(reply.message)
    ensures reply.Answered? && !reply.response.success ==> r == Err("Failed to fetch files")
    ensures r.Ok? && reply.response.data.Some? ==> r.value == reply.response.data.value
    ensures r.Ok? && reply.response.data.None? ==> r.value == []
  {
    match reply
    case Threw(m) => Err(m)
    case Answered(resp) =>
      if !resp.success then Err("Failed to fetch files")
      else match resp.data
        case None => Ok([])
        case Some(rows) => Ok(rows)
  }

  /** The batch rule stated independently: the reply answered, is successful, and every
      per-record result it carries succeeded. */
  predicate BatchSucceeded(reply: SdkReply<WriteResponse>)
  {
    && reply.Answered?
    && reply.response.success
    && (reply.response.results.Some? ==>
          forall i :: 0 <= i < |reply.response.results.value| ==> reply.response.results.value[i].success)
  }

  /** `create`, `update` and `delete` share one rule: each succeeds exactly when the batch
      succeeded, so a single failed per-record result fails the whole call; an
      unsuccessful reply fails with the operation's own message, and an SDK rejection
      is passed on unchanged. */
  lemma SharedBatchRule(reply: SdkReply<WriteResponse>)
    ensures CreateOutcome(reply).Ok? <==> BatchSucceeded(reply)
    ensures UpdateOutcome(reply).Ok? <==> BatchSucceeded(reply)
    ensures DeleteOutcome(reply).Ok? <==> BatchSucceeded(reply)
    ensures reply.Threw? ==>
      CreateOutcome(reply) == Err(reply.message) && UpdateOutcome(reply) == Err(reply.message)
      && DeleteOutcome(reply) == Err(reply.message)
    ensures reply.Answered? && !BatchSucceeded(reply) ==>
      CreateOutcome(reply) == Err("Failed to create file record")
      && UpdateOutcome(reply) == Err("Failed to update file")
      && DeleteOutcome(reply) == Err("Failed to delete file")
  {
  }

  /** On success with a non-empty `results`, `create` and `update` return the first
      record's data: with no failures, the first result is the first successful one. */
  lemma SuccessReturnsFirstRecord(reply: SdkReply<WriteResponse>, failure: string)
    requires BatchSucceeded(reply)
    requires reply.response.results.Some? && |reply.response.results.value| > 0
    ensures WriteOutcome(reply, failure) == Ok(reply.response.results.value[0].data)
  {
    var rs := reply.response.results.value;
    assert !AnyFailed(rs);
  }

  /** `create` and `update` resolve to `undefined` exactly when the batch succeeded and
      the reply has no `results`, an empty `results`, or a first result without `data`. */
  lemma ResolvesUndefined(reply: SdkReply<WriteResponse>, failure: string)
    ensures WriteOutcome(reply, failure) == Ok(None) <==>
      && BatchSucceeded(reply)
      && (reply.response.results.None? || reply.response.results.value == []
          || reply.response.results.value[0].data.None?)
  {
    if BatchSucceeded(reply) && reply.response.results.Some? && reply.response.results.value != [] {
      SuccessReturnsFirstRecord(reply, failure);
    }
  }

  /** The closure state of one `simulateUploadProgress` call: the running percentage and
      whether its interval is still set. */
  class ProgressSimulator {
    const id: int
    var progress: real
    var running: bool

    ghost predicate Valid()
      reads this
    {
      0.0 <= progress <= 100.0 && (running <==> progress < 100.0)
    }

    constructor (id: int)
      ensures Valid() && this.id == id
      ensures progress == 0.0 && running
    {
      this.id := id;
      progress := 0.0;
      running := true;
    }

    /** One interval tick. `increment` is `Math.random() * 15`; `reply` is the SDK's
        answer to the `update` the tick awaits. Returns the payload sent to the backend
        and the value passed to `onProgress`, which is not called when `update` throws. */
    method Tick(increment: real, reply: SdkReply<WriteResponse>) returns (request: Obj, reported: Option<int>)
      requires Valid() && running
      requires 0.0 <= increment < 15.0
      modifies this
      ensures Valid()
      ensures old(progress) <= progress
      ensures progress == Advance(old(progress), increment)
      ensures old(progress) + increment >= 100.0 ==>
        progress == 100.0 && !running
        && request == map["Id" := Num(id), "upload_progress_c" := Num(100), "status_c" := Str("completed")]
      ensures old(progress) + increment < 100.0 ==>
        progress == old(progress) + increment && running
        && request == map["Id" := Num(id), "upload_progress_c" := Num(progress.Floor)]
      ensures reported.Some? <==> UpdateOutcome(reply).Ok?
      ensures reported.Some? ==> reported.value == progress.Floor && 0 <= reported.value <= 100
    {
      progress := progress + increment;
      var data: Obj;
      if progress >= 100.0 {
        progress := 100.0;
        running := false;
        data := map["uploadProgress" := Num(100), "status" := Str("completed")];
      } else {
        data := map["uploadProgress" := Num(progress.Floor)];
      }
      request := BuildUpdateData(id, data);
      if running {
        ProgressPayload(id, progress.Floor, request);
      } else {
        CompletionPayload(id, request);
      }
      if UpdateOutcome(reply).Ok? {
        reported := Some(progress.Floor);
      } else {
        reported := None;
      }
    }
  }

  /** The percentage after one tick: increased by the increment, clamped at 100. */
  function Advance(p: real, increment: real): real
  {
    if p + increment >= 100.0 then 100.0 else p + increment
  }

  /** The values reported over successive ticks while the interval is set, each update
      succeeding. The interval is cleared by the tick that reaches 100. */
  function Reports(p: real, increments: seq<real>): seq<int>
    decreases |increments|
  {
    if increments == [] || p >= 100.0 then []
    else [Advance(p, increments[0]).Floor] + Reports(Advance(p, increments[0]), increments[1..])
  }

  /** Over any run of ticks the reported progress never decreases, stays within
      [0, 100], and only the last report can be 100 (the timer stops there). Nothing is
      claimed about reaching 100: every increment may be 0. */
  lemma {:induction false} ReportsMonotone(p: real, increments: seq<real>)
    requires 0.0 <= p <= 100.0
    requires forall i :: 0 <= i < |increments| ==> 0.0 <= increments[i] < 15.0
    ensures forall i :: 0 <= i < |Reports(p, increments)| ==>
      p.Floor <= Reports(p, increments)[i] <= 100
    ensures forall i, j :: 0 <= i <= j < |Reports(p, increments)| ==>
      Reports(p, increments)[i] <= Reports(p, increments)[j]
    ensures forall i :: 0 <= i < |Reports(p, increments)| - 1 ==> Reports(p, increments)[i] < 100
    decreases |increments|
  {
    if increments != [] && p < 100.0 {
      var q := Advance(p, increments[0]);
      ReportsMonotone(q, increments[1..]);
      var rest := Reports(q, increments[1..]);
      assert Reports(p, increments) == [q.Floor] + rest;
      assert p.Floor <= q.Floor;
      if q >= 100.0 {
        assert rest == [];
      }
    }
  }

  /** The values reported over successive ticks when `delivered[i]` says whether the
      update of tick `i` resolved: a tick whose update throws still advances the progress
      (and clears the interval at 100) but reports nothing. */
  function ReportsWhen(p: real, increments: seq<real>, delivered: seq<bool>): seq<int>
    requires |delivered| == |increments|
    decreases |increments|
  {
    if increments == [] || p >= 100.0 then []
    else
      var q := Advance(p, increments[0]);
      (if delivered[0] then [q.Floor] else []) + ReportsWhen(q, increments[1..], delivered[1..])
  }

  /** With updates that may throw, the reported progress still never decreases, stays
      within [0, 100], and only the last report can be 100; when every update resolves,
      the reports are those of `Reports`. */
  lemma {:induction false} ReportsWhenMonotone(p: real, increments: seq<real>, delivered: seq<bool>)
    requires 0.0 <= p <= 100.0
    requires forall i :: 0 <= i < |increments| ==> 0.0 <= increments[i] < 15.0
    requires |delivered| == |increments|
    ensures forall i :: 0 <= i < |ReportsWhen(p, increments, delivered)| ==>
      p.Floor <= ReportsWhen(p, increments, delivered)[i] <= 100
    ensures forall i, j :: 0 <= i <= j < |ReportsWhen(p, increments, delivered)| ==>
      ReportsWhen(p, increments, delivered)[i] <= ReportsWhen(p, increments, delivered)[j]
    ensures forall i :: 0 <= i < |ReportsWhen(p, increments, delivered)| - 1 ==>
      ReportsWhen(p, increments, delivered)[i] < 100
    ensures (forall i :: 0 <= i < |delivered| ==> delivered[i]) ==>
      ReportsWhen(p, increments, delivered) == Reports(p, increments)
    decreases |increments|
  {
    if increments != [] && p < 100.0 {
      var q := Advance(p, increments[0]);
      ReportsWhenMonotone(q, increments[1..], delivered[1..]);
      var rest := ReportsWhen(q, increments[1..], delivered[1..]);
      assert ReportsWhen(p, increments, delivered) == (if delivered[0] then [q.Floor] else []) + rest;
      assert p.Floor <= q.Floor;
      if q >= 100.0 {
        assert rest == [];
      }
    }
  }
}
