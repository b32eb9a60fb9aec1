/** The gallery of uploaded files: loading the completed records from the backend,
    merging newly completed uploads in front without duplicating an `Id`, deleting by
    `Id` once the backend confirms, and the total size shown in the stats bar. */
module FileList {
  import opened Js
  import opened Records
  import opened FileService

  /** `data.filter(file => file.status === "completed")`. */
  function CompletedOnly(s: seq<Obj>): seq<Obj>
  {
    Where(s, "status", Str("completed"))
  }

  /** `candidates.filter(c => !prev.some(e => e.Id === c.Id))`. */
  function Unseen(candidates: seq<Obj>, prev: seq<Obj>): seq<Obj>
  {
    if candidates == [] then []
    else (if !HasId(prev, Get(candidates[0], "Id")) then [candidates[0]] else []) + Unseen(candidates[1..], prev)
  }

  /** The new value of `files` set by the effect that runs when `uploadedFiles` changes. */
  function Merge(prev: seq<Obj>, uploaded: seq<Obj>): seq<Obj>
  {
    var completed := CompletedOnly(uploaded);
    if |completed| > 0 then Unseen(completed, prev) + prev else prev
  }

  lemma {:induction false} UnseenMembers(candidates: seq<Obj>, prev: seq<Obj>)
    ensures forall r :: r in Unseen(candidates, prev) <==> r in candidates && !HasId(prev, Get(r, "Id"))
  {
    if candidates != [] {
      UnseenMembers(candidates[1..], prev);
      assert forall r :: r in candidates <==> r == candidates[0] || r in candidates[1..];
    }
  }

  lemma {:induction false} UnseenAllSeen(candidates: seq<Obj>, prev: seq<Obj>)
    requires forall c :: c in candidates ==> HasId(prev, Get(c, "Id"))
    ensures Unseen(candidates, prev) == []
  {
    if candidates != [] {
      assert candidates[0] in candidates;
      assert forall c :: c in candidates[1..] ==> c in candidates;
      UnseenAllSeen(candidates[1..], prev);
    }
  }

  /** The merge adds exactly the completed uploads whose `Id` is not already listed,
      places them before all existing files, and keeps the existing files in order. */
  lemma MergeContents(prev: seq<Obj>, uploaded: seq<Obj>)
    ensures forall r :: r in Merge(prev, uploaded) <==>
      r in prev || (r in uploaded && Get(r, "status") == Str("completed") && !HasId(prev, Get(r, "Id")))
    ensures |prev| <= |Merge(prev, uploaded)|
    ensures Merge(prev, uploaded)[|Merge(prev, uploaded)| - |prev|..] == prev
    ensures forall r :: r in Merge(prev, uploaded)[..|Merge(prev, uploaded)| - |prev|] ==>
      r in uploaded && Get(r, "status") == Str("completed") && !HasId(prev, Get(r, "Id"))
  {
    var completed := CompletedOnly(uploaded);
    WhereMembers(uploaded, "status", Str("completed"));
    UnseenMembers(completed, prev);
    if |completed| > 0 {
      var m := Merge(prev, uploaded);
      assert m[..|m| - |prev|] == Unseen(completed, prev);
    }
  }

  /** Running the merge again with the same uploads adds nothing: after the first merge
      every completed upload's `Id` is listed. */
  lemma MergeIdempotent(prev: seq<Obj>, uploaded: seq<Obj>)
    ensures Merge(Merge(prev, uploaded), uploaded) == Merge(prev, uploaded)
  {
    var m := Merge(prev, uploaded);
    var completed := CompletedOnly(uploaded);
    if |completed| > 0 {
      WhereMembers(uploaded, "status", Str("completed"));
      MergeContents(prev, uploaded);
      forall c | c in completed
        ensures HasId(m, Get(c, "Id"))
      {
        if HasId(prev, Get(c, "Id")) {
          var e :| e in prev && Get(e, "Id") == Get(c, "Id");
          assert e in m;
        } else {
          assert c in m;
        }
      }
      UnseenAllSeen(completed, m);
      assert Merge(m, uploaded) == [] + m;
    }
  }

  /** A `size` that `number + size` adds as a number: a number, `null` (adds 0) or a
      boolean (adds 0 or 1). A missing size gives `NaN` and a string size turns the
      sum into a string, and the sum stays not a number from then on. */
  predicate AddsAsNumber(v: Value)
  {
    v.Num? || v.Null? || v.Bool?
  }

  /** The number `number + v` adds for such a size. */
  function NumericValue(v: Value): int
    requires AddsAsNumber(v)
  {
    match v
    case Num(n) => n
    case Bool(b) => if b then 1 else 0
    case Null => 0
  }

  /** `files.reduce((total, file) => total + file.size, 0)`. `None` stands for a result
      that is not a number. */
  function TotalSize(files: seq<Obj>): (r: Option<int>)
    ensures r.Some? <==> forall f :: f in files ==> AddsAsNumber(Get(f, "size"))
    ensures files == [] ==> r == Some(0)
  {
    if files == [] then Some(0)
    else
      var size := Get(files[0], "size");
      match TotalSize(files[1..])
      case Some(t) => if AddsAsNumber(size) then Some(NumericValue(size) + t) else None
      case None => None
  }

  /** Sizes of `null` and `true` count as 0 and 1. */
  lemma NullAndBooleanSizes()
    ensures TotalSize([map["size" := Null]]) == Some(0)
    ensures TotalSize([map["size" := Num(5)], map["size" := Bool(true)]]) == Some(6)
    ensures TotalSize([map["size" := Num(5)], map["name" := Str("a")]]) == None
  {
    var two := [map["size" := Num(5)], map["size" := Bool(true)]];
    assert two[1..] == [map["size" := Bool(true)]];
    assert two[1..][1..] == [];
    var gap: seq<Obj> := [map["size" := Num(5)], map["name" := Str("a")]];
    assert gap[1..] == [map["name" := Str("a")]];
    assert Get(gap[1], "size") == Undefined;
  }

  /** The total of a one-file list is that file's size as a number; with `TotalSizeAppend`
      this fixes every total as the sum of the sizes. */
  lemma TotalSizeOne(f: Obj)
    requires AddsAsNumber(Get(f, "size"))
    ensures TotalSize([f]) == Some(NumericValue(Get(f, "size")))
  {
    assert [f][1..] == [];
  }

  /** The total of two lists joined is the sum of their totals, so the merge's prepended
      files add exactly their own sizes. */
  lemma {:induction false} TotalSizeAppend(a: seq<Obj>, b: seq<Obj>)
    requires forall f :: f in a + b ==> AddsAsNumber(Get(f, "size"))
    ensures TotalSize(a + b).Some? && TotalSize(a).Some? && TotalSize(b).Some?
    ensures TotalSize(a + b).value == TotalSize(a).value + TotalSize(b).value
  {
    assert forall f :: f in a || f in b ==> f in a + b;
    if a == [] {
      assert a + b == b;
    } else {
      assert (a + b)[0] == a[0] && (a + b)[1..] == a[1..] + b;
      assert forall f :: f in a[1..] + b ==> f in a + b;
      TotalSizeAppend(a[1..], b);
    }
  }

  /** Deleting an `Id` takes exactly the sizes of the entries with that `Id` off the total. */
  lemma {:induction false} DeleteSplitsTotal(files: seq<Obj>, id: Value)
    requires forall f :: f in files ==> AddsAsNumber(Get(f, "size"))
    ensures TotalSize(WithoutId(files, id)).Some? && TotalSize(Where(files, "Id", id)).Some?
    ensures TotalSize(files).value ==
      TotalSize(WithoutId(files, id)).value + TotalSize(Where(files, "Id", id)).value
  {
    WhereMembers(files, "Id", id);
    WhereNotMembers(files, "Id", id);
    if files != [] {
      assert forall f :: f in files[1..] ==> f in files;
      DeleteSplitsTotal(files[1..], id);
      var x, rest := files[0], files[1..];
      assert x in files;
      var kept, gone := WithoutId(rest, id), Where(rest, "Id", id);
      if Get(x, "Id") == id {
        assert WithoutId(files, id) == kept;
        assert Where(files, "Id", id) == [x] + gone;
        assert ([x] + gone)[0] == x && ([x] + gone)[1..] == gone;
      } else {
        assert WithoutId(files, id) == [x] + kept;
        assert Where(files, "Id", id) == gone;
        assert ([x] + kept)[0] == x && ([x] + kept)[1..] == kept;
      }
    }
  }

  /** The state of the `FileList` component. */
  class FileListState {
    var files: seq<Obj>
    var loading: bool
    var error: string

    constructor ()
      ensures files == [] && loading && error == ""
    {
      files := [];
      loading := true;
      error := "";
    }

    /** `loadFiles` given the reply to `getAll`'s fetch: the completed records, in their
        fetched order, or the error message with `files` left as it was. */
    method LoadFiles(reply: SdkReply<FetchResponse>)
      modifies this
      ensures !loading
      ensures GetAllOutcome(reply).Ok? ==> files == CompletedOnly(GetAllOutcome(reply).value) && error == ""
      ensures GetAllOutcome(reply).Err? ==> files == old(files) && error == GetAllOutcome(reply).message
    {
      error := "";
      loading := true;
      var data := GetAllOutcome(reply);
      if data.Ok? {
        files := CompletedOnly(data.value);
      } else {
        error := data.message;
      }
      loading := false;
    }

    /** The effect run when the `uploadedFiles` prop changes. */
    method MergeUploaded(uploaded: seq<Obj>)
      modifies this
      ensures files == Merge(old(files), uploaded)
      ensures loading == old(loading) && error == old(error)
    {
      var completed := CompletedOnly(uploaded);
      if |completed| > 0 {
        files := Unseen(completed, files) + files;
      }
    }

    /** `handleDelete(fileId)` given the reply to `delete`'s SDK call: on success every
        entry with that `Id` is removed and `onFileDeleted` is called; on failure nothing
        changes. */
    method HandleDelete(fileId: Value, reply: SdkReply<WriteResponse>) returns (notified: bool)
      modifies this
      ensures DeleteOutcome(reply).Ok? ==> files == WithoutId(old(files), fileId) && notified
      ensures DeleteOutcome(reply).Err? ==> files == old(files) && !notified
      ensures loading == old(loading) && error == old(error)
    {
      var outcome := DeleteOutcome(reply);
      if outcome.Ok? {
        files := WithoutId(files, fileId);
        notified := true;
      } else {
        notified := false;
      }
    }

    /** `getTotalSize()`: a number exactly when every listed file's size adds as one;
        0 for an empty list. */
    function GetTotalSize(): (r: Option<int>)
      reads this
      ensures r.Some? <==> forall f :: f in files ==> AddsAsNumber(Get(f, "size"))
      ensures files == [] ==> r == Some(0)
    {
      TotalSize(files)
    }
  }
}
