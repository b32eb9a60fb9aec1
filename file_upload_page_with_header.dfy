/** The upload page with the application header: a queue to which new records are
    appended, a separate file list, and the effect that promotes queue entries whose
    progress is 100 into the file list. */
module FileUploadPageWithHeader {
  import opened Js
  import opened Records

  /** The new `files` and `uploadQueue` after the promotion effect: entries with
      `upload_progress_c === 100` are appended to `files` and filtered out of the queue,
      and nothing changes when there are none. */
  function Promote(files: seq<Obj>, queue: seq<Obj>): (seq<Obj>, seq<Obj>)
  {
    var completed := Where(queue, "upload_progress_c", Num(100));
    if |completed| > 0 then (files + completed, WhereNot(queue, "upload_progress_c", Num(100)))
    else (files, queue)
  }

  /** Promotion moves entries: afterwards no queue entry is at 100, the promoted entries
      follow the existing files in queue order, and queue and files together hold the
      same entries as before. */
  lemma PromoteMoves(files: seq<Obj>, queue: seq<Obj>)
    ensures forall e :: e in Promote(files, queue).1 ==> Get(e, "upload_progress_c") != Num(100)
    ensures Promote(files, queue).0 == files + Where(queue, "upload_progress_c", Num(100))
    ensures multiset(Promote(files, queue).0 + Promote(files, queue).1) == multiset(files + queue)
  {
    WherePartition(queue, "upload_progress_c", Num(100));
    WhereNotMembers(queue, "upload_progress_c", Num(100));
    if |Where(queue, "upload_progress_c", Num(100))| == 0 {
      WhereMembers(queue, "upload_progress_c", Num(100));
      WhereNotNoMatch(queue, "upload_progress_c", Num(100));
    }
  }

  /** With no entry at 100 both lists stay as they are; and since the effect runs again
      whenever the queue changes, a second run after a promotion changes nothing. */
  lemma PromoteSettles(files: seq<Obj>, queue: seq<Obj>)
    ensures (forall e :: e in queue ==> Get(e, "upload_progress_c") != Num(100)) ==>
      Promote(files, queue) == (files, queue)
    ensures Promote(Promote(files, queue).0, Promote(files, queue).1) == Promote(files, queue)
  {
    if forall e :: e in queue ==> Get(e, "upload_progress_c") != Num(100) {
      WhereNotNoMatch(queue, "upload_progress_c", Num(100));
    }
    PromoteMoves(files, queue);
    WhereNotNoMatch(Promote(files, queue).1, "upload_progress_c", Num(100));
  }

  /** The state of the `FileUploadPageWithHeader` component. */
  class HeaderPageState {
    var files: seq<Obj>
    var uploadQueue: seq<Obj>

    constructor ()
      ensures files == [] && uploadQueue == []
    {
      files := [];
      uploadQueue := [];
    }

    /** `handleFilesAdded(newFiles)`: the new records go after the existing ones. */
    method HandleFilesAdded(newFiles: seq<Obj>)
      modifies this
      ensures uploadQueue == old(uploadQueue) + newFiles
      ensures files == old(files)
    {
      uploadQueue := uploadQueue + newFiles;
    }

    /** `handleCancelUpload(fileId)`: removes the `Id` from the queue only. */
    method HandleCancelUpload(fileId: Value)
      modifies this
      ensures uploadQueue == WithoutId(old(uploadQueue), fileId)
      ensures files == old(files)
    {
      uploadQueue := WithoutId(uploadQueue, fileId);
    }

    /** `handleFileDeleted(fileId)`: removes the `Id` from the file list only. */
    method HandleFileDeleted(fileId: Value)
      modifies this
      ensures files == WithoutId(old(files), fileId)
      ensures uploadQueue == old(uploadQueue)
    {
      files := WithoutId(files, fileId);
    }

    /** The effect that moves completed uploads from the queue to the file list. */
    method PromoteCompleted()
      modifies this
      ensures (files, uploadQueue) == Promote(old(files), old(uploadQueue))
      ensures forall e :: e in uploadQueue ==> Get(e, "upload_progress_c") != Num(100)
      ensures multiset(files + uploadQueue) == multiset(old(files) + old(uploadQueue))
    {
      PromoteMoves(files, uploadQueue);
      var completedFiles := Where(uploadQueue, "upload_progress_c", Num(100));
      if |completedFiles| > 0 {
        files := files + completedFiles;
        uploadQueue := WhereNot(uploadQueue, "upload_progress_c", Num(100));
      }
    }
  }
}
