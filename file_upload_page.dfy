/** The routed upload page: its upload queue, to which new records are prepended, and
    the two handlers that remove an entry by `Id`. */
module FileUploadPage {
  import opened Js
  import opened Records

  /** The state of the `FileUploadPage` component. */
  class UploadPageState {
    var uploadQueue: seq<Obj>

    constructor ()
      ensures uploadQueue == []
    {
      uploadQueue := [];
    }

    /** `handleFilesAdded(newFiles)`: the new records go in front, both parts in order. */
    method HandleFilesAdded(newFiles: seq<Obj>)
      modifies this
      ensures uploadQueue == newFiles + old(uploadQueue)
      ensures |uploadQueue| == |newFiles| + |old(uploadQueue)|
    {
      uploadQueue := newFiles + uploadQueue;
    }

    /** `handleCancelUpload(fileId)`: every entry with that `Id` leaves the queue. */
    method HandleCancelUpload(fileId: Value)
      modifies this
      ensures uploadQueue == WithoutId(old(uploadQueue), fileId)
      ensures !HasId(uploadQueue, fileId)
      ensures !HasId(old(uploadQueue), fileId) ==> uploadQueue == old(uploadQueue)
    {
      WithoutIdRemovesAll(uploadQueue, fileId);
      if !HasId(uploadQueue, fileId) {
        WithoutAbsentId(uploadQueue, fileId);
      }
      uploadQueue := WithoutId(uploadQueue, fileId);
    }

    /** `handleFileDeleted(fileId)`: the same effect on the queue as cancelling. */
    method HandleFileDeleted(fileId: Value)
      modifies this
      ensures uploadQueue == WithoutId(old(uploadQueue), fileId)
      ensures !HasId(uploadQueue, fileId)
    {
      WithoutIdRemovesAll(uploadQueue, fileId);
      uploadQueue := WithoutId(uploadQueue, fileId);
    }
  }
}
