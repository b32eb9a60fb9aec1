/** The drop zone's intake: `processFiles` validates each dropped file, skips the invalid
    ones, sends an upload item for each valid one to `create`, collects the created
    records in input order, and hands them to `onFilesAdded` when there are any. */
module FileDropZone {
  import opened Js
  import opened FileService

  /** `createFilePreview`: a data URL for images, `null` otherwise. `dataUrl` stands for
      what the `FileReader` would produce for the file. */
  function CreateFilePreview(f: File, dataUrl: string): (p: Value)
    ensures p != Null <==> StartsWith(f.mediaType, "image/")
    ensures p != Null ==> p == Str(dataUrl)
  {
    if StartsWith(f.mediaType, "image/") then Str(dataUrl) else Null
  }

  /** The upload item built for an accepted file (the `fileItem` literal). */
  function FileItem(f: File, preview: Value): Obj
  {
    map[
      "name" := Str(f.name),
      "size" := Num(f.size),
      "type" := Str(f.mediaType),
      "uploadProgress" := Num(0),
      "status" := Str("uploading"),
      "preview" := preview
    ]
  }

  /** The backend record `create` builds from a drop-zone item starts the upload: progress
      0, status "uploading", the file's name, size and type, and its preview or `null`. */
  lemma ItemRecordStartsUpload(f: File, dataUrl: string, now: string)
    ensures var r := CreateRecord(FileItem(f, CreateFilePreview(f, dataUrl)), now);
      && r["upload_progress_c"] == Num(0)
      && r["status_c"] == Str("uploading")
      && r["Name"] == Str(f.name) && r["size_c"] == Num(f.size) && r["type_c"] == Str(f.mediaType)
      && r["preview_c"] == (if StartsWith(f.mediaType, "image/") && dataUrl != "" then Str(dataUrl) else Null)
  {
  }

  /** What one file contributes to `processedFiles`: its created record when it is valid
      and `create` resolves to a record, nothing otherwise. */
  function Contribution(f: File, reply: SdkReply<WriteResponse>): seq<Obj>
  {
    if ValidateFile(f) != Accepted then []
    else match CreateOutcome(reply)
      case Ok(Some(rec)) => [rec]
      case _ => []
  }

  /** A non-empty contribution is the one record `create` returned for an accepted file. */
  lemma ContributionIsCreated(f: File, reply: SdkReply<WriteResponse>)
    requires Contribution(f, reply) != []
    ensures |Contribution(f, reply)| == 1
    ensures ValidateFile(f) == Accepted && CreateOutcome(reply) == Ok(Some(Contribution(f, reply)[0]))
  {
  }

  /** The pieces of the first `n` parts, concatenated in order. */
  function Join<T>(parts: seq<seq<T>>, n: nat): seq<T>
    requires n <= |parts|
  {
    if n == 0 then [] else Join(parts, n - 1) + parts[n - 1]
  }

  /** The positions among the first `n` parts of those that are not empty. */
  function Positions<T>(parts: seq<seq<T>>, n: nat): seq<nat>
    requires n <= |parts|
  {
    if n == 0 then [] else Positions(parts, n - 1) + (if parts[n - 1] != [] then [n - 1] else [])
  }

  /** Each file's contribution, by position. */
  function Contributions(files: seq<File>, replies: seq<SdkReply<WriteResponse>>): (parts: seq<seq<Obj>>)
    requires |replies| == |files|
    ensures |parts| == |files|
    ensures forall i :: 0 <= i < |files| ==> parts[i] == Contribution(files[i], replies[i])
  {
    seq(|files|, i requires 0 <= i < |files| => Contribution(files[i], replies[i]))
  }

  /** The records collected from the first `n` files. */
  function Collected(files: seq<File>, replies: seq<SdkReply<WriteResponse>>, n: nat): seq<Obj>
    requires n <= |files| && |replies| == |files|
  {
    if n == 0 then [] else Collected(files, replies, n - 1) + Contribution(files[n - 1], replies[n - 1])
  }

  /** `Collected` is the join of the contributions. */
  lemma {:induction false} CollectedIsJoin(files: seq<File>, replies: seq<SdkReply<WriteResponse>>, n: nat)
    requires n <= |files| && |replies| == |files|
    ensures Collected(files, replies, n) == Join(Contributions(files, replies), n)
  {
    if n > 0 {
      CollectedIsJoin(files, replies, n - 1);
      var parts := Contributions(files, replies);
      assert Join(parts, n) == Join(parts, n - 1) + parts[n - 1];
      assert parts[n - 1] == Contribution(files[n - 1], replies[n - 1]);
    }
  }

  /** The items sent to `create` for the first `n` files. */
  function Sent(files: seq<File>, dataUrls: seq<string>, n: nat): seq<Obj>
    requires n <= |files| && |dataUrls| == |files|
  {
    if n == 0 then []
    else
      var f := files[n - 1];
      Sent(files, dataUrls, n - 1) +
        (if ValidateFile(f) == Accepted then [FileItem(f, CreateFilePreview(f, dataUrls[n - 1]))] else [])
  }

  /** The positions of the files the collected records came from. */
  function Origins(files: seq<File>, replies: seq<SdkReply<WriteResponse>>, n: nat): seq<nat>
    requires n <= |files| && |replies| == |files|
  {
    Positions(Contributions(files, replies), n)
  }

  /** `processFiles(files)`. `dataUrls[i]` and `replies[i]` are what the `FileReader` and
      `create`'s SDK call yield for `files[i]`. Returns the items sent to `create`, the
      records passed to `onFilesAdded`, and whether `onFilesAdded` is called. */
  method ProcessFiles(files: seq<File>, dataUrls: seq<string>, replies: seq<SdkReply<WriteResponse>>)
    returns (sent: seq<Obj>, added: seq<Obj>, notified: bool)
    requires |dataUrls| == |files| && |replies| == |files|
    ensures sent == Sent(files, dataUrls, |files|)
    ensures added == Collected(files, replies, |files|)
    ensures notified <==> |added| > 0
  {
    var processed: seq<Obj> := [];
    sent := [];
    for i := 0 to |files|
      invariant sent == Sent(files, dataUrls, i)
      invariant processed == Collected(files, replies, i)
    {
      var file := files[i];
      var validation := ValidateFile(file);
      if validation != Accepted {
        continue;
      }
      var preview := CreateFilePreview(file, dataUrls[i]);
      var item := FileItem(file, preview);
      sent := sent + [item];
      var created := CreateOutcome(replies[i]);
      if created.Ok? && created.value.Some? {
        processed := processed + [created.value.value];
      }
    }
    added := processed;
    notified := |processed| > 0;
  }

  /** The positions of the non-empty parts are increasing, below `n`, and include every
      non-empty part. */
  lemma {:induction false} PositionsOrdered<T>(parts: seq<seq<T>>, n: nat)
    requires n <= |parts|
    ensures forall k :: 0 <= k < |Positions(parts, n)| ==> Positions(parts, n)[k] < n
    ensures forall k, l :: 0 <= k < l < |Positions(parts, n)| ==> Positions(parts, n)[k] < Positions(parts, n)[l]
    ensures forall i :: 0 <= i < n && parts[i] != [] ==> i in Positions(parts, n)
  {
    if n > 0 {
      PositionsOrdered(parts, n - 1);
    }
  }

  /** When no part holds more than one piece, the `k`-th piece of the join is the one
      piece of the `k`-th non-empty part. */
  lemma {:induction false} JoinSingletons<T>(parts: seq<seq<T>>, n: nat)
    requires n <= |parts|
    requires forall i :: 0 <= i < n ==> |parts[i]| <= 1
    ensures |Positions(parts, n)| == |Join(parts, n)|
    ensures forall k :: 0 <= k < |Positions(parts, n)| ==>
      Positions(parts, n)[k] < n && parts[Positions(parts, n)[k]] == [Join(parts, n)[k]]
  {
    if n > 0 {
      JoinSingletons(parts, n - 1);
      var o, c, d := Positions(parts, n - 1), Join(parts, n - 1), parts[n - 1];
      if d != [] {
        assert Positions(parts, n) == o + [n - 1];
        assert Join(parts, n) == c + d;
        forall k | 0 <= k < |o| + 1
          ensures (o + [n - 1])[k] < n && parts[(o + [n - 1])[k]] == [(c + d)[k]]
        {
          if k == |o| {
            assert (o + [n - 1])[k] == n - 1 && (c + d)[k] == d[0];
          } else {
            assert (o + [n - 1])[k] == o[k] && (c + d)[k] == c[k];
          }
        }
      } else {
        assert Positions(parts, n) == o;
        assert Join(parts, n) == c + [];
      }
    }
  }

  /** Every collected record is the record `create` returned for a file that passed
      validation; the records keep the relative order of their files; and no such file
      is missed, so an invalid file or a failed `create` does not stop later files. */
  lemma CollectedProvenance(files: seq<File>, replies: seq<SdkReply<WriteResponse>>, n: nat)
    requires n <= |files| && |replies| == |files|
    ensures |Origins(files, replies, n)| == |Collected(files, replies, n)|
    ensures forall k :: 0 <= k < |Origins(files, replies, n)| ==>
      && Origins(files, replies, n)[k] < n
      && ValidateFile(files[Origins(files, replies, n)[k]]) == Accepted
      && CreateOutcome(replies[Origins(files, replies, n)[k]]) == Ok(Some(Collected(files, replies, n)[k]))
    ensures forall k, l :: 0 <= k < l < |Origins(files, replies, n)| ==>
      Origins(files, replies, n)[k] < Origins(files, replies, n)[l]
    ensures forall i :: 0 <= i < n && Contribution(files[i], replies[i]) != [] ==> i in Origins(files, replies, n)
  {
    var parts := Contributions(files, replies);
    CollectedIsJoin(files, replies, n);
    PositionsOrdered(parts, n);
    forall i | 0 <= i < n
      ensures |parts[i]| <= 1
    {
      if parts[i] != [] {
        ContributionIsCreated(files[i], replies[i]);
      }
    }
    JoinSingletons(parts, n);
    var o, c := Positions(parts, n), Join(parts, n);
    forall k | 0 <= k < |o|
      ensures ValidateFile(files[o[k]]) == Accepted && CreateOutcome(replies[o[k]]) == Ok(Some(c[k]))
    {
      ContributionIsCreated(files[o[k]], replies[o[k]]);
    }
  }

  /** Every item sent to `create` starts at progress 0 with status "uploading" and copies
      the name, size and type of an accepted file, with that file's preview. */
  lemma {:induction false} SentItemsStartUploading(files: seq<File>, dataUrls: seq<string>, n: nat)
    requires n <= |files| && |dataUrls| == |files|
    ensures forall item :: item in Sent(files, dataUrls, n) ==>
      && Get(item, "uploadProgress") == Num(0)
      && Get(item, "status") == Str("uploading")
      && exists i :: (0 <= i < n && ValidateFile(files[i]) == Accepted
        && Get(item, "name") == Str(files[i].name)
        && Get(item, "size") == Num(files[i].size)
        && Get(item, "type") == Str(files[i].mediaType)
        && Get(item, "preview") == CreateFilePreview(files[i], dataUrls[i]))
  {
    if n > 0 {
      SentItemsStartUploading(files, dataUrls, n - 1);
    }
  }

  /** What one file contributes to `processedFiles` as the code is written: `createdFile`
      is pushed before `createdFile.Id` is read, so when `create` resolves to `undefined`
      (`None`) that `undefined` is pushed, and the failure toast is shown as well. */
  function ContributionAsWritten(f: File, reply: SdkReply<WriteResponse>): seq<Option<Obj>>
  {
    if ValidateFile(f) != Accepted then []
    else match CreateOutcome(reply)
      case Ok(d) => [d]
      case Err(_) => []
  }

  function CollectedAsWritten(files: seq<File>, replies: seq<SdkReply<WriteResponse>>, n: nat): seq<Option<Obj>>
    requires n <= |files| && |replies| == |files|
  {
    Join(seq(|files|, i requires 0 <= i < |files| => ContributionAsWritten(files[i], replies[i])), n)
  }

  /** The records of the entries that are not `undefined`, in order. */
  function Defined(s: seq<Option<Obj>>): seq<Obj>
  {
    if s == [] then [] else Defined(s[..|s| - 1]) + (if s[|s| - 1].Some? then [s[|s| - 1].value] else [])
  }

  lemma {:induction false} DefinedAppend(a: seq<Option<Obj>>, b: seq<Option<Obj>>)
    ensures Defined(a + b) == Defined(a) + Defined(b)
    decreases |b|
  {
    if b != [] {
      assert (a + b)[..|a + b| - 1] == a + b[..|b| - 1];
      DefinedAppend(a, b[..|b| - 1]);
    } else {
      assert a + b == a;
    }
  }

  /** Joining parts and dropping the `undefined` entries is dropping them part by part. */
  lemma {:induction false} DefinedJoin(written: seq<seq<Option<Obj>>>, parts: seq<seq<Obj>>, n: nat)
    requires n <= |written| == |parts|
    requires forall i :: 0 <= i < n ==> Defined(written[i]) == parts[i]
    ensures Defined(Join(written, n)) == Join(parts, n)
  {
    if n > 0 {
      DefinedJoin(written, parts, n - 1);
      DefinedAppend(Join(written, n - 1), written[n - 1]);
    }
  }

  /** For one file, the code as written collects the corrected contribution plus possibly
      one `undefined`. */
  lemma ContributionDefined(f: File, reply: SdkReply<WriteResponse>)
    ensures Defined(ContributionAsWritten(f, reply)) == Contribution(f, reply)
  {
    var c := ContributionAsWritten(f, reply);
    if c != [] {
      assert c[..0] == [];
    }
  }

  /** The code as written and the corrected `ProcessFiles` differ only in the `undefined`
      entries: dropping those from what the code collects gives exactly `Collected`. */
  lemma AsWrittenDiffersOnlyByUndefined(files: seq<File>, replies: seq<SdkReply<WriteResponse>>, n: nat)
    requires n <= |files| && |replies| == |files|
    ensures Defined(CollectedAsWritten(files, replies, n)) == Collected(files, replies, n)
  {
    var written := seq(|files|, i requires 0 <= i < |files| => ContributionAsWritten(files[i], replies[i]));
    var parts := Contributions(files, replies);
    forall i | 0 <= i < n
      ensures Defined(written[i]) == parts[i]
    {
      ContributionDefined(files[i], replies[i]);
    }
    DefinedJoin(written, parts, n);
    CollectedIsJoin(files, replies, n);
  }

  /** A valid file whose `create` reply is successful but carries no `results` makes the
      code as written hand `[undefined]` to `onFilesAdded`. */
  lemma UndefinedEntryCollected()
    ensures var files := [File("a.txt", 10, "text/plain")];
      var replies := [Answered(WriteResponse(true, None))];
      && CollectedAsWritten(files, replies, 1) == [None]
      && Collected(files, replies, 1) == []
  {
    var files := [File("a.txt", 10, "text/plain")];
    var replies := [Answered(WriteResponse(true, None))];
    assert AllowedTypes[9] == "text/plain";
    assert ValidateFile(files[0]) == Accepted;
    assert ContributionAsWritten(files[0], replies[0]) == [None];
    assert Contribution(files[0], replies[0]) == [];
    var written := seq(|files|, i requires 0 <= i < |files| => ContributionAsWritten(files[i], replies[i]));
    assert written[0] == [None];
    assert Join(written, 1) == Join(written, 0) + written[0];
    assert Collected(files, replies, 1) == Join(Contributions(files, replies), 0) + Contributions(files, replies)[0];
  }
}
