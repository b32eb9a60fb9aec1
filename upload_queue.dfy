/** The upload queue panel: per-status counts of the queued records, the summary line
    built from them, and the "n file(s)" caption. */
module UploadQueue {
  import opened Js
  import opened Records

  /** `files.filter(file => file.status_c === status).length`. */
  function CountStatus(files: seq<Obj>, status: string): (n: nat)
    ensures n <= |files|
    ensures n == 0 <==> forall r :: r in files ==> Get(r, "status_c") != Str(status)
  {
    WhereMembers(files, "status_c", Str(status));
    var kept := Where(files, "status_c", Str(status));
    assert |kept| > 0 ==> kept[0] in kept;
    |kept|
  }

  lemma CountStep(files: seq<Obj>, status: string)
    requires files != []
    ensures CountStatus(files, status) ==
      (if Get(files[0], "status_c") == Str(status) then 1 else 0) + CountStatus(files[1..], status)
  {
  }

  /** A queued record's `status_c` is one of the three counted values. */
  predicate Counted(r: Obj)
  {
    Get(r, "status_c") in {Str("uploading"), Str("completed"), Str("error")}
  }

  /** The three counts never exceed the queue length, and they add up to it exactly when
      every record's `status_c` is one of "uploading", "completed" and "error". */
  lemma {:induction false} CountsBounded(files: seq<Obj>)
    ensures CountStatus(files, "uploading") + CountStatus(files, "completed") + CountStatus(files, "error") <= |files|
    ensures CountStatus(files, "uploading") + CountStatus(files, "completed") + CountStatus(files, "error") == |files|
      <==> forall r :: r in files ==> Counted(r)
  {
    if files != [] {
      var x, rest := files[0], files[1..];
      CountsBounded(rest);
      assert forall r :: r in files <==> r == x || r in rest;
      CountStep(files, "uploading");
      CountStep(files, "completed");
      CountStep(files, "error");
      assert Counted(x) <==>
        Get(x, "status_c") == Str("uploading") || Get(x, "status_c") == Str("completed") || Get(x, "status_c") == Str("error");
      if !Counted(x) {
        assert x in files;
      }
    }
  }

  /** `{files.length === 1 ? "file" : "files"}`. */
  function FilesLabel(n: nat): (word: string)
    ensures word == "file" <==> n == 1
    ensures word == "file" || word == "files"
  {
    if n == 1 then "file" else "files"
  }

  /** The summary line: each part appears only when its count is positive. */
  function Summary(uploading: nat, completed: nat, failed: nat): (s: string)
    ensures s == "" <==> uploading == 0 && completed == 0 && failed == 0
    ensures uploading > 0 ==> StartsWith(s, Digits(uploading) + " uploading, ")
    ensures uploading == 0 && completed > 0 ==> StartsWith(s, Digits(completed) + " completed")
    ensures failed > 0 ==> var t := ", " + Digits(failed) + " failed"; |t| <= |s| && s[|s| - |t|..] == t
  {
    (if uploading > 0 then Digits(uploading) + " uploading, " else "")
    + (if completed > 0 then Digits(completed) + " completed" else "")
    + (if failed > 0 then ", " + Digits(failed) + " failed" else "")
  }

  /** What the panel's header shows. */
  datatype Header = Header(uploading: nat, completed: nat, failed: nat, summary: string, caption: string)

  /** The panel for a queue: nothing for an empty queue, otherwise the counts, the
      summary line and the caption. */
  function Panel(files: seq<Obj>): (h: Option<Header>)
    ensures h.None? <==> files == []
    ensures h.Some? ==>
      && h.value.uploading == CountStatus(files, "uploading")
      && h.value.completed == CountStatus(files, "completed")
      && h.value.failed == CountStatus(files, "error")
      && h.value.uploading + h.value.completed + h.value.failed <= |files|
      && h.value.summary == Summary(h.value.uploading, h.value.completed, h.value.failed)
      && h.value.caption == Digits(|files|) + " " + FilesLabel(|files|)
  {
    if |files| == 0 then None
    else
      CountsBounded(files);
      var a := CountStatus(files, "uploading");
      var c := CountStatus(files, "completed");
      var f := CountStatus(files, "error");
      Some(Header(a, c, f, Summary(a, c, f), Digits(|files|) + " " + FilesLabel(|files|)))
  }
}
