/** One queued upload's row: colour, icon and label chosen from the record's `status`,
    and which controls it shows. */
module FileUploadProgress {
  import opened Js

  /** The record's status is one of the three the row knows. */
  predicate KnownStatus(status: Value)
  {
    status == Str("completed") || status == Str("error") || status == Str("uploading")
  }

  /** `getStatusColor()`. */
  function StatusColor(file: Obj): (color: string)
    ensures color == "text-green-600" <==> Get(file, "status") == Str("completed")
    ensures color == "text-red-600" <==> Get(file, "status") == Str("error")
    ensures color == "text-primary-600" <==> Get(file, "status") == Str("uploading")
    ensures color == "text-gray-600" <==> !KnownStatus(Get(file, "status"))
  {
    match Get(file, "status")
    case Str("completed") => "text-green-600"
    case Str("error") => "text-red-600"
    case Str("uploading") => "text-primary-600"
    case _ => "text-gray-600"
  }

  /** `getStatusIcon()`. */
  function StatusIcon(file: Obj): (icon: string)
    ensures icon == "CheckCircle" <==> Get(file, "status") == Str("completed")
    ensures icon == "XCircle" <==> Get(file, "status") == Str("error")
    ensures icon == "Loader2" <==> Get(file, "status") == Str("uploading")
    ensures icon == "Clock" <==> !KnownStatus(Get(file, "status"))
  {
    match Get(file, "status")
    case Str("completed") => "CheckCircle"
    case Str("error") => "XCircle"
    case Str("uploading") => "Loader2"
    case _ => "Clock"
  }

  /** Colour and icon classify statuses alike: two records get the same colour exactly
      when they get the same icon, so the three named statuses are told apart by both. */
  lemma ColorAndIconAgree(a: Obj, b: Obj)
    ensures StatusColor(a) == StatusColor(b) <==> StatusIcon(a) == StatusIcon(b)
  {
  }

  /** The status text: `${file.uploadProgress}%` while uploading, otherwise the status as
      React renders it. */
  function StatusLabel(file: Obj): (text: string)
    ensures Get(file, "status") == Str("uploading") ==> text == Display(Get(file, "uploadProgress")) + "%"
    ensures Get(file, "status") != Str("uploading") && Get(file, "status").Str? ==> text == Get(file, "status").s
    ensures !Get(file, "status").Str? && !Get(file, "status").Num? ==> text == ""
  {
    match Get(file, "status")
    case Str(s) => if s == "uploading" then Display(Get(file, "uploadProgress")) + "%" else s
    case Num(n) => Display(Num(n))
    case _ => ""
  }

  /** The inline status icon, and whether it spins: shown only for the three known
      statuses, always the one `getStatusIcon` picks, spinning only while uploading. */
  function InlineIcon(file: Obj): (r: Option<(string, bool)>)
    ensures r.Some? <==> KnownStatus(Get(file, "status"))
    ensures r.Some? ==> r.value.0 == StatusIcon(file)
    ensures r.Some? ==> (r.value.1 <==> Get(file, "status") == Str("uploading"))
  {
    if Get(file, "status") == Str("uploading") then Some((StatusIcon(file), true))
    else if Get(file, "status") == Str("completed") || Get(file, "status") == Str("error") then Some((StatusIcon(file), false))
    else None
  }

  /** The cancel button appears only while uploading, and only when an `onCancel`
      handler is supplied. */
  function ShowCancel(file: Obj, hasOnCancel: bool): (shown: bool)
    ensures shown <==> ShowProgressBar(file) && hasOnCancel
    ensures shown ==> StatusIcon(file) == "Loader2" && InlineIcon(file) == Some(("Loader2", true))
  {
    Get(file, "status") == Str("uploading") && hasOnCancel
  }

  /** The progress bar appears only while uploading. */
  function ShowProgressBar(file: Obj): (shown: bool)
    ensures shown <==> StatusIcon(file) == "Loader2"
  {
    Get(file, "status") == Str("uploading")
  }
}
