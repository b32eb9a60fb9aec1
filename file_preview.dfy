/** The preview tile of a file: its image when the file is an image with a preview,
    otherwise an icon chosen from its media type. */
module FilePreview {
  import opened Js
  import opened FileService

  /** `file.type.startsWith("image/")`. */
  predicate IsImage(mediaType: string)
  {
    StartsWith(mediaType, "image/")
  }

  /** `getFileIcon`: the first of these tests on the media type that holds picks the
      icon — "pdf", then "word", then "excel" or "spreadsheet", then "text"; a type
      matching none of them gets the generic icon. */
  function FileIcon(t: string): (icon: string)
    ensures icon == "FileText" || icon == "Table" || icon == "File"
    ensures icon == "File" <==>
      !Contains(t, "pdf") && !Contains(t, "word") && !Contains(t, "excel") && !Contains(t, "spreadsheet")
      && !Contains(t, "text")
    ensures icon == "Table" <==>
      !Contains(t, "pdf") && !Contains(t, "word") && (Contains(t, "excel") || Contains(t, "spreadsheet"))
  {
    if Contains(t, "pdf") then "FileText"
    else if Contains(t, "word") then "FileText"
    else if Contains(t, "excel") || Contains(t, "spreadsheet") then "Table"
    else if Contains(t, "text") then "FileText"
    else "File"
  }

  /** The order of the tests matters: a spreadsheet type that also mentions "text" is
      still shown as a table, since the "text" test comes last. */
  lemma SpreadsheetBeforeText(t: string)
    requires Contains(t, "spreadsheet") && !Contains(t, "pdf") && !Contains(t, "word")
    ensures Contains(t, "text") ==> FileIcon(t) == "Table"
  {
  }

  /** What the tile shows. */
  datatype Tile = Image(src: Value) | Icon(name: string)

  /** The tile for a record. `file.type.startsWith` throws a `TypeError` when the record
      has no string `type` property (records in backend form carry `type_c` instead). */
  function Preview(file: Obj): (r: Result<Tile>)
    ensures r.Ok? <==> Get(file, "type").Str?
    ensures r.Ok? && r.value.Image? <==>
      Get(file, "type").Str? && IsImage(Get(file, "type").s) && Truthy(Get(file, "preview"))
    ensures r.Ok? && r.value.Image? ==> r.value.src == Get(file, "preview")
    ensures r.Ok? && r.value.Icon? ==> r.value.name == FileIcon(Get(file, "type").s)
  {
    match Get(file, "type")
    case Str(t) =>
      if IsImage(t) && Truthy(Get(file, "preview")) then Ok(Image(Get(file, "preview")))
      else Ok(Icon(FileIcon(t)))
    case _ => Err("TypeError")
  }

  lemma WordprocessingMentionsWord()
    ensures Contains("application/vnd.openxmlformats-officedocument.wordprocessingml.document", "word")
  {
    var t := "application/vnd.openxmlformats-officedocument.wordprocessingml.document";
    assert t[46..50] == "word" by {
      assert t[46] == 'w' && t[47] == 'o' && t[48] == 'r' && t[49] == 'd';
    }
    ContainsAt(t, "word", 46);
  }

  lemma SpreadsheetmlMentionsSpreadsheet()
    ensures Contains("application/vnd.openxmlformats-officedocument.spreadsheetml.sheet", "spreadsheet")
  {
    var t := "application/vnd.openxmlformats-officedocument.spreadsheetml.sheet";
    assert t[46..57] == "spreadsheet" by {
      assert t[46] == 's' && t[47] == 'p' && t[48] == 'r' && t[49] == 'e' && t[50] == 'a' && t[51] == 'd';
      assert t[52] == 's' && t[53] == 'h' && t[54] == 'e' && t[55] == 'e' && t[56] == 't';
    }
    ContainsAt(t, "spreadsheet", 46);
  }

  /** The accepted types past the first four are the documents, each with a specific icon. */
  lemma AcceptedDocumentIcon(i: nat)
    requires 4 <= i < |AllowedTypes|
    ensures FileIcon(AllowedTypes[i]) != "File"
  {
    var t := AllowedTypes[i];
    if i == 4 {
      ContainsAt(t, "pdf", 12);
    } else if i == 5 {
      ContainsAt(t, "word", 14);
    } else if i == 6 {
      WordprocessingMentionsWord();
    } else if i == 7 {
      ContainsAt(t, "excel", 19);
    } else if i == 8 {
      SpreadsheetmlMentionsSpreadsheet();
    } else {
      ContainsAt(t, "text", 0);
    }
  }

  /** Every media type that validation accepts and that is not an image gets a specific
      icon (a document or a table), never the generic one. */
  lemma AcceptedDocumentsHaveSpecificIcon(t: string)
    requires t in AllowedTypes && !IsImage(t)
    ensures FileIcon(t) == "FileText" || FileIcon(t) == "Table"
  {
    var i :| 0 <= i < |AllowedTypes| && AllowedTypes[i] == t;
    if i < 4 {
      assert false;
    }
    AcceptedDocumentIcon(i);
  }
}
