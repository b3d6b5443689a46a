/** The multer configuration both route files repeat: a 5 MB size limit, a
    file filter testing the extension and the mimetype against an alternation
    of words, and disk storage under a generated name that keeps the
    original extension. What a rejected upload becomes is decided by the
    error middleware of server/server.js. */
module Uploads {
  import opened Common
  import opened Text

  /** `limits.fileSize`: 5 MB. */
  const MaxUploadBytes: nat := 5 * 1024 * 1024

  /** The reply of the error middleware to multer's LIMIT_FILE_SIZE error. */
  const TooLarge: string := "File size too large. Maximum 5MB allowed."

  /** A file as multer presents it to the filter. */
  datatype Upload = Upload(originalname: string, mimetype: string, size: nat)

  /** What `upload.single(field)` leaves for the route: the stored file name
      (`req.file.filename`, absent when no file was sent), or the reply of
      the error middleware when the upload was refused, in which case the
      route does not run. */
  datatype Received = Received(filename: Field) | Refused(status: nat, error: string)

  /** `fileFilter` for `allowedTypes = /words[0]|words[1]|.../`: the
      lower-cased extension and the mimetype, which is not lower-cased, must
      each contain one of the words. */
  function FileFilter(originalname: string, mimetype: string, words: seq<string>): (ok: bool)
    ensures ok <==> (&& (exists k, i: nat :: 0 <= k < |words| && OccursAt(ToLower(ExtName(originalname)), words[k], i))
                     && (exists k, i: nat :: 0 <= k < |words| && OccursAt(mimetype, words[k], i)))
  {
    var e := ToLower(ExtName(originalname));
    MatchesAnyOccurs(e, words);
    MatchesAnyOccurs(mimetype, words);
    assert e == ToLower(ExtName(originalname));
    MatchesAny(e, words) && MatchesAny(mimetype, words)
  }

  /** `MatchesAny` in terms of the position where a word occurs. */
  lemma MatchesAnyOccurs(s: string, words: seq<string>)
    ensures MatchesAny(s, words) <==> exists k, i: nat :: 0 <= k < |words| && OccursAt(s, words[k], i)
  {
    if MatchesAny(s, words) {
      var k :| 0 <= k < |words| && Contains(s, words[k]);
      var i: nat :| OccursAt(s, words[k], i);
    }
  }

  /** A file named `stem.ext`, whose lower-cased extension and mimetype each
      match a word, passes the filter. */
  lemma FileFilterAccepts(stem: string, ext: string, mimetype: string, words: seq<string>)
    requires stem != [] && ext != []
    requires forall j :: 0 <= j < |stem| ==> stem[j] != '/'
    requires forall j :: 0 <= j < |ext| ==> ext[j] != '/' && ext[j] != '.'
    requires MatchesAny(ToLower("." + ext), words) && MatchesAny(mimetype, words)
    ensures FileFilter(stem + "." + ext, mimetype, words)
  {
    ExtNameOfFileName(stem, ext);
  }

  /** When no word is empty or holds a '.', an accepted name has an extension
      longer than the shortest word: the match cannot start at the '.'. */
  lemma AcceptedExtensionLength(originalname: string, mimetype: string, words: seq<string>, n: nat)
    requires n >= 1
    requires forall k :: 0 <= k < |words| ==> |words[k]| >= n
    requires forall k, j :: 0 <= k < |words| && 0 <= j < |words[k]| ==> words[k][j] != '.'
    ensures FileFilter(originalname, mimetype, words) ==> |ExtName(originalname)| > n
  {
    if !FileFilter(originalname, mimetype, words) {
      return;
    }
    var x := ExtName(originalname);
    var e := ToLower(x);
    var k, i: nat :| 0 <= k < |words| && OccursAt(e, words[k], i);
    var w := words[k];
    assert e[i] == w[0] != '.';
    assert e[0] == LowerChar(x[0]) == '.';
  }

  /** multer with that filter, the size limit and disk storage naming the file
      `stem` followed by the original extension. A refusal by the filter is a
      plain Error, answered 500 with its message; a file over the limit is a
      MulterError, answered 400. */
  function Receive(file: Option<Upload>, words: seq<string>, rejection: string, stem: string): (r: Received)
    ensures file.None? ==> r == Received(None)
    ensures file.Some? ==>
              (r.Received? <==> FileFilter(file.value.originalname, file.value.mimetype, words)
                                && file.value.size <= MaxUploadBytes)
    ensures file.Some? && !FileFilter(file.value.originalname, file.value.mimetype, words) ==>
              r == Refused(500, rejection)
    ensures (file.Some? && FileFilter(file.value.originalname, file.value.mimetype, words)
             && file.value.size > MaxUploadBytes) ==> r == Refused(400, TooLarge)
    ensures file.Some? && r.Received? ==> r.filename == Some(stem + ExtName(file.value.originalname))
    ensures r.Refused? ==> r.status == 500 || r == Refused(400, TooLarge)
  {
    match file
    case None => Received(None)
    case Some(f) =>
      if !FileFilter(f.originalname, f.mimetype, words) then Refused(500, rejection)
      else if f.size > MaxUploadBytes then Refused(400, TooLarge)
      else Received(Some(stem + ExtName(f.originalname)))
  }

  /** The stored name is the stem followed by the extension, each found where
      it was put. */
  lemma StoredNameParts(stem: string, x: string)
    ensures (stem + x)[..|stem|] == stem && (stem + x)[|stem|..] == x
  {
  }

  /** The stored name keeps the extension the filter approved, whenever the
      generated stem has neither '.' nor '/'. */
  lemma StoredNameKeepsExtension(stem: string, originalname: string)
    requires stem != [] && forall j :: 0 <= j < |stem| ==> stem[j] != '/' && stem[j] != '.'
    ensures ExtName(stem + ExtName(originalname)) == ExtName(originalname)
  {
    var e := ExtName(originalname);
    if e == [] {
      assert stem + e == stem;
      ExtNameWithoutDot(stem);
    } else {
      assert e == "." + e[1..];
      assert stem + e == stem + "." + e[1..];
      assert stem != "." by { assert stem[0] != '.'; }
      ExtNameOfFileName(stem, e[1..]);
    }
  }

  /** A file the filter accepted is stored under a name the same filter accepts. */
  lemma StoredNamePassesFilter(file: Option<Upload>, words: seq<string>, rejection: string, stem: string)
    requires stem != [] && forall j :: 0 <= j < |stem| ==> stem[j] != '/' && stem[j] != '.'
    requires Receive(file, words, rejection, stem).Received?
    requires file.Some?
    ensures FileFilter(Receive(file, words, rejection, stem).filename.value, file.value.mimetype, words)
  {
    StoredNameKeepsExtension(stem, file.value.originalname);
  }
}
