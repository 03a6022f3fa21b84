/**
  The upload middleware (`backend/src/middleware/uploadMiddleware.js`): the
  file-type filter, the 10 MiB size limit and the five-file limit that run
  before the upload endpoints. A rejected file never reaches the endpoint:
  the error goes to the server's error handler, which answers 500.
*/
module UploadMiddleware {
  import opened Text
  import opened FormTypes

  /** The words the filter looks for in a MIME type, by category. */
  const ImageTokens: seq<string> := ["jpeg", "jpg", "png", "gif", "webp", "svg"]
  const VideoTokens: seq<string> := ["mp4", "webm", "ogg", "mov"]
  const DocTokens: seq<string> := ["pdf", "doc", "docx", "xls", "xlsx", "txt"]

  /** The largest accepted file, in bytes (10 MiB); a file of exactly this size passes. */
  const MaxFileSize: int := 10 * 1024 * 1024

  /** The most files the multi-file variant accepts. */
  const MaxFiles: nat := 5

  /** Some listed word occurs in `s`: an unanchored regular expression made of alternatives. */
  predicate MatchesAny(s: string, tokens: seq<string>) {
    exists k :: 0 <= k < |tokens| && Contains(s, tokens[k])
  }

  /** The type test as written: the MIME type contains one of the listed words anywhere. */
  predicate AllowedAsWritten(mime: string) {
    MatchesAny(mime, ImageTokens) || MatchesAny(mime, VideoTokens) || MatchesAny(mime, DocTokens)
  }

  /** The lower-cased text after the last dot of a file name. */
  function Extension(name: string): string {
    Lower(LastSegment(name, '.'))
  }

  /**
    The type test as intended: the listed words are file extensions, so a
    file passes when its MIME type contains one (as written) or when its
    name's extension is one.
  */
  predicate Allowed(f: FileInfo) {
    AllowedAsWritten(f.mime) || Extension(f.name) in ImageTokens + VideoTokens + DocTokens
  }

  datatype Verdict = Accept | RejectType | RejectSize | RejectCount

  /** The single-file middleware as written: the type filter first, then the size limit. */
  function CheckFileAsWritten(f: FileInfo): (v: Verdict)
    ensures v == Accept <==> AllowedAsWritten(f.mime) && f.size <= MaxFileSize
    ensures v == RejectType <==> !AllowedAsWritten(f.mime)
    ensures v == RejectSize <==> AllowedAsWritten(f.mime) && f.size > MaxFileSize
  {
    if !AllowedAsWritten(f.mime) then RejectType
    else if f.size > MaxFileSize then RejectSize
    else Accept
  }

  /** The single-file middleware with the intended type test. */
  function CheckFile(f: FileInfo): (v: Verdict)
    ensures v == Accept <==> Allowed(f) && f.size <= MaxFileSize
    ensures v == RejectType <==> !Allowed(f)
    ensures v == RejectSize <==> Allowed(f) && f.size > MaxFileSize
  {
    if !Allowed(f) then RejectType
    else if f.size > MaxFileSize then RejectSize
    else Accept
  }

  /**
    The multi-file middleware, with the type test as written: files are
    checked in arrival order, the first rejection ends the request, and a
    file arriving after the fifth is refused. `seen` counts the files
    already accepted.
  */
  function CheckFiles(files: seq<FileInfo>, seen: nat): (v: Verdict)
    requires seen <= MaxFiles
    ensures v == Accept <==> seen + |files| <= MaxFiles && forall k :: 0 <= k < |files| ==> CheckFileAsWritten(files[k]) == Accept
    ensures v == RejectCount ==> seen + |files| > MaxFiles
    decreases |files|
  {
    if |files| == 0 then Accept
    else if seen == MaxFiles then RejectCount
    else
      var v := CheckFileAsWritten(files[0]);
      if v != Accept then v
      else
        var rest := CheckFiles(files[1..], seen + 1);
        assert forall k :: 1 <= k < |files| ==> files[k] == files[1..][k - 1];
        rest
  }

  /** The corrected test only adds files: whatever passes as written still passes, with the same size verdict. */
  lemma CorrectionOnlyWidens(f: FileInfo)
    ensures CheckFileAsWritten(f) == Accept ==> CheckFile(f) == Accept
    ensures CheckFileAsWritten(f) == RejectSize ==> CheckFile(f) == RejectSize
    ensures CheckFile(f) == RejectType ==> CheckFileAsWritten(f) == RejectType
  {
  }

  /** A file named with a listed extension passes the corrected test whatever its MIME type, within the size limit. */
  lemma ListedExtensionAccepted(f: FileInfo)
    requires Extension(f.name) in DocTokens && f.size <= MaxFileSize
    ensures CheckFile(f) == Accept
  {
  }

  /** A listed word is absent when one of its characters never occurs. */
  lemma {:induction false} CharAbsent(s: string, p: string, j: nat)
    requires j < |p| && p[j] !in s
    ensures !Contains(s, p)
  {
    forall i | 0 <= i <= |s| ensures !OccursAt(s, p, i) {
      if i + |p| <= |s| {
        assert s[i..i + |p|][j] == s[i + j];
      }
    }
  }

  /**
    A plain-text file is refused as written: `text/plain` contains none of
    the words, although `txt` is listed; the corrected test accepts it.
  */
  lemma {:induction false} TextFileRejectedAsWritten()
    ensures CheckFileAsWritten(FileInfo("notes.txt", "text/plain", 5)) == RejectType
    ensures CheckFile(FileInfo("notes.txt", "text/plain", 5)) == Accept
  {
    PlainTextNoImageWord();
    PlainTextNoVideoWord();
    PlainTextNoDocWord();
    TxtExtension();
    assert DocTokens[5] == "txt";
  }

  lemma {:induction false} PlainTextNoImageWord()
    ensures !MatchesAny("text/plain", ImageTokens)
  {
    forall k | 0 <= k < |ImageTokens| ensures !Contains("text/plain", ImageTokens[k]) {
      CharAbsent("text/plain", ImageTokens[k], [0, 0, 2, 0, 0, 0][k]);
    }
  }

  lemma {:induction false} PlainTextNoVideoWord()
    ensures !MatchesAny("text/plain", VideoTokens)
  {
    forall k | 0 <= k < |VideoTokens| ensures !Contains("text/plain", VideoTokens[k]) {
      CharAbsent("text/plain", VideoTokens[k], 0);
    }
  }

  lemma {:induction false} PlainTextNoDocWord()
    ensures !MatchesAny("text/plain", DocTokens)
  {
    var s := "text/plain";
    forall k | 0 <= k < |DocTokens| ensures !Contains(s, DocTokens[k]) {
      if k == 5 {
        forall i | 0 <= i <= |s| ensures !OccursAt(s, "txt", i) {
          if i + 3 <= |s| {
            assert s[i..i + 3][0] == s[i] && s[i..i + 3][1] == s[i + 1];
          }
        }
      } else {
        CharAbsent(s, DocTokens[k], [1, 0, 0, 2, 2][k]);
      }
    }
  }

  lemma {:induction false} TxtExtension()
    ensures Extension("notes.txt") == "txt"
  {
    LastSegmentAfterPrefix("notes", "txt", '.');
    assert "notes" + ['.'] + "txt" == "notes.txt";
    assert Lower("txt") == "txt";
  }

  /**
    A PNG logo sent with the generic binary MIME type is refused as written,
    since `application/octet-stream` contains none of the words; the
    corrected test accepts it by its extension.
  */
  lemma {:induction false} OctetStreamLogoRejectedAsWritten()
    ensures CheckFileAsWritten(FileInfo("logo.png", "application/octet-stream", 5)) == RejectType
    ensures CheckFile(FileInfo("logo.png", "application/octet-stream", 5)) == Accept
  {
    OctetStreamNoImageWord();
    OctetStreamNoVideoWord();
    OctetStreamNoDocWord();
    PngExtension();
    assert ImageTokens[2] == "png";
  }

  lemma {:induction false} OctetStreamNoImageWord()
    ensures !MatchesAny("application/octet-stream", ImageTokens)
  {
    forall k | 0 <= k < |ImageTokens| ensures !Contains("application/octet-stream", ImageTokens[k]) {
      CharAbsent("application/octet-stream", ImageTokens[k], [0, 0, 2, 0, 0, 1][k]);
    }
  }

  lemma {:induction false} OctetStreamNoVideoWord()
    ensures !MatchesAny("application/octet-stream", VideoTokens)
  {
    forall k | 0 <= k < |VideoTokens| ensures !Contains("application/octet-stream", VideoTokens[k]) {
      CharAbsent("application/octet-stream", VideoTokens[k], [2, 0, 1, 2][k]);
    }
  }

  lemma {:induction false} OctetStreamNoDocWord()
    ensures !MatchesAny("application/octet-stream", DocTokens)
  {
    forall k | 0 <= k < |DocTokens| ensures !Contains("application/octet-stream", DocTokens[k]) {
      CharAbsent("application/octet-stream", DocTokens[k], [1, 0, 0, 0, 0, 1][k]);
    }
  }

  lemma {:induction false} PngExtension()
    ensures Extension("logo.png") == "png"
  {
    LastSegmentAfterPrefix("logo", "png", '.');
    assert "logo" + ['.'] + "png" == "logo.png";
    assert Lower("png") == "png";
  }

  /** A batch holding a plain-text file is refused as written. */
  lemma PlainTextBatchRefused()
    ensures CheckFiles([FileInfo("notes.txt", "text/plain", 5)], 0) == RejectType
  {
    TextFileRejectedAsWritten();
  }

  /** The word test also admits formats outside the three categories: an audio file passes because of `ogg`. */
  lemma AudioPassesAsVideo()
    ensures CheckFileAsWritten(FileInfo("song.ogg", "audio/ogg", 1)) == Accept
  {
    assert OccursAt("audio/ogg", "ogg", 6);
    assert VideoTokens[2] == "ogg";
  }

  /** The size limit is inclusive. */
  lemma SizeLimitInclusive(f: FileInfo)
    requires Allowed(f)
    ensures f.size == MaxFileSize ==> CheckFile(f) == Accept
    ensures f.size == MaxFileSize + 1 ==> CheckFile(f) == RejectSize
  {
  }
}
