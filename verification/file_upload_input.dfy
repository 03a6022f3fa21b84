/**
  The file picker of a file-upload question
  (`frontend/src/components/ui/questions/FileUploadInput.tsx`): size check,
  then extension check, then the file is handed to `onChange`; removing the
  file hands over nothing and clears the error.
*/
module FileUploadInput {
  import opened Wrappers
  import opened Text
  import opened FormTypes

  const DefaultAcceptedTypes: seq<string> := ["pdf", "jpg", "png", "docx"]

  /** 5 MiB. */
  const DefaultMaxSize: int := 5242880

  /** The error line under the picker. Its wording, which formats sizes with `toFixed`, is not modelled. */
  datatype PickError = NoError | SizeError | TypeError

  /** What a handler does to `onChange`: nothing, or one call with a file or with nothing. */
  datatype Emit = Silent | Emitted(file: Option<FileInfo>)

  datatype Step = Step(error: PickError, emit: Emit)

  /** `file.name.split(".").pop()?.toLowerCase()`. */
  function Extension(name: string): string {
    Lower(LastSegment(name, '.'))
  }

  /** The type check rejects a non-empty extension that is not listed; an empty one passes. */
  predicate TypeRejected(name: string, acceptedTypes: seq<string>) {
    Extension(name) != "" && Extension(name) !in acceptedTypes
  }

  /** `handleFileChange`, starting from the current error line. */
  function HandleFileChange(error: PickError, picked: Option<FileInfo>, acceptedTypes: seq<string>, maxSize: int): (r: Step)
    ensures picked.None? ==> r == Step(error, Silent)
    ensures picked.Some? && picked.value.size > maxSize ==> r == Step(SizeError, Silent)
    ensures picked.Some? && picked.value.size <= maxSize && TypeRejected(picked.value.name, acceptedTypes)
      ==> r == Step(TypeError, Silent)
    ensures r.emit.Emitted? <==>
      picked.Some? && picked.value.size <= maxSize && !TypeRejected(picked.value.name, acceptedTypes)
    ensures r.emit.Emitted? ==> r.emit.file == picked && r.error == NoError
  {
    match picked
    case None => Step(error, Silent)
    case Some(file) =>
      if file.size > maxSize then Step(SizeError, Silent)
      else if TypeRejected(file.name, acceptedTypes) then Step(TypeError, Silent)
      else Step(NoError, Emitted(Some(file)))
  }

  /**
    What a picked file gets does not depend on the error line shown before,
    and it is handed over exactly when it is within the size limit and its
    extension is listed or empty.
  */
  lemma PickedFileVerdict(before: PickError, after: PickError, f: FileInfo, acceptedTypes: seq<string>, maxSize: int)
    ensures HandleFileChange(before, Some(f), acceptedTypes, maxSize) == HandleFileChange(after, Some(f), acceptedTypes, maxSize)
    ensures HandleFileChange(before, Some(f), acceptedTypes, maxSize).emit == Emitted(Some(f))
      <==> f.size <= maxSize && (Extension(f.name) == "" || Extension(f.name) in acceptedTypes)
    ensures HandleFileChange(before, Some(f), acceptedTypes, maxSize).emit != Emitted(Some(f))
      ==> HandleFileChange(before, Some(f), acceptedTypes, maxSize).emit == Silent
  {
  }

  /** `handleRemove`: `onChange(null)` and the error line cleared. */
  function HandleRemove(error: PickError): (r: Step)
    ensures r.emit == Emitted(None) && r.error == NoError
  {
    Step(NoError, Emitted(None))
  }

  /** A name ending in a dot has an empty extension, so the type check lets it through. */
  lemma TrailingDotSkipsTypeCheck(stem: string, acceptedTypes: seq<string>)
    ensures Extension(stem + ".") == ""
    ensures !TypeRejected(stem + ".", acceptedTypes)
  {
    LastSegmentAfterSeparator(stem, '.');
    assert Lower("") == "";
  }

  /** A file of exactly the maximum size passes the size check; one byte more fails it. */
  lemma SizeBoundary(name: string, mime: string, error: PickError)
    ensures HandleFileChange(error, Some(FileInfo(name, mime, DefaultMaxSize + 1)), DefaultAcceptedTypes, DefaultMaxSize)
      == Step(SizeError, Silent)
    ensures HandleFileChange(error, Some(FileInfo(name, mime, DefaultMaxSize)), DefaultAcceptedTypes, DefaultMaxSize).error
      != SizeError
  {
  }
}
