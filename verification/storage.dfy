/** The storage helpers (src/utils/supabaseStorage.ts): uploading a file
    under a fresh unique name that keeps the file's extension, and
    deleting a stored file. The storage service's replies, the unique id
    and the public-URL lookup are parameters. */
module Storage {
  import opened Common
  import opened Text

  /** How the service answered an upload: the stored object's path, an
      error object, or an exception whose `message` may be missing. */
  datatype UploadReply = Uploaded(storedPath: string) | UploadError(error: string) | UploadThrew(thrown: Option<string>)

  /** How the service answered a removal. */
  datatype RemoveReply = Removed | RemoveError(error: string) | RemoveThrew(thrown: Option<string>)

  /** The observable effect of an upload: the object path sent to the
      service (none when nothing was sent), the URL returned, and the toasts. */
  datatype UploadEffect = UploadEffect(sentPath: Option<string>, url: Option<string>, toasts: seq<Toast>)

  /** The stored name: the unique id, a dot, and the original extension
      (the text after the last dot, or the whole name without one). */
  function StoredName(uuid: string, fileName: string): (r: string)
    ensures |r| > |uuid| && r[..|uuid| + 1] == uuid + "."
    ensures IsExtension(r[|uuid| + 1..], fileName)
  {
    var r := uuid + "." + AfterLast(fileName, ".");
    assert r[|uuid| + 1..] == AfterLast(fileName, ".");
    r
  }

  /** The object path: the stored name, inside `folder` when it is
      non-empty. The path always ends with the name; with a folder it
      starts with the folder and a slash, and holds nothing else. */
  function ObjectPath(folder: string, name: string): (r: string)
    ensures folder == "" ==> r == name
    ensures |r| >= |name| && r[|r| - |name|..] == name
    ensures folder != "" ==> |r| == |folder| + 1 + |name| && r[..|folder| + 1] == folder + "/"
  {
    if folder != "" then folder + "/" + name else name
  }

  /** A stored file keeps the extension of the original. */
  lemma ExtensionKept(uuid: string, fileName: string)
    ensures AfterLast(StoredName(uuid, fileName), ".") == AfterLast(fileName, ".")
  {
    var ext := AfterLast(fileName, ".");
    NoOccurrenceOfChar(ext, '.');
    AfterLastChar(uuid, '.', ext);
    assert uuid + ['.'] + ext == uuid + "." + ext;
  }

  const UnknownError: string := "An unknown error occurred"

  /** `uploadToStorage`: without a file nothing is sent and the result is
      null; otherwise the file goes to its object path, and the result is
      the public URL of the path the service stored it under, or null with
      one destructive "Upload failed" toast. */
  function UploadToStorage(file: Option<string>, folder: string, uuid: string,
                           reply: UploadReply, publicUrl: string -> string): (r: UploadEffect)
    ensures file.None? ==> r == UploadEffect(None, None, [])
    ensures file.Some? ==> r.sentPath == Some(ObjectPath(folder, StoredName(uuid, file.value)))
    ensures r.url.Some? <==> file.Some? && reply.Uploaded?
    ensures r.url.Some? ==> r.url.value == publicUrl(reply.storedPath) && r.toasts == []
    ensures file.Some? && reply.UploadError? ==> r.toasts == [ErrorToast("Upload failed", reply.error)]
    ensures file.Some? && reply.UploadThrew? ==> r.toasts == [ErrorToast("Upload failed", OrElse(reply.thrown, UnknownError))]
  {
    match file
    case None => UploadEffect(None, None, [])
    case Some(name) =>
      var sent := Some(ObjectPath(folder, StoredName(uuid, name)));
      match reply
      case Uploaded(stored) => UploadEffect(sent, Some(publicUrl(stored)), [])
      case UploadError(m) => UploadEffect(sent, None, [ErrorToast("Upload failed", m)])
      case UploadThrew(m) => UploadEffect(sent, None, [ErrorToast("Upload failed", OrElse(m, UnknownError))])
  }

  /** Every upload either returns a URL silently or returns null with
      exactly one destructive toast, unless there was no file at all. */
  lemma UploadReportsFailureOnce(file: Option<string>, folder: string, uuid: string,
                                 reply: UploadReply, publicUrl: string -> string)
    ensures var r := UploadToStorage(file, folder, uuid, reply, publicUrl);
            file.Some? && r.url.None? ==> |r.toasts| == 1 && r.toasts[0].variant == Destructive && r.toasts[0].title == "Upload failed"
    ensures var r := UploadToStorage(file, folder, uuid, reply, publicUrl);
            r.url.Some? || file.None? ==> r.toasts == []
  {
  }

  /** `deleteFromStorage`: true exactly when the service removed the file;
      otherwise false with one destructive "Delete failed" toast. */
  function DeleteFromStorage(reply: RemoveReply): (r: (bool, seq<Toast>))
    ensures r.0 <==> reply.Removed?
    ensures reply.Removed? ==> r.1 == []
    ensures reply.RemoveError? ==> r.1 == [ErrorToast("Delete failed", reply.error)]
    ensures reply.RemoveThrew? ==> r.1 == [ErrorToast("Delete failed", OrElse(reply.thrown, UnknownError))]
  {
    match reply
    case Removed => (true, [])
    case RemoveError(m) => (false, [ErrorToast("Delete failed", m)])
    case RemoveThrew(m) => (false, [ErrorToast("Delete failed", OrElse(m, UnknownError))])
  }

  /** A removal reports success silently and failure with exactly one
      destructive "Delete failed" toast. */
  lemma DeleteReportsFailureOnce(reply: RemoveReply)
    ensures var (ok, toasts) := DeleteFromStorage(reply);
            ok <==> toasts == []
    ensures var (ok, toasts) := DeleteFromStorage(reply);
            !ok <==> |toasts| == 1 && toasts[0].variant == Destructive && toasts[0].title == "Delete failed"
  {
  }

  /** A returned error's toast shows its message as is, even when empty;
      only a thrown error falls back to the generic text. */
  lemma EmptyMessages()
    ensures DeleteFromStorage(RemoveError("")).1 == [ErrorToast("Delete failed", "")]
    ensures DeleteFromStorage(RemoveThrew(Some(""))).1 == [ErrorToast("Delete failed", UnknownError)]
  {
  }

  /** A name with an extension, say "me.png" uploaded as "k3x" into
      "avatars", is stored as "avatars/k3x.png": only the text after the
      last dot survives. */
  lemma UploadPathWithExtension(folder: string, uuid: string, base: string, ext: string)
    requires folder != "" && '.' !in ext
    ensures ObjectPath(folder, StoredName(uuid, base + "." + ext)) == folder + "/" + uuid + "." + ext
  {
    assert base + "." + ext == base + ['.'] + ext;
    AfterLastChar(base, '.', ext);
  }

  /** A name without a dot is used whole as the extension, at the top level. */
  lemma UploadPathWithoutExtension()
    ensures ObjectPath("", StoredName("k3x", "photo")) == "k3x.photo"
  {
    NoOccurrenceWithoutChar("photo", ".");
  }
}
