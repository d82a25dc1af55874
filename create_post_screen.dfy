/** src/screens/CreatePostScreen.js: the new-post form — a caption, an optional
    image, and the multipart request that uploads them. */
module CreatePostScreen {
  import opened Base
  import opened Seqs

  /** `image.split('/').pop()`: the part of the URI after its last '/'. */
  function FileName(uri: string): (name: string)
    ensures '/' !in name
    ensures |name| <= |uri| && name == uri[|uri| - |name|..]
    ensures '/' in uri ==> uri[|uri| - |name| - 1] == '/'
    ensures '/' !in uri ==> name == uri
  {
    AfterLast(uri, '/')
  }

  /** The regular-expression class `\w`. */
  predicate WordChar(c: char) {
    'a' <= c <= 'z' || 'A' <= c <= 'Z' || '0' <= c <= '9' || c == '_'
  }

  predicate WordRun(s: string) {
    s != [] && forall i :: 0 <= i < |s| ==> WordChar(s[i])
  }

  /** The type the upload declares: `image/<ext>` when `/\.(\w+)$/` matches the
      file name, and bare `image` otherwise. Since `\w` excludes '.', the match can
      only start at the last '.', so the extension is what follows it. */
  function MimeType(filename: string): (t: string)
    ensures t == "image" || exists k :: 0 <= k < |filename| && filename[k] == '.' && WordRun(filename[k + 1..]) && t == "image/" + filename[k + 1..]
  {
    var ext := AfterLast(filename, '.');
    if '.' in filename && WordRun(ext) then
      assert filename[|filename| - |ext| - 1] == '.';
      assert filename[|filename| - |ext|..] == ext;
      "image/" + ext
    else "image"
  }

  /** A name ending in '.' and a run of word characters gets that run as its type. */
  lemma MimeTypeOfExtension(stem: string, ext: string)
    requires WordRun(ext)
    ensures MimeType(stem + "." + ext) == "image/" + ext
  {
    assert !WordChar('.');
    AfterLastOfSuffix(stem, '.', ext);
    assert (stem + "." + ext)[|stem|] == '.';
  }

  /** A name whose text after the last '.' is empty or holds a non-word character
      (or that has no '.') gets the bare type. */
  lemma MimeTypeWithoutExtension(filename: string)
    requires !('.' in filename && WordRun(AfterLast(filename, '.')))
    ensures MimeType(filename) == "image"
  {
  }

  /** The parts of the multipart body. */
  datatype FormPart = CaptionPart(caption: string) | MediaPart(uri: string, name: string, mimeType: string)

  /** The image as a condition: none picked, or an empty URI, is falsy. */
  predicate HasImage(image: Option<string>) {
    image.Some? && image.value != ""
  }

  /** `handlePost` up to the request: nothing when there is neither caption nor
      image; otherwise the caption part, then a media part for the image if any. */
  method BuildPost(caption: string, image: Option<string>) returns (form: Option<seq<FormPart>>)
    ensures form.None? <==> caption == "" && !HasImage(image)
    ensures form.Some? ==> |form.value| == (if HasImage(image) then 2 else 1) && form.value[0] == CaptionPart(caption)
    ensures form.Some? && HasImage(image) ==>
      form.value[1] == MediaPart(image.value, FileName(image.value), MimeType(FileName(image.value)))
  {
    if caption == "" && !HasImage(image) {
      return None;
    }
    var parts := [CaptionPart(caption)];
    if HasImage(image) {
      var filename := FileName(image.value);
      var mimeType := MimeType(filename);
      parts := parts + [MediaPart(image.value, filename, mimeType)];
    }
    form := Some(parts);
  }

  /** How the request ended: it threw with a message, or a status came back. */
  datatype PostResult = Thrown(errorMessage: string) | Replied(isSuccess: bool)

  datatype AfterPost = CallOnPostSuccess | ShowAlert(text: string) | StayOnForm

  /** `onPostSuccess` runs exactly on a success status; a throw raises an alert. */
  function AfterPosting(result: PostResult): (a: AfterPost)
    ensures a == CallOnPostSuccess <==> result == Replied(true)
    ensures a.ShowAlert? <==> result.Thrown?
    ensures result.Thrown? ==> a.text == "Error: " + result.errorMessage
  {
    match result
    case Thrown(message) => ShowAlert("Error: " + message)
    case Replied(ok) => if ok then CallOnPostSuccess else StayOnForm
  }
}
