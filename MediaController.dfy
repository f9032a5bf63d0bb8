/**
 * controllers/mediaController.js: validating an uploaded file, the
 * image-optimisation fallbacks, planning which temporary files to delete,
 * and the single and batch upload handlers. sharp, ffmpeg, Cloudinary and
 * the file system are replaced by their outcomes, given as parameters.
 */
module MediaController {
  import opened Common
  import FileUtils

  /** The fields of a multer file the handlers read. */
  datatype UploadedFile = UploadedFile(path: string, originalName: string, mimetype: string, size: int)

  const MaxFileSize: int := 10 * 1024 * 1024
  const AllowedImageTypes: seq<string> := ["image/jpeg", "image/png", "image/gif", "image/webp"]
  const AllowedVideoTypes: seq<string> := ["video/mp4", "video/quicktime", "video/x-msvideo"]
  const AllowedFileTypes: seq<string> := AllowedImageTypes + AllowedVideoTypes

  const NoFileMessage: string := "Không có file được upload"
  /** The words the upload handler looks for to answer 413. */
  const TooLargeWords: string := "quá lớn"
  /** The size message; the limit it names is `MaxFileSize / (1024 * 1024)`, which is 10. */
  const TooLargeMessage: string := "File " + TooLargeWords + ". Kích thước tối đa là 10MB"
  const BadTypeMessage: string := "Định dạng file không được hỗ trợ"

  /** The limits and the type list agree with the defaults of utils/fileUtils.js. */
  lemma SameLimitsAsFileUtils()
    ensures MaxFileSize == FileUtils.DefaultMaxSize
    ensures AllowedFileTypes == FileUtils.DefaultAllowedTypes
    ensures MaxFileSize / (1024 * 1024) == 10
  {
  }

  /**
   * `validateFile(file)`: `None` when it returns true, otherwise the message
   * of the error it throws. A file passes exactly when it is present, at most
   * `MaxFileSize` bytes and of an allowed type; the checks come in that order,
   * so an oversized file of a bad type reports its size.
   */
  function ValidateFile(file: Option<UploadedFile>): (r: Option<string>)
    ensures r.None? <==> file.Some? && file.value.size <= MaxFileSize && file.value.mimetype in AllowedFileTypes
    ensures file.None? ==> r == Some(NoFileMessage)
    ensures file.Some? && file.value.size > MaxFileSize ==> r == Some(TooLargeMessage)
    ensures file.Some? && file.value.size <= MaxFileSize && file.value.mimetype !in AllowedFileTypes ==>
      r == Some(BadTypeMessage)
  {
    if file.None? then Some(NoFileMessage)
    else if file.value.size > MaxFileSize then Some(TooLargeMessage)
    else if file.value.mimetype !in AllowedFileTypes then Some(BadTypeMessage)
    else None
  }

  /** The status of the `catch` of `uploadMedia`: 413 when the message mentions 'quá lớn', 500 otherwise. */
  function UploadErrorStatus(message: string): (status: nat)
    ensures status == 413 || status == 500
    ensures status == 413 <==> Includes(message, TooLargeWords)
  {
    if Includes(message, TooLargeWords) then 413 else 500
  }

  /** The error reply of `uploadMedia`: an empty message is replaced by a generic one. */
  function UploadErrorReply<T>(message: string): Reply<T> {
    Err(UploadErrorStatus(message), if message == "" then "Error uploading file" else message)
  }

  /** The size message mentions 'quá lớn'. */
  lemma TooLargeIs413()
    ensures UploadErrorStatus(TooLargeMessage) == 413
  {
    assert TooLargeMessage[5..12] == TooLargeWords;
    assert OccursAt(TooLargeMessage, TooLargeWords, 5);
  }

  /** The missing-file message does not mention 'quá lớn'. */
  lemma NoFileIs500()
    ensures UploadErrorStatus(NoFileMessage) == 500
  {
    NotIncludedWithoutFirstChar(NoFileMessage, TooLargeWords);
  }

  /** The bad-type message does not mention 'quá lớn'. */
  lemma BadTypeIs500()
    ensures UploadErrorStatus(BadTypeMessage) == 500
  {
    NotIncludedWithoutFirstChar(BadTypeMessage, TooLargeWords);
  }

  /** Of the validation errors, exactly the size error is answered with 413. */
  lemma {:induction false} ValidationStatus(file: Option<UploadedFile>)
    requires ValidateFile(file).Some?
    ensures UploadErrorStatus(ValidateFile(file).value) == 413 <==> file.Some? && file.value.size > MaxFileSize
  {
    TooLargeIs413();
    NoFileIs500();
    BadTypeIs500();
  }

  // ---------------------------------------------------------------------------
  // optimizeImage
  // ---------------------------------------------------------------------------

  /** Where the last `/` ends: the length of `path.dirname(p)` plus its separator, or 0. */
  function BaseStart(p: string): (k: nat)
    ensures k <= |p|
    ensures forall i | k <= i < |p| :: p[i] != '/'
    ensures k > 0 ==> p[k - 1] == '/'
  {
    if p == [] then 0
    else if p[|p| - 1] == '/' then |p|
    else BaseStart(p[..|p| - 1])
  }

  /** `path.join(path.dirname(p), 'optimized-' + path.basename(p))`: the prefix goes before the file name. */
  function OptimizedPath(p: string): (r: string)
    ensures |r| == |p| + 10
    ensures r != p
    ensures r == p[..BaseStart(p)] + "optimized-" + p[BaseStart(p)..]
  {
    var k := BaseStart(p);
    p[..k] + "optimized-" + p[k..]
  }

  /**
   * What sharp and the file system do for one image: whether `fs.access`
   * succeeds, whether reading the metadata succeeds, the `size` it reports
   * (`None` when absent), and whether the resized copy is written.
   */
  datatype ImageProbe = ImageProbe(accessible: bool, metadataRead: bool, size: Option<int>, written: bool)

  /** The `{ path, shouldDelete }` of `optimizeImage`. */
  datatype Optimized = Optimized(path: string, shouldDelete: bool)

  /** `metadata.size && metadata.size < 1024 * 1024`. */
  predicate SmallEnough(size: Option<int>) {
    size.Some? && size.value != 0 && size.value < 1024 * 1024
  }

  /**
   * `optimizeImage(input)`: a new optimised copy, to be deleted later, when
   * every step succeeds on an image not already known to be under 1 MiB;
   * otherwise the input itself, not to be deleted.
   */
  function OptimizeImage(input: string, probe: ImageProbe): (r: Optimized)
    ensures r.shouldDelete <==> r.path != input
    ensures r.shouldDelete ==> r.path == OptimizedPath(input)
    ensures r.shouldDelete <==>
      probe.accessible && probe.metadataRead && !SmallEnough(probe.size) && probe.written
  {
    if !probe.accessible || !probe.metadataRead then Optimized(input, false)
    else if SmallEnough(probe.size) then Optimized(input, false)
    else if !probe.written then Optimized(input, false)
    else Optimized(OptimizedPath(input), true)
  }

  // ---------------------------------------------------------------------------
  // Clean-up plan
  // ---------------------------------------------------------------------------

  /** `[x, y, z].filter(Boolean)` on strings: null and the empty string are dropped. */
  function KeptIfTruthy(v: Option<string>): seq<string> {
    if v.Some? && v.value != "" then [v.value] else []
  }

  /**
   * `filesToDelete`: the original when it should be deleted, the processed
   * file when it is not the original, and the thumbnail when there is one;
   * never null or empty.
   */
  function FilesToDelete(original: string, processed: string, deleteOriginal: bool, thumbnail: Option<string>)
    : (r: seq<string>)
    ensures |r| <= 3
    ensures "" !in r
    ensures forall x :: x in r <==>
      x != "" && ((deleteOriginal && x == original) || (x == processed && processed != original) || thumbnail == Some(x))
  {
    KeptIfTruthy(if deleteOriginal then Some(original) else None)
    + KeptIfTruthy(if processed != original then Some(processed) else None)
    + KeptIfTruthy(thumbnail)
  }

  // ---------------------------------------------------------------------------
  // One upload
  // ---------------------------------------------------------------------------

  /** What Cloudinary answers for one upload. */
  datatype CloudResult =
    | CloudOk(url: string, publicId: string, resourceType: string, width: int, height: int, format: string, bytes: int)
    | CloudFailed(message: string)

  /**
   * The outside world for one file: sharp, the thumbnail ffmpeg wrote
   * (`None` when it failed and `generateVideoThumbnail` returned null), and
   * Cloudinary's answers for the file and for the thumbnail.
   */
  datatype MediaEnv = MediaEnv(probe: ImageProbe, thumbnail: Option<string>, upload: CloudResult, thumbnailUpload: CloudResult)

  /** The JSON an upload answers with. */
  datatype Media = Media(
    url: string, publicId: string, resourceType: string, thumbnailUrl: Option<string>,
    width: int, height: int, format: string, size: int)

  /** How one upload ends, and the temporary files it deletes. */
  datatype UploadOutcome = UploadOutcome(result: Result<Media>, deleted: seq<string>)

  /**
   * The file to upload and whether its original is deleted afterwards: an
   * image goes through `optimizeImage`; any other file is uploaded as it is
   * and its original deleted.
   */
  function Prepared(f: UploadedFile, env: MediaEnv): (p: Optimized)
    ensures !StartsWith(f.mimetype, "image/") ==> p == Optimized(f.path, true)
  {
    if StartsWith(f.mimetype, "image/") then OptimizeImage(f.path, env.probe) else Optimized(f.path, true)
  }

  /** The thumbnail path: what ffmpeg made for a video (`None` when it failed), nothing for any other file. */
  function ThumbnailOf(f: UploadedFile, env: MediaEnv): Option<string> {
    if !StartsWith(f.mimetype, "image/") && StartsWith(f.mimetype, "video/") then env.thumbnail else None
  }

  /** `if (thumbnailPath)`: a thumbnail was made, and its path is truthy, so it is uploaded. */
  predicate ThumbnailWanted(f: UploadedFile, env: MediaEnv) {
    ThumbnailOf(f, env).Some? && ThumbnailOf(f, env).value != ""
  }

  /**
   * One upload as a function of the file and the outside world: validate;
   * optimise an image or make a thumbnail for a video; upload the file, then
   * the thumbnail; only then delete the temporary files.
   */
  function Upload(file: Option<UploadedFile>, env: MediaEnv): (o: UploadOutcome)
    ensures ValidateFile(file).Some? ==> o == UploadOutcome(Failure(ValidateFile(file).value), [])
    ensures o.result.Failure? ==> o.deleted == []
    ensures o.result.Success? ==>
      && file.Some? && ValidateFile(file).None? && env.upload.CloudOk?
      && o.result.value.url == env.upload.url
    ensures o.result.Success? <==>
      && ValidateFile(file).None? && env.upload.CloudOk?
      && !(ThumbnailWanted(file.value, env) && env.thumbnailUpload.CloudFailed?)
    ensures ValidateFile(file).None? && env.upload.CloudFailed? ==>
      o == UploadOutcome(Failure(env.upload.message), [])
    ensures ValidateFile(file).None? && env.upload.CloudOk?
            && ThumbnailWanted(file.value, env) && env.thumbnailUpload.CloudFailed? ==>
      o == UploadOutcome(Failure(env.thumbnailUpload.message), [])
    ensures o.result.Success? ==>
      var f, up := file.value, env.upload;
      && o.result.value == Media(up.url, up.publicId, up.resourceType,
                                 if ThumbnailWanted(f, env) then Some(env.thumbnailUpload.url) else None,
                                 up.width, up.height, up.format, up.bytes)
      && o.deleted == FilesToDelete(f.path, Prepared(f, env).path, Prepared(f, env).shouldDelete, ThumbnailOf(f, env))
  {
    match ValidateFile(file)
    case Some(m) => UploadOutcome(Failure(m), [])
    case None =>
      var f := file.value;
      var prepared := Prepared(f, env);
      match env.upload
      case CloudFailed(m) => UploadOutcome(Failure(m), [])
      case CloudOk(url, publicId, kind, width, height, format, bytes) =>
        if ThumbnailWanted(f, env) && env.thumbnailUpload.CloudFailed? then
          UploadOutcome(Failure(env.thumbnailUpload.message), [])
        else
          var thumbnailUrl := if ThumbnailWanted(f, env) then Some(env.thumbnailUpload.url) else None;
          UploadOutcome(
            Success(Media(url, publicId, kind, thumbnailUrl, width, height, format, bytes)),
            FilesToDelete(f.path, prepared.path, prepared.shouldDelete, ThumbnailOf(f, env)))
  }

  /** An image that is not optimised keeps its temporary original: nothing is deleted for it. */
  lemma UnoptimisedImageIsKept(f: UploadedFile, env: MediaEnv)
    requires ValidateFile(Some(f)).None? && StartsWith(f.mimetype, "image/")
    requires !OptimizeImage(f.path, env.probe).shouldDelete
    ensures Upload(Some(f), env).deleted == []
    ensures env.upload.CloudOk? ==> Upload(Some(f), env).result == Success(Media(
      env.upload.url, env.upload.publicId, env.upload.resourceType, None,
      env.upload.width, env.upload.height, env.upload.format, env.upload.bytes))
  {
  }

  /** An optimised image deletes both its original and its optimised copy after a successful upload. */
  lemma OptimisedImageCleansUp(f: UploadedFile, env: MediaEnv)
    requires ValidateFile(Some(f)).None? && StartsWith(f.mimetype, "image/") && f.path != ""
    requires OptimizeImage(f.path, env.probe).shouldDelete && env.upload.CloudOk?
    ensures Upload(Some(f), env).deleted == [f.path, OptimizedPath(f.path)]
  {
  }

  /**
   * A video whose thumbnail was written and uploaded: the answer carries the
   * thumbnail's URL, and both the original and the thumbnail are deleted.
   */
  lemma VideoCleansUp(f: UploadedFile, env: MediaEnv, t: string)
    requires ValidateFile(Some(f)).None? && StartsWith(f.mimetype, "video/") && f.path != ""
    requires env.thumbnail == Some(t) && t != ""
    requires env.upload.CloudOk? && env.thumbnailUpload.CloudOk?
    ensures Upload(Some(f), env).result.Success?
    ensures Upload(Some(f), env).result.value.thumbnailUrl == Some(env.thumbnailUpload.url)
    ensures Upload(Some(f), env).deleted == [f.path, t]
  {
  }

  /** A video whose thumbnail upload fails ends with that failure, and no temporary file is deleted. */
  lemma VideoThumbnailUploadFails(f: UploadedFile, env: MediaEnv, t: string)
    requires ValidateFile(Some(f)).None? && StartsWith(f.mimetype, "video/")
    requires env.thumbnail == Some(t) && t != ""
    requires env.upload.CloudOk? && env.thumbnailUpload.CloudFailed?
    ensures Upload(Some(f), env) == UploadOutcome(Failure(env.thumbnailUpload.message), [])
  {
  }

  /** A video whose thumbnail could not be made is still answered, without a thumbnail, and only its original is deleted. */
  lemma VideoWithoutThumbnail(f: UploadedFile, env: MediaEnv)
    requires ValidateFile(Some(f)).None? && StartsWith(f.mimetype, "video/") && f.path != ""
    requires env.thumbnail.None? && env.upload.CloudOk?
    ensures Upload(Some(f), env).result.Success?
    ensures Upload(Some(f), env).result.value.thumbnailUrl.None?
    ensures Upload(Some(f), env).deleted == [f.path]
  {
  }

  /**
   * The single-file handler's steps, each reassigning the path, the
   * delete-original flag and the thumbnail path as the handler does.
   */
  method ProcessUpload(file: Option<UploadedFile>, env: MediaEnv) returns (o: UploadOutcome)
    ensures o == Upload(file, env)
  {
    var invalid := ValidateFile(file);
    if invalid.Some? {
      return UploadOutcome(Failure(invalid.value), []);
    }
    var f := file.value;
    var filePath := f.path;
    var thumbnailPath: Option<string> := None;
    var shouldDeleteOriginal := true;

    if StartsWith(f.mimetype, "image/") {
      var optimization := OptimizeImage(filePath, env.probe);
      filePath := optimization.path;
      shouldDeleteOriginal := optimization.shouldDelete;
    } else if StartsWith(f.mimetype, "video/") {
      thumbnailPath := env.thumbnail;
    }

    if env.upload.CloudFailed? {
      return UploadOutcome(Failure(env.upload.message), []);
    }
    var result := env.upload;

    var thumbnailUrl: Option<string> := None;
    if thumbnailPath.Some? && thumbnailPath.value != "" {
      if env.thumbnailUpload.CloudFailed? {
        return UploadOutcome(Failure(env.thumbnailUpload.message), []);
      }
      thumbnailUrl := Some(env.thumbnailUpload.url);
    }

    var filesToDelete := FilesToDelete(f.path, filePath, shouldDeleteOriginal, thumbnailPath);
    o := UploadOutcome(
      Success(Media(result.url, result.publicId, result.resourceType, thumbnailUrl,
                    result.width, result.height, result.format, result.bytes)),
      filesToDelete);
  }

  /**
   * `uploadMedia`: the uploaded media, or an error reply whose status is 413
   * for a too-large file and 500 otherwise.
   */
  method UploadMedia(file: Option<UploadedFile>, env: MediaEnv) returns (r: Reply<Media>, deleted: seq<string>)
    ensures Upload(file, env).result.Success? ==> r == Ok(200, Upload(file, env).result.value)
    ensures Upload(file, env).result.Failure? ==> r == UploadErrorReply(Upload(file, env).result.error)
    ensures deleted == Upload(file, env).deleted
    ensures file.Some? && file.value.size > MaxFileSize ==> r == Err(413, TooLargeMessage)
  {
    var o := ProcessUpload(file, env);
    deleted := o.deleted;
    if o.result.Success? {
      r := Ok(200, o.result.value);
    } else {
      if file.Some? && file.value.size > MaxFileSize {
        ValidationStatus(file);
      }
      r := UploadErrorReply(o.result.error);
    }
  }

  // ---------------------------------------------------------------------------
  // Batch upload
  // ---------------------------------------------------------------------------

  /** One entry of the batch answer: the media, or `{ error: true, message }`. */
  datatype FileResult = Uploaded(media: Media) | UploadError(message: string)

  /** The entry for one file of the batch: its own upload, with a failure named after the file. */
  function EntryFor(f: UploadedFile, env: MediaEnv): (r: FileResult)
    ensures ValidateFile(Some(f)).Some? ==>
      r == UploadError("Error uploading " + f.originalName + ": " + ValidateFile(Some(f)).value)
    ensures r.Uploaded? <==> Upload(Some(f), env).result.Success?
  {
    match Upload(Some(f), env).result
    case Success(m) => Uploaded(m)
    case Failure(e) => UploadError("Error uploading " + f.originalName + ": " + e)
  }

  /** `xs.map((x, i) => f(x, i))` on the first `n` elements. */
  function MapIndexed<A, B>(xs: seq<A>, f: (A, nat) -> B, n: nat): (r: seq<B>)
    requires n <= |xs|
    ensures |r| == n
    ensures forall j | 0 <= j < n :: r[j] == f(xs[j], j)
  {
    if n == 0 then [] else MapIndexed(xs, f, n - 1) + [f(xs[n - 1], n - 1)]
  }

  /**
   * `uploadMultipleMedia`: 400 without files; otherwise one entry per file,
   * in the order of the files, each depending only on its own file and its
   * own outside world, so a failing file does not stop the others.
   * `env(i)` is the outside world of file `i`.
   */
  method UploadMultipleMedia(files: Option<seq<UploadedFile>>, env: nat -> MediaEnv) returns (r: Reply<seq<FileResult>>)
    ensures files.None? || files.value == [] ==> r == Err(400, "No files uploaded")
    ensures files.Some? && files.value != [] ==>
      && r.Ok? && r.status == 200
      && |r.value| == |files.value|
      && forall i | 0 <= i < |files.value| :: r.value[i] == EntryFor(files.value[i], env(i))
  {
    if files.None? || files.value == [] {
      return Err(400, "No files uploaded");
    }
    var fs := files.value;
    var entryAt := (f, i) => EntryFor(f, env(i));
    var results: seq<FileResult> := [];
    for i := 0 to |fs|
      invariant results == MapIndexed(fs, entryAt, i)
    {
      var entry := ProcessEntry(fs[i], env(i));
      results := results + [entry];
    }
    r := Ok(200, results);
  }

  /** The body of the batch loop for one file: its upload, caught into an entry. */
  method ProcessEntry(f: UploadedFile, env: MediaEnv) returns (entry: FileResult)
    ensures entry == EntryFor(f, env)
  {
    var o := ProcessUpload(Some(f), env);
    entry := if o.result.Success? then Uploaded(o.result.value)
             else UploadError("Error uploading " + f.originalName + ": " + o.result.error);
  }
}
