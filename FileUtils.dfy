/**
 * utils/fileUtils.js: metadata validation of an uploaded file, retrying an
 * operation with exponential back-off, and reading a file chunk by chunk.
 * The file system, timers and the callbacks are replaced by their outcomes,
 * given as parameters.
 */
module FileUtils {
  import opened Common

  // ---------------------------------------------------------------------------
  // validateFileMetadata
  // ---------------------------------------------------------------------------

  /** The size and MIME type multer reports for an uploaded file. */
  datatype FileMeta = FileMeta(size: int, mimetype: string)

  /** The default of `options.maxSize`: 10 MiB. */
  const DefaultMaxSize: int := 10 * 1024 * 1024

  /** The default of `options.allowedMimeTypes`: four image and three video types. */
  const DefaultAllowedTypes: seq<string> :=
    ["image/jpeg", "image/png", "image/gif", "image/webp", "video/mp4", "video/quicktime", "video/x-msvideo"]

  /** An entry of the `errors` list; the size error carries the limit in bytes, which its message shows in MiB. */
  datatype MetadataError = NoFileProvided | SizeExceeded(maxSize: int) | TypeNotAllowed

  datatype Validation = Validation(isValid: bool, errors: seq<MetadataError>)

  /**
   * `validateFileMetadata(file, options)`: a missing file gives exactly the
   * one error `NoFileProvided`; otherwise the size error comes first when the
   * size exceeds the limit, then the type error when the type is not allowed,
   * and the file is valid exactly when no error was listed.
   */
  function ValidateFileMetadata(file: Option<FileMeta>, maxSize: Option<int>, allowed: Option<seq<string>>)
    : (v: Validation)
    ensures v.isValid <==> v.errors == []
    ensures file.None? ==> v.errors == [NoFileProvided]
    ensures file.Some? ==>
      && (SizeExceeded(maxSize.GetOr(DefaultMaxSize)) in v.errors <==> file.value.size > maxSize.GetOr(DefaultMaxSize))
      && (TypeNotAllowed in v.errors <==> file.value.mimetype !in allowed.GetOr(DefaultAllowedTypes))
      && (forall e | e in v.errors :: e == SizeExceeded(maxSize.GetOr(DefaultMaxSize)) || e == TypeNotAllowed)
      && |v.errors| <= 2
      && (|v.errors| == 2 ==> v.errors == [SizeExceeded(maxSize.GetOr(DefaultMaxSize)), TypeNotAllowed])
  {
    if file.None? then Validation(false, [NoFileProvided])
    else
      var limit := maxSize.GetOr(DefaultMaxSize);
      var types := allowed.GetOr(DefaultAllowedTypes);
      var errors := (if file.value.size > limit then [SizeExceeded(limit)] else [])
                    + (if file.value.mimetype !in types then [TypeNotAllowed] else []);
      Validation(|errors| == 0, errors)
  }

  /** With the defaults, a file of exactly 10 MiB in an allowed type is valid and one byte more is not. */
  lemma ValidateBoundary(mimetype: string)
    requires mimetype in DefaultAllowedTypes
    ensures ValidateFileMetadata(Some(FileMeta(DefaultMaxSize, mimetype)), None, None).isValid
    ensures !ValidateFileMetadata(Some(FileMeta(DefaultMaxSize + 1, mimetype)), None, None).isValid
  {
  }

  // ---------------------------------------------------------------------------
  // retryWithBackoff
  // ---------------------------------------------------------------------------

  const MaxRetries: int := 3
  const RetryDelay: int := 1000

  function Pow2(n: nat): (r: nat)
    ensures r >= 1
  {
    if n == 0 then 1 else 2 * Pow2(n - 1)
  }

  /**
   * How `retryWithBackoff` ends: the value of the first call of `fn` that
   * returned, or the error it throws (`None` when `fn` was never called and
   * `lastError` is still undefined).
   */
  datatype Retried<+T> = Returned(value: T) | Threw(error: Option<string>)

  /** The waits of the loop: `delay * 2^j` after failed call `j`. */
  function Backoff(n: nat, delay: int): (r: seq<int>)
    ensures |r| == n
    ensures forall j | 0 <= j < n :: r[j] == delay * Pow2(j)
  {
    seq(n, j requires 0 <= j < n => delay * Pow2(j))
  }

  /** The first wait is `delay` and every later wait is twice the one before. */
  lemma BackoffDoubles(n: nat, delay: int)
    ensures n > 0 ==> Backoff(n, delay)[0] == delay
    ensures forall j | 0 < j < n :: Backoff(n, delay)[j] == 2 * Backoff(n, delay)[j - 1]
  {
  }

  /**
   * `retryWithBackoff(fn, maxRetries, delay)`, with call `i` of `fn` giving
   * `attempt(i)` and each `setTimeout` recorded in `waits`. It calls `fn` at
   * most `maxRetries` times, stops at the first success and returns its
   * value; after failed call `i` it waits `delay * 2^i`, except after the
   * last allowed call; when every call fails it throws the last error.
   */
  method RetryWithBackoff<T>(attempt: nat -> Result<T>, maxRetries: Option<int>, delay: Option<int>)
    returns (r: Retried<T>, calls: nat, waits: seq<int>)
    ensures var n := maxRetries.GetOr(MaxRetries);
      && (calls <= n || calls == 0)
      && (forall j | 0 <= j < calls - 1 :: attempt(j).Failure?)
      && (r.Returned? <==> exists j | 0 <= j < n :: attempt(j).Success?)
      && (r.Returned? ==> calls >= 1 && attempt(calls - 1) == Success(r.value))
      && (r.Threw? ==> calls == (if n > 0 then n else 0))
      && (r.Threw? && n > 0 ==> r.error == Some(attempt(n - 1).error))
      && (r.Threw? && n <= 0 ==> r.error.None?)
      && waits == Backoff(if r.Returned? then calls - 1 else (if n > 0 then n - 1 else 0), delay.GetOr(RetryDelay))
  {
    var n := maxRetries.GetOr(MaxRetries);
    var d := delay.GetOr(RetryDelay);
    var lastError: Option<string> := None;
    var i := 0;
    waits := [];
    while i < n
      invariant 0 <= i && (i <= n || i == 0)
      invariant forall j | 0 <= j < i :: attempt(j).Failure?
      invariant i == 0 ==> lastError.None?
      invariant i > 0 ==> lastError == Some(attempt(i - 1).error)
      invariant waits == Backoff(if i < n || i == 0 then i else i - 1, d)
      decreases n - i
    {
      var outcome := attempt(i);
      if outcome.Success? {
        return Returned(outcome.value), i + 1, waits;
      }
      lastError := Some(outcome.error);
      if i < n - 1 {
        waits := waits + [d * Pow2(i)];
      }
      i := i + 1;
    }
    r, calls := Threw(lastError), i;
  }

  // ---------------------------------------------------------------------------
  // processFileInChunks
  // ---------------------------------------------------------------------------

  /** The size of one read: 1 MiB. */
  const ChunkSize: nat := 1024 * 1024

  /**
   * The file offset of chunk `i`, `i * ChunkSize`, built by repeated addition
   * so that the proofs below need no multiplication.
   */
  function Offset(i: nat): nat {
    if i == 0 then 0 else Offset(i - 1) + ChunkSize
  }

  /** `Offset(i)` is the position `i * CHUNK_SIZE` the handler reads at. */
  lemma {:induction false} OffsetIsProduct(i: nat)
    ensures Offset(i) == i * ChunkSize
  {
    if i > 0 {
      OffsetIsProduct(i - 1);
    }
  }

  /** Later chunks start further into the file. */
  lemma {:induction false} OffsetMonotone(i: nat, j: nat)
    requires i <= j
    ensures Offset(i) <= Offset(j)
    decreases j - i
  {
    if i < j {
      OffsetMonotone(i, j - 1);
    }
  }

  /**
   * `Math.ceil(n / ChunkSize)`: the least number of chunks whose offsets
   * cover `n` bytes, so the last chunk starts inside the file.
   */
  function ChunkCount(n: nat): (r: nat)
    ensures r == 0 <==> n == 0
    ensures r > 0 ==> Offset(r - 1) < n <= Offset(r)
  {
    var r := (n + ChunkSize - 1) / ChunkSize;
    OffsetIsProduct(r);
    OffsetIsProduct(if r > 0 then r - 1 else 0);
    r
  }

  /** `ChunkCount` is the ceiling of the quotient, stated with the multiplication of the source. */
  lemma ChunkCountIsCeil(n: nat)
    ensures (ChunkCount(n) - 1) * ChunkSize < n <= ChunkCount(n) * ChunkSize || (n == 0 && ChunkCount(n) == 0)
  {
    OffsetIsProduct(ChunkCount(n));
    if ChunkCount(n) > 0 {
      OffsetIsProduct(ChunkCount(n) - 1);
    }
  }

  /** One call of `processChunk(data, i, totalChunks)`. */
  datatype Chunk = Chunk(data: seq<bv8>, index: nat, total: nat)

  /** The bytes `read(buffer, 0, ChunkSize, i * ChunkSize)` returns: at most `ChunkSize` of them, from chunk `i`'s offset. */
  function ChunkAt(content: seq<bv8>, i: nat): (r: seq<bv8>)
    requires Offset(i) <= |content|
    ensures |r| <= ChunkSize && Offset(i) + |r| <= |content|
    ensures r == content[Offset(i) .. Offset(i) + |r|]
    ensures Offset(i) + ChunkSize <= |content| ==> |r| == ChunkSize
  {
    var start := Offset(i);
    var end := if start + ChunkSize <= |content| then start + ChunkSize else |content|;
    content[start .. end]
  }

  /** The bytes of the chunks, in order. */
  function Joined(cs: seq<Chunk>): seq<bv8> {
    if cs == [] then [] else Joined(cs[..|cs| - 1]) + cs[|cs| - 1].data
  }

  /** How far into the file the first `i` reads reach. */
  function ReadUpTo(i: nat, n: nat): (r: nat)
    ensures r <= n
  {
    if Offset(i) <= n then Offset(i) else n
  }

  /** Every chunk index below the count starts inside the file. */
  lemma ChunkInFile(n: nat, i: nat)
    requires i < ChunkCount(n)
    ensures Offset(i) < n
  {
    OffsetMonotone(i, ChunkCount(n) - 1);
  }

  /** Chunk `j` of `chunks` is read at chunk `j`'s offset, inside the file, and carries its index and the chunk count. */
  ghost predicate ChunksAt(content: seq<bv8>, chunks: seq<Chunk>) {
    forall j | 0 <= j < |chunks| ::
      Offset(j) < |content| && chunks[j] == Chunk(ChunkAt(content, j), j, ChunkCount(|content|))
  }

  /**
   * The calls of `processChunk` so far: each chunk is read at its offset,
   * and together the chunks are the first bytes of the file.
   */
  ghost predicate ReadSoFar(content: seq<bv8>, chunks: seq<Chunk>) {
    ChunksAt(content, chunks) && Joined(chunks) == content[..ReadUpTo(|chunks|, |content|)]
  }

  /** Appending a chunk extends the joined bytes by its data. */
  lemma JoinedAppend(cs: seq<Chunk>, c: Chunk)
    ensures Joined(cs + [c]) == Joined(cs) + c.data
  {
    assert (cs + [c])[..|cs|] == cs;
  }

  /** Appending the chunk read at the next offset keeps the joined bytes a prefix of the file. */
  lemma {:induction false} JoinedStep(content: seq<bv8>, chunks: seq<Chunk>, c: Chunk)
    requires Offset(|chunks|) < |content| && c.data == ChunkAt(content, |chunks|)
    requires Joined(chunks) == content[..ReadUpTo(|chunks|, |content|)]
    ensures Joined(chunks + [c]) == content[..ReadUpTo(|chunks| + 1, |content|)]
  {
    var start := Offset(|chunks|);
    JoinedAppend(chunks, c);
    assert ReadUpTo(|chunks| + 1, |content|) == start + |c.data|;
    assert content[..start] + c.data == content[..start + |c.data|];
  }

  /** Appending the chunk read at the next offset keeps every chunk at its offset. */
  lemma {:induction false} ChunksAtStep(content: seq<bv8>, chunks: seq<Chunk>)
    requires ChunksAt(content, chunks) && Offset(|chunks|) < |content|
    ensures ChunksAt(content, chunks + [Chunk(ChunkAt(content, |chunks|), |chunks|, ChunkCount(|content|))])
  {
    var chunks' := chunks + [Chunk(ChunkAt(content, |chunks|), |chunks|, ChunkCount(|content|))];
    forall j | 0 <= j < |chunks'|
      ensures Offset(j) < |content| && chunks'[j] == Chunk(ChunkAt(content, j), j, ChunkCount(|content|))
    {
      if j < |chunks| {
        assert chunks'[j] == chunks[j];
      }
    }
  }

  /** Reading the next chunk inside the file keeps `ReadSoFar`. */
  lemma ReadStep(content: seq<bv8>, chunks: seq<Chunk>)
    requires ReadSoFar(content, chunks) && Offset(|chunks|) < |content|
    ensures ReadSoFar(content, chunks + [Chunk(ChunkAt(content, |chunks|), |chunks|, ChunkCount(|content|))])
  {
    ChunksAtStep(content, chunks);
    JoinedStep(content, chunks, Chunk(ChunkAt(content, |chunks|), |chunks|, ChunkCount(|content|)));
  }

  /** Once every chunk is read, the chunks join to the whole file. */
  lemma {:induction false} ReadAll(content: seq<bv8>, chunks: seq<Chunk>)
    requires ReadSoFar(content, chunks) && |chunks| == ChunkCount(|content|)
    ensures Joined(chunks) == content
  {
    assert ReadUpTo(|chunks|, |content|) == |content|;
    assert content[..|content|] == content;
  }

  /**
   * What happens to the file handle: it may never open, it may be left
   * open, or it is closed in the `finally` block.
   */
  datatype HandleState = NeverOpened | LeftOpen | Closed

  /** The calls made to `processChunk`, the handle's fate, and whether the call ends by throwing. */
  datatype ChunkRun = ChunkRun(chunks: seq<Chunk>, handle: HandleState, threw: bool)

  /**
   * `processFileInChunks(path, processChunk)` on a file holding `content`:
   * `openOk` and `statOk` are the outcomes of `open` and `stat`, `readOk(i)`
   * that of the `read` of chunk `i`, and `processOk(i)` that of
   * `processChunk` on chunk `i`. Chunk `i` holds the bytes at offset
   * `i * ChunkSize`, at most `ChunkSize` of them, and the chunks are read and
   * processed in increasing order until a read or a call fails; a failed
   * read processes nothing. Once the loop is entered the handle is closed,
   * failure or not; a failing `stat` comes before the `try` and leaves the
   * handle open.
   */
  method ProcessFileInChunks(content: seq<bv8>, openOk: bool, statOk: bool, readOk: nat -> bool, processOk: nat -> bool)
    returns (run: ChunkRun)
    ensures !openOk ==> run == ChunkRun([], NeverOpened, true)
    ensures openOk && !statOk ==> run == ChunkRun([], LeftOpen, true)
    ensures openOk && statOk ==> run.handle == Closed
    ensures ReadSoFar(content, run.chunks)
    ensures forall i | 0 <= i < |run.chunks| :: readOk(i)
    ensures forall i | 0 <= i < |run.chunks| - 1 :: processOk(i)
    ensures openOk && statOk && !run.threw ==>
      |run.chunks| == ChunkCount(|content|) && Joined(run.chunks) == content
    ensures run.threw && openOk && statOk && (run.chunks == [] || processOk(|run.chunks| - 1)) ==>
      |run.chunks| < ChunkCount(|content|) && !readOk(|run.chunks|)
    ensures openOk && statOk ==>
      (run.threw <==> exists i | 0 <= i < ChunkCount(|content|) :: !readOk(i) || !processOk(i))
  {
    if !openOk {
      return ChunkRun([], NeverOpened, true);
    }
    if !statOk {
      return ChunkRun([], LeftOpen, true);
    }
    var total := ChunkCount(|content|);
    var chunks: seq<Chunk> := [];
    var threw := false;
    var i := 0;
    while i < total
      invariant 0 <= i <= total && |chunks| == i
      invariant ReadSoFar(content, chunks)
      invariant forall j | 0 <= j < i :: readOk(j) && processOk(j)
    {
      if !readOk(i) {
        threw := true;
        break;
      }
      ChunkInFile(|content|, i);
      ReadStep(content, chunks);
      chunks := chunks + [Chunk(ChunkAt(content, i), i, total)];
      if !processOk(i) {
        threw := true;
        break;
      }
      i := i + 1;
    }
    if !threw {
      ReadAll(content, chunks);
    }
    run := ChunkRun(chunks, Closed, threw);
  }
}
