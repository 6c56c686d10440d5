/**
 * The per-file processor: a file is read in chunks of at most 1 MiB, every
 * chunk is fed to an incremental SHA-1, the content type is decided once from
 * the leading bytes of the first non-empty chunk, and the raw bytes are kept
 * unless that type is binary.
 *
 * The operating system's reads are given as a script of read outcomes; the
 * SHA-1 hex digest and the content classifier are parameters.
 */
module Processor {
  import opened Wrappers

  newtype byte = x: int | 0 <= x < 256

  /** Size of the read buffer (1 MiB). */
  const BUFFER_SIZE: nat := 1024 * 1024

  /** Number of leading bytes handed to the content classifier. */
  const SNIFF_LIMIT: nat := 1024

  /** What one `read` into the buffer can return: never more than the buffer holds. */
  type Chunk = s: seq<byte> | |s| <= BUFFER_SIZE

  /** The classifier's verdicts; the Debug rendering of each is its name. */
  datatype ContentType = BINARY | UTF_8 | UTF_8_BOM | UTF_16LE | UTF_16BE | UTF_32LE | UTF_32BE

  predicate IsHexDigit(c: char) {
    '0' <= c <= '9' || 'a' <= c <= 'f'
  }

  /** A SHA-1 digest rendered as 40 lower-case hexadecimal digits. */
  type Digest = s: string | |s| == 40 && forall c | c in s :: IsHexDigit(c)
    witness "0000000000000000000000000000000000000000"

  /** One call of `read`: `Data([])` is `Ok(0)`, the end of the file. */
  datatype ReadOutcome = Data(bytes: Chunk) | ReadError

  /** The file as `process` sees it: the open fails, or these reads follow. */
  datatype Source = OpenFailed | Opened(outcomes: seq<ReadOutcome>)

  datatype ParsedFile = ParsedFile(hash: Digest, content: seq<byte>, contentType: Option<ContentType>)

  /** A read that delivered bytes (`Ok(n)` with `n > 0`). */
  predicate Delivers(r: ReadOutcome) {
    r.Data? && r.bytes != []
  }

  /** The bytes a read delivered; none for an error. */
  function BytesOf(r: ReadOutcome): seq<byte> {
    if r.Data? then r.bytes else []
  }

  /** The bytes the classifier looks at: the first `min(n, 1024)` of a chunk. */
  function Sniff(chunk: seq<byte>): (r: seq<byte>)
    ensures |r| == if |chunk| > SNIFF_LIMIT then SNIFF_LIMIT else |chunk|
    ensures r <= chunk
    ensures |chunk| <= SNIFF_LIMIT ==> r == chunk
  {
    chunk[..if |chunk| > SNIFF_LIMIT then SNIFF_LIMIT else |chunk|]
  }

  /** Position of the read that ends the loop (end of file or error), or the script's length. */
  function EndIndex(outcomes: seq<ReadOutcome>): (k: nat)
    ensures k <= |outcomes|
    ensures forall i :: 0 <= i < k ==> Delivers(outcomes[i])
    ensures k < |outcomes| ==> !Delivers(outcomes[k])
  {
    if outcomes == [] || !Delivers(outcomes[0]) then 0 else 1 + EndIndex(outcomes[1..])
  }

  /** The bytes of the given outcomes, concatenated in read order. */
  function Joined(outcomes: seq<ReadOutcome>): seq<byte> {
    if outcomes == [] then [] else Joined(outcomes[..|outcomes| - 1]) + BytesOf(outcomes[|outcomes| - 1])
  }

  /** The concatenation of a list of chunks. */
  function Flatten(chunks: seq<Chunk>): seq<byte> {
    if chunks == [] then [] else Flatten(chunks[..|chunks| - 1]) + chunks[|chunks| - 1]
  }

  /** The reads that deliver the given chunks one after the other. */
  function DataReads(chunks: seq<Chunk>): (r: seq<ReadOutcome>)
    ensures |r| == |chunks|
    ensures forall i :: 0 <= i < |chunks| ==> r[i] == Data(chunks[i])
  {
    seq(|chunks|, i requires 0 <= i < |chunks| => Data(chunks[i]))
  }

  /**
   * Reference outcome of processing `src`: no result when the open fails or a
   * read fails before the end of the file; otherwise the digest of everything
   * read, the type of the first chunk, and the bytes unless the type is binary.
   */
  function Expected(src: Source, classify: seq<byte> -> ContentType, sha1Hex: seq<byte> -> Digest): Option<ParsedFile> {
    match src
    case OpenFailed => None
    case Opened(outcomes) =>
      var k := EndIndex(outcomes);
      if k < |outcomes| && outcomes[k].ReadError? then None
      else
        var data := Joined(outcomes[..k]);
        var contentType := if k == 0 then None else Some(classify(Sniff(outcomes[0].bytes)));
        Some(ParsedFile(sha1Hex(data), if contentType == Some(BINARY) then [] else data, contentType))
  }

  /** `str_content` is defined except for the UTF-32 types, where it panics. */
  predicate HasStrContent(contentType: Option<ContentType>) {
    contentType != Some(UTF_32LE) && contentType != Some(UTF_32BE)
  }

  /**
   * The text view of a parsed file: none for an empty or binary file, and for
   * the UTF-8 and UTF-16 types the UTF-8 decoding of the kept bytes, or the
   * empty string when they do not decode. `fromUtf8` is the decoder.
   */
  function StrContent(f: ParsedFile, fromUtf8: seq<byte> -> Option<string>): (r: Option<string>)
    requires HasStrContent(f.contentType)
    ensures r.None? <==> (f.contentType == None || f.contentType == Some(BINARY))
    ensures r.Some? && fromUtf8(f.content).Some? ==> r.value == fromUtf8(f.content).value
    ensures r.Some? && fromUtf8(f.content).None? ==> r.value == ""
  {
    match f.contentType
    case None => None
    case Some(t) =>
      match t
      case BINARY => None
      case UTF_8 => Some(fromUtf8(f.content).GetOr(""))
      case UTF_8_BOM => Some(fromUtf8(f.content).GetOr(""))
      case UTF_16LE => Some(fromUtf8(f.content).GetOr(""))
      case UTF_16BE => Some(fromUtf8(f.content).GetOr(""))
  }

  /** The read loop of `process`: reads until end of file or error. */
  method Process(src: Source, classify: seq<byte> -> ContentType, sha1Hex: seq<byte> -> Digest)
    returns (r: Option<ParsedFile>)
    ensures r == Expected(src, classify, sha1Hex)
  {
    if src.OpenFailed? {
      return None;
    }
    var outcomes := src.outcomes;
    var fed: seq<byte> := [];
    var contentType: Option<ContentType> := None;
    var content: seq<byte> := [];
    var i := 0;
    while true
      invariant i <= EndIndex(outcomes)
      invariant fed == Joined(outcomes[..i])
      invariant contentType.None? <==> i == 0
      invariant i > 0 ==> contentType == Some(classify(Sniff(outcomes[0].bytes)))
      invariant content == if contentType == Some(BINARY) then [] else fed
      decreases |outcomes| - i
    {
      var outcome := if i < |outcomes| then outcomes[i] else Data([]);
      match outcome
      case ReadError =>
        return None;
      case Data(chunk) =>
        if chunk == [] {
          return Some(ParsedFile(sha1Hex(fed), content, contentType));
        }
        if contentType.None? {
          contentType := Some(classify(Sniff(chunk)));
        }
        if contentType.value != BINARY {
          content := content + chunk;
        }
        assert outcomes[..i + 1][..i] == outcomes[..i];
        fed := fed + chunk;
        i := i + 1;
    }
  }

  /** Chunks that each delivered data, as every read before the end of the file does. */
  predicate NonEmpty(chunks: seq<Chunk>) {
    forall i :: 0 <= i < |chunks| ==> chunks[i] != []
  }

  /** The next read reports the end of the file: `Ok(0)`, or the script has no read left. */
  predicate AtEof(rest: seq<ReadOutcome>) {
    rest == [] || rest[0] == Data([])
  }

  lemma {:induction false} EndAfterChunks(chunks: seq<Chunk>, rest: seq<ReadOutcome>)
    requires NonEmpty(chunks)
    requires rest == [] || !Delivers(rest[0])
    ensures EndIndex(DataReads(chunks) + rest) == |chunks|
  {
    if chunks != [] {
      assert (DataReads(chunks) + rest)[1..] == DataReads(chunks[1..]) + rest;
      EndAfterChunks(chunks[1..], rest);
    }
  }

  lemma {:induction false} JoinedChunks(chunks: seq<Chunk>)
    ensures Joined(DataReads(chunks)) == Flatten(chunks)
  {
    if chunks != [] {
      var n := |chunks| - 1;
      assert DataReads(chunks)[..n] == DataReads(chunks[..n]);
      JoinedChunks(chunks[..n]);
    }
  }

  /**
   * A file read up to its end: the digest covers exactly the chunks in read
   * order; the type is absent exactly for an empty file and otherwise is the
   * classifier's verdict on the first chunk; the bytes are kept unless binary.
   * Whatever the script holds after the end of the file is never read.
   */
  lemma ReadToEnd(chunks: seq<Chunk>, rest: seq<ReadOutcome>, classify: seq<byte> -> ContentType, sha1Hex: seq<byte> -> Digest)
    requires NonEmpty(chunks)
    requires AtEof(rest)
    ensures var r := Expected(Opened(DataReads(chunks) + rest), classify, sha1Hex);
      && r.Some?
      && r.value.hash == sha1Hex(Flatten(chunks))
      && (r.value.contentType == None <==> chunks == [])
      && (chunks != [] ==> r.value.contentType == Some(classify(Sniff(chunks[0]))))
      && r.value.content == (if r.value.contentType == Some(BINARY) then [] else Flatten(chunks))
  {
    EndAfterChunks(chunks, rest);
    assert (DataReads(chunks) + rest)[..|chunks|] == DataReads(chunks);
    JoinedChunks(chunks);
  }

  /** No result when the open fails, nor when any read fails, however many chunks came before. */
  lemma ProcessFails(chunks: seq<Chunk>, rest: seq<ReadOutcome>, classify: seq<byte> -> ContentType, sha1Hex: seq<byte> -> Digest)
    requires NonEmpty(chunks)
    ensures Expected(OpenFailed, classify, sha1Hex) == None
    ensures Expected(Opened(DataReads(chunks) + [ReadError] + rest), classify, sha1Hex) == None
  {
    assert DataReads(chunks) + [ReadError] + rest == DataReads(chunks) + ([ReadError] + rest);
    EndAfterChunks(chunks, [ReadError] + rest);
  }

  /**
   * The type depends only on the first 1024 bytes of the first chunk: two files
   * that agree there get the same type, whatever their later chunks hold.
   */
  lemma ContentTypeFixed(first1: Chunk, later1: seq<Chunk>, rest1: seq<ReadOutcome>,
                         first2: Chunk, later2: seq<Chunk>, rest2: seq<ReadOutcome>,
                         classify: seq<byte> -> ContentType, sha1Hex: seq<byte> -> Digest)
    requires first1 != [] && NonEmpty(later1) && AtEof(rest1)
    requires first2 != [] && NonEmpty(later2) && AtEof(rest2)
    requires Sniff(first1) == Sniff(first2)
    ensures var r1 := Expected(Opened(DataReads([first1] + later1) + rest1), classify, sha1Hex);
            var r2 := Expected(Opened(DataReads([first2] + later2) + rest2), classify, sha1Hex);
            r1.Some? && r2.Some? && r1.value.contentType == r2.value.contentType == Some(classify(Sniff(first1)))
  {
    ReadToEnd([first1] + later1, rest1, classify, sha1Hex);
    ReadToEnd([first2] + later2, rest2, classify, sha1Hex);
  }

  /**
   * The text view of a file read to its end: none for an empty or binary file,
   * otherwise the decoding of all its bytes (or "" when they do not decode).
   */
  lemma TextView(chunks: seq<Chunk>, rest: seq<ReadOutcome>, classify: seq<byte> -> ContentType,
                 sha1Hex: seq<byte> -> Digest, fromUtf8: seq<byte> -> Option<string>)
    requires NonEmpty(chunks) && AtEof(rest)
    requires chunks != [] ==> HasStrContent(Some(classify(Sniff(chunks[0]))))
    ensures Expected(Opened(DataReads(chunks) + rest), classify, sha1Hex).Some?
    ensures var f := Expected(Opened(DataReads(chunks) + rest), classify, sha1Hex).value;
      && HasStrContent(f.contentType)
      && StrContent(f, fromUtf8) ==
           if chunks == [] || classify(Sniff(chunks[0])) == BINARY then None
           else Some(fromUtf8(Flatten(chunks)).GetOr(""))
  {
    ReadToEnd(chunks, rest, classify, sha1Hex);
  }
}
