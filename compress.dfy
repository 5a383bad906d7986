/**
 * Request compression: whether to compress a request body, the first modelled
 * encoding that has an encoder, and the merge of the Content-Encoding header.
 * gzip itself is the free constructor `Octets.Gzip`: nothing is assumed of it
 * except that different inputs give different outputs, which is what lets
 * gzip.decompress recover the input.
 */
module Compress {
  import opened Wrappers
  import opened Text

  type Byte = bv8

  /** Byte content, kept symbolic where it comes from an encoder the model does not interpret. */
  datatype Octets =
    | Raw(bytes: seq<Byte>)   // bytes or bytearray as given
    | Utf8(text: string)      // str.encode('utf-8')
    | Gzip(input: Octets)     // gzip.compress(input)

  /** A file-like body (it has `read`); `seekable` means it also has `seek` and `tell`. */
  class Stream {
    var data: seq<Byte>
    var position: nat
    const seekable: bool

    ghost predicate Valid()
      reads this
    {
      position <= |data|
    }

    constructor(data: seq<Byte>, position: nat, seekable: bool)
      requires position <= |data|
      ensures Valid() && this.data == data && this.position == position && this.seekable == seekable
    {
      this.data := data;
      this.position := position;
      this.seekable := seekable;
    }

    /** The bytes a loop of `read` calls returns from the current position. */
    function Remaining(): seq<Byte>
      reads this
      requires Valid()
    {
      data[position..]
    }
  }

  /** The value of `request_dict['body']`. */
  datatype Body =
    | Text(text: string)                 // str
    | Bytes(octets: Octets)              // bytes / bytearray
    | FileLike(stream: Stream)           // an object with `read`
    | CompressedStream(content: Octets)  // the io.BytesIO the gzip encoder returns, at position 0
    | NoRead                             // any other object (int, bool, object(), ...)
    | NoneValue                          // Python None

  /** The client configuration values the decision reads. */
  datatype Config = Config(
    disableRequestCompression: Option<bool>,
    signatureVersion: Option<string>,
    requestMinCompressionSizeBytes: int)

  /** The operation model values the decision reads. */
  datatype OperationModel = OperationModel(
    requestCompression: Option<seq<string>>,  // the trait's 'encodings', or no trait
    hasStreamingInput: bool,
    streamingInputMetadata: set<string>)      // the keys of the streaming shape's metadata

  /** `request_dict`: only the body and the headers are touched. */
  class Request {
    var body: Body
    var headers: map<string, string>

    constructor(body: Body, headers: map<string, string>)
      ensures this.body == body && this.headers == headers
    {
      this.body := body;
      this.headers := headers;
    }

    /** `_set_compression_header(headers, encoding)`. */
    method SetCompressionHeader(encoding: string)
      modifies this
      ensures headers == MergeContentEncoding(old(headers), encoding)
      ensures body == old(body)
    {
      if "Content-Encoding" !in headers {
        headers := headers["Content-Encoding" := encoding];
      } else if encoding !in SplitOn(headers["Content-Encoding"], ',') {
        headers := headers["Content-Encoding" := headers["Content-Encoding"] + "," + encoding];
      }
    }
  }

  /** `_get_body_size`: an undeterminable length counts as -1. */
  function BodySize(contentLength: Option<nat>): (r: int)
    ensures contentLength.None? ==> r == -1
    ensures contentLength.Some? ==> r == contentLength.value
  {
    match contentLength
    case None => -1
    case Some(n) => n
  }

  /** The conditions under which the client and the operation allow compression at all. */
  predicate CompressionEnabled(config: Config, op: OperationModel)
  {
    config.disableRequestCompression != Some(true)
    && config.signatureVersion != Some("v2")
    && op.requestCompression.Some?
  }

  /** `_should_compress_request`, given what determine_content_length reports for the body. */
  predicate ShouldCompressRequest(config: Config, op: OperationModel, contentLength: Option<nat>)
  {
    if CompressionEnabled(config, op) then
      if op.hasStreamingInput then "requiresLength" !in op.streamingInputMetadata
      else config.requestMinCompressionSizeBytes <= BodySize(contentLength)
    else false
  }

  /** Whether the class has an encoder `_<encoding>_compress_body`: only gzip has one. */
  predicate HasEncoder(encoding: string)
  {
    encoding == "gzip"
  }

  /** The encoding the loop of `compress` applies: the first listed one with an encoder. */
  function FirstEncoding(encodings: seq<string>): (r: Option<string>)
    ensures r.Some? ==> r.value in encodings && HasEncoder(r.value)
    ensures r.None? <==> forall k :: 0 <= k < |encodings| ==> !HasEncoder(encodings[k])
    ensures r.Some? ==>
      exists k :: 0 <= k < |encodings| && encodings[k] == r.value && (forall j :: 0 <= j < k ==> !HasEncoder(encodings[j]))
  {
    if |encodings| == 0 then None
    else if HasEncoder(encodings[0]) then Some(encodings[0])
    else
      var r := FirstEncoding(encodings[1..]);
      if r.Some? then
        var k :| 0 <= k < |encodings[1..]| && encodings[1..][k] == r.value &&
          (forall j :: 0 <= j < k ==> !HasEncoder(encodings[1..][j]));
        assert encodings[k + 1] == r.value;
        r
      else r
  }

  /** The header map after `_set_compression_header`. */
  function MergeContentEncoding(headers: map<string, string>, encoding: string): map<string, string>
  {
    if "Content-Encoding" !in headers then headers["Content-Encoding" := encoding]
    else if encoding !in SplitOn(headers["Content-Encoding"], ',') then
      headers["Content-Encoding" := headers["Content-Encoding"] + "," + encoding]
    else headers
  }

  /** The Content-Encoding tokens of a header map (none when the header is absent). */
  function EncodingTokens(headers: map<string, string>): seq<string>
  {
    if "Content-Encoding" in headers then SplitOn(headers["Content-Encoding"], ',') else []
  }

  /**
   * After the merge the encoding is one of the header's tokens; the tokens that
   * were there are kept in order, and the encoding is added once at the end
   * only when it was missing. No other header changes.
   */
  lemma MergeContentEncodingTokens(headers: map<string, string>, encoding: string)
    requires ',' !in encoding
    ensures var merged := MergeContentEncoding(headers, encoding);
      && "Content-Encoding" in merged
      && encoding in EncodingTokens(merged)
      && EncodingTokens(merged) ==
           (if encoding in EncodingTokens(headers) then EncodingTokens(headers)
            else if "Content-Encoding" in headers then EncodingTokens(headers) + [encoding]
            else [encoding])
      && (forall h :: h != "Content-Encoding" ==> (h in merged <==> h in headers))
      && (forall h :: h != "Content-Encoding" && h in headers ==> merged[h] == headers[h])
  {
    SplitNoSep(encoding, ',');
    if "Content-Encoding" in headers {
      SplitConcat(headers["Content-Encoding"], ',', encoding);
      assert headers["Content-Encoding"] + "," + encoding
        == headers["Content-Encoding"] + [','] + encoding;
    }
  }

  /** Merging the same encoding twice changes nothing the second time. */
  lemma MergeContentEncodingIdempotent(headers: map<string, string>, encoding: string)
    requires ',' !in encoding
    ensures MergeContentEncoding(MergeContentEncoding(headers, encoding), encoding)
      == MergeContentEncoding(headers, encoding)
  {
    MergeContentEncodingTokens(headers, encoding);
  }

  /** An existing 'identity' header becomes 'identity,gzip'. */
  lemma MergeIdentityGzip(headers: map<string, string>)
    requires "Content-Encoding" in headers && headers["Content-Encoding"] == "identity"
    ensures MergeContentEncoding(headers, "gzip")["Content-Encoding"] == "identity,gzip"
  {
    SplitNoSep("identity", ',');
  }

  /** What `_gzip_compress_body` returns for a body whose stream (if any) still has `remaining` to read. */
  function GzipResult(body: Body, remaining: seq<Byte>): Body
  {
    match body
    case Text(s) => Bytes(Gzip(Utf8(s)))
    case Bytes(o) => Bytes(Gzip(o))
    case FileLike(_) => CompressedStream(Gzip(Raw(remaining)))
    case CompressedStream(o) => CompressedStream(Gzip(o))
    case NoRead => NoneValue
    case NoneValue => NoneValue
  }

  /** The bytes gzip.decompress recovers from a compressed body. */
  function Decompressed(body: Body): Option<Octets>
  {
    match body
    case Bytes(Gzip(o)) => Some(o)
    case CompressedStream(Gzip(o)) => Some(o)
    case _ => None
  }

  /** What a reader of `body` obtains: the content of a str, bytes or stream body. */
  function Content(body: Body, remaining: seq<Byte>): Option<Octets>
  {
    match body
    case Text(s) => Some(Utf8(s))
    case Bytes(o) => Some(o)
    case FileLike(_) => Some(Raw(remaining))
    case CompressedStream(o) => Some(o)
    case _ => None
  }

  /**
   * The encoder compresses the right content for each kind of body: the UTF-8
   * bytes of a str, the bytes themselves, or what remains of a stream. gzip is
   * a free constructor here, so decompressing it is unwrapping by definition.
   */
  lemma GzipRoundTrip(body: Body, remaining: seq<Byte>)
    requires Content(body, remaining).Some?
    ensures Decompressed(GzipResult(body, remaining)) == Content(body, remaining)
  {
  }

  /**
   * `_gzip_compress_body`. A stream is read to its end; one with seek and tell
   * is put back where it was.
   */
  method GzipCompressBody(body: Body) returns (r: Body)
    requires body.FileLike? ==> body.stream.Valid()
    modifies if body.FileLike? then {body.stream} else {}
    ensures body.FileLike? ==> body.stream.Valid() && body.stream.data == old(body.stream.data)
    ensures body.FileLike? ==> r == GzipResult(body, old(body.stream.Remaining()))
    ensures !body.FileLike? ==> r == GzipResult(body, [])
    ensures body.FileLike? ==>
      body.stream.position == if body.stream.seekable then old(body.stream.position) else |body.stream.data|
  {
    match body
    case Text(s) => r := Bytes(Gzip(Utf8(s)));
    case Bytes(o) => r := Bytes(Gzip(o));
    case CompressedStream(o) => r := CompressedStream(Gzip(o));
    case FileLike(stream) =>
      var current := stream.position;
      var read := stream.data[stream.position..];
      stream.position := |stream.data|;
      r := CompressedStream(Gzip(Raw(read)));
      if stream.seekable {
        stream.position := current;
      }
    case NoRead => r := NoneValue;
    case NoneValue => r := NoneValue;
  }

  /**
   * `RequestCompressor.compress`. `contentLength` is what determine_content_length
   * reports for the body. The encodings are tried in order; the first with an
   * encoder replaces the body, merges the header and ends the loop.
   */
  method CompressRequest(config: Config, request: Request, op: OperationModel, contentLength: Option<nat>)
    requires request.body.FileLike? ==> request.body.stream.Valid()
    modifies request, if request.body.FileLike? then {request.body.stream} else {}
    ensures var encoding := if op.requestCompression.Some? then FirstEncoding(op.requestCompression.value) else None;
      if ShouldCompressRequest(config, op, contentLength) && encoding.Some? then
        && request.body == GzipResult(old(request.body),
             if old(request.body).FileLike? then old(request.body.stream.Remaining()) else [])
        && request.headers == MergeContentEncoding(old(request.headers), encoding.value)
      else
        request.body == old(request.body) && request.headers == old(request.headers)
    ensures old(request.body).FileLike? ==>
      var stream := old(request.body).stream;
      var applied := ShouldCompressRequest(config, op, contentLength)
        && op.requestCompression.Some? && FirstEncoding(op.requestCompression.value).Some?;
      && stream.Valid() && stream.data == old(stream.data)
      && stream.position == if applied && !stream.seekable then |stream.data| else old(stream.position)
  {
    var body := request.body;
    if ShouldCompressRequest(config, op, contentLength) {
      var encodings := op.requestCompression.value;
      var i := 0;
      while i < |encodings|
        invariant 0 <= i <= |encodings|
        invariant forall j :: 0 <= j < i ==> !HasEncoder(encodings[j])
        invariant request.body == body && request.headers == old(request.headers)
      {
        var encoding := encodings[i];
        if HasEncoder(encoding) {
          assert FirstEncoding(encodings) == Some(encoding) by {
            FirstEncodingAt(encodings, i);
          }
          var compressed := GzipCompressBody(body);
          request.body := compressed;
          request.SetCompressionHeader(encoding);
          return;
        }
        i := i + 1;
      }
    }
  }

  /** The first index with an encoder determines `FirstEncoding`. */
  lemma {:induction false} FirstEncodingAt(encodings: seq<string>, i: nat)
    requires i < |encodings| && HasEncoder(encodings[i])
    requires forall j :: 0 <= j < i ==> !HasEncoder(encodings[j])
    ensures FirstEncoding(encodings) == Some(encodings[i])
  {
    if i > 0 {
      FirstEncodingAt(encodings[1..], i - 1);
    }
  }

  /** Compression is refused whenever it is disabled, the signature is v2 or the trait is missing. */
  lemma NoCompressionWhenNotEnabled(config: Config, op: OperationModel, contentLength: Option<nat>)
    requires config.disableRequestCompression == Some(true)
      || config.signatureVersion == Some("v2") || op.requestCompression.None?
    ensures !ShouldCompressRequest(config, op, contentLength)
  {
  }

  /** For a streaming input the size does not matter: compress iff the stream does not require a length. */
  lemma StreamingIgnoresSize(config: Config, op: OperationModel, a: Option<nat>, b: Option<nat>)
    requires CompressionEnabled(config, op) && op.hasStreamingInput
    ensures ShouldCompressRequest(config, op, a) == ShouldCompressRequest(config, op, b)
    ensures ShouldCompressRequest(config, op, a) <==> "requiresLength" !in op.streamingInputMetadata
  {
  }

  /** Otherwise compress iff the minimum size is at most the body size ... */
  lemma SizeThreshold(config: Config, op: OperationModel, n: nat)
    requires CompressionEnabled(config, op) && !op.hasStreamingInput
    ensures ShouldCompressRequest(config, op, Some(n)) <==> config.requestMinCompressionSizeBytes <= n
  {
  }

  /** ... and a body of unknown size is compressed only under a negative minimum, a value that only configuration validation outside this model rules out. */
  lemma UnknownSizeNotCompressed(config: Config, op: OperationModel)
    requires !op.hasStreamingInput
    ensures ShouldCompressRequest(config, op, None) <==>
      CompressionEnabled(config, op) && config.requestMinCompressionSizeBytes <= -1
  {
  }
}
