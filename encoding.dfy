/**
 * Encoding detection and text reading. The detector (chardet) and the codec
 * machinery are oracles: the detector maps a byte prefix to an optional
 * encoding name, the codec maps bytes and an encoding name to the decoded
 * text (undecodable sequences already replaced) or to None when Python
 * does not know the encoding.
 */
module Encoding {
  import opened Wrappers
  import opened FileSystem
  import Config

  /** The bytes `f.read(ENCODING_DETECTION_BYTES)` returns. */
  function DetectionPrefix(bytes: seq<byte>): (r: seq<byte>)
    ensures |r| <= Config.EncodingDetectionBytes
    ensures |r| == |bytes| || |r| == 8192
    ensures r <= bytes
  {
    if |bytes| <= Config.EncodingDetectionBytes then bytes else bytes[..Config.EncodingDetectionBytes]
  }

  /**
   * `detect_encoding`: the detector's guess on the prefix when it makes a
   * non-empty one, `utf-8` when it does not or when the file cannot be opened.
   */
  function DetectEncoding(chardet: seq<byte> -> Option<string>, data: Data): (enc: string)
    ensures enc != ""
  {
    match data
    case Unreadable(_) => "utf-8"
    case Readable(bytes) =>
      match chardet(DetectionPrefix(bytes))
      case Some(guess) => if guess != "" then guess else "utf-8"
      case None => "utf-8"
  }

  /**
   * Detection never fails and never yields an unusable name: the result is
   * the detector's non-empty guess on at most 8192 leading bytes, or `utf-8`.
   */
  lemma DetectEncodingFallback(chardet: seq<byte> -> Option<string>, data: Data)
    ensures DetectEncoding(chardet, data) != ""
    ensures data.Unreadable? ==> DetectEncoding(chardet, data) == "utf-8"
    ensures data.Readable? ==>
      var g := chardet(data.bytes[..if |data.bytes| < 8192 then |data.bytes| else 8192]);
      DetectEncoding(chardet, data) == if g.Some? && g.value != "" then g.value else "utf-8"
  {
    if data.Readable? {
      assert DetectionPrefix(data.bytes) == data.bytes[..if |data.bytes| < 8192 then |data.bytes| else 8192];
    }
  }

  /**
   * `open(path, 'r', encoding=enc, errors='replace').read()`: the `OSError`
   * text when the file cannot be opened, a `LookupError` when the codec is
   * unknown, the decoded text otherwise.
   */
  function ReadText(decode: (seq<byte>, string) -> Option<string>, data: Data, enc: string): (r: Result<string>)
    ensures r.Failure? <==> data.Unreadable? || decode(data.bytes, enc).None?
    ensures r.Success? ==> decode(data.bytes, enc) == Some(r.value)
  {
    match data
    case Unreadable(reason) => Failure(reason)
    case Readable(bytes) =>
      match decode(bytes, enc)
      case None => Failure("unknown encoding: " + enc)
      case Some(text) => Success(text)
  }
}
