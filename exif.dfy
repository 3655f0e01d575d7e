/** The ExifTool metadata dictionary the downloader reads, and the MD5 read loops over the
    downloaded file. ExifTool and the MD5 digest are foreign code: both are given to the
    model as functions of the file's bytes. */
module Exif {
  import opened Py

  /** `et.get_metadata(path)`: tag name to value. */
  type Metadata = map<string, Value>

  const MimeTypeTag: string := "File:MIMEType"
  const ExtensionTag: string := "File:FileTypeExtension"
  const FileSizeTag: string := "File:FileSize"
  const ErrorTag: string := "ExifTool:Error"

  /** `metadata[tag] if tag in metadata else None`. */
  function Lookup(m: Metadata, tag: string): (v: Value)
    ensures tag !in m ==> v == Null
    ensures tag in m ==> v == m[tag]
  {
    if tag in m then m[tag] else Null
  }

  /** The HTML test: `"File:MIMEType" in metadata and metadata["File:MIMEType"] == "text/html"`. */
  predicate IsWebpage(m: Metadata) {
    MimeTypeTag in m && m[MimeTypeTag] == Str("text/html")
  }

  /** `hashlib.md5` over the file read in pieces: the pieces `f.read(size)` returns in turn. */
  const ReadSize: nat := 4096

  /** The light downloader's loop: the digest is taken inside the loop, after each piece, so
      an empty file, for which the loop never runs, leaves it None. */
  method DigestInLoop(content: seq<byte>, md5: seq<byte> -> string, size: nat) returns (digest: Option<string>)
    requires size > 0
    ensures digest == if content == [] then None else Some(md5(content))
  {
    var fed: seq<byte> := [];
    var pos := 0;
    digest := None;
    while pos < |content|
      invariant 0 <= pos <= |content|
      invariant fed == content[..pos]
      invariant digest == if pos == 0 then None else Some(md5(fed))
      decreases |content| - pos
    {
      var end := if pos + size <= |content| then pos + size else |content|;
      var piece := content[pos..end];
      fed := fed + piece;
      assert fed == content[..end];
      digest := Some(md5(fed));
      pos := end;
    }
    assert fed == content;
  }

  /** The full downloader's loop: the digest is taken once after the loop, so it is the MD5
      of all the bytes read, the empty file included. */
  method DigestAfterLoop(content: seq<byte>, md5: seq<byte> -> string, size: nat) returns (digest: string)
    requires size > 0
    ensures digest == md5(content)
  {
    var fed: seq<byte> := [];
    var pos := 0;
    while pos < |content|
      invariant 0 <= pos <= |content|
      invariant fed == content[..pos]
      decreases |content| - pos
    {
      var end := if pos + size <= |content| then pos + size else |content|;
      fed := fed + content[pos..end];
      assert fed == content[..end];
      pos := end;
    }
    assert fed == content;
    digest := md5(fed);
  }
}
