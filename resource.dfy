/** What the two variants of `DownloadResource` share: the header they both read, the
    messages they both set, how both parse `Content-Disposition`, and the name a file gets
    with its extension. */
module Resource {
  import opened Py
  import opened PyStr
  import opened Paths
  import opened Disposition

  /** Header names are looked up in lower case, as `requests` ignores their case. */
  const ContentDisposition: string := "content-disposition"

  const UnparsedDisposition: string := "'Content-Disposition' exists in headers but failed to parse filename"
  const WebpageDeleted: string := "Target was webpage - deleted"
  const UnknownFiletype: string := "Unknown filetype"

  /** `name + os.extsep + ext.lower()`. */
  function ExtendedName(name: string, ext: string): (r: string)
    ensures |r| == |name| + 1 + |ext| && r[..|name|] == name && r[|name|] == '.'
  {
    name + "." + Lower(ext)
  }

  /** After the name and the '.' comes the extension in lower case: no upper-case letter is
      left, and every other character of the extension is kept. */
  lemma ExtendedNameEndsInLowerExt(name: string, ext: string)
    ensures var r := ExtendedName(name, ext);
      && r[|name| + 1..] == Lower(ext)
      && (forall i :: |name| < i < |r| ==> !IsUpper(r[i]))
      && (forall i :: 0 <= i < |ext| && !IsUpper(ext[i]) ==> r[|name| + 1 + i] == ext[i])
  {
    var r := ExtendedName(name, ext);
    assert r[|name| + 1..] == Lower(ext);
    LowerLetters(ext);
  }

  /** The value of `Content-Disposition` parsed as `get_original_filename_from_request_headers`
      does: None without the header, Some(None) when the search finds nothing. */
  function ParsedDisposition(headers: map<string, string>): Option<Option<string>> {
    if ContentDisposition in headers then Some(FilenameFromHeader(headers[ContentDisposition])) else None
  }

  /** The parse fails without the header, finds nothing exactly when no `filename="..."`
      occurs on one line, and otherwise yields the text of the leftmost, longest such match. */
  lemma ParsedDispositionMeaning(headers: map<string, string>)
    ensures var r := ParsedDisposition(headers);
      && (r.None? <==> ContentDisposition !in headers)
      && (r == Some(None) <==> ContentDisposition in headers && forall p, j :: !IsMatch(headers[ContentDisposition], p, j))
      && (r.Some? && r.value.Some? ==>
            exists p, j :: IsFirstMatch(headers[ContentDisposition], 0, p, j) && r.value.value == headers[ContentDisposition][p..j])
  {
    if ContentDisposition in headers {
      FilenameFromHeaderMatches(headers[ContentDisposition]);
    }
  }

  /** A header whose only quotes surround `filename="name"` gives that name. */
  lemma ParsedQuotedDisposition(headers: map<string, string>, prefix: string, name: string)
    requires ContentDisposition in headers && headers[ContentDisposition] == prefix + Marker + name + "\""
    requires '"' !in prefix && '"' !in name && '\n' !in name
    ensures ParsedDisposition(headers) == Some(Some(name))
  {
    QuotedFilename(prefix, name);
  }

  /** Lowering brings in no character that is not an ASCII letter. */
  lemma LowerKeeps(ext: string, c: char)
    requires c !in ext && !('A' <= c <= 'Z') && !('a' <= c <= 'z')
    ensures c !in Lower(ext)
  {
    forall k | 0 <= k < |ext| ensures Lower(ext)[k] != c {
      assert Lower(ext)[k] == LowerChar(ext[k]);
    }
  }

  /** After the extension is added under `pathlib`, the new name is the old one with the
      extension, as long as neither holds a '/'. */
  lemma ExtendedNameIsPathName(dir: string, name: string, ext: string)
    requires '/' !in name && '/' !in ext
    ensures PathName(Join(dir, ExtendedName(name, ext))) == ExtendedName(name, ext)
  {
    var e := ExtendedName(name, ext);
    assert e == name + "." + Lower(ext);
    LowerKeeps(ext, '/');
    PathNameOfJoin(dir, e);
  }

  /** The same under `ntpath.basename`, when neither holds a '/', a '\\' or a ':' and the
      directory has no UNC start. */
  lemma ExtendedNameIsNtBasename(dir: string, name: string, ext: string)
    requires '/' !in name && '\\' !in name && ':' !in name
    requires '/' !in ext && '\\' !in ext && ':' !in ext
    requires !HasUncStart(dir)
    ensures NtBasename(Join(dir, ExtendedName(name, ext))) == ExtendedName(name, ext)
  {
    var e := ExtendedName(name, ext);
    assert e == name + "." + Lower(ext);
    LowerKeeps(ext, '/');
    LowerKeeps(ext, '\\');
    LowerKeeps(ext, ':');
    NtBasenameOfJoin(dir, e);
  }
}
