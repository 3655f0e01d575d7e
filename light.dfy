/** The `DownloadResource` class of downloader_light_modified.py (lines 39-455): one object
    per URL that resolves redirects, downloads the resource under a UUID name, drops HTML
    pages unless asked to keep them, reads ExifTool metadata and an MD5 digest, renames the
    file with its extension and reconciles the size, recording the outcome in its fields.

    The constructor sets the fields as `__init__` does before its first call; `Run` is the
    rest of `__init__`. The network, the file system, the clock, the UUID, ExifTool and MD5
    are parameters. */
module DownloaderLight {
  import opened Py
  import opened PyStr
  import opened Paths
  import opened Urls
  import opened Disposition
  import opened Files
  import opened Http
  import opened Exif
  import opened Resource

  const ContentLength: string := "content-length"
  const ContentMd5: string := "content-md5"

  /** The text set when a message already exists: the braces are literal, not a format. */
  const UnknownFiletypeAfterMessage: string := "{message} ; Unknown filetype"

  /** `get_real_download_url` after `url.strip().rstrip("/")`: HEAD the stripped URL
      following redirects; if there was any redirect, HEAD the URL reached once more, without
      following redirects, with the cookies of the last 302; then GET the URL of the last HEAD
      response with those cookies. */
  function ResolveLight(stripped: string, server: Server): (res: Resolution)
    ensures |res.requests| >= 1 && res.requests[0] == Head(stripped, None, true)
    ensures res.failure.None? ==> res.response.Some? && !IsHttpError(res.response.value.status)
    ensures res.resolved.None? <==> res.requests[|res.requests| - 1].Head?
    ensures res.resolved.None? ==> res.failure.Some? && res.response.None?
  {
    var first := Head(stripped, None, true);
    match server.head(stripped, None, true)
    case HeadFailed(e) => Resolution([first], None, None, Some(FailureOf(e)))
    case HeadOk(url, history) =>
      var cookies := LastRedirectCookies(history);
      if history != [] then
        var second := Head(url, cookies, false);
        match server.head(url, cookies, false)
        case HeadFailed(e) => Resolution([first, second], None, None, Some(FailureOf(e)))
        case HeadOk(url2, _) => Fetch([first, second], url2, url2, cookies, server)
      else Fetch([first], url, url, cookies, server)
  }

  /** A second HEAD is sent exactly when the first one succeeded with a non-empty history. */
  lemma SecondHeadIffRedirected(stripped: string, server: Server)
    ensures var res := ResolveLight(stripped, server); var first := server.head(stripped, None, true);
      (|res.requests| >= 2 && res.requests[1].Head?) <==> (first.HeadOk? && first.history != [])
  {
  }

  /** Every request after the first carries the cookies of the last 302 of the first HEAD's
      history, and the GET goes to the URL of the last HEAD response. */
  lemma LaterRequestsUseLastRedirectCookies(stripped: string, server: Server)
    requires server.head(stripped, None, true).HeadOk?
    ensures var res := ResolveLight(stripped, server);
      var cookies := LastRedirectCookies(server.head(stripped, None, true).history);
      && (forall k :: 1 <= k < |res.requests| ==> res.requests[k].cookies == cookies)
      && (res.resolved.Some? ==> res.requests[|res.requests| - 1] == Get(res.resolved.value, cookies))
  {
  }

  /** The URL reached is that of the last HEAD response. */
  lemma ResolvedIsLastHeadUrl(stripped: string, server: Server)
    ensures var res := ResolveLight(stripped, server); var first := server.head(stripped, None, true);
      res.resolved.Some? ==>
        && first.HeadOk?
        && res.resolved.value == if first.history == [] then first.url
             else server.head(first.url, LastRedirectCookies(first.history), false).url
  {
  }

  /** `os.path.split(urlparse(url)[2])[-1]`: the last segment of the URL's path. */
  function UrlFilename(url: string): string {
    Tail(UrlPath(url))
  }

  /** The URL filename holds no '/', ends the path, and is empty exactly when the path is
      empty or ends in '/'. */
  lemma UrlFilenameIsLastSegment(url: string)
    ensures var name := UrlFilename(url); var path := UrlPath(url);
      && '/' !in name && name == path[|path| - |name|..]
      && (name == "" <==> path == "" || path[|path| - 1] == '/')
  {
    var name := UrlFilename(url);
    var path := UrlPath(url);
    TailEmpty(path);
    assert name == path[|path| - |name|..];
  }

  /** `int()` of a present `Content-Length` raises. */
  predicate BadLength(headers: map<string, string>) {
    ContentLength in headers && ParseInt(headers[ContentLength]).None?
  }

  /** The message the header readers leave: set only for an unparsable `Content-Disposition`. */
  function HeaderMessage(parsed: Option<Option<string>>): Option<string> {
    if parsed == Some(None) then Some(UnparsedDisposition) else None
  }

  /** The message after `get_file_metadata` on a kept file with metadata `meta`, the message
      having been `before`. */
  function MetadataMessage(meta: Metadata, before: Option<string>): Option<string> {
    if ErrorTag !in meta then before
    else if before.None? then Some(UnknownFiletype) else Some(UnknownFiletypeAfterMessage)
  }

  /** `f` is `UrlFilename`. The pipeline takes the URL filename as such a function, so that its
      proofs need not unfold the parsing of URLs. */
  ghost predicate IsUrlFilename(f: string -> string) {
    forall u {:trigger UrlFilename(u)} :: f(u) == UrlFilename(u)
  }

  /** The size check of `__init__`: `filesize and size_original and filesize != size_original`. */
  predicate SizeMismatch(filesize: Value, sizeOriginal: Option<int>) {
    Truthy(filesize) && sizeOriginal.Some? && sizeOriginal.value != 0 && !EqualsInt(filesize, sizeOriginal.value)
  }

  /** For an integer file size the check fails exactly when both sizes are known, non-zero
      and different. */
  lemma SizeMismatchOfInts(filesize: int, sizeOriginal: Option<int>)
    ensures SizeMismatch(Int(filesize), sizeOriginal) <==>
      sizeOriginal.Some? && filesize != 0 && sizeOriginal.value != 0 && filesize != sizeOriginal.value
  {
  }

  /** The value `self.new_filename` has after the choice in `change_filename`: the header name,
      else the URL name, else a non-empty custom name, else what it held before. */
  function ChosenFilename(previous: Attr<Option<string>>, fromHeaders: bool, fromUrl: bool,
                          customName: Option<string>, headerName: Option<string>, urlName: Option<string>): (r: Attr<Option<string>>)
    ensures fromHeaders ==> r == Present(headerName)
    ensures !fromHeaders && fromUrl ==> r == Present(urlName)
    ensures !fromHeaders && !fromUrl && customName.Some? && customName.value != "" ==> r == Present(customName)
    ensures !fromHeaders && !fromUrl && (customName.None? || customName.value == "") ==> r == previous
  {
    if fromHeaders then Present(headerName)
    else if fromUrl then Present(urlName)
    else if customName.Some? && customName.value != "" then Present(customName)
    else previous
  }

  /** The header flag wins over the URL flag and the custom name, whatever they hold. */
  lemma HeadersTakePriority(previous: Attr<Option<string>>, fromUrl: bool, customName: Option<string>,
                            headerName: Option<string>, urlName: Option<string>)
    ensures ChosenFilename(previous, true, fromUrl, customName, headerName, urlName) ==
            ChosenFilename(previous, true, false, None, headerName, urlName)
  {
  }

  /** The name chosen is one of the candidates: the header name, the URL name, a non-empty
      custom name, or what `new_filename` held before. */
  lemma ChosenIsCandidate(previous: Attr<Option<string>>, fromHeaders: bool, fromUrl: bool,
                          customName: Option<string>, headerName: Option<string>, urlName: Option<string>)
    ensures var r := ChosenFilename(previous, fromHeaders, fromUrl, customName, headerName, urlName);
      || r == previous || r == Present(headerName) || r == Present(urlName)
      || (customName.Some? && customName.value != "" && r == Present(customName))
  {
  }

  /** The URL flag wins over the custom name, and the header name then plays no part. */
  lemma UrlBeforeCustomName(previous: Attr<Option<string>>, customName: Option<string>,
                            headerName: Option<string>, urlName: Option<string>)
    ensures ChosenFilename(previous, false, true, customName, headerName, urlName) ==
            ChosenFilename(Absent, false, true, None, None, urlName)
  {
  }

  /** Without a flag, `new_filename` keeps its previous value exactly when no non-empty
      custom name is given or that name is what it held already. */
  lemma PreviousKeptWithoutChoice(previous: Attr<Option<string>>, customName: Option<string>,
                                  headerName: Option<string>, urlName: Option<string>)
    ensures ChosenFilename(previous, false, false, customName, headerName, urlName) == previous <==>
      customName.None? || customName.value == "" || previous == Present(customName)
  {
  }

  /** A time stamp, or None. */
  function OptionStamp(t: Option<int>): Value {
    if t.Some? then DateTime(t.value) else Null
  }

  /** The keys of `output_as_dictionary()`. */
  const DictionaryKeys: set<string> := {"url_original", "url_final", "datetime", "download_status",
    "message", "filename_from_url", "filename_from_headers", "filename", "directory", "filepath",
    "filetype_extension", "mimetype", "filesize", "size_original", "md5", "md5_original"}

  class DownloadResource {
    var downloadStatus: Option<bool>
    var datetime: Option<int>
    var message: Option<string>
    var directory: Option<string>
    const collectHtml: bool
    const urlOriginal: string
    var urlFinal: Option<string>
    var filenameFromHeaders: Option<string>
    var filenameFromUrl: Option<string>
    var filename: Option<string>
    var filepath: Option<string>
    var filetypeExtension: Value
    var mimetype: Value
    var md5: Option<string>
    var sizeOriginal: Option<int>
    var filesize: Value
    var md5Original: Option<string>
    /** `self.exists`. */
    var targetExists: bool
    /** `self.jhove_check`, set to False and never changed. */
    var jhoveCheck: bool
    /** `self.r`, the GET response, unset until a GET answers. */
    var r: Attr<Response>
    var newFilename: Attr<Option<string>>
    var newFilepath: Attr<string>
    var renamed: Attr<bool>

    /** The fields `__init__` sets before resolving the URL. */
    ghost predicate Initial(url: string, dir: string, keepHtml: bool)
      reads this
    {
      downloadStatus == None && datetime == None && message == None && directory == Some(dir) &&
      collectHtml == keepHtml && urlOriginal == url && urlFinal == None &&
      filenameFromHeaders == None && filenameFromUrl == None && filename == None && filepath == None &&
      filetypeExtension == Null && mimetype == Null && md5 == None && sizeOriginal == None &&
      filesize == Null && md5Original == None && !targetExists && !jhoveCheck &&
      r.Absent? && newFilename.Absent? && newFilepath.Absent? && renamed.Absent?
    }

    constructor (url: string, dir: string, keepHtml: bool)
      ensures Initial(url, dir, keepHtml)
    {
      downloadStatus, datetime, message, directory := None, None, None, Some(dir);
      collectHtml, urlOriginal, urlFinal := keepHtml, url, None;
      filenameFromHeaders, filenameFromUrl, filename, filepath := None, None, None, None;
      filetypeExtension, mimetype, md5, sizeOriginal := Null, Null, None, None;
      filesize, md5Original, targetExists, jhoveCheck := Null, None, false, false;
      r, newFilename, newFilepath, renamed := Absent, Absent, Absent, Absent;
    }

    /** `get_real_download_url()`: the requests and the fields follow `ResolveLight`; a failure
        sets the status to False and its message, and leaves the URL and time unset when it
        happens before the GET. */
    method GetRealDownloadUrl(net: Network, now: int)
      modifies this`downloadStatus, this`message, this`urlFinal, this`datetime, this`r, net`sent
      ensures var res := ResolveLight(StripUrl(urlOriginal), net.server);
        && net.sent == old(net.sent) + res.requests
        && urlFinal == (if res.resolved.Some? then res.resolved else old(urlFinal))
        && datetime == (if res.resolved.Some? then Some(now) else old(datetime))
        && r == (if res.response.Some? then Present(res.response.value) else old(r))
        && downloadStatus == (if res.failure.Some? then Some(false) else old(downloadStatus))
        && message == (if res.failure.Some? then Some(FailureMessage(res.failure.value)) else old(message))
    {
      ResolveStripped(net, now, StripUrl(urlOriginal));
    }

    /** `get_real_download_url()` from the stripped URL on. */
    method ResolveStripped(net: Network, now: int, stripped: string)
      modifies this`downloadStatus, this`message, this`urlFinal, this`datetime, this`r, net`sent
      ensures var res := ResolveLight(stripped, net.server);
        && net.sent == old(net.sent) + res.requests
        && urlFinal == (if res.resolved.Some? then res.resolved else old(urlFinal))
        && datetime == (if res.resolved.Some? then Some(now) else old(datetime))
        && r == (if res.response.Some? then Present(res.response.value) else old(r))
        && downloadStatus == (if res.failure.Some? then Some(false) else old(downloadStatus))
        && message == (if res.failure.Some? then Some(FailureMessage(res.failure.value)) else old(message))
    {
      var cookies: Option<Cookies> := None;
      var response := net.Head(stripped, None, true);
      if response.HeadFailed? {
        downloadStatus, message := Some(false), Some(FailureMessage(FailureOf(response.error)));
        return;
      }
      var url := response.url;
      if response.history != [] {
        var history := response.history;
        var i := 0;
        while i < |history|
          invariant 0 <= i <= |history|
          invariant cookies == LastRedirectCookies(history[..i])
        {
          assert history[..i + 1][..i] == history[..i];
          if history[i].status == 302 {
            cookies := Some(history[i].cookies);
          }
          i := i + 1;
        }
        assert history[..i] == history;
        var again := net.Head(url, cookies, false);
        if again.HeadFailed? {
          downloadStatus, message := Some(false), Some(FailureMessage(FailureOf(again.error)));
          return;
        }
        url := again.url;
      }
      urlFinal := Some(url);
      datetime := Some(now);
      var got := net.Get(url, cookies);
      match got
      case GetFailed(e) =>
        downloadStatus, message := Some(false), Some(FailureMessage(FailureOf(e)));
      case GetOk(resp) =>
        r := Present(resp);
        if IsHttpError(resp.status) {
          downloadStatus, message := Some(false), Some(FailureMessage(HttpFailure(resp.status)));
        }
    }

    /** `get_original_filename_from_url()`. With no final URL Python yields the empty bytes
        value; the model yields the empty string. */
    method GetOriginalFilenameFromUrl()
      modifies this`filenameFromUrl
      ensures filenameFromUrl == Some(if urlFinal.Some? then UrlFilename(urlFinal.value) else "")
    {
      filenameFromUrl := Some(if urlFinal.Some? then UrlFilename(urlFinal.value) else "");
    }

    /** `get_original_filename_from_url()` as the pipeline sees it, through a function equal
        to `UrlFilename`. */
    method RecordUrlFilename(urlName: string -> string)
      requires IsUrlFilename(urlName)
      modifies this`filenameFromUrl
      ensures filenameFromUrl == Some(if urlFinal.Some? then urlName(urlFinal.value) else "")
    {
      GetOriginalFilenameFromUrl();
    }

    /** `get_original_filename_from_request_headers()`: a parsed `Content-Disposition` sets the
        header filename, an unparsable one the message; without the header nothing changes. */
    method GetOriginalFilenameFromRequestHeaders() returns (raised: Option<PyError>)
      modifies this`filenameFromHeaders, this`message
      ensures raised == if r.Absent? then Some(AttributeError("r")) else None
      ensures var parsed := if r.Present? then ParsedDisposition(r.value.headers) else None;
        && filenameFromHeaders == (if parsed.Some? && parsed.value.Some? then parsed.value else old(filenameFromHeaders))
        && message == (if parsed.Some? && parsed.value.None? then Some(UnparsedDisposition) else old(message))
    {
      if r.Absent? {
        return Some(AttributeError("r"));
      }
      var headers := r.value.headers;
      if ContentDisposition in headers {
        var m := FilenameFromHeader(headers[ContentDisposition]);
        if m.Some? {
          filenameFromHeaders := m;
        } else {
          message := Some(UnparsedDisposition);
        }
      }
      return None;
    }

    /** `get_original_size_from_headers()`: `int()` of `Content-Length`, raising ValueError when
        it is not an integer. */
    method GetOriginalSizeFromHeaders() returns (raised: Option<PyError>)
      modifies this`sizeOriginal
      ensures r.Absent? ==> raised == Some(AttributeError("r")) && sizeOriginal == old(sizeOriginal)
      ensures r.Present? && ContentLength !in r.value.headers ==> raised.None? && sizeOriginal == old(sizeOriginal)
      ensures r.Present? && ContentLength in r.value.headers ==>
        var parsed := ParseInt(r.value.headers[ContentLength]);
        && raised == (if parsed.None? then Some(ValueError(r.value.headers[ContentLength])) else None)
        && sizeOriginal == (if parsed.Some? then parsed else old(sizeOriginal))
    {
      if r.Absent? {
        return Some(AttributeError("r"));
      }
      var headers := r.value.headers;
      if ContentLength in headers {
        var parsed := ParseInt(headers[ContentLength]);
        if parsed.None? {
          return Some(ValueError(headers[ContentLength]));
        }
        sizeOriginal := parsed;
      }
      return None;
    }

    /** `get_original_md5_check_from_headers()`: the `Content-MD5` value is stored as given. */
    method GetOriginalMd5CheckFromHeaders() returns (raised: Option<PyError>)
      modifies this`md5Original
      ensures raised == if r.Absent? then Some(AttributeError("r")) else None
      ensures md5Original == if r.Present? && ContentMd5 in r.value.headers then Some(r.value.headers[ContentMd5]) else old(md5Original)
    {
      if r.Absent? {
        return Some(AttributeError("r"));
      }
      if ContentMd5 in r.value.headers {
        md5Original := Some(r.value.headers[ContentMd5]);
      }
      return None;
    }

    /** `download_file()`: create the directory when it does not exist, then write the body's
        chunks in order to `directory/uuid` and set the status to True. */
    method DownloadFile(fs: FileSystem, uuid: string) returns (raised: Option<PyError>)
      requires uuid != "" && '/' !in uuid
      requires directory.Some? ==> fs.Unused(Join(directory.value, uuid))
      modifies fs`files, fs`dirs, this`filename, this`filepath, this`downloadStatus
      ensures directory.None? ==> raised == Some(TypeError("directory"))
      ensures directory == Some("") ==> raised == Some(FileNotFoundError(""))
      ensures directory.None? || directory == Some("") ==>
        && fs.files == old(fs.files) && fs.dirs == old(fs.dirs) && filename == old(filename)
        && filepath == old(filepath) && downloadStatus == old(downloadStatus)
      ensures directory.Some? && directory != Some("") ==>
        var path := Join(directory.value, uuid);
        && fs.dirs == DirsAfter(directory.value, old(fs.files), old(fs.dirs))
        && filename == Some(uuid) && filepath == Some(path)
        && raised == (if r.Absent? then Some(AttributeError("r")) else None)
        && fs.files == old(fs.files)[path := if r.Present? then Concat(r.value.chunks) else []]
        && downloadStatus == (if r.Present? then Some(true) else old(downloadStatus))
    {
      if directory.None? {
        return Some(TypeError("directory"));
      }
      var dir := directory.value;
      if !fs.Exists(dir) {
        raised := fs.MakeDirs(dir);
        if raised.Some? {
          return;
        }
      }
      filename := Some(uuid);
      var path := Join(dir, uuid);
      filepath := Some(path);
      assert path != dir;
      raised := fs.Create(path);
      if r.Absent? {
        return Some(AttributeError("r"));
      }
      WriteChunks(fs, path, r.value.chunks);
      downloadStatus := Some(true);
    }

    /** `get_file_metadata()`: ExifTool's metadata of the file decides the HTML discard; for
        any other file it sets the message on an ExifTool error, takes the extension, MIME
        type and size (None when absent), and the MD5 of the file when it is not empty. */
    method GetFileMetadata(fs: FileSystem, exif: seq<byte> -> Metadata, md5Of: seq<byte> -> string) returns (raised: Option<PyError>)
      modifies fs`files, this`downloadStatus, this`message, this`directory, this`filename, this`filepath
      modifies this`filetypeExtension, this`mimetype, this`filesize, this`md5
      ensures old(filepath).None? ==> raised == Some(TypeError("filepath"))
      ensures old(filepath).Some? && old(filepath.value) !in old(fs.files) ==> raised == Some(FileNotFoundError(old(filepath.value)))
      ensures old(filepath).None? || old(filepath.value) !in old(fs.files) ==>
        && fs.files == old(fs.files) && downloadStatus == old(downloadStatus) && message == old(message)
        && directory == old(directory) && filename == old(filename) && filepath == old(filepath)
        && filetypeExtension == old(filetypeExtension) && mimetype == old(mimetype)
        && filesize == old(filesize) && md5 == old(md5)
      ensures old(filepath).Some? && old(filepath.value) in old(fs.files) ==>
        var content := old(fs.files[filepath.value]);
        var meta := exif(content);
        && raised.None?
        && (!collectHtml && IsWebpage(meta) ==>
          && fs.files == old(fs.files) - {old(filepath.value)}
          && downloadStatus == Some(false) && message == Some(WebpageDeleted)
          && directory == None && filename == None && filepath == None
          && filetypeExtension == old(filetypeExtension) && mimetype == old(mimetype)
          && filesize == old(filesize) && md5 == old(md5))
        && (!(!collectHtml && IsWebpage(meta)) ==>
          && fs.files == old(fs.files) && downloadStatus == old(downloadStatus)
          && directory == old(directory) && filename == old(filename) && filepath == old(filepath)
          && message == MetadataMessage(meta, old(message))
          && filetypeExtension == Lookup(meta, ExtensionTag)
          && mimetype == Lookup(meta, MimeTypeTag)
          && filesize == Lookup(meta, FileSizeTag)
          && md5 == (if content == [] then old(md5) else Some(md5Of(content))))
    {
      if filepath.None? {
        return Some(TypeError("filepath"));
      }
      var path := filepath.value;
      if path !in fs.files {
        return Some(FileNotFoundError(path));
      }
      var content := fs.files[path];
      var meta := exif(content);
      if !collectHtml && IsWebpage(meta) {
        raised := fs.Remove(path);
        downloadStatus, message := Some(false), Some(WebpageDeleted);
        directory, filename, filepath := None, None, None;
        return;
      }
      if ErrorTag in meta {
        message := if message.None? then Some(UnknownFiletype) else Some(UnknownFiletypeAfterMessage);
      }
      filetypeExtension := Lookup(meta, ExtensionTag);
      mimetype := Lookup(meta, MimeTypeTag);
      filesize := Lookup(meta, FileSizeTag);
      var digest := DigestInLoop(content, md5Of, ReadSize);
      if digest.Some? {
        md5 := digest;
      }
      return None;
    }

    /** `add_file_extension()`: with a known extension the file moves to
        `directory/<filename>.<lower-case extension>`, and `filename` becomes the last part of
        the new path. The exceptions come in Python's evaluation order: `filename + "."`,
        `.lower()`, `os.path.join`, then `os.rename`. */
    method AddFileExtension(fs: FileSystem) returns (raised: Option<PyError>)
      modifies fs`files, this`filepath, this`filename
      ensures filetypeExtension == Null ==> raised.None?
      ensures raised.Some? || filetypeExtension == Null ==>
        fs.files == old(fs.files) && filepath == old(filepath) && filename == old(filename)
      ensures filetypeExtension != Null && old(filename).None? ==> raised == Some(TypeError("filename"))
      ensures filetypeExtension != Null && old(filename).Some? && !filetypeExtension.Str? ==>
        raised == Some(AttributeError("lower"))
      ensures filetypeExtension.Str? && old(filename).Some? && directory.None? ==>
        raised == Some(TypeError("directory"))
      ensures filetypeExtension.Str? && old(filename).Some? && directory.Some? && old(filepath).None? ==>
        raised == Some(TypeError("filepath"))
      ensures filetypeExtension.Str? && old(filename).Some? && directory.Some? && old(filepath).Some? ==>
        var target := Join(directory.value, ExtendedName(old(filename).value, filetypeExtension.s));
        var src := old(filepath).value;
        && raised == (if src !in old(fs.files) then Some(FileNotFoundError(src))
                      else if EndsInSlash(target) then Some(NotADirectoryError(target))
                      else if target in fs.dirs then Some(IsADirectoryError(target)) else None)
        && (raised.None? ==>
              fs.files == Moved(old(fs.files), src, target) &&
              filepath == Some(target) && filename == Some(PathName(target)))
    {
      if filetypeExtension == Null {
        return None;
      }
      if filename.None? {
        return Some(TypeError("filename"));
      }
      if !filetypeExtension.Str? {
        return Some(AttributeError("lower"));
      }
      if directory.None? {
        return Some(TypeError("directory"));
      }
      var target := Join(directory.value, ExtendedName(filename.value, filetypeExtension.s));
      if filepath.None? {
        return Some(TypeError("filepath"));
      }
      raised := fs.Rename(filepath.value, target);
      if raised.Some? {
        return;
      }
      filepath := Some(target);
      filename := Some(PathName(target));
    }

    /** `change_filename()` on a downloaded file: the name is chosen as `ChosenFilename` says
        and the file moves there unless something already exists at the new path, which sets
        `exists` instead; without a download nothing happens. */
    method ChangeFilename(fs: FileSystem, fromHeaders: bool, fromUrl: bool, customName: Option<string>)
      returns (raised: Option<PyError>)
      modifies fs`files, this`newFilename, this`newFilepath, this`filename, this`filepath, this`renamed, this`targetExists
      ensures downloadStatus != Some(true) ==>
        && raised.None? && newFilename == old(newFilename) && newFilepath == old(newFilepath)
        && fs.files == old(fs.files) && filename == old(filename) && filepath == old(filepath)
        && renamed == old(renamed) && targetExists == old(targetExists)
      ensures downloadStatus == Some(true) ==>
        var chosen := ChosenFilename(old(newFilename), fromHeaders, fromUrl, customName, filenameFromHeaders, filenameFromUrl);
        && newFilename == chosen
        && (chosen.Absent? ==> raised == Some(AttributeError("new_filename")))
        && (chosen.Present? && chosen.value.Some? && directory.None? ==> raised == Some(TypeError("directory")))
        && (chosen.Absent? || chosen.value.None? || directory.None? ==>
              && newFilepath == old(newFilepath) && fs.files == old(fs.files) && filename == old(filename)
              && filepath == old(filepath) && renamed == old(renamed) && targetExists == old(targetExists))
        && (chosen == Present(None) ==> raised.None?)
        && (chosen.Present? && chosen.value.Some? && directory.Some? ==>
              MovedUnlessTaken(fs, chosen.value.value, Join(directory.value, chosen.value.value), raised))
    {
      if downloadStatus != Some(true) {
        return None;
      }
      newFilename := ChosenFilename(newFilename, fromHeaders, fromUrl, customName, filenameFromHeaders, filenameFromUrl);
      if newFilename.Absent? {
        return Some(AttributeError("new_filename"));
      }
      if newFilename.value.None? {
        return None;
      }
      if directory.None? {
        return Some(TypeError("directory"));
      }
      var name := newFilename.value.value;
      var target := Join(directory.value, name);
      newFilepath := Present(target);
      raised := MoveUnlessTaken(fs, name, target);
    }

    /** The end of `change_filename()`: when something exists at `target`, only `exists`
        becomes True; otherwise the file moves there (with `os.rename`'s exceptions) and
        `filename`, `filepath` and `renamed` record it. */
    twostate predicate MovedUnlessTaken(fs: FileSystem, name: string, target: string, new raised: Option<PyError>)
      reads this, fs
    {
      var src := old(filepath);
      var same := fs.files == old(fs.files) && filename == old(filename) && filepath == src &&
                       renamed == old(renamed);
      if old(fs.Exists(target)) then
        raised.None? && targetExists && same
      else if src.None? then
        raised == Some(TypeError("filepath")) && targetExists == old(targetExists) && same
      else
        && raised == (if src.value !in old(fs.files) then Some(FileNotFoundError(src.value))
                      else if EndsInSlash(target) then Some(NotADirectoryError(target))
                      else if target in fs.dirs then Some(IsADirectoryError(target)) else None)
        && targetExists == old(targetExists)
        && (raised.Some? ==> same)
        && (raised.None? ==>
              fs.files == Moved(old(fs.files), src.value, target) && filename == Some(name) &&
              filepath == Some(target) && renamed == Present(true))
    }

    /** The move at the end of `change_filename()`. */
    method MoveUnlessTaken(fs: FileSystem, name: string, target: string) returns (raised: Option<PyError>)
      modifies fs`files, this`filename, this`filepath, this`renamed, this`targetExists
      ensures MovedUnlessTaken(fs, name, target, raised)
    {
      if fs.Exists(target) {
        targetExists := true;
        return None;
      }
      if filepath.None? {
        return Some(TypeError("filepath"));
      }
      raised := fs.Rename(filepath.value, target);
      if raised.Some? {
        return;
      }
      filename := Some(name);
      filepath := Some(target);
      renamed := Present(true);
    }

    /** The work `__init__` does after setting the fields: resolve and fetch the URL, then,
        unless that failed, read the headers, write the file and read its metadata, then, for
        a file that was kept, add its extension and compare its size with `Content-Length`.
        An exception any step raises ends `__init__`. */
    method Run(net: Network, fs: FileSystem, now: int, uuid: string, exif: seq<byte> -> Metadata,
               md5Of: seq<byte> -> string, urlName: string -> string) returns (raised: Option<PyError>)
      requires IsUrlFilename(urlName)
      requires directory.Some? && Initial(urlOriginal, directory.value, collectHtml)
      requires uuid != "" && '/' !in uuid && fs.Unused(Join(directory.value, uuid))
      modifies this`downloadStatus, this`message, this`urlFinal, this`datetime, this`r, net`sent
      modifies this`filenameFromUrl, this`filenameFromHeaders, this`sizeOriginal, this`md5Original
      modifies fs`files, fs`dirs, this`filename, this`filepath, this`directory
      modifies this`filetypeExtension, this`mimetype, this`filesize, this`md5
      ensures var res := ResolveLight(StripUrl(urlOriginal), net.server);
        && net.sent == old(net.sent) + res.requests
        && (res.failure.Some? ==>
              && raised.None? && downloadStatus == Some(false) && message == Some(FailureMessage(res.failure.value))
              && urlFinal == res.resolved && datetime == (if res.resolved.Some? then Some(now) else None)
              && r == (if res.response.Some? then Present(res.response.value) else Absent)
              && fs.files == old(fs.files) && fs.dirs == old(fs.dirs) && NotProcessed(old(directory).value))
        && (res.failure.None? ==>
              && r == Present(res.response.value) && urlFinal == res.resolved && datetime == Some(now)
              && Processed(fs, uuid, exif, md5Of, urlName, old(directory).value, old(fs.files), old(fs.dirs), raised))
    {
      ghost var res := ResolveLight(StripUrl(urlOriginal), net.server);
      assert NotProcessed(directory.value);
      GetRealDownloadUrl(net, now);
      assert downloadStatus.None? ==> res.failure.None? && res.response.Some?;
      raised := AfterFetch(fs, uuid, exif, md5Of, urlName);
    }

    /** `__init__` once `get_real_download_url()` returned: nothing more after a failure,
        otherwise the steps that follow a successful GET. */
    method AfterFetch(fs: FileSystem, uuid: string, exif: seq<byte> -> Metadata, md5Of: seq<byte> -> string,
                      urlName: string -> string) returns (raised: Option<PyError>)
      requires IsUrlFilename(urlName)
      requires directory.Some? && NotProcessed(directory.value)
      requires downloadStatus == Some(false) || (downloadStatus.None? && message.None? && r.Present? && urlFinal.Some?)
      requires uuid != "" && '/' !in uuid && fs.Unused(Join(directory.value, uuid))
      modifies this`filenameFromUrl, this`filenameFromHeaders, this`message, this`sizeOriginal, this`md5Original
      modifies fs`files, fs`dirs, this`filename, this`filepath, this`downloadStatus, this`directory
      modifies this`filetypeExtension, this`mimetype, this`filesize, this`md5
      ensures old(downloadStatus) == Some(false) ==>
        && raised.None? && downloadStatus == Some(false) && message == old(message)
        && fs.files == old(fs.files) && fs.dirs == old(fs.dirs) && NotProcessed(old(directory).value)
      ensures old(downloadStatus).None? ==>
        Processed(fs, uuid, exif, md5Of, urlName, old(directory).value, old(fs.files), old(fs.dirs), raised)
    {
      if downloadStatus == Some(false) {
        return None;
      }
      raised := Process(fs, uuid, exif, md5Of, urlName);
    }

    /** The fields only the steps after the fetch set still hold what `__init__` gave them. */
    ghost predicate NotProcessed(dir: string)
      reads this`directory, this`filenameFromHeaders, this`filenameFromUrl, this`filename, this`filepath
      reads this`filetypeExtension, this`mimetype, this`md5, this`sizeOriginal, this`filesize, this`md5Original
    {
      directory == Some(dir) && filenameFromHeaders == None && filenameFromUrl == None &&
      filename == None && filepath == None && filetypeExtension == Null && mimetype == Null &&
      md5 == None && sizeOriginal == None && filesize == Null && md5Original == None
    }

    /** What `__init__` leaves behind once the GET response `r` arrived without an error
        status, the files having been `files0` and the directory `dir` before. */
    predicate Processed(fs: FileSystem, uuid: string, exif: seq<byte> -> Metadata, md5Of: seq<byte> -> string,
                        urlName: string -> string, dir: string, files0: map<string, seq<byte>>, dirs0: set<string>,
                        raised: Option<PyError>)
      requires r.Present?
      reads this, fs
    {
      && urlFinal.Some? && filenameFromUrl == Some(urlName(urlFinal.value))
      && HeadersRead(fs, uuid, exif, md5Of, dir, files0, dirs0, raised)
    }

    /** What the header readers and the later steps leave behind. */
    predicate HeadersRead(fs: FileSystem, uuid: string, exif: seq<byte> -> Metadata, md5Of: seq<byte> -> string,
                          dir: string, files0: map<string, seq<byte>>, dirs0: set<string>, raised: Option<PyError>)
      requires r.Present?
      reads this, fs
    {
      var headers := r.value.headers;
      var message0 := HeaderMessage(ParsedDisposition(headers));
      && HeaderFields()
      && (BadLength(headers) ==>
            && raised == Some(ValueError(headers[ContentLength])) && message == message0
            && downloadStatus == None && fs.files == files0 && fs.dirs == dirs0 && filename == None && filepath == None)
      && (!BadLength(headers) ==> Stored(fs, uuid, exif, md5Of, dir, files0, dirs0, message0, raised))
    }

    /** The fields the three header readers set, starting from None: the parsed
        `Content-Disposition` name, and, unless `int()` raised, the `Content-Length` and
        `Content-MD5` values. */
    predicate HeaderFields()
      requires r.Present?
      reads this`r, this`filenameFromHeaders, this`sizeOriginal, this`md5Original
    {
      var headers := r.value.headers;
      var parsed := ParsedDisposition(headers);
      && filenameFromHeaders == (if parsed.Some? && parsed.value.Some? then parsed.value else None)
      && sizeOriginal == (if ContentLength in headers && !BadLength(headers) then ParseInt(headers[ContentLength]) else None)
      && md5Original == (if ContentMd5 in headers && !BadLength(headers) then Some(headers[ContentMd5]) else None)
    }

    /** What the steps after the header readers leave behind, the files, directories and
        message having been `files0`, `dirs0` and `message0` before them. `makedirs("")`
        raises and nothing is written; otherwise the download directory exists afterwards,
        and either the HTML page is discarded (its file removed, the directory kept) or the
        file is described and extended as `Extended` says. */
    predicate Stored(fs: FileSystem, uuid: string, exif: seq<byte> -> Metadata, md5Of: seq<byte> -> string,
                     dir: string, files0: map<string, seq<byte>>, dirs0: set<string>, message0: Option<string>,
                     raised: Option<PyError>)
      requires r.Present?
      reads this, fs
    {
      var content := Concat(r.value.chunks);
      var meta := exif(content);
      var discarded := !collectHtml && IsWebpage(meta);
      && (raised.None? ==> downloadStatus.Some?)
      && (dir == "" ==>
            && raised == Some(FileNotFoundError("")) && message == message0 && downloadStatus == None
            && fs.files == files0 && fs.dirs == dirs0 && filename == None && filepath == None)
      && (dir != "" ==> fs.dirs == DirsAfter(dir, files0, dirs0))
      && (dir != "" && discarded ==>
            && raised.None? && downloadStatus == Some(false) && message == Some(WebpageDeleted)
            && fs.files == files0 && directory == None && filename == None && filepath == None)
      && (dir != "" && !discarded ==>
            && directory == Some(dir) && message == MetadataMessage(meta, message0)
            && filetypeExtension == Lookup(meta, ExtensionTag) && mimetype == Lookup(meta, MimeTypeTag)
            && filesize == Lookup(meta, FileSizeTag)
            && md5 == (if content == [] then None else Some(md5Of(content)))
            && Extended(fs, uuid, dir, files0, content, raised))
    }

    /** What `add_file_extension()` and the size check leave for the file `dir/uuid` just
        written with `content` over the files `files0`: AttributeError for an extension that
        is neither None nor a string, then `os.rename`'s errors for the new path; without an
        exception the file is under its final name and the status is the size check's,
        otherwise it is still `dir/uuid` and the status True. */
    predicate Extended(fs: FileSystem, uuid: string, dir: string, files0: map<string, seq<byte>>,
                       content: seq<byte>, raised: Option<PyError>)
      reads this`filetypeExtension, this`filepath, this`filename, this`downloadStatus
      reads this`filesize, this`sizeOriginal, fs`files, fs`dirs
    {
      var ext := filetypeExtension;
      var path := Join(dir, uuid);
      var target := if ext.Str? then Join(dir, ExtendedName(uuid, ext.s)) else path;
      && raised == (if ext != Null && !ext.Str? then Some(AttributeError("lower"))
                    else if ext.Str? && EndsInSlash(target) then Some(NotADirectoryError(target))
                    else if ext.Str? && target in fs.dirs then Some(IsADirectoryError(target)) else None)
      && (raised.None? ==>
            && filepath == Some(target) && filename == Some(if ext.Str? then PathName(target) else uuid)
            && fs.files == files0[target := content] && downloadStatus == Some(!SizeMismatch(filesize, sizeOriginal)))
      && (raised.Some? ==>
            filepath == Some(path) && filename == Some(uuid) && fs.files == files0[path := content] &&
            downloadStatus == Some(true))
    }

    /** `__init__` after a successful GET. */
    method Process(fs: FileSystem, uuid: string, exif: seq<byte> -> Metadata, md5Of: seq<byte> -> string,
                   urlName: string -> string) returns (raised: Option<PyError>)
      requires IsUrlFilename(urlName)
      requires r.Present? && urlFinal.Some? && directory.Some? && downloadStatus.None? && md5.None?
      requires filenameFromHeaders == None && message == None && sizeOriginal == None && md5Original == None
      requires filename == None && filepath == None
      requires uuid != "" && '/' !in uuid && fs.Unused(Join(directory.value, uuid))
      modifies this`filenameFromUrl, this`filenameFromHeaders, this`message, this`sizeOriginal, this`md5Original
      modifies fs`files, fs`dirs, this`filename, this`filepath, this`downloadStatus, this`directory
      modifies this`filetypeExtension, this`mimetype, this`filesize, this`md5
      ensures Processed(fs, uuid, exif, md5Of, urlName, old(directory).value, old(fs.files), old(fs.dirs), raised)
    {
      RecordUrlFilename(urlName);
      raised := ReadAndStore(fs, uuid, exif, md5Of);
    }

    /** `__init__` from the header readers on. */
    method ReadAndStore(fs: FileSystem, uuid: string, exif: seq<byte> -> Metadata, md5Of: seq<byte> -> string)
      returns (raised: Option<PyError>)
      requires r.Present? && directory.Some? && downloadStatus.None? && md5.None?
      requires filenameFromHeaders == None && message == None && sizeOriginal == None && md5Original == None
      requires filename == None && filepath == None
      requires uuid != "" && '/' !in uuid && fs.Unused(Join(directory.value, uuid))
      modifies this`filenameFromHeaders, this`message, this`sizeOriginal, this`md5Original
      modifies fs`files, fs`dirs, this`filename, this`filepath, this`downloadStatus, this`directory
      modifies this`filetypeExtension, this`mimetype, this`filesize, this`md5
      ensures HeadersRead(fs, uuid, exif, md5Of, old(directory).value, old(fs.files), old(fs.dirs), raised)
    {
      raised := ReadHeaders();
      assert HeaderFields();
      if raised.Some? {
        return;
      }
      raised := Store(fs, uuid, exif, md5Of);
    }

    /** `download_file()`, `get_file_metadata()`, `add_file_extension()` and the size check. */
    method Store(fs: FileSystem, uuid: string, exif: seq<byte> -> Metadata, md5Of: seq<byte> -> string)
      returns (raised: Option<PyError>)
      requires r.Present? && directory.Some? && downloadStatus.None? && md5.None?
      requires filename == None && filepath == None
      requires uuid != "" && '/' !in uuid && fs.Unused(Join(directory.value, uuid))
      modifies fs`files, fs`dirs, this`filename, this`filepath, this`downloadStatus, this`directory, this`message
      modifies this`filetypeExtension, this`mimetype, this`filesize, this`md5
      ensures Stored(fs, uuid, exif, md5Of, old(directory).value, old(fs.files), old(fs.dirs), old(message), raised)
    {
      ghost var files0 := fs.files;
      raised := Inspect(fs, uuid, exif, md5Of);
      if raised.Some? || downloadStatus != Some(true) {
        return;
      }
      raised := Keep(fs, uuid, files0, Concat(r.value.chunks));
    }

    /** `add_file_extension()` and the size check, for the file `directory/uuid` just written
        with `content` over the files `files0`. */
    method Keep(fs: FileSystem, uuid: string, ghost files0: map<string, seq<byte>>, ghost content: seq<byte>)
      returns (raised: Option<PyError>)
      requires downloadStatus == Some(true) && directory.Some? && filename == Some(uuid)
      requires filepath == Some(Join(directory.value, uuid)) && filepath.value !in files0
      requires fs.files == files0[filepath.value := content]
      modifies fs`files, this`filepath, this`filename, this`downloadStatus
      ensures Extended(fs, uuid, directory.value, files0, content, raised)
    {
      ghost var src := filepath.value;
      raised := AddFileExtension(fs);
      if raised.Some? {
        return;
      }
      if filetypeExtension.Str? {
        MovedFresh(files0, src, filepath.value, content);
      }
      CheckSize();
    }

    /** The three header readers of `__init__`, in order; only `int()` of `Content-Length`
        can raise once `r` is set. */
    method ReadHeaders() returns (raised: Option<PyError>)
      requires r.Present?
      modifies this`filenameFromHeaders, this`message, this`sizeOriginal, this`md5Original
      ensures var headers := r.value.headers; var parsed := ParsedDisposition(headers);
        && filenameFromHeaders == (if parsed.Some? && parsed.value.Some? then parsed.value else old(filenameFromHeaders))
        && message == (if parsed == Some(None) then Some(UnparsedDisposition) else old(message))
        && raised == (if BadLength(headers) then Some(ValueError(headers[ContentLength])) else None)
        && sizeOriginal == (if ContentLength in headers && raised.None? then ParseInt(headers[ContentLength])
                            else old(sizeOriginal))
        && md5Original == (if ContentMd5 in headers && raised.None? then Some(headers[ContentMd5])
                           else old(md5Original))
    {
      raised := GetOriginalFilenameFromRequestHeaders();
      assert raised.None?;
      raised := GetOriginalSizeFromHeaders();
      if raised.Some? {
        return;
      }
      raised := GetOriginalMd5CheckFromHeaders();
    }

    /** `download_file()` then `get_file_metadata()` on a fresh `directory/uuid`. */
    method Inspect(fs: FileSystem, uuid: string, exif: seq<byte> -> Metadata, md5Of: seq<byte> -> string)
      returns (raised: Option<PyError>)
      requires r.Present? && directory.Some? && md5.None?
      requires uuid != "" && '/' !in uuid && fs.Unused(Join(directory.value, uuid))
      modifies fs`files, fs`dirs, this`filename, this`filepath, this`downloadStatus, this`directory, this`message
      modifies this`filetypeExtension, this`mimetype, this`filesize, this`md5
      ensures old(directory).value == "" ==>
        && raised == Some(FileNotFoundError("")) && fs.files == old(fs.files) && fs.dirs == old(fs.dirs)
        && downloadStatus == old(downloadStatus) && message == old(message)
        && filename == old(filename) && filepath == old(filepath)
      ensures old(directory).value != "" ==>
        var content := Concat(r.value.chunks);
        var meta := exif(content);
        && raised.None? && fs.dirs == DirsAfter(old(directory).value, old(fs.files), old(fs.dirs))
        && (!collectHtml && IsWebpage(meta) ==>
              && downloadStatus == Some(false) && message == Some(WebpageDeleted)
              && fs.files == old(fs.files) && directory == None && filename == None && filepath == None)
        && (!(!collectHtml && IsWebpage(meta)) ==>
              && downloadStatus == Some(true) && directory == old(directory)
              && filename == Some(uuid) && filepath == Some(Join(old(directory).value, uuid))
              && fs.files == old(fs.files)[filepath.value := content]
              && filetypeExtension == Lookup(meta, ExtensionTag) && mimetype == Lookup(meta, MimeTypeTag)
              && filesize == Lookup(meta, FileSizeTag) && message == MetadataMessage(meta, old(message))
              && md5 == (if content == [] then None else Some(md5Of(content))))
    {
      ghost var files0 := fs.files;
      ghost var path := Join(directory.value, uuid);
      raised := DownloadFile(fs, uuid);
      if raised.Some? {
        return;
      }
      raised := Examine(fs, exif, md5Of, files0, path, Concat(r.value.chunks));
    }

    /** `get_file_metadata()` on the file `path` that `download_file()` just wrote with
        `content` over the files `files0`: a discarded page leaves `files0` again, any other
        file stays where it is and is described. */
    method Examine(fs: FileSystem, exif: seq<byte> -> Metadata, md5Of: seq<byte> -> string,
                   ghost files0: map<string, seq<byte>>, ghost path: string, ghost content: seq<byte>)
      returns (raised: Option<PyError>)
      requires filepath == Some(path) && path !in files0 && fs.files == files0[path := content] && md5.None?
      modifies fs`files, this`downloadStatus, this`message, this`directory, this`filename, this`filepath
      modifies this`filetypeExtension, this`mimetype, this`filesize, this`md5
      ensures var meta := exif(content);
        && raised.None?
        && (!collectHtml && IsWebpage(meta) ==>
              && downloadStatus == Some(false) && message == Some(WebpageDeleted)
              && fs.files == files0 && directory == None && filename == None && filepath == None)
        && (!(!collectHtml && IsWebpage(meta)) ==>
              && downloadStatus == old(downloadStatus) && directory == old(directory)
              && filename == old(filename) && filepath == Some(path) && fs.files == old(fs.files)
              && filetypeExtension == Lookup(meta, ExtensionTag) && mimetype == Lookup(meta, MimeTypeTag)
              && filesize == Lookup(meta, FileSizeTag) && message == MetadataMessage(meta, old(message))
              && md5 == (if content == [] then None else Some(md5Of(content))))
    {
      raised := GetFileMetadata(fs, exif, md5Of);
      if !collectHtml && IsWebpage(exif(content)) {
        assert fs.files == files0 by {
          assert path !in files0;
        }
      }
    }

    /** The size check of `__init__`: the status turns to False when ExifTool's size and
        `Content-Length` are both set and differ. */
    method CheckSize()
      requires downloadStatus == Some(true)
      modifies this`downloadStatus
      ensures downloadStatus == Some(!SizeMismatch(filesize, sizeOriginal))
    {
      if SizeMismatch(filesize, sizeOriginal) {
        downloadStatus := Some(false);
      }
    }

    /** `output_as_dictionary()`: the sixteen reported fields by name. */
    function OutputAsDictionary(): (d: map<string, Value>)
      reads this
      ensures d.Keys == DictionaryKeys
      ensures d["url_original"] == Str(urlOriginal) && d["url_final"] == OptionStr(urlFinal)
      ensures d["datetime"] == OptionStamp(datetime) && d["download_status"] == OptionBool(downloadStatus)
      ensures d["message"] == OptionStr(message) && d["filename_from_url"] == OptionStr(filenameFromUrl)
      ensures d["filename_from_headers"] == OptionStr(filenameFromHeaders) && d["filename"] == OptionStr(filename)
      ensures d["directory"] == OptionStr(directory) && d["filepath"] == OptionStr(filepath)
      ensures d["filetype_extension"] == filetypeExtension && d["mimetype"] == mimetype
      ensures d["filesize"] == filesize && d["size_original"] == OptionInt(sizeOriginal)
      ensures d["md5"] == OptionStr(md5) && d["md5_original"] == OptionStr(md5Original)
    {
      map key | key in DictionaryKeys :: Reported(key)
    }

    /** The value reported under one key of the dictionary. */
    function Reported(key: string): Value
      requires key in DictionaryKeys
      reads this
    {
      if key == "url_original" then Str(urlOriginal)
      else if key == "url_final" then OptionStr(urlFinal)
      else if key == "datetime" then OptionStamp(datetime)
      else if key == "download_status" then OptionBool(downloadStatus)
      else if key == "message" then OptionStr(message)
      else if key == "filename_from_url" then OptionStr(filenameFromUrl)
      else if key == "filename_from_headers" then OptionStr(filenameFromHeaders)
      else if key == "filename" then OptionStr(filename)
      else if key == "directory" then OptionStr(directory)
      else if key == "filepath" then OptionStr(filepath)
      else if key == "filetype_extension" then filetypeExtension
      else if key == "mimetype" then mimetype
      else if key == "filesize" then filesize
      else if key == "size_original" then OptionInt(sizeOriginal)
      else if key == "md5" then OptionStr(md5)
      else OptionStr(md5Original)
    }
  }

  /** A kept file with a string extension is called `<uuid>.<lower-case extension>` and lies
      in the download directory, as long as neither part holds a '/'. */
  lemma KeptName(d: DownloadResource, fs: FileSystem, uuid: string, exif: seq<byte> -> Metadata,
                 md5Of: seq<byte> -> string, dir: string, files0: map<string, seq<byte>>, dirs0: set<string>,
                 message0: Option<string>, raised: Option<PyError>)
    requires d.r.Present? && d.Stored(fs, uuid, exif, md5Of, dir, files0, dirs0, message0, raised) && raised.None?
    requires !(!d.collectHtml && IsWebpage(exif(Concat(d.r.value.chunks))))
    requires d.filetypeExtension.Str? && '/' !in uuid && '/' !in d.filetypeExtension.s
    ensures d.filename == Some(ExtendedName(uuid, d.filetypeExtension.s))
    ensures d.filepath == Some(Join(dir, ExtendedName(uuid, d.filetypeExtension.s)))
    ensures fs.files == files0[Join(dir, ExtendedName(uuid, d.filetypeExtension.s)) := Concat(d.r.value.chunks)]
  {
    ExtendedNameIsPathName(dir, uuid, d.filetypeExtension.s);
  }

  /** The dictionary loses nothing: two downloads reporting the same dictionary agree on
      every reported field. */
  lemma DictionaryDeterminesFields(a: DownloadResource, b: DownloadResource)
    requires a.OutputAsDictionary() == b.OutputAsDictionary()
    ensures a.urlOriginal == b.urlOriginal && a.urlFinal == b.urlFinal && a.datetime == b.datetime
    ensures a.downloadStatus == b.downloadStatus && a.message == b.message
    ensures a.filenameFromUrl == b.filenameFromUrl && a.filenameFromHeaders == b.filenameFromHeaders
    ensures a.filename == b.filename && a.directory == b.directory && a.filepath == b.filepath
    ensures a.filetypeExtension == b.filetypeExtension && a.mimetype == b.mimetype && a.filesize == b.filesize
    ensures a.sizeOriginal == b.sizeOriginal && a.md5 == b.md5 && a.md5Original == b.md5Original
  {
    var d, e := a.OutputAsDictionary(), b.OutputAsDictionary();
    assert d["url_final"] == e["url_final"] && d["datetime"] == e["datetime"];
    assert d["download_status"] == e["download_status"] && d["message"] == e["message"];
    assert d["filename_from_url"] == e["filename_from_url"] && d["filename_from_headers"] == e["filename_from_headers"];
    assert d["filename"] == e["filename"] && d["directory"] == e["directory"] && d["filepath"] == e["filepath"];
    assert d["size_original"] == e["size_original"] && d["md5"] == e["md5"] && d["md5_original"] == e["md5_original"];
  }
}
