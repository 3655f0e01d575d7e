/** The `DownloadResource` class of downloader.py: one object per URL that resolves
    redirects, rebuilds the URL reached without its query and fragment, downloads the resource
    under a UUID name, drops HTML pages unless asked to keep them, reads ExifTool metadata and
    an MD5 digest and adds the file's extension to its name. Every step also writes its
    outcome into `record`, the row of the `Resources` table, which is kept here as a plain
    value. The module-level `change_filename` renames the file afterwards.

    The constructor sets the fields as `__init__` does before its first call; `Run` is the
    rest of `__init__`. The network, the file system, the clock, the UUID, ExifTool and MD5
    are parameters. */
module Downloader {
  import opened Py
  import opened PyStr
  import opened Paths
  import opened Urls
  import opened Disposition
  import opened Files
  import opened Http
  import opened Exif
  import opened Resource

  /** A row of the `Resources` table; every column but `url_original` may be None. */
  datatype Record = Record(
    downloadStatus: Option<bool>, message: Option<string>, directory: Option<string>,
    urlOriginal: string, urlResolved: Option<string>, urlFinal: Option<string>, datetime: Option<int>,
    filename: Option<string>, filepath: Option<string>, filenameFromUrl: Option<string>,
    filenameFromHeaders: Option<string>, filetypeExtension: Value, mimetype: Value, md5: Option<string>)

  /** `Resources.create(url_original = url)`: every other column at its default, None. */
  function CreatedRecord(url: string): Record {
    Record(None, None, None, url, None, None, None, None, None, None, None, Null, Null, None)
  }

  /** The value of an attribute, None once it is deleted or before it is set. */
  function Known<T>(a: Attr<T>): (r: Option<T>)
    ensures r.Some? <==> a.Present?
    ensures a.Present? ==> r.value == a.value
  {
    if a.Present? then Some(a.value) else None
  }

  /** `f` is `DropQueryAndFragment`. The pipeline takes the rebuilding of the URL as such a
      function, so that its proofs need not unfold the parsing of URLs. */
  ghost predicate IsQueryDropper(f: string -> string) {
    forall u {:trigger DropQueryAndFragment(u)} :: f(u) == DropQueryAndFragment(u)
  }

  /** `f` is `StripUrl`, taken as a function by the pipeline for the same reason. */
  ghost predicate IsUrlStripper(f: string -> string) {
    forall u {:trigger StripUrl(u)} :: f(u) == StripUrl(u)
  }

  /** `get_real_download_url` after `url.strip().rstrip("/")`: one HEAD of the stripped URL
      following redirects, then a GET, without cookies, of the URL reached rebuilt by `clean`. */
  function ResolveFull(stripped: string, server: Server, clean: string -> string): (res: Resolution)
    ensures res.resolved.None? <==> server.head(stripped, None, true).HeadFailed?
    ensures res.resolved.None? ==>
      res.requests == [Head(stripped, None, true)] && res.response.None? &&
      res.failure == Some(FailureOf(server.head(stripped, None, true).error))
    ensures res.resolved.Some? ==>
      && res.resolved.value == server.head(stripped, None, true).url
      && res.requests == [Head(stripped, None, true), Get(clean(res.resolved.value), None)]
      && (res.response.Some? ==> server.get(clean(res.resolved.value), None) == GetOk(res.response.value))
    ensures res.failure.None? <==> res.response.Some? && !IsHttpError(res.response.value.status)
  {
    var first := Head(stripped, None, true);
    match server.head(stripped, None, true)
    case HeadFailed(e) => Resolution([first], None, None, Some(FailureOf(e)))
    case HeadOk(url, _) => Fetch([first], clean(url), url, None, server)
  }

  /** Unlike the light downloader, this one sends exactly one HEAD, and no request carries
      cookies. */
  lemma SingleHeadWithoutCookies(stripped: string, server: Server, clean: string -> string)
    ensures var res := ResolveFull(stripped, server, clean);
      && 1 <= |res.requests| <= 2 && res.requests[0].Head?
      && (forall k :: 1 <= k < |res.requests| ==> res.requests[k].Get?)
      && (forall k :: 0 <= k < |res.requests| ==> res.requests[k].cookies.None?)
  {
  }

  /** The URL fetched holds neither a query nor a fragment: it is the URL reached, rebuilt
      from its scheme, network location and path alone. */
  lemma FetchedUrlIsClean(stripped: string, server: Server, clean: string -> string)
    requires IsQueryDropper(clean)
    ensures var res := ResolveFull(stripped, server, clean);
      res.resolved.Some? ==>
        && res.requests[1] == Get(DropQueryAndFragment(res.resolved.value), None)
        && Clean(res.requests[1].url)
  {
    var res := ResolveFull(stripped, server, clean);
    if res.resolved.Some? {
      assert clean(res.resolved.value) == DropQueryAndFragment(res.resolved.value);
    }
  }

  /** Two records agree on the columns `get_real_download_url()` writes. */
  predicate SameSource(a: Record, b: Record) {
    a.urlOriginal == b.urlOriginal && a.urlResolved == b.urlResolved && a.urlFinal == b.urlFinal &&
    a.datetime == b.datetime
  }

  /** Two records agree on the columns written before `download_file()`. */
  predicate SameBeforeDownload(a: Record, b: Record) {
    SameSource(a, b) && a.filenameFromUrl == b.filenameFromUrl && a.filenameFromHeaders == b.filenameFromHeaders
  }

  class DownloadResource {
    var downloadStatus: Option<bool>
    var message: Option<string>
    var directory: Attr<string>
    /** `self.collect_html`, deleted at the end of `__init__`. */
    var collectHtml: Attr<bool>
    const urlOriginal: string
    var urlResolved: Option<string>
    var urlFinal: Option<string>
    /** `self.record`, the row written after each step. */
    var record: Record
    /** `self.r`, the GET response, unset until a GET answers and deleted at the end of
        `__init__`. */
    var r: Attr<Response>
    var filename: Attr<string>
    var filepath: Attr<string>
    var filetypeExtension: Attr<Value>
    var mimetype: Attr<Value>
    /** `self.renamed`, set by `change_filename`. */
    var renamed: Attr<bool>

    /** The fields `__init__` sets before resolving the URL. */
    ghost predicate Initial(url: string, dir: string, keepHtml: bool)
      reads this
    {
      downloadStatus == None && message == None && directory == Present(dir) &&
      collectHtml == Present(keepHtml) && urlOriginal == url && urlResolved == None && urlFinal == None &&
      record == CreatedRecord(url) && r.Absent? && filename.Absent? && filepath.Absent? &&
      filetypeExtension.Absent? && mimetype.Absent? && renamed.Absent?
    }

    constructor (url: string, dir: string, keepHtml: bool)
      ensures Initial(url, dir, keepHtml)
    {
      downloadStatus, message, directory, collectHtml := None, None, Present(dir), Present(keepHtml);
      urlOriginal, urlResolved, urlFinal := url, None, None;
      record := CreatedRecord(url);
      r, filename, filepath := Absent, Absent, Absent;
      filetypeExtension, mimetype, renamed := Absent, Absent, Absent;
    }

    /** The record agrees with the object on the fields both hold; it holds the directory
        once the file has a name. */
    predicate Mirrored()
      reads this`record, this`downloadStatus, this`message, this`urlResolved, this`urlFinal
      reads this`directory, this`filename, this`filepath
    {
      && record.downloadStatus == downloadStatus && record.message == message
      && record.urlResolved == urlResolved && record.urlFinal == urlFinal
      && record.filename == Known(filename) && record.filepath == Known(filepath)
      && (filename.Present? ==> record.directory == Known(directory))
    }

    /** `get_real_download_url()`: the requests and the fields follow `ResolveFull`; a failure
        sets the status to False and its message, and leaves the URLs and the time unset when
        the HEAD failed. The record ends with the object's status and message. */
    method GetRealDownloadUrl(net: Network, now: int)
      modifies this`urlResolved, this`urlFinal, this`record, this`r, this`downloadStatus, this`message, net`sent
      ensures var res := ResolveFull(StripUrl(urlOriginal), net.server, DropQueryAndFragment);
        && net.sent == old(net.sent) + res.requests
        && urlResolved == (if res.resolved.Some? then res.resolved else old(urlResolved))
        && urlFinal == (if res.resolved.Some? then Some(DropQueryAndFragment(res.resolved.value)) else old(urlFinal))
        && r == (if res.response.Some? then Present(res.response.value) else old(r))
        && downloadStatus == (if res.failure.Some? then Some(false) else old(downloadStatus))
        && message == (if res.failure.Some? then Some(FailureMessage(res.failure.value)) else old(message))
        && record == (if res.resolved.Some? then old(record).(urlResolved := urlResolved, urlFinal := urlFinal, datetime := Some(now))
                      else old(record)).(downloadStatus := downloadStatus, message := message)
    {
      ResolveStripped(net, now, StripUrl(urlOriginal), DropQueryAndFragment);
    }

    /** `get_real_download_url()` from the stripped URL on, the URL reached being rebuilt by
        `clean`: `DropQueryAndFragment` above, and a function equal to it in the pipeline. */
    method ResolveStripped(net: Network, now: int, stripped: string, clean: string -> string)
      modifies this`urlResolved, this`urlFinal, this`record, this`r, this`downloadStatus, this`message, net`sent
      ensures var res := ResolveFull(stripped, net.server, clean);
        && net.sent == old(net.sent) + res.requests
        && urlResolved == (if res.resolved.Some? then res.resolved else old(urlResolved))
        && urlFinal == (if res.resolved.Some? then Some(clean(res.resolved.value)) else old(urlFinal))
        && r == (if res.response.Some? then Present(res.response.value) else old(r))
        && downloadStatus == (if res.failure.Some? then Some(false) else old(downloadStatus))
        && message == (if res.failure.Some? then Some(FailureMessage(res.failure.value)) else old(message))
        && record == (if res.resolved.Some? then old(record).(urlResolved := urlResolved, urlFinal := urlFinal, datetime := Some(now))
                      else old(record)).(downloadStatus := downloadStatus, message := message)
    {
      var response := net.Head(stripped, None, true);
      match response {
        case HeadFailed(e) =>
          downloadStatus, message := Some(false), Some(FailureMessage(FailureOf(e)));
        case HeadOk(url, _) =>
          urlResolved := Some(url);
          urlFinal := Some(clean(url));
          record := record.(urlResolved := urlResolved, urlFinal := urlFinal);
          record := record.(datetime := Some(now));
          var got := net.Get(urlFinal.value, None);
          match got {
            case GetFailed(e) =>
              downloadStatus, message := Some(false), Some(FailureMessage(FailureOf(e)));
            case GetOk(resp) =>
              r := Present(resp);
              if IsHttpError(resp.status) {
                downloadStatus, message := Some(false), Some(FailureMessage(HttpFailure(resp.status)));
              }
          }
      }
      record := record.(downloadStatus := downloadStatus, message := message);
    }

    /** `get_original_filename_from_url()`: the record gets the text after the last '/' of the
        whole final URL; `os.path.split(None)` raises TypeError. */
    method GetOriginalFilenameFromUrl() returns (raised: Option<PyError>)
      modifies this`record
      ensures raised == if urlFinal.None? then Some(TypeError("url_final")) else None
      ensures record == if urlFinal.None? then old(record) else old(record).(filenameFromUrl := Some(Tail(urlFinal.value)))
    {
      if urlFinal.None? {
        return Some(TypeError("url_final"));
      }
      record := record.(filenameFromUrl := Some(Tail(urlFinal.value)));
      return None;
    }

    /** `get_original_filename_from_request_headers()`: a parsed `Content-Disposition` goes to
        the record's header filename, an unparsable one sets the message in both places;
        without the header nothing changes. */
    method GetOriginalFilenameFromRequestHeaders() returns (raised: Option<PyError>)
      modifies this`record, this`message
      ensures raised == if r.Absent? then Some(AttributeError("r")) else None
      ensures var parsed := if r.Present? then ParsedDisposition(r.value.headers) else None;
        && message == (if parsed == Some(None) then Some(UnparsedDisposition) else old(message))
        && record == (if parsed.Some? && parsed.value.Some? then old(record).(filenameFromHeaders := parsed.value)
                      else if parsed == Some(None) then old(record).(message := message)
                      else old(record))
    {
      if r.Absent? {
        return Some(AttributeError("r"));
      }
      var headers := r.value.headers;
      if ContentDisposition in headers {
        var m := FilenameFromHeader(headers[ContentDisposition]);
        if m.Some? {
          record := record.(filenameFromHeaders := m);
        } else {
          message := Some(UnparsedDisposition);
          record := record.(message := message);
        }
      }
      return None;
    }

    /** `download_file()`: create the directory when it does not exist, then write the body's
        chunks in order to `directory/uuid`, set the status to True and record the status and
        the file's name, directory and path. */
    method DownloadFile(fs: FileSystem, uuid: string) returns (raised: Option<PyError>)
      requires uuid != "" && '/' !in uuid
      requires directory.Present? ==> fs.Unused(Join(directory.value, uuid))
      modifies fs`files, fs`dirs, this`filename, this`filepath, this`downloadStatus, this`record
      ensures directory.Absent? ==> raised == Some(AttributeError("directory"))
      ensures directory == Present("") ==> raised == Some(FileNotFoundError(""))
      ensures directory.Absent? || directory == Present("") ==>
        && fs.files == old(fs.files) && fs.dirs == old(fs.dirs) && filename == old(filename)
        && filepath == old(filepath) && downloadStatus == old(downloadStatus) && record == old(record)
      ensures directory.Present? && directory != Present("") ==>
        var dir := directory.value;
        var path := Join(dir, uuid);
        && fs.dirs == (if old(fs.Exists(dir)) then old(fs.dirs) else old(fs.dirs) + {dir})
        && filename == Present(uuid) && filepath == Present(path)
        && raised == (if r.Absent? then Some(AttributeError("r")) else None)
        && fs.files == old(fs.files)[path := if r.Present? then Concat(r.value.chunks) else []]
        && downloadStatus == (if r.Present? then Some(true) else old(downloadStatus))
        && record == (if r.Present? then old(record).(downloadStatus := Some(true), filename := Some(uuid),
                                                       directory := Some(dir), filepath := Some(path))
                      else old(record))
    {
      if directory.Absent? {
        return Some(AttributeError("directory"));
      }
      var dir := directory.value;
      if !fs.Exists(dir) {
        raised := fs.MakeDirs(dir);
        if raised.Some? {
          return;
        }
      }
      filename := Present(uuid);
      var path := Join(dir, uuid);
      filepath := Present(path);
      assert path != dir;
      raised := fs.Create(path);
      if r.Absent? {
        return Some(AttributeError("r"));
      }
      WriteChunks(fs, path, r.value.chunks);
      downloadStatus := Some(true);
      record := record.(downloadStatus := downloadStatus, filename := Some(uuid), directory := Some(dir), filepath := Some(path));
    }

    /** `get_file_metadata()`: ExifTool's metadata of the file decides the HTML discard; any
        other file gets its extension, MIME type and MD5, and an ExifTool error sets the
        message, unless one is already set, where the code names the undefined `message`. */
    method GetFileMetadata(fs: FileSystem, exif: seq<byte> -> Metadata, md5Of: seq<byte> -> string)
      returns (raised: Option<PyError>)
      modifies fs`files, this`downloadStatus, this`message, this`directory, this`filename, this`filepath
      modifies this`filetypeExtension, this`mimetype, this`record
      ensures old(filepath).Absent? ==> raised == Some(AttributeError("filepath"))
      ensures old(filepath).Present? && old(filepath.value) !in old(fs.files) ==> raised == Some(FileNotFoundError(old(filepath.value)))
      ensures old(filepath).Present? && old(filepath.value) in old(fs.files) && collectHtml.Absent? ==>
        raised == Some(AttributeError("collect_html"))
      ensures old(filepath).Absent? || old(filepath.value) !in old(fs.files) || collectHtml.Absent? ==>
        && fs.files == old(fs.files) && downloadStatus == old(downloadStatus) && message == old(message)
        && directory == old(directory) && filename == old(filename) && filepath == old(filepath)
        && filetypeExtension == old(filetypeExtension) && mimetype == old(mimetype) && record == old(record)
      ensures old(filepath).Present? && old(filepath.value) in old(fs.files) && collectHtml.Present? ==>
        var content := old(fs.files[filepath.value]);
        var meta := exif(content);
        && (collectHtml == Present(false) && IsWebpage(meta) ==> Discarded(fs, raised))
        && (!(collectHtml == Present(false) && IsWebpage(meta)) ==>
              && fs.files == old(fs.files) && downloadStatus == old(downloadStatus)
              && directory == old(directory) && filename == old(filename) && filepath == old(filepath)
              && Described(meta, content, md5Of, raised))
    {
      if filepath.Absent? {
        return Some(AttributeError("filepath"));
      }
      var path := filepath.value;
      if path !in fs.files {
        return Some(FileNotFoundError(path));
      }
      var content := fs.files[path];
      var meta := exif(content);
      if collectHtml.Absent? {
        return Some(AttributeError("collect_html"));
      }
      if collectHtml.value == false && IsWebpage(meta) {
        raised := DiscardWebpage(fs);
        return;
      }
      raised := Describe(meta, content, md5Of);
    }

    /** The HTML branch of `get_file_metadata()`: the file is removed, the status turns False
        with the webpage message, the record loses the directory, name and path, and the three
        attributes are deleted in turn, the first missing one raising AttributeError. */
    twostate predicate Discarded(fs: FileSystem, new raised: Option<PyError>)
      reads this, fs
    {
      && old(filepath).Present? && fs.files == old(fs.files) - {old(filepath).value}
      && downloadStatus == Some(false) && message == Some(WebpageDeleted)
      && record == old(record).(directory := None, filename := None, filepath := None,
                                downloadStatus := Some(false), message := Some(WebpageDeleted))
      && raised == (if old(directory).Absent? then Some(AttributeError("directory"))
                    else if old(filename).Absent? then Some(AttributeError("filename")) else None)
      && directory.Absent?
      && filename == (if old(directory).Present? then Absent else old(filename))
      && filepath == (if old(directory).Present? && old(filename).Present? then Absent else old(filepath))
      && filetypeExtension == old(filetypeExtension) && mimetype == old(mimetype)
    }

    method DiscardWebpage(fs: FileSystem) returns (raised: Option<PyError>)
      requires filepath.Present? && filepath.value in fs.files
      modifies fs`files, this`downloadStatus, this`message, this`directory, this`filename, this`filepath, this`record
      ensures Discarded(fs, raised)
    {
      raised := fs.Remove(filepath.value);
      downloadStatus, message := Some(false), Some(WebpageDeleted);
      record := record.(directory := None, filename := None, filepath := None);
      record := record.(downloadStatus := downloadStatus, message := message);
      if directory.Absent? {
        return Some(AttributeError("directory"));
      }
      directory := Absent;
      if filename.Absent? {
        return Some(AttributeError("filename"));
      }
      filename := Absent;
      filepath := Absent;
    }

    /** The rest of `get_file_metadata()`: an ExifTool error sets the message, or raises
        NameError when there already is one; the extension and MIME type are taken (None when
        absent), the record gets their values only when the MIME type is absent, and it gets
        the MD5 of the whole file. */
    twostate predicate Described(meta: Metadata, content: seq<byte>, md5Of: seq<byte> -> string, new raised: Option<PyError>)
      reads this
    {
      if ErrorTag in meta && old(message).Some? then
        && raised == Some(NameError("message")) && message == old(message)
        && filetypeExtension == old(filetypeExtension) && mimetype == old(mimetype) && record == old(record)
      else
        && raised.None?
        && message == (if ErrorTag in meta then Some(UnknownFiletype) else old(message))
        && filetypeExtension == Present(Lookup(meta, ExtensionTag))
        && mimetype == Present(Lookup(meta, MimeTypeTag))
        && record == old(record).(
             message := if ErrorTag in meta then message else old(record.message),
             filetypeExtension := if MimeTypeTag in meta then old(record.filetypeExtension) else Lookup(meta, ExtensionTag),
             mimetype := if MimeTypeTag in meta then old(record.mimetype) else Null,
             md5 := Some(md5Of(content)))
    }

    method Describe(meta: Metadata, content: seq<byte>, md5Of: seq<byte> -> string) returns (raised: Option<PyError>)
      modifies this`message, this`filetypeExtension, this`mimetype, this`record
      ensures Described(meta, content, md5Of, raised)
    {
      if ErrorTag in meta {
        if message.Some? {
          return Some(NameError("message"));
        }
        message := Some(UnknownFiletype);
        record := record.(message := message);
      }
      filetypeExtension := Present(Lookup(meta, ExtensionTag));
      mimetype := Present(Lookup(meta, MimeTypeTag));
      if MimeTypeTag !in meta {
        record := record.(filetypeExtension := filetypeExtension.value, mimetype := mimetype.value);
      }
      var digest := DigestAfterLoop(content, md5Of, ReadSize);
      record := record.(md5 := Some(digest));
      return None;
    }

    /** `add_file_extension()`: with a known extension the file moves to
        `directory/<filename>.<lower-case extension>`, and `filename` becomes `ntpath.basename`
        of the new path; the record follows both. The exceptions come in Python's evaluation
        order: the attributes read, `.lower()`, then `os.rename`. */
    method AddFileExtension(fs: FileSystem) returns (raised: Option<PyError>)
      modifies fs`files, this`filepath, this`filename, this`record
      ensures filetypeExtension.Absent? ==> raised == Some(AttributeError("filetype_extension"))
      ensures filetypeExtension == Present(Null) ==> raised.None?
      ensures raised.Some? || filetypeExtension.Absent? || filetypeExtension == Present(Null) ==>
        fs.files == old(fs.files) && filepath == old(filepath) && filename == old(filename) && record == old(record)
      ensures filetypeExtension.Present? && filetypeExtension.value != Null ==>
        var ext := filetypeExtension.value;
        && (directory.Absent? ==> raised == Some(AttributeError("directory")))
        && (directory.Present? && old(filename).Absent? ==> raised == Some(AttributeError("filename")))
        && (directory.Present? && old(filename).Present? && !ext.Str? ==> raised == Some(AttributeError("lower")))
        && (directory.Present? && old(filename).Present? && ext.Str? && old(filepath).Absent? ==>
              raised == Some(AttributeError("filepath")))
        && (directory.Present? && old(filename).Present? && ext.Str? && old(filepath).Present? ==>
              var target := Join(directory.value, ExtendedName(old(filename).value, ext.s));
              var src := old(filepath).value;
              && raised == (if src !in old(fs.files) then Some(FileNotFoundError(src))
                            else if EndsInSlash(target) then Some(NotADirectoryError(target))
                            else if target in fs.dirs then Some(IsADirectoryError(target)) else None)
              && (raised.None? ==>
                    && fs.files == Moved(old(fs.files), src, target)
                    && filepath == Present(target) && filename == Present(NtBasename(target))
                    && record == old(record).(filepath := Some(target), filename := Some(NtBasename(target)))))
    {
      if filetypeExtension.Absent? {
        return Some(AttributeError("filetype_extension"));
      }
      var ext := filetypeExtension.value;
      if ext == Null {
        return None;
      }
      if directory.Absent? {
        return Some(AttributeError("directory"));
      }
      if filename.Absent? {
        return Some(AttributeError("filename"));
      }
      if !ext.Str? {
        return Some(AttributeError("lower"));
      }
      var target := Join(directory.value, ExtendedName(filename.value, ext.s));
      if filepath.Absent? {
        return Some(AttributeError("filepath"));
      }
      raised := fs.Rename(filepath.value, target);
      if raised.Some? {
        return;
      }
      filepath := Present(target);
      filename := Present(NtBasename(target));
      record := record.(filepath := Some(target), filename := Some(NtBasename(target)));
    }

    /** The work `__init__` does after setting the fields: resolve and fetch the URL, then,
        unless that failed, take the filenames, write the file, read its metadata and, for a
        file that was kept, add its extension; then delete `r` and `collect_html`. An
        exception any step raises ends `__init__`. The status is True only once
        `download_file()` has run, so the extension is added at the end of `Process`. */
    method Run(net: Network, fs: FileSystem, now: int, uuid: string, exif: seq<byte> -> Metadata,
               md5Of: seq<byte> -> string, strip: string -> string, clean: string -> string)
      returns (raised: Option<PyError>)
      requires IsUrlStripper(strip) && IsQueryDropper(clean)
      requires directory.Present? && collectHtml.Present? && Initial(urlOriginal, directory.value, collectHtml.value)
      requires uuid != "" && '/' !in uuid && fs.Unused(Join(directory.value, uuid))
      modifies this, fs, net`sent
      ensures var res := ResolveFull(strip(urlOriginal), net.server, clean);
        && net.sent == old(net.sent) + res.requests
        && urlResolved == res.resolved
        && urlFinal == (if res.resolved.Some? then Some(clean(res.resolved.value)) else None)
        && Concluded(fs, uuid, exif, md5Of, res, now, old(collectHtml).value, old(directory).value,
                     old(fs.files), old(fs.dirs), raised)
    {
      ghost var res := ResolveFull(strip(urlOriginal), net.server, clean);
      Resolve(net, now, strip, clean);
      raised := Conclude(fs, uuid, exif, md5Of, res, now);
    }

    /** `get_real_download_url()` from the state `__init__` sets up. */
    method Resolve(net: Network, now: int, strip: string -> string, clean: string -> string)
      requires directory.Present? && collectHtml.Present? && Initial(urlOriginal, directory.value, collectHtml.value)
      modifies this`urlResolved, this`urlFinal, this`record, this`r, this`downloadStatus, this`message, net`sent
      ensures var res := ResolveFull(strip(urlOriginal), net.server, clean);
        && net.sent == old(net.sent) + res.requests
        && urlResolved == res.resolved
        && urlFinal == (if res.resolved.Some? then Some(clean(res.resolved.value)) else None)
        && Fetched(res, now)
    {
      ResolveStripped(net, now, strip(urlOriginal), clean);
    }

    /** The object after `get_real_download_url()` ended as `res` at time `now`, starting
        from the state `__init__` sets up: the record agrees with the object and has the
        time of the GET; a failure sets the status False and its message; otherwise `r` is
        the response and nothing about the file is known yet. */
    predicate Fetched(res: Resolution, now: int)
      reads this`downloadStatus, this`message, this`directory, this`urlResolved, this`urlFinal, this`record
      reads this`filename, this`filepath, this`filetypeExtension, this`mimetype, this`r
    {
      && Mirrored()
      && record.urlOriginal == urlOriginal
      && record.datetime == (if res.resolved.Some? then Some(now) else None)
      && (res.failure.None? <==> downloadStatus != Some(false))
      && filename.Absent? && filepath.Absent?
      && (res.failure.Some? ==>
            && message == Some(FailureMessage(res.failure.value))
            && record == CreatedRecord(urlOriginal).(urlResolved := urlResolved, urlFinal := urlFinal,
                 datetime := if res.resolved.Some? then Some(now) else None,
                 downloadStatus := downloadStatus, message := message))
      && (res.failure.None? ==>
            && res.response.Some? && r == Present(res.response.value) && urlFinal.Some?
            && downloadStatus.None? && message.None? && filetypeExtension.Absent? && mimetype.Absent?
            && record.filenameFromHeaders.None? && record.directory.None? && record.md5.None?
            && record.filetypeExtension == Null && record.mimetype == Null)
    }

    /** What `__init__` leaves behind once resolving and fetching ended as `res` at time
        `now`, the HTML flag having been `keepHtml`, the directory `dir` and the file system
        `files0` and `dirs0` before. The record keeps the original URL and the time of the
        GET; unless an exception escaped, it agrees with the object and `r` and
        `collect_html` are deleted. A failure leaves the file system alone and the record
        as created but for the URLs, the time, the status False and the failure's message;
        otherwise the rest is `Processed`. */
    predicate Concluded(fs: FileSystem, uuid: string, exif: seq<byte> -> Metadata, md5Of: seq<byte> -> string,
                        res: Resolution, now: int, keepHtml: bool, dir: string, files0: map<string, seq<byte>>,
                        dirs0: set<string>, raised: Option<PyError>)
      reads this`downloadStatus, this`message, this`directory, this`urlResolved, this`urlFinal, this`record
      reads this`filename, this`filepath, this`filetypeExtension, this`mimetype, this`r, this`collectHtml
      reads fs`files, fs`dirs
    {
      && record.urlOriginal == urlOriginal
      && record.datetime == (if res.resolved.Some? then Some(now) else None)
      && (raised.None? ==> Mirrored() && r.Absent? && collectHtml.Absent?)
      && (res.failure.Some? ==>
            && raised.None? && downloadStatus == Some(false) && message == Some(FailureMessage(res.failure.value))
            && fs.files == files0 && fs.dirs == dirs0 && filename.Absent? && filepath.Absent?
            && record == CreatedRecord(urlOriginal).(urlResolved := urlResolved, urlFinal := urlFinal,
                 datetime := if res.resolved.Some? then Some(now) else None,
                 downloadStatus := downloadStatus, message := message))
      && (res.failure.None? && res.response.Some? ==>
            Processed(fs, uuid, exif, md5Of, res.response.value, keepHtml, dir, files0, dirs0, raised))
    }

    /** `__init__` once `get_real_download_url()` ended as `res`. */
    method Conclude(fs: FileSystem, uuid: string, exif: seq<byte> -> Metadata, md5Of: seq<byte> -> string,
                    ghost res: Resolution, ghost now: int) returns (raised: Option<PyError>)
      requires directory.Present? && collectHtml.Present? && Fetched(res, now)
      requires uuid != "" && '/' !in uuid && fs.Unused(Join(directory.value, uuid))
      modifies fs`files, fs`dirs, this`downloadStatus, this`message, this`directory, this`filename, this`filepath
      modifies this`filetypeExtension, this`mimetype, this`record, this`r, this`collectHtml
      ensures Concluded(fs, uuid, exif, md5Of, res, now, old(collectHtml).value, old(directory).value,
                        old(fs.files), old(fs.dirs), raised)
    {
      if downloadStatus == Some(false) {
        raised := Cleanup();
      } else {
        raised := Finish(fs, uuid, exif, md5Of);
      }
    }

    /** `__init__` after a successful GET, up to and including the clean-up unless a step
        raised. */
    method Finish(fs: FileSystem, uuid: string, exif: seq<byte> -> Metadata, md5Of: seq<byte> -> string)
      returns (raised: Option<PyError>)
      requires r.Present? && urlFinal.Some? && directory.Present? && collectHtml.Present?
      requires downloadStatus.None? && message.None? && Mirrored()
      requires filename.Absent? && filepath.Absent? && filetypeExtension.Absent? && mimetype.Absent?
      requires record.filenameFromHeaders.None? && record.directory.None? && record.md5.None?
      requires record.filetypeExtension == Null && record.mimetype == Null
      requires uuid != "" && '/' !in uuid && fs.Unused(Join(directory.value, uuid))
      modifies fs`files, fs`dirs, this`downloadStatus, this`message, this`directory, this`filename, this`filepath
      modifies this`filetypeExtension, this`mimetype, this`record, this`r, this`collectHtml
      ensures Processed(fs, uuid, exif, md5Of, old(r).value, old(collectHtml).value, old(directory).value,
                        old(fs.files), old(fs.dirs), raised)
      ensures SameSource(old(record), record)
      ensures raised.None? ==> Mirrored() && r.Absent? && collectHtml.Absent?
    {
      raised := Process(fs, uuid, exif, md5Of);
      if raised.None? {
        raised := Cleanup();
      }
    }

    /** What `__init__` leaves behind once the GET answered `resp` without an error status,
        the HTML flag having been `keepHtml`, the directory `dir` and the file system
        `files0` and `dirs0` before: the record holds both original filenames, and the
        rest is `Stored`. */
    predicate Processed(fs: FileSystem, uuid: string, exif: seq<byte> -> Metadata, md5Of: seq<byte> -> string,
                        resp: Response, keepHtml: bool, dir: string, files0: map<string, seq<byte>>,
                        dirs0: set<string>, raised: Option<PyError>)
      reads this`downloadStatus, this`message, this`directory, this`urlResolved, this`urlFinal, this`record
      reads this`filename, this`filepath, this`filetypeExtension, this`mimetype, fs`files, fs`dirs
    {
      var parsed := ParsedDisposition(resp.headers);
      && urlFinal.Some? && record.filenameFromUrl == Some(Tail(urlFinal.value))
      && record.filenameFromHeaders == (if parsed.Some? then parsed.value else None)
      && Stored(fs, uuid, exif, md5Of, parsed, keepHtml, dir, files0, dirs0, Concat(resp.chunks), raised)
    }

    /** What `download_file()`, `get_file_metadata()` and `add_file_extension()` leave
        behind, for the body `content` and the parsed header `parsed`. `makedirs("")` fails;
        otherwise the directory exists afterwards, and the NameError of the ExifTool error
        branch happens exactly when the header already set a message. A webpage, or a file
        whose metadata raised, is as `Examined` says; any other file is renamed as `Kept`
        says. */
    predicate Stored(fs: FileSystem, uuid: string, exif: seq<byte> -> Metadata, md5Of: seq<byte> -> string,
                     parsed: Option<Option<string>>, keepHtml: bool, dir: string, files0: map<string, seq<byte>>,
                     dirs0: set<string>, content: seq<byte>, raised: Option<PyError>)
      reads this`downloadStatus, this`message, this`directory, this`urlResolved, this`urlFinal, this`record
      reads this`filename, this`filepath, this`filetypeExtension, this`mimetype, fs`files, fs`dirs
    {
      var meta := exif(content);
      var html := !keepHtml && IsWebpage(meta);
      var clash := !html && ErrorTag in meta && parsed == Some(None);
      && (raised == Some(FileNotFoundError("")) <==> dir == "")
      && (raised == Some(NameError("message")) <==> dir != "" && clash)
      && (dir == "" ==> Unwritten(fs, files0, dirs0))
      && (dir != "" ==> fs.dirs == DirsAfter(dir, files0, dirs0))
      && (dir != "" && (html || clash) ==> Examined(fs, uuid, exif, md5Of, parsed, keepHtml, dir, files0, content, raised))
      && (dir != "" && !html && !clash ==>
            && downloadStatus == Some(true) && directory == Present(dir) && Mirrored()
            && Typed(md5Of, content, meta, parsed)
            && Kept(fs, uuid, dir, files0, content, Lookup(meta, ExtensionTag), raised))
    }

    /** Nothing written: `download_file()` raised before naming the file. */
    predicate Unwritten(fs: FileSystem, files0: map<string, seq<byte>>, dirs0: set<string>)
      reads this`downloadStatus, this`filename, this`filepath, fs`files, fs`dirs
    {
      downloadStatus.None? && fs.files == files0 && fs.dirs == dirs0 && filename.Absent? && filepath.Absent?
    }

    /** What `get_file_metadata()` leaves behind for the file `dir/uuid` written with
        `content` over the files `files0`: a webpage is discarded; otherwise the file stays
        and the status is True, and when the ExifTool error meets the header's message the
        NameError leaves the type and the MD5 unset. The record agrees with the object. */
    predicate Examined(fs: FileSystem, uuid: string, exif: seq<byte> -> Metadata, md5Of: seq<byte> -> string,
                       parsed: Option<Option<string>>, keepHtml: bool, dir: string,
                       files0: map<string, seq<byte>>, content: seq<byte>, raised: Option<PyError>)
      reads this`downloadStatus, this`message, this`directory, this`urlResolved, this`urlFinal, this`record
      reads this`filename, this`filepath, this`filetypeExtension, this`mimetype, fs`files
    {
      var meta := exif(content);
      var html := !keepHtml && IsWebpage(meta);
      var clash := !html && ErrorTag in meta && parsed == Some(None);
      && raised == (if clash then Some(NameError("message")) else None)
      && Mirrored()
      && (html ==> Webpage(fs, files0))
      && (!html ==>
            && downloadStatus == Some(true) && directory == Present(dir) && filename == Present(uuid)
            && filepath == Present(Join(dir, uuid)) && fs.files == files0[Join(dir, uuid) := content])
      && (clash ==>
            message == Some(UnparsedDisposition) && filetypeExtension.Absent? && mimetype.Absent? && record.md5.None?)
      && (!html && !clash ==> Typed(md5Of, content, meta, parsed))
    }

    /** A discarded webpage: nothing left on disk, the status False with its message, the
        three attributes deleted and their columns None, no type and no MD5. */
    predicate Webpage(fs: FileSystem, files0: map<string, seq<byte>>)
      reads this`downloadStatus, this`message, this`directory, this`record
      reads this`filename, this`filepath, this`filetypeExtension, this`mimetype, fs`files
    {
      && downloadStatus == Some(false) && message == Some(WebpageDeleted) && fs.files == files0
      && directory.Absent? && filename.Absent? && filepath.Absent?
      && filetypeExtension.Absent? && mimetype.Absent?
      && record.directory.None? && record.filename.None? && record.filepath.None? && record.md5.None?
    }

    /** The type of a kept file as ExifTool gave it, the record's type columns written only
        without a MIME type, the message of an ExifTool error, and the MD5 of the whole file. */
    predicate Typed(md5Of: seq<byte> -> string, content: seq<byte>, meta: Metadata, parsed: Option<Option<string>>)
      reads this`message, this`record, this`filetypeExtension, this`mimetype
    {
      && filetypeExtension == Present(Lookup(meta, ExtensionTag)) && mimetype == Present(Lookup(meta, MimeTypeTag))
      && message == (if ErrorTag in meta then Some(UnknownFiletype)
                     else if parsed == Some(None) then Some(UnparsedDisposition) else None)
      && record.filetypeExtension == (if MimeTypeTag in meta then Null else Lookup(meta, ExtensionTag))
      && record.mimetype == Null
      && record.md5 == Some(md5Of(content))
    }

    /** The outcome of `add_file_extension()` for the file `dir/uuid` written with `content`
        over `files0` and the extension `ext`: a string extension moves it to
        `<uuid>.<lower-case extension>` unless a directory is there; any other value but
        None has no `lower`. */
    predicate Kept(fs: FileSystem, uuid: string, dir: string, files0: map<string, seq<byte>>,
                   content: seq<byte>, ext: Value, raised: Option<PyError>)
      reads this`filename, this`filepath, fs`files, fs`dirs
    {
      var path := Join(dir, uuid);
      var target := if ext.Str? then Join(dir, ExtendedName(uuid, ext.s)) else path;
      && raised == (if ext != Null && !ext.Str? then Some(AttributeError("lower"))
                    else if ext.Str? && EndsInSlash(target) then Some(NotADirectoryError(target))
                    else if ext.Str? && target in fs.dirs then Some(IsADirectoryError(target)) else None)
      && (raised.None? ==>
            && filepath == Present(target) && filename == Present(if ext.Str? then NtBasename(target) else uuid)
            && fs.files == files0[target := content])
      && (raised.Some? ==> filepath == Present(path) && filename == Present(uuid) && fs.files == files0[path := content])
    }

    /** `__init__` after a successful GET. */
    method Process(fs: FileSystem, uuid: string, exif: seq<byte> -> Metadata, md5Of: seq<byte> -> string)
      returns (raised: Option<PyError>)
      requires r.Present? && urlFinal.Some? && directory.Present? && collectHtml.Present?
      requires downloadStatus.None? && message.None? && Mirrored()
      requires filename.Absent? && filepath.Absent? && filetypeExtension.Absent? && mimetype.Absent?
      requires record.filenameFromHeaders.None? && record.directory.None? && record.md5.None?
      requires record.filetypeExtension == Null && record.mimetype == Null
      requires uuid != "" && '/' !in uuid && fs.Unused(Join(directory.value, uuid))
      modifies fs`files, fs`dirs, this`downloadStatus, this`message, this`directory, this`filename, this`filepath
      modifies this`filetypeExtension, this`mimetype, this`record
      ensures Processed(fs, uuid, exif, md5Of, r.value, collectHtml.value, old(directory).value,
                        old(fs.files), old(fs.dirs), raised)
      ensures SameSource(old(record), record)
    {
      raised := GetOriginalFilenameFromUrl();
      assert raised.None?;
      raised := GetOriginalFilenameFromRequestHeaders();
      assert raised.None?;
      raised := Store(fs, uuid, exif, md5Of, ParsedDisposition(r.value.headers));
    }

    /** `download_file()`, `get_file_metadata()` and `add_file_extension()`. */
    method Store(fs: FileSystem, uuid: string, exif: seq<byte> -> Metadata, md5Of: seq<byte> -> string,
                 ghost parsed: Option<Option<string>>) returns (raised: Option<PyError>)
      requires r.Present?
      requires directory.Present? && collectHtml.Present? && downloadStatus.None?
      requires message == (if parsed == Some(None) then Some(UnparsedDisposition) else None)
      requires Mirrored() && filename.Absent? && filepath.Absent? && filetypeExtension.Absent? && mimetype.Absent?
      requires record.directory.None? && record.md5.None? && record.filetypeExtension == Null && record.mimetype == Null
      requires uuid != "" && '/' !in uuid && fs.Unused(Join(directory.value, uuid))
      modifies fs`files, fs`dirs, this`downloadStatus, this`message, this`directory, this`filename, this`filepath
      modifies this`filetypeExtension, this`mimetype, this`record
      ensures Stored(fs, uuid, exif, md5Of, parsed, collectHtml.value, old(directory).value,
                     old(fs.files), old(fs.dirs), Concat(r.value.chunks), raised)
      ensures SameBeforeDownload(old(record), record)
    {
      ghost var dir, files0, dirs0, content := directory.value, fs.files, fs.dirs, Concat(r.value.chunks);
      raised := Inspect(fs, uuid, exif, md5Of, parsed);
      if raised.Some? || downloadStatus != Some(true) {
        StoppedStored(fs, uuid, exif, md5Of, parsed, collectHtml.value, dir, files0, dirs0, content, raised);
        return;
      }
      KeepsGoing(fs, uuid, exif, md5Of, parsed, collectHtml.value, dir, files0, content);
      raised := Extend(fs, uuid, exif, md5Of, parsed, collectHtml.value, dir, files0, dirs0, content);
    }

    /** `add_file_extension()` on a file `get_file_metadata()` kept. */
    method Extend(fs: FileSystem, uuid: string, exif: seq<byte> -> Metadata, md5Of: seq<byte> -> string,
                  ghost parsed: Option<Option<string>>, ghost keepHtml: bool, ghost dir: string,
                  ghost files0: map<string, seq<byte>>, ghost dirs0: set<string>, ghost content: seq<byte>)
      returns (raised: Option<PyError>)
      requires dir != "" && fs.dirs == DirsAfter(dir, files0, dirs0)
      requires !(!keepHtml && IsWebpage(exif(content)))
      requires !(ErrorTag in exif(content) && parsed == Some(None))
      requires downloadStatus == Some(true) && directory == Present(dir) && filename == Present(uuid)
      requires filepath == Present(Join(dir, uuid)) && Join(dir, uuid) !in files0
      requires fs.files == files0[Join(dir, uuid) := content] && Mirrored() && Typed(md5Of, content, exif(content), parsed)
      modifies fs`files, this`filepath, this`filename, this`record
      ensures Stored(fs, uuid, exif, md5Of, parsed, keepHtml, dir, files0, dirs0, content, raised)
      ensures SameBeforeDownload(old(record), record)
    {
      raised := Keep(fs, uuid, exif, md5Of, parsed, files0, content);
      KeptStored(fs, uuid, exif, md5Of, parsed, keepHtml, dir, files0, dirs0, content, raised);
    }

    /** `Stored` when `Inspect` raised or did not keep the file. */
    lemma StoppedStored(fs: FileSystem, uuid: string, exif: seq<byte> -> Metadata, md5Of: seq<byte> -> string,
                        parsed: Option<Option<string>>, keepHtml: bool, dir: string, files0: map<string, seq<byte>>,
                        dirs0: set<string>, content: seq<byte>, raised: Option<PyError>)
      requires raised == Some(FileNotFoundError("")) <==> dir == ""
      requires dir == "" ==> Unwritten(fs, files0, dirs0)
      requires dir != "" ==>
        && fs.dirs == DirsAfter(dir, files0, dirs0)
        && Examined(fs, uuid, exif, md5Of, parsed, keepHtml, dir, files0, content, raised)
      requires raised.Some? || downloadStatus != Some(true)
      ensures Stored(fs, uuid, exif, md5Of, parsed, keepHtml, dir, files0, dirs0, content, raised)
    {
    }

    /** A file `Inspect` kept is neither a discarded webpage nor a NameError. */
    lemma KeepsGoing(fs: FileSystem, uuid: string, exif: seq<byte> -> Metadata, md5Of: seq<byte> -> string,
                     parsed: Option<Option<string>>, keepHtml: bool, dir: string, files0: map<string, seq<byte>>,
                     content: seq<byte>)
      requires dir != "" && Examined(fs, uuid, exif, md5Of, parsed, keepHtml, dir, files0, content, None)
      requires downloadStatus == Some(true)
      ensures !(!keepHtml && IsWebpage(exif(content)))
      ensures !(ErrorTag in exif(content) && parsed == Some(None))
      ensures directory == Present(dir) && filename == Present(uuid) && filepath == Present(Join(dir, uuid))
      ensures fs.files == files0[Join(dir, uuid) := content] && Mirrored() && Typed(md5Of, content, exif(content), parsed)
    {
    }

    /** `Stored` once `Keep` ran on a kept file. */
    lemma KeptStored(fs: FileSystem, uuid: string, exif: seq<byte> -> Metadata, md5Of: seq<byte> -> string,
                     parsed: Option<Option<string>>, keepHtml: bool, dir: string, files0: map<string, seq<byte>>,
                     dirs0: set<string>, content: seq<byte>, raised: Option<PyError>)
      requires dir != "" && fs.dirs == DirsAfter(dir, files0, dirs0)
      requires !(!keepHtml && IsWebpage(exif(content)))
      requires !(ErrorTag in exif(content) && parsed == Some(None))
      requires downloadStatus == Some(true) && directory == Present(dir)
      requires Mirrored() && Typed(md5Of, content, exif(content), parsed)
      requires Kept(fs, uuid, dir, files0, content, Lookup(exif(content), ExtensionTag), raised)
      ensures Stored(fs, uuid, exif, md5Of, parsed, keepHtml, dir, files0, dirs0, content, raised)
    {
    }

    /** `download_file()` then `get_file_metadata()` on a fresh `directory/uuid`. */
    method Inspect(fs: FileSystem, uuid: string, exif: seq<byte> -> Metadata, md5Of: seq<byte> -> string,
                   ghost parsed: Option<Option<string>>) returns (raised: Option<PyError>)
      requires r.Present?
      requires directory.Present? && collectHtml.Present? && downloadStatus.None?
      requires message == (if parsed == Some(None) then Some(UnparsedDisposition) else None)
      requires Mirrored() && filename.Absent? && filepath.Absent? && filetypeExtension.Absent? && mimetype.Absent?
      requires record.directory.None? && record.md5.None? && record.filetypeExtension == Null && record.mimetype == Null
      requires uuid != "" && '/' !in uuid && fs.Unused(Join(directory.value, uuid))
      modifies fs`files, fs`dirs, this`downloadStatus, this`message, this`directory, this`filename, this`filepath
      modifies this`filetypeExtension, this`mimetype, this`record
      ensures SameBeforeDownload(old(record), record)
      ensures raised == Some(FileNotFoundError("")) <==> old(directory).value == ""
      ensures old(directory).value == "" ==> Unwritten(fs, old(fs.files), old(fs.dirs))
      ensures old(directory).value != "" ==>
        && fs.dirs == DirsAfter(old(directory).value, old(fs.files), old(fs.dirs))
        && Examined(fs, uuid, exif, md5Of, parsed, collectHtml.value, old(directory).value, old(fs.files),
                    Concat(r.value.chunks), raised)
    {
      ghost var files0 := fs.files;
      raised := Download(fs, uuid, parsed);
      if raised.Some? {
        return;
      }
      raised := Examine(fs, uuid, exif, md5Of, parsed, directory.value, files0, Concat(r.value.chunks));
    }

    /** `download_file()` on a fresh `directory/uuid`, with the response present. */
    method Download(fs: FileSystem, uuid: string, ghost parsed: Option<Option<string>>) returns (raised: Option<PyError>)
      requires r.Present? && directory.Present? && collectHtml.Present? && downloadStatus.None?
      requires message == (if parsed == Some(None) then Some(UnparsedDisposition) else None)
      requires Mirrored() && filename.Absent? && filepath.Absent? && filetypeExtension.Absent? && mimetype.Absent?
      requires record.directory.None? && record.md5.None? && record.filetypeExtension == Null && record.mimetype == Null
      requires uuid != "" && '/' !in uuid && fs.Unused(Join(directory.value, uuid))
      modifies fs`files, fs`dirs, this`filename, this`filepath, this`downloadStatus, this`record
      ensures SameBeforeDownload(old(record), record)
      ensures raised == Some(FileNotFoundError("")) <==> directory.value == ""
      ensures directory.value == "" ==> Unwritten(fs, old(fs.files), old(fs.dirs))
      ensures directory.value != "" ==>
        && raised.None? && fs.dirs == DirsAfter(directory.value, old(fs.files), old(fs.dirs))
        && Written(fs, uuid, parsed, directory.value, old(fs.files), Concat(r.value.chunks))
    {
      raised := DownloadFile(fs, uuid);
    }

    /** The state `download_file()` leaves for `get_file_metadata()`: the response's body
        `content` written to the fresh file `dir/uuid` over `files0`, the status True and
        nothing about the type known yet. */
    predicate Written(fs: FileSystem, uuid: string, parsed: Option<Option<string>>, dir: string,
                      files0: map<string, seq<byte>>, content: seq<byte>)
      reads this`downloadStatus, this`message, this`directory, this`urlResolved, this`urlFinal, this`record
      reads this`filename, this`filepath, this`filetypeExtension, this`mimetype, this`collectHtml, fs`files
    {
      && directory == Present(dir) && filename == Present(uuid) && filepath == Present(Join(dir, uuid))
      && Join(dir, uuid) !in files0 && fs.files == files0[Join(dir, uuid) := content]
      && collectHtml.Present? && downloadStatus == Some(true)
      && message == (if parsed == Some(None) then Some(UnparsedDisposition) else None)
      && Mirrored() && filetypeExtension.Absent? && mimetype.Absent?
      && record.md5.None? && record.filetypeExtension == Null && record.mimetype == Null
    }

    /** `get_file_metadata()` on the file `dir/uuid` just written with `content` over `files0`. */
    method Examine(fs: FileSystem, uuid: string, exif: seq<byte> -> Metadata, md5Of: seq<byte> -> string,
                   ghost parsed: Option<Option<string>>, ghost dir: string,
                   ghost files0: map<string, seq<byte>>, ghost content: seq<byte>)
      returns (raised: Option<PyError>)
      requires Written(fs, uuid, parsed, dir, files0, content)
      modifies fs`files, this`downloadStatus, this`message, this`directory, this`filename, this`filepath
      modifies this`filetypeExtension, this`mimetype, this`record
      ensures SameBeforeDownload(old(record), record)
      ensures Examined(fs, uuid, exif, md5Of, parsed, collectHtml.value, dir, files0, content, raised)
    {
      raised := GetFileMetadata(fs, exif, md5Of);
      if downloadStatus == Some(false) {
        RemovedFresh(files0, Join(dir, uuid), content);
      }
    }

    /** `add_file_extension()` for the file `directory/uuid` written with `content` over the
        files `files0`, once `get_file_metadata()` kept it. */
    method Keep(fs: FileSystem, uuid: string, exif: seq<byte> -> Metadata, md5Of: seq<byte> -> string,
                ghost parsed: Option<Option<string>>, ghost files0: map<string, seq<byte>>, ghost content: seq<byte>)
      returns (raised: Option<PyError>)
      requires directory.Present? && filename == Present(uuid)
      requires filepath == Present(Join(directory.value, uuid)) && filepath.value !in files0
      requires fs.files == files0[filepath.value := content]
      requires Mirrored() && Typed(md5Of, content, exif(content), parsed)
      modifies fs`files, this`filepath, this`filename, this`record
      ensures Mirrored() && Typed(md5Of, content, exif(content), parsed)
      ensures Kept(fs, uuid, directory.value, files0, content, Lookup(exif(content), ExtensionTag), raised)
      ensures SameBeforeDownload(old(record), record)
    {
      ghost var src := filepath.value;
      ghost var ext := Lookup(exif(content), ExtensionTag);
      ghost var target := if ext.Str? then Join(directory.value, ExtendedName(uuid, ext.s)) else src;
      raised := AddFileExtension(fs);
      if raised.None? && ext.Str? {
        MovedFresh(files0, src, target, content);
      }
    }

    /** The clean-up at the end of `__init__`: `r` is deleted when present, then
        `collect_html`, whose absence raises AttributeError. */
    method Cleanup() returns (raised: Option<PyError>)
      modifies this`r, this`collectHtml
      ensures raised == if old(collectHtml).Absent? then Some(AttributeError("collect_html")) else None
      ensures r.Absent? && collectHtml.Absent?
    {
      r := Absent;
      if collectHtml.Absent? {
        return Some(AttributeError("collect_html"));
      }
      collectHtml := Absent;
      return None;
    }
  }

  /** Unless an exception escaped, `__init__` leaves the status True or False, never None. */
  lemma StatusIsSet(d: DownloadResource, fs: FileSystem, uuid: string, exif: seq<byte> -> Metadata,
                    md5Of: seq<byte> -> string, res: Resolution, now: int, keepHtml: bool, dir: string,
                    files0: map<string, seq<byte>>, dirs0: set<string>, raised: Option<PyError>)
    requires res.failure.None? ==> res.response.Some?
    requires d.Concluded(fs, uuid, exif, md5Of, res, now, keepHtml, dir, files0, dirs0, raised) && raised.None?
    ensures d.downloadStatus.Some?
  {
  }

  /** A file renamed with a string extension is called `<uuid>.<lower-case extension>` and
      lies in the download directory, as long as neither part holds a separator or a ':'. */
  lemma KeptName(d: DownloadResource, fs: FileSystem, uuid: string, dir: string,
                 files0: map<string, seq<byte>>, content: seq<byte>, ext: Value, raised: Option<PyError>)
    requires d.Kept(fs, uuid, dir, files0, content, ext, raised) && raised.None? && ext.Str?
    requires '/' !in uuid && '\\' !in uuid && ':' !in uuid
    requires '/' !in ext.s && '\\' !in ext.s && ':' !in ext.s && !HasUncStart(dir)
    ensures d.filename == Present(ExtendedName(uuid, ext.s))
    ensures d.filepath == Present(Join(dir, ExtendedName(uuid, ext.s)))
    ensures fs.files == files0[Join(dir, ExtendedName(uuid, ext.s)) := content]
  {
    ExtendedNameIsNtBasename(dir, uuid, ext.s);
  }

  /** In a bare UNC server directory such as `//server` the renamed file's path is all drive
      to `ntpath`, so `filename` becomes "". */
  lemma KeptNameOnUncServer(d: DownloadResource, fs: FileSystem, uuid: string, dir: string,
                            files0: map<string, seq<byte>>, content: seq<byte>, ext: Value, raised: Option<PyError>)
    requires d.Kept(fs, uuid, dir, files0, content, ext, raised) && raised.None? && ext.Str?
    requires '/' !in uuid && '\\' !in uuid && '/' !in ext.s && '\\' !in ext.s
    requires HasUncStart(dir) && forall k :: 2 <= k < |dir| ==> !IsNtSep(dir[k])
    ensures d.filename == Present("")
    ensures d.filepath == Present(Join(dir, ExtendedName(uuid, ext.s)))
  {
    var e := ExtendedName(uuid, ext.s);
    assert e == uuid + "." + Lower(ext.s);
    LowerKeeps(ext.s, '/');
    LowerKeeps(ext.s, '\\');
    NtBasenameOnUncServer(dir, e);
  }

  /** The module-level `change_filename(self, ...)` on a download. Only a downloaded file is
      renamed. Both flags read attributes the object never has, so either raises
      AttributeError; otherwise the name is the `new_filename` argument, None meaning no
      change. The file moves to `directory/new_filename` when nothing exists there; when
      something does, the warning names the undefined `download_dir`. */
  method ChangeFilename(res: DownloadResource, fs: FileSystem, fromHeaders: bool, fromUrl: bool, newFilename: Option<string>)
    returns (raised: Option<PyError>)
    modifies fs`files, res`filename, res`filepath, res`renamed
    ensures res.downloadStatus != Some(true) ==> raised.None?
    ensures res.downloadStatus == Some(true) && fromHeaders ==> raised == Some(AttributeError("filename_from_headers"))
    ensures res.downloadStatus == Some(true) && !fromHeaders && fromUrl ==> raised == Some(AttributeError("filename_from_url"))
    ensures res.downloadStatus == Some(true) && !fromHeaders && !fromUrl && newFilename.None? ==>
      raised == if res.filename.Absent? then Some(AttributeError("filename")) else None
    ensures !(res.downloadStatus == Some(true) && !fromHeaders && !fromUrl && newFilename.Some?) ==>
      fs.files == old(fs.files) && res.filename == old(res.filename) && res.filepath == old(res.filepath) &&
      res.renamed == old(res.renamed)
    ensures res.downloadStatus == Some(true) && !fromHeaders && !fromUrl && newFilename.Some? ==>
      Renamed(res, fs, newFilename.value, raised)
  {
    if res.downloadStatus != Some(true) {
      return None;
    }
    if fromHeaders {
      return Some(AttributeError("filename_from_headers"));
    }
    if fromUrl {
      return Some(AttributeError("filename_from_url"));
    }
    if newFilename.None? {
      return if res.filename.Absent? then Some(AttributeError("filename")) else None;
    }
    raised := MoveUnlessTaken(res, fs, newFilename.value);
  }

  /** The end of `change_filename()` for the name `name`. */
  twostate predicate Renamed(res: DownloadResource, fs: FileSystem, name: string, new raised: Option<PyError>)
    reads res, fs
  {
    var same := fs.files == old(fs.files) && res.filename == old(res.filename) &&
                res.filepath == old(res.filepath) && res.renamed == old(res.renamed);
    if res.directory.Absent? then
      raised == Some(AttributeError("directory")) && same
    else
      var target := Join(res.directory.value, name);
      var src := old(res.filepath);
      if old(fs.Exists(target)) then
        raised == (if old(res.filename).Absent? then Some(AttributeError("filename")) else Some(NameError("download_dir")))
        && same
      else if src.Absent? then
        raised == Some(AttributeError("filepath")) && same
      else
        && raised == (if src.value !in old(fs.files) then Some(FileNotFoundError(src.value))
                      else if EndsInSlash(target) then Some(NotADirectoryError(target))
                      else if target in fs.dirs then Some(IsADirectoryError(target)) else None)
        && (raised.Some? ==> same)
        && (raised.None? ==>
              fs.files == Moved(old(fs.files), src.value, target) && res.filename == Present(name) &&
              res.filepath == Present(target) && res.renamed == Present(true))
  }

  /** The move at the end of `change_filename()`. */
  method MoveUnlessTaken(res: DownloadResource, fs: FileSystem, name: string) returns (raised: Option<PyError>)
    modifies fs`files, res`filename, res`filepath, res`renamed
    ensures Renamed(res, fs, name, raised)
  {
    if res.directory.Absent? {
      return Some(AttributeError("directory"));
    }
    var target := Join(res.directory.value, name);
    if fs.Exists(target) {
      return if res.filename.Absent? then Some(AttributeError("filename")) else Some(NameError("download_dir"));
    }
    if res.filepath.Absent? {
      return Some(AttributeError("filepath"));
    }
    raised := fs.Rename(res.filepath.value, target);
    if raised.Some? {
      return;
    }
    res.filename := Present(name);
    res.filepath := Present(target);
    res.renamed := Present(true);
  }
}
