/**
  The request-handling core of the file server: the upload handler
  `handleUpload` (server.go:87-190) and the versioned retrieval handler
  `handleVersioned` (server.go:30-69), over an abstract file store that stands
  for the directories `files/versioned/` and `files/unversioned/`.

  Each handler is a method of the class Server that edits the store and a
  ResponseWriter step by step, as the source does; the functions Upload and
  Retrieve state, as decision tables, what the method leaves behind.
 */
module Cdn {
  import opened Common
  import opened Http
  import opened Sanitizer
  import opened ApiKeys
  import opened Hex

  datatype Subtree = Versioned | Unversioned

  /** A file of the store: `files/versioned/<name>` or `files/unversioned/<name>`. */
  datatype Path = Path(tree: Subtree, name: string)

  /** The files under the two subtrees and their contents. */
  type Store = map<Path, Bytes>

  /** The multipart part `file`: its declared filename and the bytes it carries. */
  datatype FilePart = FilePart(filename: string, content: Bytes)

  /**
    An upload request as the handler sees it after multipart parsing: the
    method, the `file` part if there is one, and the first value of each form field.
   */
  datatype UploadRequest = UploadRequest(verb: string, file: Option<FilePart>, form: map<string, string>)

  /** A request routed to `/files/versioned/{hash}/{fileName}`, with the route variables mux found. */
  datatype VersionedRequest = VersionedRequest(verb: string, vars: map<string, string>)

  /**
    The outcome of the I/O steps of an upload, chosen by the environment:
    buffering the part into memory fails (versioned mode only), `os.Create`
    fails, or the copy into the created file stops with an error after some
    number of bytes.
   */
  datatype Faults = Faults(bufferFails: bool, createFails: bool, copyStopsAfter: Option<nat>)

  /** The response the client receives and the store the handler leaves. */
  datatype Outcome = Outcome(response: Response, store: Store)

  /** `r.FormValue(key)`: the field's value, "" when absent. */
  function FormValue(form: map<string, string>, key: string): string
  {
    if key in form then form[key] else ""
  }

  /** The `versioned` field with "" read as "off" (server.go:121-124). */
  function ModeFlag(r: UploadRequest): string
  {
    var v := FormValue(r.form, "versioned");
    if v == "" then "off" else v
  }

  /** The display name: the `fileName` field, or the part's filename when that is empty (server.go:126-129). */
  function DisplayName(r: UploadRequest): string
    requires r.file.Some?
  {
    var n := FormValue(r.form, "fileName");
    if n == "" then r.file.value.filename else n
  }

  /**
    A path element that, appended to a subtree's directory, names the
    directory itself or its parent rather than a file in it: creating it
    fails and reading it fails.
   */
  predicate DenotesDirectory(name: string)
  {
    name == "" || name == "." || name == ".."
  }

  /** The route pattern's `{hash}` segment never holds a '/'. */
  predicate RoutedByMux(r: VersionedRequest)
  {
    "hash" in r.vars ==> '/' !in r.vars["hash"]
  }

  /** What a copy that stops after `stop` bytes leaves in a freshly truncated file. */
  function Copied(payload: Bytes, stop: Option<nat>): (r: Bytes)
    ensures r <= payload
    ensures stop.None? ==> r == payload
  {
    match stop
    case None => payload
    case Some(n) => if n < |payload| then payload[..n] else payload
  }

  /** A response with only the cross-origin headers and no body. */
  function Bare(status: int, store: Store): Outcome
  {
    Outcome(Response(status, Cors(), []), store)
  }

  /** A successful upload: the confirmation page with its anchor. */
  function Confirmed(store: Store, href: string, text: string): Outcome
  {
    Outcome(Response(STATUS_OK, Cors()["Content-Type" := ["text/html"]], [Confirmation(href, text)]), store)
  }

  /** The write phase of an authorized upload (server.go:142-188). */
  function Save(files: Store, payload: Bytes, name: string, versioned: bool,
                sum256: Bytes -> Digest, io: Faults): Outcome
  {
    var ffName := Sanitize(name);
    if versioned then
      if io.bufferFails then Bare(STATUS_INTERNAL_SERVER_ERROR, files)
      else
        var hash := HashName(sum256(payload));
        var path := Path(Versioned, hash);
        if io.createFails then Bare(STATUS_INTERNAL_SERVER_ERROR, files)
        else if io.copyStopsAfter.Some? then
          Bare(STATUS_INTERNAL_SERVER_ERROR, files[path := Copied(payload, io.copyStopsAfter)])
        else Confirmed(files[path := payload], "/files/versioned/" + hash + "/" + ffName, hash)
    else
      var path := Path(Unversioned, ffName);
      if io.createFails || DenotesDirectory(ffName) then Bare(STATUS_INTERNAL_SERVER_ERROR, files)
      else if io.copyStopsAfter.Some? then
        Bare(STATUS_INTERNAL_SERVER_ERROR, files[path := Copied(payload, io.copyStopsAfter)])
      else Confirmed(files[path := payload], "/files/latest/" + ffName, ffName)
  }

  /** The upload handler as a decision table, terminal at the first failing check (server.go:87-190). */
  function Upload(files: Store, r: UploadRequest, allowList: string,
                  sum256: Bytes -> Digest, io: Faults): Outcome
  {
    if r.verb == "OPTIONS" then Bare(STATUS_OK, files)
    else if r.verb == "GET" then
      Outcome(Response(STATUS_OK, Added(Cors(), "Content-Type", "text/html"), [UploadForm]), files)
    else if r.verb != "POST" then Bare(STATUS_METHOD_NOT_ALLOWED, files)
    else if r.file.None? then Bare(STATUS_BAD_REQUEST, files)
    else if FormValue(r.form, "apikey") == "" then Bare(STATUS_BAD_REQUEST, files)
    else if !Authorized(allowList, FormValue(r.form, "apikey")) then Bare(STATUS_UNAUTHORIZED, files)
    else Save(files, r.file.value.content, DisplayName(r), ModeFlag(r) == "on", sum256, io)
  }

  /**
    The versioned retrieval handler as written (server.go:30-69): the
    download headers are set after the status line, so of the headers the
    code assigns, only the cross-origin ones are sent.
   */
  function Retrieve(files: Store, r: VersionedRequest, readFails: bool): Response
    requires RoutedByMux(r)
  {
    if r.verb == "OPTIONS" then Response(STATUS_OK, Cors(), [])
    else if "hash" !in r.vars || "fileName" !in r.vars then Response(STATUS_BAD_REQUEST, Cors(), [])
    else
      var path := Path(Versioned, r.vars["hash"]);
      if DenotesDirectory(r.vars["hash"]) || path !in files || readFails then
        Response(STATUS_NOT_FOUND, Cors(), [])
      else Response(STATUS_OK, Cors(), [Data(files[path])])
  }

  /** The header server.go:62-65 assigns for a download of `size` bytes named `fileName`. */
  function DownloadHeader(fileName: string, size: nat): Header
  {
    Cors()["Content-Type" := ["application/octet-stream"]]
          ["Content-Disposition" := ["attachment; filename=" + fileName]]
          ["Content-Length" := [Decimal(size)]]
          ["Content-Transfer-Encoding" := ["binary"]]
  }

  /** The versioned retrieval handler with the download headers set before the status line. */
  function RetrieveIntended(files: Store, r: VersionedRequest, readFails: bool): Response
    requires RoutedByMux(r)
  {
    var written := Retrieve(files, r, readFails);
    if written.status == STATUS_OK && r.verb != "OPTIONS" then
      var b := files[Path(Versioned, r.vars["hash"])];
      Response(STATUS_OK, DownloadHeader(r.vars["fileName"], |b|), written.body)
    else written
  }

  /** The file server: the store it writes into and the hash function it addresses versions with. */
  class Server {
    var files: Store
    const sum256: Bytes -> Digest

    constructor (sum256: Bytes -> Digest, files: Store)
      ensures this.files == files && this.sum256 == sum256
    {
      this.files := files;
      this.sum256 := sum256;
    }

    /** `handleUpload`: one request against the store and a fresh response writer. */
    method HandleUpload(w: ResponseWriter, r: UploadRequest, allowList: string, io: Faults)
      requires w.Idle()
      modifies this, w
      ensures files == Upload(old(files), r, allowList, sum256, io).store
      ensures w.Received() == Upload(old(files), r, allowList, sum256, io).response
    {
      w.Set("Access-Control-Allow-Origin", "*");
      w.Set("Access-Control-Allow-Methods", "GET, POST, OPTIONS");
      w.Set("Access-Control-Allow-Headers", "Content-Type, Authorization");
      assert w.header == Cors();

      if r.verb == "OPTIONS" {
        w.WriteHeader(STATUS_OK);
        return;
      }
      if r.verb == "GET" {
        w.Add("Content-Type", "text/html");
        w.WriteHeader(STATUS_OK);
        w.Write(UploadForm);
        return;
      }
      if r.verb != "POST" {
        w.WriteHeader(STATUS_METHOD_NOT_ALLOWED);
        return;
      }
      if r.file.None? {
        w.WriteHeader(STATUS_BAD_REQUEST);
        return;
      }
      var part := r.file.value;

      var versioned := FormValue(r.form, "versioned");
      if versioned == "" {
        versioned := "off";
      }
      var fileName := FormValue(r.form, "fileName");
      if fileName == "" {
        fileName := part.filename;
      }
      var apikey := FormValue(r.form, "apikey");
      if apikey == "" {
        w.WriteHeader(STATUS_BAD_REQUEST);
        return;
      }
      var ok := CheckApiKey(allowList, apikey);
      if !ok {
        w.WriteHeader(STATUS_UNAUTHORIZED);
        return;
      }

      SaveUpload(w, part.content, fileName, versioned == "on", io);
    }

    /** The write phase of `handleUpload`, once the request is authorized (server.go:142-188). */
    method SaveUpload(w: ResponseWriter, payload: Bytes, fileName: string, versioned: bool, io: Faults)
      requires w.header == Cors() && w.status == 0 && w.body == []
      modifies this, w
      ensures files == Save(old(files), payload, fileName, versioned, sum256, io).store
      ensures w.Received() == Save(old(files), payload, fileName, versioned, sum256, io).response
    {
      var ffName := Sanitize(fileName);
      var finalLink := "/files/latest/" + ffName;

      if versioned {
        if io.bufferFails {
          w.WriteHeader(STATUS_INTERNAL_SERVER_ERROR);
          return;
        }
        var buf := payload;
        var hashString := HashName(sum256(buf));
        var path := Path(Versioned, hashString);
        finalLink := "/files/versioned/" + hashString + "/" + ffName;
        ffName := hashString;
        if io.createFails {
          w.WriteHeader(STATUS_INTERNAL_SERVER_ERROR);
          return;
        }
        files := files[path := []];
        files := files[path := Copied(buf, io.copyStopsAfter)];
        if io.copyStopsAfter.Some? {
          w.WriteHeader(STATUS_INTERNAL_SERVER_ERROR);
          return;
        }
      } else {
        var path := Path(Unversioned, ffName);
        if io.createFails || DenotesDirectory(ffName) {
          w.WriteHeader(STATUS_INTERNAL_SERVER_ERROR);
          return;
        }
        files := files[path := []];
        files := files[path := Copied(payload, io.copyStopsAfter)];
        if io.copyStopsAfter.Some? {
          w.WriteHeader(STATUS_INTERNAL_SERVER_ERROR);
          return;
        }
      }

      w.Set("Content-Type", "text/html");
      w.WriteHeader(STATUS_OK);
      w.Write(Confirmation(finalLink, ffName));
    }

    /**
      `handleVersioned`: answers from the store without changing it. After a
      successful read, `w.header` holds the download headers the handler
      assigns, but the client receives the header fixed by WriteHeader.
     */
    method HandleVersioned(w: ResponseWriter, r: VersionedRequest, readFails: bool)
      requires w.Idle() && RoutedByMux(r)
      modifies w
      ensures w.Received() == Retrieve(files, r, readFails)
      ensures w.Received().status == STATUS_OK && r.verb != "OPTIONS" ==>
                w.header == DownloadHeader(r.vars["fileName"], |files[Path(Versioned, r.vars["hash"])]|)
    {
      w.Set("Access-Control-Allow-Origin", "*");
      w.Set("Access-Control-Allow-Methods", "GET, POST, OPTIONS");
      w.Set("Access-Control-Allow-Headers", "Content-Type, Authorization");
      assert w.header == Cors();

      if r.verb == "OPTIONS" {
        w.WriteHeader(STATUS_OK);
        return;
      }
      if "hash" !in r.vars {
        w.WriteHeader(STATUS_BAD_REQUEST);
        return;
      }
      var fileToOpen := r.vars["hash"];
      if "fileName" !in r.vars {
        w.WriteHeader(STATUS_BAD_REQUEST);
        return;
      }
      var fileName := r.vars["fileName"];

      var path := Path(Versioned, fileToOpen);
      if DenotesDirectory(fileToOpen) || path !in files || readFails {
        w.WriteHeader(STATUS_NOT_FOUND);
        return;
      }
      var b := files[path];

      w.WriteHeader(STATUS_OK);
      w.Set("Content-Type", "application/octet-stream");
      w.Set("Content-Disposition", "attachment; filename=" + fileName);
      w.Set("Content-Length", Decimal(|b|));
      w.Set("Content-Transfer-Encoding", "binary");
      w.Write(Data(b));
    }
  }
}
