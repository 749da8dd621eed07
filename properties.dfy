/**
  What the upload and retrieval handlers promise, stated over the decision
  tables Cdn.Upload and Cdn.Retrieve (which the handler methods are proved to
  follow).
 */
module CdnProperties {
  import opened Common
  import opened Http
  import opened Sanitizer
  import opened ApiKeys
  import opened Hex
  import opened Cdn

  /** The request passes every check before the write phase. */
  predicate Admitted(r: UploadRequest, allowList: string)
  {
    r.verb == "POST" && r.file.Some? && FormValue(r.form, "apikey") != ""
    && Authorized(allowList, FormValue(r.form, "apikey"))
  }

  /** No I/O step of the write phase fails. */
  predicate Succeeds(r: UploadRequest, io: Faults)
    requires r.file.Some?
  {
    && !io.createFails && io.copyStopsAfter.None?
    && (ModeFlag(r) == "on" ==> !io.bufferFails)
    && (ModeFlag(r) != "on" ==> !DenotesDirectory(Sanitize(DisplayName(r))))
  }

  /** The body carries no link. */
  predicate NoLink(body: seq<Payload>)
  {
    forall i :: 0 <= i < |body| ==> !body[i].Confirmation?
  }

  /** Every key of the store is one the handlers can create. */
  predicate WellFormed(files: Store)
  {
    forall p :: p in files ==>
      match p.tree
      case Versioned => |p.name| == 64 && IsLowerHex(p.name)
      case Unversioned => IsSanitized(p.name) && !DenotesDirectory(p.name)
  }

  /** Every versioned file is named by the hash of its contents. */
  predicate ContentAddressed(files: Store, sum256: Bytes -> Digest)
  {
    forall p :: p in files && p.tree == Versioned ==> p.name == HashName(sum256(files[p]))
  }

  /** The checks happen in order and each rejection leaves the store unchanged (server.go:93-140). */
  lemma UploadRejections(files: Store, r: UploadRequest, allowList: string, sum256: Bytes -> Digest, io: Faults)
    ensures var o := Upload(files, r, allowList, sum256, io);
      && (r.verb == "OPTIONS" ==> o.response == Response(STATUS_OK, Cors(), []))
      && (r.verb == "GET" ==>
            o.response == Response(STATUS_OK, Added(Cors(), "Content-Type", "text/html"), [UploadForm]))
      && (r.verb != "OPTIONS" && r.verb != "GET" && r.verb != "POST" ==>
            o.response == Response(STATUS_METHOD_NOT_ALLOWED, Cors(), []))
      && (r.verb == "POST" && r.file.None? ==> o.response == Response(STATUS_BAD_REQUEST, Cors(), []))
      && (r.verb == "POST" && r.file.Some? && FormValue(r.form, "apikey") == "" ==>
            o.response == Response(STATUS_BAD_REQUEST, Cors(), []))
      && (r.verb == "POST" && r.file.Some? && FormValue(r.form, "apikey") != ""
          && !Authorized(allowList, FormValue(r.form, "apikey")) ==>
            o.response == Response(STATUS_UNAUTHORIZED, Cors(), []))
      && (!Admitted(r, allowList) ==> o.store == files)
  {
  }

  /** Nothing is written unless the request is an authorized POST with a file part. */
  lemma NoWriteBeforeAuthorization(files: Store, r: UploadRequest, allowList: string,
                                   sum256: Bytes -> Digest, io: Faults)
    requires Upload(files, r, allowList, sum256, io).store != files
    ensures Admitted(r, allowList)
  {
  }

  /** With no allow-list configured, the empty key would pass the key check; the empty-key guard answers 400 first. */
  lemma EmptyKeyNeverAuthorizes(files: Store, r: UploadRequest, sum256: Bytes -> Digest, io: Faults)
    requires r.verb == "POST" && r.file.Some? && FormValue(r.form, "apikey") == ""
    ensures Authorized("", FormValue(r.form, "apikey"))
    ensures Upload(files, r, "", sum256, io) == Outcome(Response(STATUS_BAD_REQUEST, Cors(), []), files)
  {
    UnsetAllowList("");
  }

  lemma CorsSurvivesSet(h: Header, key: string, values: seq<string>)
    requires HasCors(h) && key !in Cors()
    ensures HasCors(h[key := values])
  {
  }

  /** Every upload response carries the three cross-origin headers (server.go:89-91). */
  lemma UploadSendsCors(files: Store, r: UploadRequest, allowList: string, sum256: Bytes -> Digest, io: Faults)
    ensures HasCors(Upload(files, r, allowList, sum256, io).response.header)
  {
    var h := Upload(files, r, allowList, sum256, io).response.header;
    var html := Cors()["Content-Type" := ["text/html"]];
    assert |"Content-Type"| == 12 && "Content-Type" !in Cors();
    assert [] + ["text/html"] == ["text/html"];
    assert Added(Cors(), "Content-Type", "text/html") == html;
    assert h == Cors() || h == html;
    CorsSurvivesSet(Cors(), "Content-Type", ["text/html"]);
  }

  /** Every retrieval response carries the three cross-origin headers (server.go:32-34). */
  lemma RetrieveSendsCors(files: Store, r: VersionedRequest, readFails: bool)
    requires RoutedByMux(r)
    ensures HasCors(Retrieve(files, r, readFails).header)
  {
  }

  /** Versioned mode iff the field is exactly "on"; the display name falls back to the part's filename (server.go:121-129). */
  lemma ModeAndName(r: UploadRequest)
    requires r.file.Some?
    ensures ModeFlag(r) == "on" <==> FormValue(r.form, "versioned") == "on"
    ensures FormValue(r.form, "fileName") != "" ==> DisplayName(r) == r.form["fileName"]
    ensures FormValue(r.form, "fileName") == "" ==> DisplayName(r) == r.file.value.filename
  {
  }

  /** The sanitized name denotes a directory exactly for the names "", "." and "..". */
  lemma SanitizedDirectoryNames(name: string)
    ensures DenotesDirectory(Sanitize(name)) <==> name == "" || name == "." || name == ".."
  {
    var s := Sanitize(name);
    if name != [] && DenotesDirectory(s) {
      assert |name| == |s|;
      assert s[0] == Scrub(name[0]) == '.';
      if |s| == 2 {
        assert s[1] == Scrub(name[1]) == '.';
        assert name == [name[0], name[1]];
      } else {
        assert name == [name[0]];
      }
    }
  }

  /**
    The display names "", "." and ".." fail in unversioned mode, where they
    name a directory, and are stored under the hash in versioned mode.
   */
  lemma DirectoryNameUploads(files: Store, r: UploadRequest, allowList: string, sum256: Bytes -> Digest, io: Faults)
    requires Admitted(r, allowList)
    requires DisplayName(r) == "" || DisplayName(r) == "." || DisplayName(r) == ".."
    ensures ModeFlag(r) != "on" ==>
      Upload(files, r, allowList, sum256, io) == Outcome(Response(STATUS_INTERNAL_SERVER_ERROR, Cors(), []), files)
    ensures ModeFlag(r) == "on" && !io.bufferFails && !io.createFails && io.copyStopsAfter.None? ==>
      var o := Upload(files, r, allowList, sum256, io);
      o.response.status == STATUS_OK
      && o.store == files[Path(Versioned, HashName(sum256(r.file.value.content))) := r.file.value.content]
  {
    SanitizedDirectoryNames(DisplayName(r));
  }

  /** An unversioned upload stores the payload under the sanitized name and links to it (server.go:149, 172-188). */
  lemma UnversionedSuccess(files: Store, r: UploadRequest, allowList: string, sum256: Bytes -> Digest, io: Faults)
    requires Admitted(r, allowList) && ModeFlag(r) != "on" && Succeeds(r, io)
    ensures var o := Upload(files, r, allowList, sum256, io);
      var name := Sanitize(DisplayName(r));
      var path := Path(Unversioned, name);
      && o.response.status == STATUS_OK
      && o.response.body == [Confirmation("/files/latest/" + name, name)]
      && path in o.store && o.store[path] == r.file.value.content
      && (forall p :: p != path ==> (p in o.store <==> p in files))
      && (forall p :: p != path && p in files ==> o.store[p] == files[p])
  {
  }

  /**
    A versioned upload stores the payload under its hash and links to
    `/files/versioned/<hash>/<name>`, with the hash as the anchor text (server.go:151-171, 188).
   */
  lemma VersionedSuccess(files: Store, r: UploadRequest, allowList: string, sum256: Bytes -> Digest, io: Faults)
    requires Admitted(r, allowList) && ModeFlag(r) == "on" && Succeeds(r, io)
    ensures var o := Upload(files, r, allowList, sum256, io);
      var hash := HashName(sum256(r.file.value.content));
      var path := Path(Versioned, hash);
      && o.response.status == STATUS_OK
      && o.response.body == [Confirmation("/files/versioned/" + hash + "/" + Sanitize(DisplayName(r)), hash)]
      && path in o.store && o.store[path] == r.file.value.content
      && (forall p :: p != path ==> (p in o.store <==> p in files))
      && (forall p :: p != path && p in files ==> o.store[p] == files[p])
  {
  }

  /** A failing I/O step answers 500 with no link (server.go:153-183). */
  lemma FaultsAdvertiseNoLink(files: Store, r: UploadRequest, allowList: string, sum256: Bytes -> Digest, io: Faults)
    requires Admitted(r, allowList) && !Succeeds(r, io)
    ensures Upload(files, r, allowList, sum256, io).response == Response(STATUS_INTERNAL_SERVER_ERROR, Cors(), [])
  {
  }

  /** Only a successful upload shows a link. */
  lemma LinkOnlyOnSuccess(files: Store, r: UploadRequest, allowList: string, sum256: Bytes -> Digest, io: Faults)
    ensures var o := Upload(files, r, allowList, sum256, io);
      !NoLink(o.response.body) ==> o.response.status == STATUS_OK && Admitted(r, allowList) && Succeeds(r, io)
  {
  }

  /** Repeating the write phase leaves the same store and gets the same response. */
  lemma SaveIdempotent(files: Store, payload: Bytes, name: string, versioned: bool,
                       sum256: Bytes -> Digest, io: Faults)
    ensures var o := Save(files, payload, name, versioned, sum256, io);
      Save(o.store, payload, name, versioned, sum256, io) == o
  {
    var o := Save(files, payload, name, versioned, sum256, io);
    var path := if versioned then Path(Versioned, HashName(sum256(payload)))
                else Path(Unversioned, Sanitize(name));
    var written := Copied(payload, io.copyStopsAfter);
    assert o.store == files || o.store == files[path := written];
    assert o.store[path := written] == files[path := written];
  }

  /** Repeating any upload request leaves the same store and gets the same response. */
  lemma UploadIdempotent(files: Store, r: UploadRequest, allowList: string, sum256: Bytes -> Digest, io: Faults)
    ensures var o := Upload(files, r, allowList, sum256, io);
      Upload(o.store, r, allowList, sum256, io) == o
  {
    if Admitted(r, allowList) {
      SaveIdempotent(files, r.file.value.content, DisplayName(r), ModeFlag(r) == "on", sum256, io);
    }
  }

  lemma AppendCancel(prefix: string, a: string, b: string)
    ensures prefix + a == prefix + b <==> a == b
  {
    if prefix + a == prefix + b {
      assert a == (prefix + a)[|prefix|..];
      assert b == (prefix + b)[|prefix|..];
    }
  }

  /**
    Identical bytes uploaded in versioned mode under two names land in the same
    file, and the two links differ exactly when the sanitized names do.
   */
  lemma SameBytesTwoNames(files: Store, r1: UploadRequest, r2: UploadRequest, allowList: string,
                          sum256: Bytes -> Digest, io: Faults)
    requires Admitted(r1, allowList) && ModeFlag(r1) == "on" && Succeeds(r1, io)
    requires Admitted(r2, allowList) && ModeFlag(r2) == "on" && Succeeds(r2, io)
    requires r1.file.value.content == r2.file.value.content
    ensures Upload(files, r1, allowList, sum256, io).store == Upload(files, r2, allowList, sum256, io).store
    ensures Upload(files, r1, allowList, sum256, io).response == Upload(files, r2, allowList, sum256, io).response
            <==> Sanitize(DisplayName(r1)) == Sanitize(DisplayName(r2))
  {
    var hash := HashName(sum256(r1.file.value.content));
    AppendCancel("/files/versioned/" + hash + "/", Sanitize(DisplayName(r1)), Sanitize(DisplayName(r2)));
  }

  /** A second unversioned upload under the same sanitized name replaces the first one's bytes. */
  lemma UnversionedOverwrite(files: Store, r1: UploadRequest, r2: UploadRequest, allowList: string,
                             sum256: Bytes -> Digest, io: Faults)
    requires Admitted(r1, allowList) && ModeFlag(r1) != "on" && Succeeds(r1, io)
    requires Admitted(r2, allowList) && ModeFlag(r2) != "on" && Succeeds(r2, io)
    requires Sanitize(DisplayName(r1)) == Sanitize(DisplayName(r2))
    ensures var once := Upload(files, r1, allowList, sum256, io).store;
      Upload(once, r2, allowList, sum256, io).store
        == files[Path(Unversioned, Sanitize(DisplayName(r2))) := r2.file.value.content]
  {
  }

  /**
    After a versioned upload of P, a download of the hash of P returns P,
    whatever file name the URL carries (server.go:151-171, 54-67).
   */
  lemma UploadThenRetrieve(files: Store, r: UploadRequest, allowList: string, sum256: Bytes -> Digest,
                           io: Faults, q: VersionedRequest)
    requires Admitted(r, allowList) && ModeFlag(r) == "on" && Succeeds(r, io)
    requires q.verb != "OPTIONS" && "fileName" in q.vars
    requires "hash" in q.vars && q.vars["hash"] == HashName(sum256(r.file.value.content))
    ensures RoutedByMux(q)
    ensures var stored := Upload(files, r, allowList, sum256, io).store;
      && Retrieve(stored, q, false) == Response(STATUS_OK, Cors(), [Data(r.file.value.content)])
      && RetrieveIntended(stored, q, false).body == [Data(r.file.value.content)]
  {
    var hash := q.vars["hash"];
    assert |hash| == 64 && IsLowerHex(hash);
    assert hash[0] != '/' && hash[0] != '.';
    assert '/' !in hash by {
      forall i | 0 <= i < |hash| ensures hash[i] != '/' {
        assert IsLowerHexDigit(hash[i]);
      }
    }
  }

  /** Retrieval answers 400, 404 or 200 with the stored bytes, and never looks at the fileName segment (server.go:36-67). */
  lemma RetrieveOutcomes(files: Store, r: VersionedRequest, readFails: bool, otherName: string)
    requires RoutedByMux(r)
    ensures var o := Retrieve(files, r, readFails);
      && o.status in {STATUS_OK, STATUS_BAD_REQUEST, STATUS_NOT_FOUND}
      && (r.verb == "OPTIONS" ==> o == Response(STATUS_OK, Cors(), []))
      && (r.verb != "OPTIONS" && ("hash" !in r.vars || "fileName" !in r.vars) ==>
            o == Response(STATUS_BAD_REQUEST, Cors(), []))
      && (r.verb != "OPTIONS" && "hash" in r.vars && "fileName" in r.vars ==>
            var path := Path(Versioned, r.vars["hash"]);
            && (readFails || path !in files || DenotesDirectory(r.vars["hash"]) ==>
                  o == Response(STATUS_NOT_FOUND, Cors(), []))
            && (!readFails && path in files && !DenotesDirectory(r.vars["hash"]) ==>
                  o == Response(STATUS_OK, Cors(), [Data(files[path])])))
      && (o.status == STATUS_OK && r.verb != "OPTIONS" ==>
            o.body == [Data(files[Path(Versioned, r.vars["hash"])])])
      && (r.verb != "OPTIONS" && "hash" in r.vars && "fileName" in r.vars && !readFails ==>
            (o.status == STATUS_NOT_FOUND <==> Path(Versioned, r.vars["hash"]) !in files || DenotesDirectory(r.vars["hash"])))
    ensures "fileName" in r.vars ==>
      Retrieve(files, r, readFails) == Retrieve(files, r.(vars := r.vars["fileName" := otherName]), readFails)
  {
  }

  /** Every key the write phase adds to the store is well formed. */
  lemma SaveKeepsStoreWellFormed(files: Store, payload: Bytes, name: string, versioned: bool,
                                 sum256: Bytes -> Digest, io: Faults)
    requires WellFormed(files)
    ensures WellFormed(Save(files, payload, name, versioned, sum256, io).store)
  {
    var stored := Save(files, payload, name, versioned, sum256, io).store;
    var ffName := Sanitize(name);
    var hash := HashName(sum256(payload));
    forall p | p in stored
      ensures match p.tree
        case Versioned => |p.name| == 64 && IsLowerHex(p.name)
        case Unversioned => IsSanitized(p.name) && !DenotesDirectory(p.name)
    {
      if p !in files {
        if versioned {
          assert p == Path(Versioned, hash);
        } else {
          assert p == Path(Unversioned, ffName);
        }
      }
    }
  }

  /** Every key the upload handler adds to the store is well formed. */
  lemma UploadKeepsStoreWellFormed(files: Store, r: UploadRequest, allowList: string,
                                   sum256: Bytes -> Digest, io: Faults)
    requires WellFormed(files)
    ensures WellFormed(Upload(files, r, allowList, sum256, io).store)
  {
    if Admitted(r, allowList) {
      SaveKeepsStoreWellFormed(files, r.file.value.content, DisplayName(r), ModeFlag(r) == "on", sum256, io);
    }
  }

  /** An upload whose copy completes keeps every versioned file named by the hash of its contents. */
  lemma UploadKeepsContentAddressed(files: Store, r: UploadRequest, allowList: string,
                                    sum256: Bytes -> Digest, io: Faults)
    requires ContentAddressed(files, sum256) && io.copyStopsAfter.None?
    ensures ContentAddressed(Upload(files, r, allowList, sum256, io).store, sum256)
  {
  }

  /**
    `os.Create` truncates before the copy, so a re-upload of stored content
    whose copy stops early leaves the versioned file shorter than before.
   */
  lemma InterruptedCopyTruncatesVersion(files: Store, r: UploadRequest, allowList: string,
                                        sum256: Bytes -> Digest, n: nat)
    requires Admitted(r, allowList) && ModeFlag(r) == "on" && n < |r.file.value.content|
    ensures var path := Path(Versioned, HashName(sum256(r.file.value.content)));
      var o := Upload(files, r, allowList, sum256, Faults(false, false, Some(n)));
      && o.response.status == STATUS_INTERNAL_SERVER_ERROR
      && o.store[path] == r.file.value.content[..n] && o.store[path] != r.file.value.content
  {
  }

  /**
    As written, a successful download sends no Content-Disposition header: it
    is assigned after WriteHeader (server.go:61-65).
   */
  lemma RetrieveOmitsDisposition(files: Store, r: VersionedRequest, readFails: bool)
    requires RoutedByMux(r)
    requires Retrieve(files, r, readFails).status == STATUS_OK && r.verb != "OPTIONS"
    ensures "Content-Disposition" !in Retrieve(files, r, readFails).header
  {
  }

  /** With the headers set before the status line, the download carries the URL's file name and the byte count. */
  lemma RetrieveIntendedNamesDownload(files: Store, r: VersionedRequest, readFails: bool)
    requires RoutedByMux(r)
    requires RetrieveIntended(files, r, readFails).status == STATUS_OK && r.verb != "OPTIONS"
    ensures var o := RetrieveIntended(files, r, readFails);
      && HasCors(o.header)
      && "Content-Disposition" in o.header
      && o.header["Content-Disposition"] == ["attachment; filename=" + r.vars["fileName"]]
      && o.body == Retrieve(files, r, readFails).body
      && |o.body| == 1 && o.body[0].Data?
      && "Content-Length" in o.header && |o.header["Content-Length"]| == 1
      && DecimalValue(o.header["Content-Length"][0]) == |o.body[0].bytes|
  {
  }
}
