/** The upload script (apps/worker/upload.py): copies one local file into
    the storage directory and inserts a document record and a pending
    embedding task for it.

    The file system is described by what the script learns from it (is the
    path a regular file, its name and size, the first bytes decoded as
    text); the ids and the clock readings are parameters. */
module UploadScript {
  import opened Wrappers
  import opened Text
  import opened Environ
  import opened EmbeddingWorker
  import SeedInit

  datatype UploadSettings = UploadSettings(url: string, database: string, documents: string, embeddings: string)

  /** `resolve_mongo_from_env` of the upload script: the URL, the database
      and the two collections, each from the argument, else the
      environment, else a default; without a URL it exits with status 1. */
  function ResolveUploadMongo(url: Option<string>, dbName: Option<string>, docsCol: Option<string>,
                              embsCol: Option<string>, env: Env): (r: Result<UploadSettings, Exit>)
    ensures r.Err? <==> !Truthy(url) && !Truthy(Getenv(env, "MONGO_URL"))
    ensures r.Err? ==> r.error == Exit(1, SeedInit.MissingUrlError)
    ensures r.Ok? ==> r.value.url != ""
  {
    var resolvedUrl := Or(url, Getenv(env, "MONGO_URL"));
    if !Truthy(resolvedUrl) then Err(Exit(1, SeedInit.MissingUrlError))
    else
      Ok(UploadSettings(resolvedUrl.value,
                        Resolved(dbName, env, ["MONGO_DB"], "pagemate"),
                        Resolved(docsCol, env, ["MONGO_DOCUMENTS_COLLECTION"], "documents"),
                        Resolved(embsCol, env, ["MONGO_COLLECTION", "MONGO_EMBEDDINGS_COLLECTION"], "document_embeddings")))
  }

  /** The defaults and the embeddings precedence of the upload settings. */
  lemma ResolveUploadPrecedence(url: Option<string>, dbName: Option<string>, docsCol: Option<string>,
                                embsCol: Option<string>, env: Env)
    requires ResolveUploadMongo(url, dbName, docsCol, embsCol, env).Ok?
    ensures var s := ResolveUploadMongo(url, dbName, docsCol, embsCol, env).value;
      && (Truthy(url) ==> s.url == url.value)
      && (!Truthy(url) ==> s.url == env["MONGO_URL"])
      && (!Truthy(dbName) && !Truthy(Getenv(env, "MONGO_DB")) ==> s.database == "pagemate")
      && (!Truthy(docsCol) && !Truthy(Getenv(env, "MONGO_DOCUMENTS_COLLECTION")) ==> s.documents == "documents")
      && (Truthy(embsCol) ==> s.embeddings == embsCol.value)
      && (!Truthy(embsCol) && Truthy(Getenv(env, "MONGO_COLLECTION")) ==> s.embeddings == env["MONGO_COLLECTION"])
      && ((!Truthy(embsCol) && !Truthy(Getenv(env, "MONGO_COLLECTION"))
           && Truthy(Getenv(env, "MONGO_EMBEDDINGS_COLLECTION"))) ==>
            s.embeddings == env["MONGO_EMBEDDINGS_COLLECTION"])
      && ((!Truthy(embsCol) && !Truthy(Getenv(env, "MONGO_COLLECTION"))
           && !Truthy(Getenv(env, "MONGO_EMBEDDINGS_COLLECTION"))) ==> s.embeddings == "document_embeddings")
  {
    ResolvedPrecedence(dbName, env, ["MONGO_DB"], "pagemate");
    ResolvedPrecedence(docsCol, env, ["MONGO_DOCUMENTS_COLLECTION"], "documents");
    ResolvedPrecedence(embsCol, env, ["MONGO_COLLECTION", "MONGO_EMBEDDINGS_COLLECTION"], "document_embeddings");
  }

  /** The command line of the script. `storageRoot` is None when
      `--storage-root` is not given. */
  datatype UploadArgs = UploadArgs(tenantId: string, file: string, name: Option<string>, storageRoot: Option<string>,
                                   mongoUrl: Option<string>, mongoDb: Option<string>,
                                   docsCol: Option<string>, embsCol: Option<string>)

  /** What the script learns about the source path: whether it is an existing
      regular file, its name and size, whether reading it raised, and the
      text its first 20000 bytes decode to. */
  datatype SourceFile = SourceFile(isFile: bool, name: string, size: nat, readable: bool, head: string)

  /** `try_read_text_preview`: nothing for an empty or unreadable file,
      otherwise the stripped text when it is not empty. */
  function TextPreview(src: SourceFile): (r: Option<string>)
    ensures r.Some? ==> r.value != "" && Stripped(r.value, PySpace)
    ensures r.None? <==> src.size == 0 || !src.readable || PyBlank(src.head)
  {
    StripSpec(src.head, PySpace);
    if src.size == 0 || !src.readable then None
    else
      var text := PyStrip(src.head);
      if text == "" then None else Some(text)
  }

  /** How `main` ends: an exit status, both records inserted, or an insert
      that raised. Nothing catches that error, so the script dies with it,
      leaving the copied file at `dest` and, when the task insert was the
      one that raised, the document record without its task. */
  datatype UploadOutcome =
    | Exited(status: int)
    | Uploaded(settings: UploadSettings, dest: string, document: Record, task: Record)
    | Aborted(error: Exc, settings: UploadSettings, dest: string, inserted: Option<Record>)

  /** The storage root: `--storage-root`, else `STORAGE_ROOT`, else "storage". */
  function StorageRoot(args: UploadArgs, env: Env): string {
    args.storageRoot.GetOr(GetenvOr(env, "STORAGE_ROOT", "storage"))
  }

  /** The display name: `--name` when non-empty, else the source file's name. */
  function BaseName(args: UploadArgs, src: SourceFile): (r: string)
    ensures Truthy(args.name) ==> r == args.name.value
    ensures !Truthy(args.name) ==> r == src.name
  {
    if Truthy(args.name) then args.name.value else src.name
  }

  /** The document record of an upload. */
  function UploadDocument(documentId: string, tenantId: string, name: string, dest: string,
                          size: nat, t0: int, t1: int): (r: Record)
    ensures KeyedBy(r, documentId)
    ensures "name" in r && r["name"] == Str(name)
    ensures "object_path" in r && r["object_path"] == Str(dest)
    ensures "tenant_id" in r && r["tenant_id"] == Str(tenantId)
  {
    map["_id" := Str(documentId), "tenant_id" := Str(tenantId), "name" := Str(name),
        "object_path" := Str(dest), "size" := Num(size), "createdAt" := Time(t0), "updatedAt" := Time(t1)]
  }

  /** The embedding task of an upload: pending, pointing at its document,
      stamped with two clock readings, and holding the preview as `text`
      exactly when there is one. */
  predicate IsUploadTask(task: Record, embeddingId: string, documentId: string, t2: int, t3: int,
                         preview: Option<string>)
  {
    && KeyedBy(task, embeddingId)
    && HasStatus(task, "pending")
    && "document_id" in task && task["document_id"] == Str(documentId)
    && "createdAt" in task && task["createdAt"] == Time(t2)
    && "updatedAt" in task && task["updatedAt"] == Time(t3)
    && ("text" in task <==> preview.Some?)
    && (preview.Some? ==> task["text"] == Str(preview.value))
    && task.Keys <= {"_id", "document_id", "status", "createdAt", "updatedAt", "text"}
  }

  /** An upload task holding `text` is embedded from that text; one without
      it has nothing the worker can embed. */
  lemma TaskExtraction(task: Record, embeddingId: string, documentId: string, t2: int, t3: int,
                       preview: Option<string>)
    requires IsUploadTask(task, embeddingId, documentId, t2, t3, preview)
    requires preview.Some? ==> !PyBlank(preview.value)
    ensures preview.Some? ==> Extraction(task, None) == Ok(preview.value)
    ensures preview.None? ==> Extraction(task, None) == Err(NoTextError)
  {
    assert "content" !in task && "input" !in task;
    ExtractionFailure(task, None);
    if preview.Some? {
      ExtractionOrder(task, None);
    }
  }

  /** The `emb_payload` of `main`: built pending, then given the preview as
      `text` in place when there is one. */
  method NewTask(embeddingId: string, documentId: string, t2: int, t3: int, preview: Option<string>)
    returns (task: Record)
    ensures IsUploadTask(task, embeddingId, documentId, t2, t3, preview)
  {
    task := map["_id" := Str(embeddingId), "document_id" := Str(documentId), "status" := Str("pending"),
                "createdAt" := Time(t2), "updatedAt" := Time(t3)];
    if preview.Some? {
      task := task["text" := Str(preview.value)];
    }
  }

  /** `main` of the upload script, with the ids `uuid4` draws, the four
      readings of `utc_now()` and the errors the two `insert_one` calls
      raise, if any, as parameters. A source that is not a regular file
      ends it with status 2 before the store settings are looked at. */
  method Upload(args: UploadArgs, env: Env, src: SourceFile, documentId: string, embeddingId: string,
                t0: int, t1: int, t2: int, t3: int, documentFault: Option<Exc>, taskFault: Option<Exc>)
    returns (out: UploadOutcome)
    ensures !src.isFile ==> out == Exited(2)
    ensures src.isFile && ResolveUploadMongo(args.mongoUrl, args.mongoDb, args.docsCol, args.embsCol, env).Err? ==>
              out == Exited(1)
    ensures src.isFile && ResolveUploadMongo(args.mongoUrl, args.mongoDb, args.docsCol, args.embsCol, env).Ok? ==>
              && !out.Exited?
              && out.settings == ResolveUploadMongo(args.mongoUrl, args.mongoDb, args.docsCol, args.embsCol, env).value
              && out.dest == SeedInit.StoragePath(StorageRoot(args, env), args.tenantId, documentId, BaseName(args, src))
              && (documentFault.Some? ==> out == Aborted(documentFault.value, out.settings, out.dest, None))
              && (documentFault.None? && taskFault.Some? ==>
                    out == Aborted(taskFault.value, out.settings, out.dest,
                                  Some(UploadDocument(documentId, args.tenantId, BaseName(args, src), out.dest, src.size, t0, t1))))
              && (documentFault.None? && taskFault.None? ==>
                    out.Uploaded? &&
                    out.document == UploadDocument(documentId, args.tenantId, BaseName(args, src), out.dest, src.size, t0, t1))
    ensures out.Uploaded? ==> IsUploadTask(out.task, embeddingId, documentId, t2, t3, TextPreview(src))
    ensures out.Uploaded? ==>
              Extraction(out.task, None) == if TextPreview(src).Some? then Ok(TextPreview(src).value) else Err(NoTextError)
  {
    if !src.isFile {
      return Exited(2);
    }
    var settings := ResolveUploadMongo(args.mongoUrl, args.mongoDb, args.docsCol, args.embsCol, env);
    if settings.Err? {
      return Exited(settings.error.status);
    }
    var baseName := BaseName(args, src);
    var dest := SeedInit.StoragePath(StorageRoot(args, env), args.tenantId, documentId, baseName);
    var document := UploadDocument(documentId, args.tenantId, baseName, dest, src.size, t0, t1);
    if documentFault.Some? {
      return Aborted(documentFault.value, settings.value, dest, None);
    }
    var preview := TextPreview(src);
    var task := NewTask(embeddingId, documentId, t2, t3, preview);
    if taskFault.Some? {
      return Aborted(taskFault.value, settings.value, dest, Some(document));
    }
    TaskExtraction(task, embeddingId, documentId, t2, t3, preview);
    out := Uploaded(settings.value, dest, document, task);
  }
}
