# Pagemate core, modelled in Dafny

Pagemate is a page-assistant product. Its repository holds a Python embedding
worker with two helper scripts, a tenant-insurance demo site, and a chat front
end with a floating assistant widget. This project models the logic of those
pieces that can be stated without I/O, and proves what that logic promises.

- **Embedding worker** (`worker_main.dfy`, module `EmbeddingWorker`).
  - A collection of records doubles as a job queue whose `status` moves
    `pending → processing → completed | failed`.
  - The collection is a class over a `map` of records. It has a fault
    schedule, so any store operation may raise.
  - The model covers the atomic claim, dotted-path lookup, text extraction,
    the status writes of `process_embedding`, `_short_id`, one drain of the
    polling loop with its sleep decision, and startup configuration.
- **Seed script** (`worker_init.dfy`, `SeedInit`): configuration precedence,
  `slugify` with its `while "--" in s` loop, the tenant upsert, the URL
  file name, the storage layout, and the seeded document and task payloads.
- **Upload script** (`worker_upload.dfy`, `UploadScript`): its configuration,
  text preview, destination path, and the document and pending-task records.
- **Tenant-insurance demo**:
  - the task-timer store and its `mm:ss` formatter (`task_store.dfy`, `task_timer.dfy`);
  - the rating engine and the estimate route in front of it (`rating.dfy`, `estimate_route.dfy`);
  - the quick-quote form (`quote_form.dfy`);
  - the quote wizard's schema and step machine (`quote_wizard.dfy`).
- **Floating widgets**:
  - the corner geometry and nearest-corner snap (`corners.dfy`);
  - both versions of the `useDraggable` hook (`draggable.dfy`, `draggable_legacy.dfy`);
  - the floating orb's popup placement and click-versus-drag test (`floating_orb.dfy`).
- **Chat text**:
  - `ACTION` directive parsing, clickable lookup, and retrieval summaries and
    context blocks (`pagemate_chat.dfy`);
  - the segmenters that split an assistant message into markdown, command and
    RAG parts (`chat_view.dfy`);
  - the chat API handler's validation order and prompt assembly (`chat_api.dfy`);
  - the customer page's file-type badge and upload and drag state (`customer_detail.dfy`).
- **Shared modules**: `wrappers.dfy` (Option, Result), `text.dfy` (JavaScript
  and Python whitespace, trimming, split and join, decimal digits, UTF-16
  lengths), `environ.dfy` (environment lookups and `a or b or c` fallback
  chains) and `pure_path.dfy` (`PurePaths`: pathlib's parsing, `/` join and
  `str()` of POSIX paths).

Code that mutates state keeps that form in the model:
- classes with `modifies` clauses: the store, the hooks, the page state and the job collection;
- `while` loops with invariants: the corner scan, slugify, dotted lookup, the drain loop, and the `re.exec` loops.

Each method is proved against a specification function, and the properties
are proved as lemmas about that function.

Regular expressions are abstracted as the list of their matches: spans and
captured groups, ordered, non-overlapping and in bounds. DOM lookups become
lists of candidate labels.

Inputs that are not logic become parameters:
- clock readings;
- `uuid4` ids;
- the provider's reply;
- the store's faults, in the job collection and in the scripts' inserts and upsert;
- which texts `float()` accepts;
- what the upload requests settle to;
- `Math.round` over floating-point factors;
- `toFixed`;
- the e-mail validator;
- `stripJunk`.

## Model

| member | source | states |
|---|---|---|
| EmbeddingWorker.Collection.FindOneAndUpdate | apps/worker/main.py:50-54 | A fault is returned and changes nothing. Otherwise it returns None, changing nothing, exactly when no record has the status. Else it returns a record that had the status, with the fields merged in, and no other record changes. |
| EmbeddingWorker.Collection.UpdateOne | apps/worker/main.py:95-98 | Returns the fault of this operation, if any. Without a fault it merges the fields into the record whose `_id` matches; nothing else changes. |
| EmbeddingWorker.ClaimLeavesPending | apps/worker/main.py:48-58 | Claiming a pending record removes exactly that record from the pending set. |
| EmbeddingWorker.ClaimPending | apps/worker/main.py:48-58 | The returned record was pending. It is now `processing` with `startedAt` = now. No other record changes. None means nothing was pending or the store raised, and then nothing changed. |
| EmbeddingWorker.LookupAppend | apps/worker/main.py:61-68 | Looking up the path p + q is looking up q in the value found for p, or None when p fails. |
| EmbeddingWorker.LookupPresent | apps/worker/main.py:61-68 | The lookup is Some exactly when every segment is present in a nested dictionary. |
| EmbeddingWorker.ReadDotted | apps/worker/main.py:61-68 | The walk over the dot-separated segments returns the nested value when every segment is present in a nested dict, else None. |
| EmbeddingWorker.FirstText | apps/worker/main.py:78-81 | A returned text is never blank. |
| EmbeddingWorker.FirstTextEarliest | apps/worker/main.py:78-81 | None exactly when no candidate holds a non-blank string. Otherwise the value of the first candidate that does. |
| EmbeddingWorker.ExtractionOrder | apps/worker/main.py:71-83 | A non-blank preferred dotted field wins. Otherwise the first non-blank of `text`, `content`, `input` is returned unchanged. |
| EmbeddingWorker.ExtractionFailure | apps/worker/main.py:71-83 | Extraction fails exactly when neither the preferred field nor any of `text`, `content`, `input` holds a non-blank string. The error is the fixed message, and a success is never blank. |
| EmbeddingWorker.ExtractTextForEmbedding | apps/worker/main.py:71-83 | The method's result is the extraction order above: the text, or the error raised. |
| EmbeddingWorker.SetByIdKeepsPending | apps/worker/main.py:95-98 | Writing a non-pending status never adds to the pending set. |
| EmbeddingWorker.MarkFailed | apps/worker/main.py:90-101 | Writes `failed`, the error text and `failedAt` into the job's record unless the store raises. Nothing else changes. |
| EmbeddingWorker.StoreVector | apps/worker/main.py:103-131 | The new records are the specified writes for a vector: `completed` with the vector and `completedAt`, or, when that write raises, the store's exception as `failed`. |
| EmbeddingWorker.StoreReply | apps/worker/main.py:103-131 | The new records are the specified writes for the provider's reply. |
| EmbeddingWorker.EmbedWritesOutcome | apps/worker/main.py:103-131 | Only the job's record changes. A vector gives `completed`, the vector and `completedAt`. A provider exception gives `failed`, `"<ExceptionType>: <message>"` and `failedAt`. A store fault on the vector write gives `failed` with that exception. |
| EmbeddingWorker.EmbedWritesKeepPending | apps/worker/main.py:103-131 | The writes for a reply never add to the pending set. |
| EmbeddingWorker.ProcessWritesKeepPending | apps/worker/main.py:86-131 | Processing a job never adds to the pending set. |
| EmbeddingWorker.ProcessEmbedding | apps/worker/main.py:86-131 | An extraction failure marks the job `failed` without asking the provider. Otherwise the provider is asked once, with (model, text), and its reply is stored. The new records are the specified writes. |
| EmbeddingWorker.ShortId | apps/worker/main.py:134-136 | Ids of at most 8 characters are unchanged. Longer ids become 9 characters: the first 6, "…" and the last 2. |
| EmbeddingWorker.ShortIdStable | apps/worker/main.py:134-136 | A short id has at most 9 characters and is its own short form. |
| EmbeddingWorker.ClaimAndProcess | apps/worker/main.py:159-166 | A failed claim changes nothing and means nothing is pending or the store raised. A successful claim strictly shrinks the pending set. |
| EmbeddingWorker.DrainOnce | apps/worker/main.py:156-169 | Claims and processes until a claim yields nothing. Afterwards nothing is pending or the last claim raised. The worker sleeps exactly when the drain claimed nothing, and then nothing changed. |
| EmbeddingWorker.WorkerStartupSpec | apps/worker/main.py:139-147 | Startup exits with status 1 in three cases, checked in this order: `OPENAI_API_KEY` is missing or empty, `POLL_INTERVAL` (default "1.0") is not accepted by `float()`, or `MONGO_URL` is missing or empty. Each case has its own message. Otherwise it uses those values, with a poll interval that parses, and the documented defaults. |
| Environ.FirstTruthyPicksEarliest | apps/worker/init.py:26-34 | An `a or b or c` chain picks its first non-empty operand. |
| Environ.ResolvedPrecedence | apps/worker/init.py:26-34 | A setting is the argument, else the first non-empty environment variable in order, else the default. |
| SeedInit.ResolveMongo | apps/worker/init.py:14-35 | Exits with status 1 exactly when neither the argument nor `MONGO_URL` gives a URL. |
| SeedInit.ResolveMongoPrecedence | apps/worker/init.py:21-27 | The URL and database follow argument > environment > default. |
| SeedInit.ResolveCollectionsPrecedence | apps/worker/init.py:28-34 | Embeddings: argument > `MONGO_COLLECTION` > `MONGO_EMBEDDINGS_COLLECTION` > "document_embeddings". Tenants and documents follow argument > environment > default. |
| SeedInit.SeedIgnoresCollectionArguments | apps/worker/init.py:85-89 | The seed as written seeds "tenants" even when `--tenants-collection orgs` resolves the tenants collection to "orgs". |
| SeedInit.SeedCollectionsHonourArguments | apps/worker/init.py:183-185 | The corrected seed uses exactly the collections the resolution picked. |
| SeedInit.KeepChar | apps/worker/init.py:39 | Every output character is a slug character, and a slug character is kept as it is. |
| SeedInit.KeepChars | apps/worker/init.py:39 | Maps each character as above, so the output has the input's length. |
| SeedInit.CollapseShape | apps/worker/init.py:41-42 | Collapsing leaves no "--" and keeps a string of slug characters made of slug characters. |
| SeedInit.ReplaceKeepsCollapse | apps/worker/init.py:41-42 | One pass of `replace("--", "-")` does not change the fully collapsed result. |
| SeedInit.ReplaceShrinks | apps/worker/init.py:41-42 | A pass over a string containing "--" makes it strictly shorter, so the loop ends. |
| SeedInit.Slugify | apps/worker/init.py:38-43 | The `while "--" in s` loop and the strip of '-' compute the slug. |
| SeedInit.SlugIsSlug | apps/worker/init.py:38-43 | A slug has only lower-case ASCII letters, digits and '-'. It has no "--" and does not start or end with '-'. |
| SeedInit.SlugFixesSlugs | apps/worker/init.py:38-43 | A string is a slug exactly when it is its own slug. |
| SeedInit.SlugIdempotent | apps/worker/init.py:38-43 | Slugifying twice is slugifying once. |
| SeedInit.UpsertName | apps/worker/init.py:48 | The upsert sets `name` under the id and keeps the record's other fields. Every other tenant is unchanged. |
| SeedInit.UpsertNameIdempotent | apps/worker/init.py:48 | Repeating the upsert changes nothing. |
| SeedInit.Tenants.EnsureTenant | apps/worker/init.py:46-49 | Without a store fault it returns the slug of the name, and afterwards that tenant has the given name and the other tenants are unchanged. When `update_one` raises, the error is returned and nothing changes. |
| SeedInit.BaseName | apps/worker/init.py:72 | The piece after the last '/', or "downloaded-file" when that is empty. The result is non-empty, has no '/', and ends the path unless it is the default. |
| SeedInit.UrlPathOf | apps/worker/init.py:71 | Take `scheme://netloc/path?query#fragment`, optionally preceded by controls and spaces. Its parsed path is `/path`, without the `;params` of the last segment when the scheme is one of `uses_params` (http, https, ftp and others). |
| SeedInit.UrlPathIgnoresBreaks | apps/worker/init.py:71 | A tab, CR or LF anywhere in the URL changes neither its path nor its file name. |
| SeedInit.FilenameOfUrl | apps/worker/init.py:67-73 | For `scheme://host/dir/name;params?query`, the file name is `name` when the scheme uses parameters and `name;params` otherwise, or "downloaded-file" when that is empty. |
| SeedInit.StoragePathFilename | apps/worker/init.py:76-77 | With plain tenant, document and file names, `str()` of the pathlib join is the root's normal form, then tenant/document/filename. Its last segment is the file name. |
| SeedInit.StoragePathNormalises | apps/worker/init.py:76-77 | Like pathlib: an empty tenant id is dropped and an absolute one discards the root. A trailing '/' on the root changes nothing, and neither does a leading "./" on a relative root. |
| PurePaths.JoinName | apps/worker/upload.py:105 | Joining a plain name is written as the path, one '/' (none after a bare root) and the name. |
| PurePaths.JoinSkipped | apps/worker/upload.py:105 | Joining "" or "." leaves the path as it is. |
| PurePaths.JoinAbsolute | apps/worker/upload.py:105 | Joining an absolute segment gives that segment's path, whatever it was joined to. |
| PurePaths.ParseTrailingSlash | apps/worker/upload.py:105 | A trailing '/' does not change a parsed path that is not all slashes. |
| PurePaths.ParseDotPrefix | apps/worker/upload.py:105 | A leading "./" does not change a relative path. |
| SeedInit.SeedDocument | apps/worker/init.py:123-131 | The seeded document is keyed by its id. |
| SeedInit.SeedTask | apps/worker/init.py:134-142 | The seeded task is keyed by its id. |
| SeedInit.SeedTaskIsJob | apps/worker/init.py:133-142 | A seeded task is pending, points at its document, and once stored is a pending job. It carries no text, so without a preferred field extraction fails. |
| SeedInit.SeedDocumentStored | apps/worker/init.py:116-132 | With plain names, the object path is the root's normal form, then tenant/document/filename. Its last segment is the document's name, and the task's `document_id` is the document's `_id`. |
| SeedInit.SeedDocumentNamed | apps/worker/init.py:116-132 | The same holds for any non-empty file name without '/'. The exception is the name ".", which pathlib drops; the object path is then the document's directory. |
| SeedInit.SeedDocumentLinks | apps/worker/init.py:116-132 | That holds for the file name taken from the URL. |
| UploadScript.ResolveUploadMongo | apps/worker/upload.py:14-33 | Exits with status 1 exactly when neither the argument nor `MONGO_URL` gives a URL. A resolved URL is non-empty. |
| UploadScript.ResolveUploadPrecedence | apps/worker/upload.py:20-32 | The database defaults to "pagemate" and the documents collection to "documents". Embeddings: argument > `MONGO_COLLECTION` > `MONGO_EMBEDDINGS_COLLECTION` > "document_embeddings". |
| UploadScript.TextPreview | apps/worker/upload.py:36-46 | A preview is stripped and non-empty. There is none exactly for an empty, unreadable or blank file. |
| UploadScript.BaseName | apps/worker/upload.py:102 | The display name is `--name` when given, else the source file name. |
| UploadScript.UploadDocument | apps/worker/upload.py:113-121 | The document is keyed by its id and carries the name, object path and tenant. |
| UploadScript.TaskExtraction | apps/worker/upload.py:125-135 | A task with a preview is embedded from that preview. A task without one fails extraction. |
| UploadScript.NewTask | apps/worker/upload.py:125-135 | The task is pending, points at its document, and has `text` exactly when there is a preview. |
| UploadScript.Upload | apps/worker/upload.py:79-135 | A non-file exits 2 before any store work, and a missing URL exits 1. Otherwise the destination is `str()` of the pathlib join of the unresolved root, tenant, document and name. A failed document insert aborts with nothing inserted. A failed task insert aborts with the document record left behind. Otherwise the task is pending and linked to the document. |
| TaskStore.Coalesce | apps/tenant-insurance/lib/task-store.ts:15 | `a ?? b`: the first operand when present, else the second. |
| TaskStore.Started | apps/tenant-insurance/lib/task-store.ts:12-20 | Changes nothing while running. Otherwise it sets running, startedAt = now and finishedAt = null. The label is the argument, else the current label, else "Demo Task". |
| TaskStore.Begun | apps/tenant-insurance/lib/task-store.ts:22-28 | Always restarts with the given label, startedAt = now and finishedAt = null. |
| TaskStore.Stopped | apps/tenant-insurance/lib/task-store.ts:30-35 | Changes nothing unless running. Otherwise it sets finishedAt = now and keeps startedAt. It keeps the label unless a new one is given. |
| TaskStore.ActionsKeepConsistent | apps/tenant-insurance/lib/task-store.ts:12-42 | Every action keeps the invariant: a running task has a label and a start and no finish, and a finished task has a start and is not running. |
| TaskStore.StartThenStop | apps/tenant-insurance/lib/task-store.ts:12-35 | Starting an idle task and stopping it records both times and keeps the label start chose. Starting again while it runs changes nothing, and a second stop changes nothing. |
| TaskStore.Store.constructor | apps/tenant-insurance/lib/task-store.ts:6-9 | The cells start as null, null, null, false. |
| TaskStore.Store.Start | apps/tenant-insurance/lib/task-store.ts:12-20 | The four cells become `Started` of the old cells. |
| TaskStore.Store.Begin | apps/tenant-insurance/lib/task-store.ts:22-28 | The four cells become `Begun` of the old cells. |
| TaskStore.Store.Stop | apps/tenant-insurance/lib/task-store.ts:30-35 | The four cells become `Stopped` of the old cells. |
| TaskStore.Store.Clear | apps/tenant-insurance/lib/task-store.ts:37-42 | Restores exactly the initial values. |
| TaskTimer.TwoDigitsSpec | apps/tenant-insurance/components/task-timer.tsx:22-23 | `padStart(2, "0")` of a number gives at least two digits, which read back as the number. Below 100 it gives exactly two. |
| TaskTimer.ParseClock | apps/tenant-insurance/components/task-timer.tsx:24 | Reads `mm:ss` back. A reading exists only for text with ':' before the last two characters. |
| TaskTimer.FormatSecondsRoundTrip | apps/tenant-insurance/components/task-timer.tsx:20-24 | Reading the clock text back gives the seconds. The seconds field is two digits below 60. |
| TaskTimer.FormatElapsedRoundTrip | apps/tenant-insurance/components/task-timer.tsx:18-25 | minutes × 60 + seconds = floor(max(0, ms) / 1000). The text is mm ":" ss with ss in 00..59. |
| TaskTimer.FormatElapsedShort | apps/tenant-insurance/components/task-timer.tsx:18-25 | Negative and sub-second inputs give "00:00". Under an hour the text has 5 characters. |
| Rating.Base | apps/tenant-insurance/lib/rating.ts:39 | The base is 24 for Plus, 16 for Standard and 10 otherwise. |
| Rating.ZipBandOf | apps/tenant-insurance/lib/rating.ts:41 | A zip starting with 9 is high risk, one starting with 1 is low risk, and any other is neutral. |
| Rating.Rate | apps/tenant-insurance/lib/rating.ts:29-97 | Components: each adjustment is the rounding of its factor, property capped and claims saturated. The breakdown has all four endorsement keys. The total is at least 8 and is 8 or the sum. |
| Rating.EndorsementTotalSpec | apps/tenant-insurance/lib/rating.ts:67-84 | The endorsement sum is 6·jewelry + 4·electronics + 3·identityTheft + 5·waterBackup over the selected ones, between 0 and 18. |
| Rating.RateTotal | apps/tenant-insurance/lib/rating.ts:80-85 | total = max(8, sum of the six components + the endorsement sum). |
| Rating.AddEndorsement | apps/tenant-insurance/lib/rating.ts:73-85 | Selecting one more endorsement sets only its entry to its fixed rate. The total does not go down, and rises by the rate when above the minimum. |
| Rating.ClaimsSaturate | apps/tenant-insurance/lib/rating.ts:57 | Any priorClaims of 3 or more rates as 3. |
| Rating.PropertyCap | apps/tenant-insurance/lib/rating.ts:45-46 | Every propertyValue of at least 60000 rates the same, since the factor is capped at 1.6. |
| Rating.NeutralAdjustments | apps/tenant-insurance/lib/rating.ts:39-65 | Each neutral input zeroes its own adjustment, whatever the other inputs are: a neutral zip, property value 0, a condo, no prior claims, deductible 500. With all five, the total is max(8, base + endorsements). |
| EstimateRoute.Defaulted | apps/tenant-insurance/app/api/estimate/route.ts:8-18 | Missing fields become "Standard", "", 25000, "apartment", 0, 500 and {}. |
| EstimateRoute.Post | apps/tenant-insurance/app/api/estimate/route.ts:4-24 | A payload that does not parse gives 400 "Invalid payload". Otherwise premium = breakdown.total ≥ 8, and the breakdown is the rating of the defaulted body. |
| EstimateRoute.EmptyBody | apps/tenant-insurance/app/api/estimate/route.ts:8-20 | An empty body is rated as a Standard apartment worth 25000, with no claims, deductible 500 and no endorsements. |
| QuoteForm.EstimatePremium | apps/tenant-insurance/components/quote-form.tsx:18-32 | The estimate is at least 8 and depends on the plan's base, the zip band and the capped property value. |
| QuoteForm.EstimateCap | apps/tenant-insurance/components/quote-form.tsx:29 | Every property value of at least 50000 gives the same estimate. |
| QuoteForm.DigitsOnly | apps/tenant-insurance/components/quote-form.tsx:99 | Keeps only digits and is never longer than the input. |
| QuoteForm.DigitsOnlyAppend | apps/tenant-insurance/components/quote-form.tsx:99 | Filtering distributes over concatenation. |
| QuoteForm.DigitsOnlyOfDigits | apps/tenant-insurance/components/quote-form.tsx:99 | A string of digits is kept whole. |
| QuoteForm.DigitsOnlyIdempotent | apps/tenant-insurance/components/quote-form.tsx:99 | Filtering twice is filtering once. |
| QuoteForm.PropertyInputSpec | apps/tenant-insurance/components/quote-form.tsx:111 | A typed number reads back as itself. Input without digits becomes 0. |
| QuoteForm.Form.constructor | apps/tenant-insurance/components/quote-form.tsx:35-38 | The form starts with the plan given, an empty zip and property value 25000. |
| QuoteForm.Form.SetZip | apps/tenant-insurance/components/quote-form.tsx:99 | The zip keeps only the digits typed. Nothing else changes. |
| QuoteForm.Form.SetPropertyValue | apps/tenant-insurance/components/quote-form.tsx:110-112 | The property value is the number the digits spell, or 0. Nothing else changes. |
| QuoteForm.Form.Submit | apps/tenant-insurance/components/quote-form.tsx:43-65 | Reports the server premium when it is non-null, else the local estimate. The timer is stopped only on success. A failure shows the error toast and leaves the timer alone. |
| QuoteWizard.Issues | apps/tenant-insurance/app/quote/wizard/page.tsx:21-38 | Each field is flagged exactly when it breaks its rule: zip of 5 digits, state of 2 UTF-16 code units, a known plan and building type, property in [5000, 250000], claims in [0, 5], deductible in {250, 500, 1000}, names non-empty, e-mail valid. |
| QuoteWizard.Parse | apps/tenant-insurance/app/quote/wizard/page.tsx:21-38 | Fails exactly when some field is flagged, and reports all flagged fields. |
| QuoteWizard.ParseAccepted | apps/tenant-insurance/app/quote/wizard/page.tsx:21-38 | An accepted form satisfies every rule. Its state is 2 UTF-16 code units (one or two characters) with no lower-case letter, and apart from the state it equals the input. |
| QuoteWizard.DefaultsRejected | apps/tenant-insurance/app/quote/wizard/page.tsx:56-73 | The initial form is always rejected for the empty names and zip. Apart from the e-mail, which depends on the validator, nothing the defaults fill in is rejected. |
| QuoteWizard.InitialPlanValid | apps/tenant-insurance/app/quote/wizard/page.tsx:47-52 | Without a redirect the plan is the query parameter, and it is a known plan. A missing or unknown plan redirects to /plans. |
| QuoteWizard.Progress | apps/tenant-insurance/app/quote/wizard/page.tsx:78 | progress = (step + 1) × 25, between 25 and 100. |
| QuoteWizard.Wizard.Next | apps/tenant-insurance/app/quote/wizard/page.tsx:115-122 | The step advances, stopping at 3, and stays within 0..3. An estimate is requested and stored exactly when advancing from step 2 to step 3. |
| QuoteWizard.Wizard.Prev | apps/tenant-insurance/app/quote/wizard/page.tsx:123-125 | The step goes back, stopping at 0. The quote is unchanged. |
| Corners.CornerPosition | apps/tenant-insurance/hooks/useDraggable.ts:47-60 | The corners are (g,g), (W−g−64,g), (g,H−g−64) and (W−g−64,H−g−64). A right or bottom corner leaves exactly g pixels between the 64-pixel element and that edge. |
| Corners.CornerList | apps/tenant-insurance/hooks/useDraggable.ts:68-76 | The four corners in TL, TR, BL, BR order. |
| Corners.SquaredDistanceZero | apps/tenant-insurance/hooks/useDraggable.ts:83-85 | Distance is never negative, and is zero exactly between equal points. |
| Corners.SnapToNearestCorner | apps/tenant-insurance/hooks/useDraggable.ts:63-93 | The scan returns one of the four corners, at minimal distance. Ties go to the earliest corner because the comparison is strict. |
| Corners.NearestUnique | apps/tenant-insurance/hooks/useDraggable.ts:78-90 | At most one index is nearest with ties to the earliest, so the snap is determined. |
| Corners.SnapOfCorner | apps/tenant-insurance/hooks/useDraggable.ts:78-90 | Snapping a corner returns that corner. |
| Corners.SnapIdempotent | apps/tenant-insurance/hooks/useDraggable.ts:63-93 | Snapping a snapped position leaves it where it is. |
| Draggable.GetCornerPosition | apps/tenant-insurance/hooks/useDraggable.ts:38-61 | Outside a browser every corner is (0, 0). Otherwise it is the corner position. |
| Draggable.AnchoredStyle | apps/tenant-insurance/hooks/useDraggable.ts:242-254 | Before the first drag the style anchors the element with the gap offsets of its corner. |
| Draggable.PlacedStyle | apps/tenant-insurance/hooks/useDraggable.ts:257-269 | After the first drag the style sets left/top from the position. The cursor and transition depend on dragging. |
| Draggable.StylesAgree | apps/tenant-insurance/hooks/useDraggable.ts:257-277 | The anchored style puts the element at its corner position, and the placed style at the position. |
| Draggable.Draggable.CurrentStyle | apps/tenant-insurance/hooks/useDraggable.ts:257-277 | The style is placed once dragged with a position, else anchored to the initial corner. |
| Draggable.Draggable.constructor | apps/tenant-insurance/hooks/useDraggable.ts:22-36 | The options are stored. There is no drag and no position. |
| Draggable.Draggable.Press | apps/tenant-insurance/hooks/useDraggable.ts:95-115 | The first press takes position and elementStart from the element rect and sets hasBeenDragged. Later presses take elementStart from the position. Without an element nothing changes. |
| Draggable.Draggable.Move | apps/tenant-insurance/hooks/useDraggable.ts:117-127 | Ignored unless dragging with a position. Otherwise position = elementStart + (pointer − dragStart). |
| Draggable.Draggable.Release | apps/tenant-insurance/hooks/useDraggable.ts:129-141 | Ends the drag. With snapping the stored and reported position is the nearest corner. Without it the position is reported unchanged. |
| Draggable.Draggable.Resize | apps/tenant-insurance/hooks/useDraggable.ts:227-239 | A placed, snapping element moves to the nearest corner of the new window. Otherwise nothing moves. |
| LegacyDraggable.StartIsBottomRight | frontend/src/hooks/useDraggable.ts:25-30 | With the default gap, the start point (W−112, H−112) is the bottom-right corner, so it snaps to itself. |
| LegacyDraggable.Draggable.constructor | frontend/src/hooks/useDraggable.ts:15-32 | The element starts at (W−112, H−112), or at (0, 0) outside a browser, not dragging. |
| LegacyDraggable.Draggable.Mount | frontend/src/hooks/useDraggable.ts:171-179 | In a browser the position becomes the corner nearest to the start point. |
| LegacyDraggable.Draggable.Press | frontend/src/hooks/useDraggable.ts:63-73 | A press records elementStart = position and dragStart = pointer, and starts dragging. |
| LegacyDraggable.Draggable.Move | frontend/src/hooks/useDraggable.ts:75-85 | Ignored unless dragging. Otherwise position = elementStart + delta. |
| LegacyDraggable.Draggable.Release | frontend/src/hooks/useDraggable.ts:87-99 | Clears the drag. With snapping the position becomes the nearest corner; without it the position is unchanged. |
| LegacyDraggable.Draggable.Resize | frontend/src/hooks/useDraggable.ts:182-194 | A snapping element moves to the nearest corner of the new window. |
| FloatingOrb.CornerOf | apps/fe/src/pagemate/FloatingOrb.tsx:34-37 | The corner is top iff orb.top < H/2, and left iff orb.left < W/2. |
| FloatingOrb.Clamp | apps/fe/src/pagemate/FloatingOrb.tsx:59-60 | The result is at least the lower bound, at most the upper bound when the bounds are ordered, and the value itself when it already fits. |
| FloatingOrb.PlacementInWindow | apps/fe/src/pagemate/FloatingOrb.tsx:25-64 | left ≥ 8 and top ≥ 8. left ≤ W − 479 when W ≥ 487, and top ≤ H − 585 when H ≥ 593. |
| FloatingOrb.PlacementBesideOrb | apps/fe/src/pagemate/FloatingOrb.tsx:39-56 | When it fits, the view is above the orb (top − 577 − 24) in a bottom corner and below it (bottom + 24) in a top corner. It is right-aligned (right − 471) in a right corner and left-aligned in a left corner. |
| FloatingOrb.Orb.constructor | apps/fe/src/pagemate/FloatingOrb.tsx:18-22 | The view is hidden, at (0, 0), in the initial corner, with no press recorded. |
| FloatingOrb.Orb.UpdateViewPosition | apps/fe/src/pagemate/FloatingOrb.tsx:25-64 | Without an orb nothing changes. Otherwise the view gets the clamped placement and the orb's corner is recorded. |
| FloatingOrb.Orb.MouseDown | apps/fe/src/pagemate/FloatingOrb.tsx:119-122 | Records the press position only. |
| FloatingOrb.Orb.Click | apps/fe/src/pagemate/FloatingOrb.tsx:124-144 | Toggles the view only when not dragging and the pointer moved at most 5px on both axes. A drag-like click leaves the view alone and clears the press. |
| FloatingOrb.Abs | apps/fe/src/pagemate/FloatingOrb.tsx:132-133 | The absolute value: non-negative, and ±n. |
| FloatingOrb.MovedSpec | apps/fe/src/pagemate/FloatingOrb.tsx:131-140 | A click is not a drag exactly when it is within 5px of the press on both axes. |
| CustomerDetail.FileExtension | apps/fe/src/customers/CustomerDetailPage.tsx:99-105 | Returns exactly one of "pdf", "txt", "md", "unknown". Each known value is returned iff the text after the last '.' is exactly that value. |
| CustomerDetail.FileExtensionOf | apps/fe/src/customers/CustomerDetailPage.tsx:99-105 | For stem + "." + an extension without a dot, only the extension decides. |
| CustomerDetail.UpperCaseIsUnknown | apps/fe/src/customers/CustomerDetailPage.tsx:101 | The comparison is case-sensitive: "X.PDF" is "unknown". |
| CustomerDetail.NoDotComparedWhole | apps/fe/src/customers/CustomerDetailPage.tsx:100 | A name without a '.' is compared whole. |
| CustomerDetail.DetailPage.constructor | apps/fe/src/customers/CustomerDetailPage.tsx:15-19 | No documents, not uploading, no error, not drag-active. |
| CustomerDetail.DetailPage.HandleFileUpload | apps/fe/src/customers/CustomerDetailPage.tsx:46-65 | Without files, or with a falsy customer id (absent or ""), nothing changes. On success the new documents are prepended in file order. On failure the list is kept and the error set. |
| CustomerDetail.DetailPage.HandleDrag | apps/fe/src/customers/CustomerDetailPage.tsx:68-76 | dragenter and dragover set the flag, dragleave clears it, and other events leave it. Nothing else changes. |
| CustomerDetail.DetailPage.HandleDrop | apps/fe/src/customers/CustomerDetailPage.tsx:78-89 | Clears the flag. Then it uploads when at least one file was dropped and the customer id is truthy; otherwise nothing else changes. |
| ChatApi.HtmlContext | apps/fe/src/pages/api/chat.ts:63-73 | Added only for a non-blank page with non-empty sanitised output, whose content it holds. |
| ChatApi.RagContext | apps/fe/src/pages/api/chat.ts:75-81 | Added only for a non-blank string. Its content is "RAG Context\n" + the trimmed text. |
| ChatApi.RagContextTrimmed | apps/fe/src/pages/api/chat.ts:75-81 | The text after the header is trimmed and non-empty. |
| ChatApi.FinalMessages | apps/fe/src/pages/api/chat.ts:83-99 | The list length is 1 + the extras + the conversation. |
| ChatApi.FinalMessagesHead | apps/fe/src/pages/api/chat.ts:83-99 | The list starts with a system message: the caller's own leading system message, else the default prompt. The HTML context follows, then the RAG context. |
| ChatApi.FinalMessagesKeepConversation | apps/fe/src/pages/api/chat.ts:83-99 | All caller messages after a leading system message appear unchanged and in order at the end. |
| ChatApi.Handle | apps/fe/src/pages/api/chat.ts:12-113 | In order: non-POST gives 405 with Allow: POST; a missing key gives 500; an absent or empty message list gives 400. Otherwise the completion is sent with model default "solar-pro2". Missing content becomes "", and a thrown completion gives 500. |
| ChatView.SegmentCommands | apps/tenant-insurance/pagemate/views/ChatView.tsx:241-305 | The `re.exec` loop emits the specified segments: gaps as markdown, matches as commands. |
| ChatView.RenderTextWithCommands | apps/tenant-insurance/pagemate/views/ChatView.tsx:224-306 | With parsing off, the whole text is one markdown segment. With it on, the segments of the matches in order. |
| ChatView.NoEmptyMarkdown | apps/tenant-insurance/pagemate/views/ChatView.tsx:250-252 | No empty markdown segment is ever emitted. |
| ChatView.TextSegmentsNonEmpty | apps/tenant-insurance/pagemate/views/ChatView.tsx:224-305 | A non-empty text always produces at least one segment. |
| ChatView.CommandsInOrder | apps/tenant-insurance/pagemate/views/ChatView.tsx:247-285 | The commands emitted are the matches in source order. The verb is uppercased and the target stripped of one quote pair. |
| ChatView.RebuildText | apps/tenant-insurance/pagemate/views/ChatView.tsx:247-305 | Re-joining the markdown gaps with the commands' source spans gives back the text: gaps and matches come out in source order. |
| ChatView.HeaderOf | apps/tenant-insurance/pagemate/views/ChatView.tsx:326 | An empty captured header becomes "Retrieved results", else it is trimmed. |
| ChatView.DefaultHeaderTrimmed | apps/tenant-insurance/pagemate/views/ChatView.tsx:326 | The header is never empty and is trimmed. |
| ChatView.BodyLines | apps/tenant-insurance/pagemate/views/ChatView.tsx:327-330 | The body lines are the trimmed lines of the block. |
| ChatView.ItemStripped | apps/tenant-insurance/pagemate/views/ChatView.tsx:339 | The item of a stripped list line is non-empty and trimmed. The line is "-", then spaces, then the item. |
| ChatView.ItemsStripped | apps/tenant-insurance/pagemate/views/ChatView.tsx:328-339 | Every item of the stripped lines is non-empty and trimmed, and there are no more items than lines. |
| ChatView.BodyItemsStripped | apps/tenant-insurance/pagemate/views/ChatView.tsx:327-339 | Every list item shown for a block body is non-empty and trimmed. |
| ChatView.RenderStretch | apps/tenant-insurance/pagemate/views/ChatView.tsx:323-324 | Pushes the segments of the text between retrieval blocks: segmented into commands when parsing is on, else one markdown segment. |
| ChatView.SegmentBlocks | apps/tenant-insurance/pagemate/views/ChatView.tsx:319-347 | The block loop emits the specified nodes: stretches and RAG blocks in source order. |
| ChatView.RenderMessageContent | apps/tenant-insurance/pagemate/views/ChatView.tsx:308-353 | The nodes of the message, or the raw content when there are none. |
| ChatView.RawIffEmpty | apps/tenant-insurance/pagemate/views/ChatView.tsx:352 | The raw content is returned exactly when no segments were produced. |
| ChatView.NoNodesIffEmpty | apps/tenant-insurance/pagemate/views/ChatView.tsx:319-352 | No nodes come out exactly when the content is empty. |
| ChatView.PlainMessage | apps/tenant-insurance/pagemate/views/ChatView.tsx:224-240 | Without parsing or RAG blocks, a non-empty message is one markdown segment. |
| PagemateChat.StripQuotes | apps/tenant-insurance/pagemate/PagemateChat.tsx:193-199 | Strips one matching pair of surrounding quotes or backticks. Anything else is unchanged. |
| PagemateChat.StripQuotesOfQuoted | apps/tenant-insurance/pagemate/PagemateChat.tsx:193-199 | A quoted target loses exactly its surrounding pair. |
| PagemateChat.XPathPrefixes | apps/tenant-insurance/pagemate/PagemateChat.tsx:219-228 | Any trimmed string starting with "/" or ".//" is likely an XPath. Apart from the two patterns, those are the only ones. |
| PagemateChat.KindOf | apps/tenant-insurance/pagemate/PagemateChat.tsx:201-214 | SPOTLIGHT and CLICK map to the XPath variant iff the target is likely an XPath. The _XPATH verbs map to XPath and RETRIEVE to retrieve. Other verbs give nothing. |
| PagemateChat.ActionOf | apps/tenant-insurance/pagemate/PagemateChat.tsx:190-214 | An empty target gives no action. Otherwise the action's kind and stripped target follow. |
| PagemateChat.ActionsAppend | apps/tenant-insurance/pagemate/PagemateChat.tsx:189-215 | The actions of two runs of matches are the actions of each, in order. |
| PagemateChat.ActionsLength | apps/tenant-insurance/pagemate/PagemateChat.tsx:189-215 | At most one action per directive. |
| PagemateChat.ActionsOfOne | apps/tenant-insurance/pagemate/PagemateChat.tsx:190-214 | A single directive gives its action, if any. |
| PagemateChat.NoteIsIgnored | apps/tenant-insurance/pagemate/PagemateChat.tsx:514 | The NOTE directive the summary emits gives no action. |
| PagemateChat.PushActions | apps/tenant-insurance/pagemate/PagemateChat.tsx:189-215 | The loop pushes exactly the specified actions, in directive order. |
| PagemateChat.ParseAssistantActions | apps/tenant-insurance/pagemate/PagemateChat.tsx:179-217 | The actions of the directive matches, in directive order, at most one per directive. |
| PagemateChat.FindFirst | apps/tenant-insurance/pagemate/PagemateChat.tsx:240-246 | Returns the first candidate with the property, or none. |
| PagemateChat.FindPreferred | apps/tenant-insurance/pagemate/PagemateChat.tsx:239-247 | An exact match is preferred to a partial one. |
| PagemateChat.ExactIsPartial | apps/tenant-insurance/pagemate/PagemateChat.tsx:240-246 | An exact normalised match is also a substring match. |
| PagemateChat.FindClickableByText | apps/tenant-insurance/pagemate/PagemateChat.tsx:230-248 | Returns an exact normalised match (whitespace collapsed, trimmed, lowercased) when there is one, else a substring match. It finds nothing exactly when no label contains the normalised text. |
| PagemateChat.Top | apps/tenant-insurance/pagemate/PagemateChat.tsx:501 | At most 5 results, the first ones in order. |
| PagemateChat.ItemTextSpec | apps/tenant-insurance/pagemate/PagemateChat.tsx:504-507 | An item's text is the longest prefix of the chunk's text with at most 280 UTF-16 code units. A text that short is kept whole, and text in the Basic Multilingual Plane keeps its first 280 characters. |
| PagemateChat.ItemLinesShape | apps/tenant-insurance/pagemate/PagemateChat.tsx:502-512 | One line per listed result, the i-th being the numbered line of result i + 1. |
| PagemateChat.SummaryShape | apps/tenant-insurance/pagemate/PagemateChat.tsx:495-516 | The summary starts with the header holding the total count, then has one line for each of at most 5 results, then a blank line and "ACTION NOTE Retrieved context loaded.". |
| PagemateChat.PushItemLines | apps/tenant-insurance/pagemate/PagemateChat.tsx:502-512 | The loop pushes exactly the specified item lines. |
| PagemateChat.FormatRetrievalSummary | apps/tenant-insurance/pagemate/PagemateChat.tsx:495-516 | The summary text is the specified lines joined by newlines. |
| PagemateChat.ContextPartsShape | apps/tenant-insurance/pagemate/PagemateChat.tsx:522-535 | The head, then two lines per chunk: its numbered reference and its text. |
| PagemateChat.RagContextShape | apps/tenant-insurance/pagemate/PagemateChat.tsx:518-536 | The context is "RAG_CONTEXT Query:" with the query, then two lines for each of at most 8 chunks: the reference and the collapsed, trimmed text. |
| PagemateChat.PushContextParts | apps/tenant-insurance/pagemate/PagemateChat.tsx:525-534 | The loop pushes exactly the specified context lines. |
| PagemateChat.BuildRagContextFromChunks | apps/tenant-insurance/pagemate/PagemateChat.tsx:518-536 | The context text is the specified parts joined by newlines. |

## Left out

- Rating.Rate: floating-point factors and `Math.round` are a rounding parameter. JavaScript doubles differ from exact rationals, so only the float-insensitive facts are stated and component values are not.
- QuoteForm.EstimatePremium: the `Math.round` of the floating-point formula is a parameter, for the same reason.
- `Number()` coercion and NaN in the estimate route, the quote form and the wizard are not modelled. Inputs are integers or absent.
- Corners.SnapToNearestCorner: compares squared distances. `Math.sqrt` is monotone, so the chosen corner is the same.
- The zip input's `maxLength` is left to the browser and is not modelled.
- The e-mail rule of the wizard's schema is a parameter (`isEmail`), since it is a library validator.
- Case mapping (`toLowerCase`, `toUpperCase`, `lower`) and `isalnum` are ASCII-only.
- PagemateChat.ItemTextSpec: when the 280th code unit is the first half of a surrogate pair, `slice(0, 280)` keeps that lone half, which a Dafny string cannot hold. PagemateChat.ItemText stops before the pair. Other JavaScript lengths in the model count characters. The only exceptions are the wizard's `length(2)`, which counts UTF-16 code units as zod does, and `min(1)`, where the two counts agree.
- Draggable, LegacyDraggable and FloatingOrb: DOM coordinates (`getBoundingClientRect`, `clientX`, `innerWidth`) are doubles; the model takes them as integers. The operations on them are sums, differences and comparisons, which integers carry out exactly.
- Promise ordering and asynchrony are not modelled. Each async handler runs to completion with its awaited results as parameters, including the upload results of `handleFileUpload` and the estimate of `onSubmit`.
- Event-listener wiring, effects, resize timers, toasts, confetti and the `setInterval` of the task timer are not modelled.
- localStorage persistence of the wizard is not modelled.
- `formatFileSize` and `loadData` of the customer page are float formatting and network I/O.
- `parseToolIntent` and the rest of the chat widget's UI are not modelled: tool execution, spotlight, highlighting and the fetch calls. Only the listed text helpers are.
- `stripJunk` (sanitize-html) is an opaque function parameter.
- The chat completion call is an abstract answer or exception, and `withCORS` is not modelled. The default system prompt is a named constant, not the full prompt text.
- Regular expressions are replaced by their lists of matches. The model assumes those lists are ordered, non-overlapping and in bounds, and does not model the regex engines.
- The infinite outer loop of `run_polling_loop` and its `KeyboardInterrupt`/`Exception` handlers are not modelled. One drain and its sleep decision are; `time.sleep` itself is not.
- EmbeddingWorker.ClaimPending: only `PyMongoError` is caught there. Other exceptions escape to the outer loop, which is not modelled.
- The embeddings provider is an abstract reply: a vector or an exception. The `ValueError` of a failed extraction is stored as its message, `str(e)`.
- `get_db` connection setup and dotenv loading are not modelled. The database named in the connection string is the parameter `urlDatabase`.
- EmbeddingWorker.WorkerStartupSpec: which texts `float()` accepts is the parameter `isFloat`. The poll interval is kept as that text, not as a number. The traceback's message shows the bad value plainly, where Python prints its `repr`.
- Downloads, disk writes and file reads are not modelled. The upload script's source file is described by what the script learns from it. `uuid4` ids and `utc_now()` readings are parameters.
- The seed script's loop over tenants and sample URLs is not modelled; one seeded document and task are.
- SeedInit.FilenameFromUrl has no contract of its own. Its meaning is stated by SeedInit.BaseName, SeedInit.UrlPathOf, SeedInit.FilenameOfUrl and SeedInit.UrlPathIgnoresBreaks.
- SeedInit.UrlPath: `urlsplit` raises `ValueError` for an unbalanced '[' or ']' in the network location, and for netloc characters that NFKC normalisation changes. The model returns the path anyway. In `seed` the download of the same URL comes first, and any error is caught per URL.
- SeedInit.StoragePath: pathlib's `expanduser().resolve()` of the seed's root is not modelled. The root is the already resolved text. The upload script joins onto its root unresolved, as modelled.
- UploadScript.Upload: failures of the file copy itself (`mkdir`, `open`, `read_bytes`) are not modelled. The insert failures are.
- The per-URL `try` of `seed` (downloads and inserts that fail and are reported) is not modelled, since the loop is not. SeedInit.Tenants.EnsureTenant, which runs outside that `try`, returns its store error.
- `task-timer.tsx` and `quote-form.tsx` import `useTaskStore`, which `task-store.ts` does not export; it exports jotai atoms. The model reads the stop call in `onSubmit` as the store's stop action with no label.
- `if not emb` in the polling loop: a claimed record always has `_id`, so it is never an empty dict. The model treats only None as no job.
- An empty `FileList` is truthy in `handleFileUpload` and starts an upload of nothing. The model keeps that: `Some([])` counts as files.

## Findings

| source | as written | input that shows it | evidently intended | confidence | as-written member | corrected member |
|---|---|---|---|---|---|---|
| apps/worker/init.py:85-89 | `seed` reads the collection names from the environment itself, with the defaults "tenants", "documents" and "document_embeddings"; the names `main` resolves from the arguments are not passed on (init.py:183-185) | environment with only `MONGO_URL`, and `--tenants-collection orgs`: the tenants collection resolves to "orgs", but the tenants are seeded into "tenants" | seeding uses the collections resolved from arguments and environment | not executed | SeedInit.SeedIgnoresCollectionArguments | SeedInit.SeedCollections |
