/** The seeding script (apps/worker/init.py): store settings, tenant ids made
    from display names, file names taken from download URLs, the storage
    layout and the records it inserts for each downloaded document.

    Downloads, disk writes and the loop over the sample tenants are not
    modelled; the pieces they are built from are. */
module SeedInit {
  import opened Wrappers
  import opened Text
  import opened Environ
  import opened EmbeddingWorker
  import opened PurePaths

  // ---------------------------------------------------------------------
  // Store settings

  datatype MongoSettings = MongoSettings(url: string, database: string, documents: string,
                                         embeddings: string, tenants: string)

  const MissingUrlError: string := "ERROR: MONGO_URL is required (pass --mongo-url or set env)."

  /** `resolve_mongo_from_env`: each setting is the argument, else its
      environment variable(s), else a default; without a URL the script
      exits with status 1. */
  function ResolveMongo(url: Option<string>, dbName: Option<string>, docsCol: Option<string>,
                        embsCol: Option<string>, tenantsCol: Option<string>, env: Env): (r: Result<MongoSettings, Exit>)
    ensures r.Err? <==> !Truthy(url) && !Truthy(Getenv(env, "MONGO_URL"))
    ensures r.Err? ==> r.error == Exit(1, MissingUrlError)
    ensures r.Ok? ==> r.value.url != ""
  {
    var resolvedUrl := Or(url, Getenv(env, "MONGO_URL"));
    if !Truthy(resolvedUrl) then Err(Exit(1, MissingUrlError))
    else
      Ok(MongoSettings(resolvedUrl.value,
                       Resolved(dbName, env, ["MONGO_DB"], "pagemate"),
                       Resolved(docsCol, env, ["MONGO_DOCUMENTS_COLLECTION"], "documents"),
                       Resolved(embsCol, env, ["MONGO_COLLECTION", "MONGO_EMBEDDINGS_COLLECTION"], "document_embeddings"),
                       Resolved(tenantsCol, env, ["MONGO_TENANTS_COLLECTION"], "tenants")))
  }

  /** The precedence of every setting: argument, then environment, then the
      default. Here the URL and the database and documents names. */
  lemma ResolveMongoPrecedence(url: Option<string>, dbName: Option<string>, docsCol: Option<string>,
                               embsCol: Option<string>, tenantsCol: Option<string>, env: Env)
    requires ResolveMongo(url, dbName, docsCol, embsCol, tenantsCol, env).Ok?
    ensures var s := ResolveMongo(url, dbName, docsCol, embsCol, tenantsCol, env).value;
      && (Truthy(url) ==> s.url == url.value)
      && (!Truthy(url) ==> s.url == env["MONGO_URL"])
      && (Truthy(dbName) ==> s.database == dbName.value)
      && (!Truthy(dbName) && !Truthy(Getenv(env, "MONGO_DB")) ==> s.database == "pagemate")
      && (!Truthy(dbName) && Truthy(Getenv(env, "MONGO_DB")) ==> s.database == env["MONGO_DB"])
      && (Truthy(docsCol) ==> s.documents == docsCol.value)
      && (!Truthy(docsCol) && Truthy(Getenv(env, "MONGO_DOCUMENTS_COLLECTION")) ==>
            s.documents == env["MONGO_DOCUMENTS_COLLECTION"])
      && (!Truthy(docsCol) && !Truthy(Getenv(env, "MONGO_DOCUMENTS_COLLECTION")) ==> s.documents == "documents")
  {
    ResolvedPrecedence(dbName, env, ["MONGO_DB"], "pagemate");
    ResolvedPrecedence(docsCol, env, ["MONGO_DOCUMENTS_COLLECTION"], "documents");
  }

  /** The collections: the embeddings collection tries `MONGO_COLLECTION`
      before `MONGO_EMBEDDINGS_COLLECTION`. */
  lemma ResolveCollectionsPrecedence(url: Option<string>, dbName: Option<string>, docsCol: Option<string>,
                                     embsCol: Option<string>, tenantsCol: Option<string>, env: Env)
    requires ResolveMongo(url, dbName, docsCol, embsCol, tenantsCol, env).Ok?
    ensures var s := ResolveMongo(url, dbName, docsCol, embsCol, tenantsCol, env).value;
      && (Truthy(embsCol) ==> s.embeddings == embsCol.value)
      && (!Truthy(embsCol) && Truthy(Getenv(env, "MONGO_COLLECTION")) ==> s.embeddings == env["MONGO_COLLECTION"])
      && ((!Truthy(embsCol) && !Truthy(Getenv(env, "MONGO_COLLECTION"))
           && Truthy(Getenv(env, "MONGO_EMBEDDINGS_COLLECTION"))) ==>
            s.embeddings == env["MONGO_EMBEDDINGS_COLLECTION"])
      && ((!Truthy(embsCol) && !Truthy(Getenv(env, "MONGO_COLLECTION"))
           && !Truthy(Getenv(env, "MONGO_EMBEDDINGS_COLLECTION"))) ==> s.embeddings == "document_embeddings")
      && (Truthy(tenantsCol) ==> s.tenants == tenantsCol.value)
      && (!Truthy(tenantsCol) && Truthy(Getenv(env, "MONGO_TENANTS_COLLECTION")) ==>
            s.tenants == env["MONGO_TENANTS_COLLECTION"])
      && (!Truthy(tenantsCol) && !Truthy(Getenv(env, "MONGO_TENANTS_COLLECTION")) ==> s.tenants == "tenants")
  {
    ResolvedPrecedence(embsCol, env, ["MONGO_COLLECTION", "MONGO_EMBEDDINGS_COLLECTION"], "document_embeddings");
    ResolvedPrecedence(tenantsCol, env, ["MONGO_TENANTS_COLLECTION"], "tenants");
  }

  /** The collections `seed` writes tenants, documents and tasks to. */
  datatype SeedTargets = SeedTargets(tenants: string, documents: string, embeddings: string)

  /** The collections `seed` writes to, as written: it reads the environment
      itself with `os.getenv(name, default)`, so the collection arguments
      that `main` resolves are dropped, and a variable set to "" is used
      as the name. */
  function SeedCollectionsAsWritten(env: Env): SeedTargets {
    SeedTargets(GetenvOr(env, "MONGO_TENANTS_COLLECTION", "tenants"),
                GetenvOr(env, "MONGO_DOCUMENTS_COLLECTION", "documents"),
                GetenvOr(env, "MONGO_COLLECTION", GetenvOr(env, "MONGO_EMBEDDINGS_COLLECTION", "document_embeddings")))
  }

  /** A `--tenants-collection` argument has no effect on where tenants are seeded. */
  lemma SeedIgnoresCollectionArguments()
    ensures var env := map["MONGO_URL" := "mongodb://localhost:27017"];
      && ResolveMongo(None, None, None, None, Some("orgs"), env).Ok?
      && ResolveMongo(None, None, None, None, Some("orgs"), env).value.tenants == "orgs"
      && SeedCollectionsAsWritten(env).tenants == "tenants"
  {
    var env := map["MONGO_URL" := "mongodb://localhost:27017"];
    ResolvedPrecedence(Some("orgs"), env, ["MONGO_TENANTS_COLLECTION"], "tenants");
  }

  /** The collections seeded into, taken from the resolved settings. */
  function SeedCollections(settings: MongoSettings): (r: SeedTargets)
    ensures r.tenants == settings.tenants && r.documents == settings.documents && r.embeddings == settings.embeddings
  {
    SeedTargets(settings.tenants, settings.documents, settings.embeddings)
  }

  /** With the resolved settings, a collection argument is where seeding goes. */
  lemma SeedCollectionsHonourArguments(url: Option<string>, dbName: Option<string>, docsCol: Option<string>,
                                       embsCol: Option<string>, tenantsCol: Option<string>, env: Env)
    requires ResolveMongo(url, dbName, docsCol, embsCol, tenantsCol, env).Ok?
    ensures var c := SeedCollections(ResolveMongo(url, dbName, docsCol, embsCol, tenantsCol, env).value);
      && (Truthy(tenantsCol) ==> c.tenants == tenantsCol.value)
      && (Truthy(docsCol) ==> c.documents == docsCol.value)
      && (Truthy(embsCol) ==> c.embeddings == embsCol.value)
  {
    ResolveMongoPrecedence(url, dbName, docsCol, embsCol, tenantsCol, env);
    ResolveCollectionsPrecedence(url, dbName, docsCol, embsCol, tenantsCol, env);
  }

  // ---------------------------------------------------------------------
  // Slugs

  predicate Dash(c: char) { c == '-' }

  /** A character a slug may hold: a lower-case ASCII letter, a digit or '-'. */
  predicate SlugChar(c: char) { AsciiLowerLetter(c) || AsciiDigit(c) || c == '-' }

  /** No two dashes are adjacent. */
  predicate NoDoubleDash(s: string) {
    forall i :: 0 <= i < |s| - 1 ==> !(s[i] == '-' && s[i + 1] == '-')
  }

  predicate IsSlug(s: string) {
    AllSatisfy(s, SlugChar) && NoDoubleDash(s) && Stripped(s, Dash)
  }

  /** The list comprehension of `slugify`: alphanumerics lower-cased, every
      other character replaced by '-'. */
  function KeepChar(c: char): (r: char)
    ensures SlugChar(r)
    ensures SlugChar(c) ==> r == c
  {
    if AsciiAlnum(c) then ToLower(c) else '-'
  }

  function KeepChars(s: string): (r: string)
    ensures |r| == |s| && forall i :: 0 <= i < |s| ==> r[i] == KeepChar(s[i])
    decreases |s|
  {
    if s == [] then [] else [KeepChar(s[0])] + KeepChars(s[1..])
  }

  /** One call of `s.replace("--", "-")`: occurrences are replaced left to
      right without overlapping, so "---" becomes "--". */
  function ReplaceDoubleDash(s: string): (r: string)
    ensures |r| <= |s|
    ensures s != [] ==> r != [] && r[0] == s[0]
    decreases |s|
  {
    if |s| >= 2 && s[0] == '-' && s[1] == '-' then "-" + ReplaceDoubleDash(s[2..])
    else if s == [] then []
    else [s[0]] + ReplaceDoubleDash(s[1..])
  }

  /** Every run of dashes shrunk to a single dash: where the `while "--" in s`
      loop of `slugify` ends. */
  function CollapseDashes(s: string): (r: string)
    ensures s != [] ==> r != [] && r[0] == s[0]
    decreases |s|
  {
    if |s| >= 2 && s[0] == '-' && s[1] == '-' then CollapseDashes(s[1..])
    else if s == [] then []
    else [s[0]] + CollapseDashes(s[1..])
  }

  lemma CollapseAfterDash(x: string)
    ensures CollapseDashes("-" + x) == if x != [] && x[0] == '-' then CollapseDashes(x) else "-" + CollapseDashes(x)
  {
    assert ("-" + x)[1..] == x;
  }

  /** A replacement pass does not change where the loop ends. */
  lemma {:induction false} ReplaceKeepsCollapse(s: string)
    ensures CollapseDashes(ReplaceDoubleDash(s)) == CollapseDashes(s)
    decreases |s|
  {
    if |s| >= 2 && s[0] == '-' && s[1] == '-' {
      var t := s[2..];
      ReplaceKeepsCollapse(t);
      CollapseAfterDash(ReplaceDoubleDash(t));
      CollapseAfterDash(t);
      assert s[1..] == "-" + t;
    } else if s != [] {
      var t := s[1..];
      ReplaceKeepsCollapse(t);
      assert ReplaceDoubleDash(s) == [s[0]] + ReplaceDoubleDash(t);
      if s[0] == '-' {
        CollapseAfterDash(ReplaceDoubleDash(t));
        CollapseAfterDash(t);
        assert s == "-" + t;
      } else {
        assert CollapseDashes(ReplaceDoubleDash(s)) == [s[0]] + CollapseDashes(ReplaceDoubleDash(t));
      }
    }
  }

  /** A pass shortens a string that still holds "--", so the loop ends. */
  lemma {:induction false} ReplaceShrinks(s: string)
    requires Contains(s, "--")
    ensures |ReplaceDoubleDash(s)| < |s|
    decreases |s|
  {
    if !(|s| >= 2 && s[0] == '-' && s[1] == '-') {
      assert !StartsWith(s, "--");
      ReplaceShrinks(s[1..]);
    }
  }

  /** `"--" in s` is the absence of adjacent dashes. */
  lemma {:induction false} ContainsDoubleDash(s: string)
    ensures Contains(s, "--") <==> !NoDoubleDash(s)
    decreases |s|
  {
    if s != [] {
      ContainsDoubleDash(s[1..]);
      assert StartsWith(s, "--") <==> |s| >= 2 && s[0] == '-' && s[1] == '-';
      if !NoDoubleDash(s[1..]) {
        var i :| 0 <= i < |s[1..]| - 1 && s[1..][i] == '-' && s[1..][i + 1] == '-';
        assert s[i + 1] == '-' && s[i + 2] == '-';
      }
      if !NoDoubleDash(s) && !(|s| >= 2 && s[0] == '-' && s[1] == '-') {
        var i :| 0 <= i < |s| - 1 && s[i] == '-' && s[i + 1] == '-';
        assert i > 0;
        assert s[1..][i - 1] == '-' && s[1..][i] == '-';
      }
    }
  }

  /** A string without adjacent dashes is already collapsed. */
  lemma {:induction false} CollapseOfNoDoubleDash(s: string)
    requires NoDoubleDash(s)
    ensures CollapseDashes(s) == s
    decreases |s|
  {
    if s != [] {
      assert NoDoubleDash(s[1..]) by {
        forall i | 0 <= i < |s[1..]| - 1 ensures !(s[1..][i] == '-' && s[1..][i + 1] == '-') {
          assert s[1..][i] == s[i + 1] && s[1..][i + 1] == s[i + 2];
        }
      }
      CollapseOfNoDoubleDash(s[1..]);
    }
  }

  /** Collapsing keeps only characters of the input and leaves no adjacent dashes. */
  lemma {:induction false} CollapseShape(s: string)
    ensures NoDoubleDash(CollapseDashes(s))
    ensures AllSatisfy(s, SlugChar) ==> AllSatisfy(CollapseDashes(s), SlugChar)
    decreases |s|
  {
    if |s| >= 2 && s[0] == '-' && s[1] == '-' {
      CollapseShape(s[1..]);
      assert AllSatisfy(s, SlugChar) ==> AllSatisfy(s[1..], SlugChar);
    } else if s != [] {
      CollapseShape(s[1..]);
      var c := CollapseDashes(s);
      var t := CollapseDashes(s[1..]);
      assert c == [s[0]] + t;
      assert AllSatisfy(s, SlugChar) ==> AllSatisfy(s[1..], SlugChar);
      forall i | 0 <= i < |c| - 1 ensures !(c[i] == '-' && c[i + 1] == '-') {
        if i > 0 {
          assert c[i] == t[i - 1] && c[i + 1] == t[i];
        } else if |s| >= 2 {
          assert c[1] == t[0] == s[1];
        }
      }
    }
  }

  /** What `slugify(name)` returns. */
  function Slug(name: string): string {
    Strip(CollapseDashes(KeepChars(PyStrip(name))), Dash)
  }

  /** `slugify`: builds the kept characters, replaces "--" by "-" while the
      string holds one, then strips dashes from both ends. */
  method Slugify(name: string) returns (slug: string)
    ensures slug == Slug(name)
  {
    var s := KeepChars(PyStrip(name));
    while Contains(s, "--")
      invariant CollapseDashes(s) == CollapseDashes(KeepChars(PyStrip(name)))
      decreases |s|
    {
      ReplaceKeepsCollapse(s);
      ReplaceShrinks(s);
      s := ReplaceDoubleDash(s);
    }
    ContainsDoubleDash(s);
    CollapseOfNoDoubleDash(s);
    slug := Strip(s, Dash);
  }

  lemma KeepCharsAreSlugChars(s: string)
    ensures AllSatisfy(KeepChars(s), SlugChar)
  {
    var k := KeepChars(s);
    forall m | 0 <= m < |k| ensures SlugChar(k[m]) {
      assert k[m] == KeepChar(s[m]);
    }
  }

  /** A piece cut out of a string of slug characters without adjacent
      dashes is again such a string. */
  lemma SliceKeepsShape(c: string, i: nat, j: nat)
    requires i <= j <= |c|
    requires AllSatisfy(c, SlugChar) && NoDoubleDash(c)
    ensures AllSatisfy(c[i..j], SlugChar) && NoDoubleDash(c[i..j])
  {
    var r := c[i..j];
    forall m | 0 <= m < |r| ensures SlugChar(r[m]) {
      assert r[m] == c[i + m];
    }
    forall m | 0 <= m < |r| - 1 ensures !(r[m] == '-' && r[m + 1] == '-') {
      assert r[m] == c[i + m] && r[m + 1] == c[i + m + 1];
    }
  }

  /** A slug holds only lower-case ASCII letters, digits and single dashes,
      and neither starts nor ends with a dash. */
  lemma SlugIsSlug(name: string)
    ensures IsSlug(Slug(name))
  {
    var k := KeepChars(PyStrip(name));
    KeepCharsAreSlugChars(PyStrip(name));
    var c := CollapseDashes(k);
    CollapseShape(k);
    StripStripped(c, Dash);
    StripSlice(c, Dash);
    var i := |c| - |DropWhile(c, Dash)|;
    SliceKeepsShape(c, i, i + |Strip(c, Dash)|);
  }

  lemma KeepCharsOfSlugChars(s: string)
    requires AllSatisfy(s, SlugChar)
    ensures KeepChars(s) == s
  {
    var k := KeepChars(s);
    forall m | 0 <= m < |s| ensures k[m] == s[m] {
      assert SlugChar(s[m]);
    }
  }

  /** Slugs are exactly the strings `slugify` leaves unchanged. */
  lemma SlugFixesSlugs(s: string)
    ensures IsSlug(s) <==> Slug(s) == s
  {
    if IsSlug(s) {
      assert s != [] ==> SlugChar(s[0]) && SlugChar(s[|s| - 1]);
      assert Stripped(s, PySpace);
      StripOfStripped(s, PySpace);
      KeepCharsOfSlugChars(s);
      CollapseOfNoDoubleDash(s);
      StripOfStripped(s, Dash);
    }
    if Slug(s) == s {
      SlugIsSlug(s);
    }
  }

  /** Slugifying twice is slugifying once. */
  lemma SlugIdempotent(name: string)
    ensures Slug(Slug(name)) == Slug(name)
  {
    SlugIsSlug(name);
    SlugFixesSlugs(Slug(name));
  }

  // ---------------------------------------------------------------------
  // Tenants

  /** The effect of `update_one({"_id": id}, {"$set": {"name": name}},
      upsert=True)`: an existing record gets the name merged in; otherwise
      a record with that id and name is inserted. */
  function UpsertName(records: map<string, Record>, id: string, name: string): (r: map<string, Record>)
    ensures r.Keys == records.Keys + {id}
    ensures "name" in r[id] && r[id]["name"] == Str(name)
    ensures forall k :: k in records && k != id ==> r[k] == records[k]
    ensures id in records ==> forall f :: f in records[id] && f != "name" ==> f in r[id] && r[id][f] == records[id][f]
    ensures WellKeyed(records) ==> WellKeyed(r)
  {
    if id in records then records[id := records[id]["name" := Str(name)]]
    else records[id := map["_id" := Str(id), "name" := Str(name)]]
  }

  /** Upserting the same name twice is upserting it once. */
  lemma UpsertNameIdempotent(records: map<string, Record>, id: string, name: string)
    ensures UpsertName(UpsertName(records, id, name), id, name) == UpsertName(records, id, name)
  {
    var once := UpsertName(records, id, name);
    assert once[id]["name" := Str(name)] == once[id];
  }

  class Tenants {
    var records: map<string, Record>

    predicate Valid()
      reads this
    {
      WellKeyed(records)
    }

    constructor (records: map<string, Record>)
      requires WellKeyed(records)
      ensures Valid() && this.records == records
    {
      this.records := records;
    }

    /** `ensure_tenant`: the tenant's id is the slug of its name, and its
        record ends up carrying that name. `fault` is the error
        `update_one` raises, if any: nothing is written and the error
        propagates, and since `seed` calls this outside its per-URL `try`
        it ends the whole seed. */
    method EnsureTenant(name: string, fault: Option<Exc>) returns (res: Result<string, Exc>)
      requires Valid()
      modifies this
      ensures Valid()
      ensures fault.Some? ==> res == Err(fault.value) && records == old(records)
      ensures fault.None? ==> res == Ok(Slug(name)) && records == UpsertName(old(records), Slug(name), name)
    {
      var id := Slugify(name);
      if fault.Some? {
        return Err(fault.value);
      }
      records := UpsertName(records, id, name);
      res := Ok(id);
    }
  }

  // ---------------------------------------------------------------------
  // File names and storage

  predicate SchemeChar(c: char) { AsciiAlnum(c) || c == '+' || c == '-' || c == '.' }

  predicate IsColon(c: char) { c == ':' }
  predicate EndsNetloc(c: char) { c == '/' || c == '?' || c == '#' }
  predicate IsHash(c: char) { c == '#' }
  predicate IsQuery(c: char) { c == '?' }

  /** The index of the first character satisfying `p`, or |s| when none does. */
  function IndexWhere(s: string, p: char -> bool): (i: nat)
    ensures i <= |s|
    ensures i < |s| ==> p(s[i])
    ensures forall j :: 0 <= j < i ==> !p(s[j])
    decreases |s|
  {
    if s == [] then 0 else if p(s[0]) then 0 else 1 + IndexWhere(s[1..], p)
  }

  /** Characters that do not satisfy `p` are skipped over. */
  lemma {:induction false} IndexWhereAfter(a: string, b: string, p: char -> bool)
    requires forall j :: 0 <= j < |a| ==> !p(a[j])
    ensures IndexWhere(a + b, p) == |a| + IndexWhere(b, p)
    decreases |a|
  {
    if a != [] {
      assert (a + b)[0] == a[0] && !p(a[0]);
      assert (a + b)[1..] == a[1..] + b;
      assert forall j :: 0 <= j < |a[1..]| ==> !p(a[1..][j]) by {
        forall j | 0 <= j < |a[1..]| ensures !p(a[1..][j]) { assert a[1..][j] == a[j + 1]; }
      }
      IndexWhereAfter(a[1..], b, p);
    } else {
      assert a + b == b;
    }
  }

  /** What `urlsplit` strips from the front of a URL: the C0 controls and
      the space. */
  predicate C0OrSpace(c: char) { c <= ' ' }

  /** What `urlsplit` removes everywhere in a URL: tab, CR and LF. */
  predicate UnsafeUrlChar(c: char) { c == '\t' || c == '\r' || c == '\n' }

  predicate NoUnsafe(s: string) { forall j :: 0 <= j < |s| ==> !UnsafeUrlChar(s[j]) }

  function RemoveUnsafe(s: string): (r: string)
    ensures NoUnsafe(r)
    ensures NoUnsafe(s) ==> r == s
    decreases |s|
  {
    if s == [] then []
    else
      var rest := RemoveUnsafe(s[1..]);
      assert NoUnsafe(s) ==> NoUnsafe(s[1..]) by {
        if NoUnsafe(s) { forall j | 0 <= j < |s[1..]| ensures !UnsafeUrlChar(s[1..][j]) { assert s[1..][j] == s[j + 1]; } }
      }
      if UnsafeUrlChar(s[0]) then rest else assert s == [s[0]] + s[1..]; [s[0]] + rest
  }

  lemma {:induction false} RemoveUnsafeAppend(a: string, b: string)
    ensures RemoveUnsafe(a + b) == RemoveUnsafe(a) + RemoveUnsafe(b)
    decreases |a|
  {
    if a == [] {
      assert a + b == b;
    } else {
      assert (a + b)[0] == a[0];
      assert (a + b)[1..] == a[1..] + b;
      RemoveUnsafeAppend(a[1..], b);
    }
  }

  /** The URL `urlsplit` goes on to split: leading controls and spaces
      stripped, then tab, CR and LF removed. */
  function CleanUrl(url: string): string {
    RemoveUnsafe(DropWhile(url, C0OrSpace))
  }

  /** A scheme as `urlsplit` accepts it: a letter, then letters, digits, '+', '-' or '.'. */
  predicate ValidScheme(s: string) {
    s != [] && (AsciiUpper(s[0]) || AsciiLowerLetter(s[0])) && AllSatisfy(s, SchemeChar)
  }

  /** The scheme, lower-cased, and the text after `scheme:` when the URL
      starts with a valid scheme; otherwise no scheme and the whole URL. */
  function SplitScheme(url: string): (string, string) {
    var i := IndexWhere(url, IsColon);
    if i < |url| && ValidScheme(url[..i]) then (LowerAll(url[..i]), url[i + 1..]) else ("", url)
  }

  /** The text after `//netloc`, when there is a network location. */
  function AfterNetloc(rest: string): string {
    if |rest| >= 2 && rest[..2] == "//" then
      var t := rest[2..];
      t[IndexWhere(t, EndsNetloc)..]
    else rest
  }

  /** The schemes whose last path segment may carry `;params`
      (`urllib.parse.uses_params`). */
  predicate UsesParams(scheme: string) {
    scheme in {"", "ftp", "hdl", "prospero", "http", "imap", "https", "shttp", "rtsp", "rtsps",
               "rtspu", "sip", "sips", "mms", "sftp", "tel"}
  }

  predicate IsSemicolon(c: char) { c == ';' }

  /** `_splitparams`: the path up to the first ';' of its last segment. */
  function CutParams(path: string): string {
    LastPieceIsSuffix(path, '/');
    var k := |path| - |LastPiece(path, '/')|;
    path[..k + IndexWhere(path[k..], IsSemicolon)]
  }

  /** The `path` component of `urlparse(url)`: after scheme and network
      location, before the fragment and the query, and without the
      parameters of the last segment when the scheme uses them. */
  function UrlPath(url: string): string {
    PathOfClean(CleanUrl(url))
  }

  /** The path of a URL once it has been cleaned. */
  function PathOfClean(url: string): string {
    var (scheme, rest) := SplitScheme(url);
    var r := AfterNetloc(rest);
    var noFragment := r[..IndexWhere(r, IsHash)];
    var path := noFragment[..IndexWhere(noFragment, IsQuery)];
    if UsesParams(scheme) then CutParams(path) else path
  }

  const DefaultFilename: string := "downloaded-file"

  /** The last '/'-separated piece of a path, or "downloaded-file" when
      that is empty: a non-empty name without '/' that ends the path. */
  function BaseName(path: string): (r: string)
    ensures r != [] && '/' !in r
    ensures r == DefaultFilename || EndsWith(path, r)
  {
    LastPieceIsSuffix(path, '/');
    var base := LastPiece(path, '/');
    if base == "" then DefaultFilename else base
  }

  /** `filename_from_url`: the base name of the URL's path. */
  function FilenameFromUrl(url: string): string {
    BaseName(UrlPath(url))
  }

  lemma SplitSchemeOf(scheme: string, rest: string)
    requires ValidScheme(scheme)
    ensures SplitScheme(scheme + ":" + rest) == (LowerAll(scheme), rest)
  {
    var url := scheme + ":" + rest;
    assert url == scheme + (":" + rest);
    IndexWhereAfter(scheme, ":" + rest, IsColon);
    assert url[..|scheme|] == scheme;
    assert url[|scheme| + 1..] == rest;
  }

  lemma AfterNetlocOf(host: string, rest: string)
    requires forall j :: 0 <= j < |host| ==> !EndsNetloc(host[j])
    requires rest == [] || EndsNetloc(rest[0])
    ensures AfterNetloc("//" + host + rest) == rest
  {
    var url := "//" + host + rest;
    assert url[..2] == "//";
    var t := url[2..];
    assert t == host + rest;
    IndexWhereAfter(host, rest, EndsNetloc);
    assert IndexWhere(rest, EndsNetloc) == 0;
    assert t[|host|..] == rest;
  }

  /** The query and the fragment are cut off a path that holds neither. */
  lemma PathBeforeTail(path: string, tail: string)
    requires forall j :: 0 <= j < |path| ==> path[j] != '?' && path[j] != '#'
    requires tail == [] || tail[0] == '?' || tail[0] == '#'
    ensures var r := path + tail;
            var noFragment := r[..IndexWhere(r, IsHash)];
            noFragment[..IndexWhere(noFragment, IsQuery)] == path
  {
    IndexWhereAfter(path, tail, IsHash);
    var r := path + tail;
    var h := IndexWhere(tail, IsHash);
    var noFragment := r[..|path| + h];
    assert noFragment == path + tail[..h];
    IndexWhereAfter(path, tail[..h], IsQuery);
    if tail != [] && tail[0] == '#' {
      assert h == 0;
    } else if tail != [] {
      assert IndexWhere(tail[..h], IsQuery) == 0;
    }
    assert noFragment[..IndexWhere(noFragment, IsQuery)] == path;
  }

  /** A URL that starts with a scheme and holds no tab, CR or LF is only
      stripped of what comes before it. */
  lemma CleanUrlOf(lead: string, url: string)
    requires AllSatisfy(lead, C0OrSpace)
    requires url != [] && !C0OrSpace(url[0]) && NoUnsafe(url)
    ensures CleanUrl(lead + url) == url
  {
    DropWhileAppend(lead, url, C0OrSpace);
    assert !AllSatisfy(url, C0OrSpace);
    DropWhileAppend(url, [], C0OrSpace);
    assert url + [] == url;
    assert RunEnd(url, C0OrSpace, 0) == 0;
  }

  /** The path of a URL `scheme://host/path?query` (query and fragment
      optional, leading controls and spaces allowed) is `/path`, less the
      `;params` of its last segment when the scheme uses them. */
  lemma UrlPathOf(lead: string, scheme: string, host: string, path: string, tail: string)
    requires AllSatisfy(lead, C0OrSpace)
    requires ValidScheme(scheme)
    requires forall j :: 0 <= j < |host| ==> !EndsNetloc(host[j])
    requires path != [] && path[0] == '/'
    requires forall j :: 0 <= j < |path| ==> path[j] != '?' && path[j] != '#'
    requires tail == [] || tail[0] == '?' || tail[0] == '#'
    requires NoUnsafe(scheme + "://" + host + path + tail)
    ensures UrlPath(lead + scheme + "://" + host + path + tail) ==
            if UsesParams(LowerAll(scheme)) then CutParams(path) else path
  {
    var url := scheme + "://" + host + path + tail;
    assert url[0] == scheme[0];
    CleanUrlOf(lead, url);
    assert lead + scheme + "://" + host + path + tail == lead + url;
    PathOfCleanOf(scheme, host, path, tail);
  }

  /** The path of a cleaned `scheme://host/path?query`. */
  lemma PathOfCleanOf(scheme: string, host: string, path: string, tail: string)
    requires ValidScheme(scheme)
    requires forall j :: 0 <= j < |host| ==> !EndsNetloc(host[j])
    requires path != [] && path[0] == '/'
    requires forall j :: 0 <= j < |path| ==> path[j] != '?' && path[j] != '#'
    requires tail == [] || tail[0] == '?' || tail[0] == '#'
    ensures PathOfClean(scheme + "://" + host + path + tail) ==
            if UsesParams(LowerAll(scheme)) then CutParams(path) else path
  {
    var rest := path + tail;
    assert scheme + "://" + host + path + tail == scheme + ":" + ("//" + host + rest);
    SplitSchemeOf(scheme, "//" + host + rest);
    AfterNetlocOf(host, rest);
    PathBeforeTail(path, tail);
  }

  /** Cutting the parameters off `dir/name;params` leaves `dir/name`. */
  lemma CutParamsOf(dir: string, name: string, params: string)
    requires '/' !in name && ';' !in name
    requires params == [] || (params[0] == ';' && '/' !in params)
    ensures CutParams(dir + "/" + name + params) == dir + "/" + name
  {
    var path := dir + "/" + name + params;
    assert path == dir + ['/'] + (name + params);
    LastPieceAppend(dir, name + params, '/');
    assert path[|dir| + 1..] == name + params;
    IndexWhereAfter(name, params, IsSemicolon);
    assert IndexWhere(params, IsSemicolon) == 0 || params == [];
    assert path[..|dir| + 1 + |name|] == dir + "/" + name;
  }

  /** `dir/name;params` is a path without query or fragment. */
  lemma DirNameIsPath(dir: string, name: string, params: string)
    requires dir == [] || dir[0] == '/'
    requires forall j :: 0 <= j < |dir| ==> dir[j] != '?' && dir[j] != '#'
    requires forall j :: 0 <= j < |name| ==> name[j] != '?' && name[j] != '#'
    requires forall j :: 0 <= j < |params| ==> params[j] != '?' && params[j] != '#'
    ensures var path := dir + "/" + name + params;
      && path != [] && path[0] == '/'
      && forall j :: 0 <= j < |path| ==> path[j] != '?' && path[j] != '#'
  {
    var path := dir + "/" + name + params;
    assert path[0] == '/' by { if dir != [] { assert path[0] == dir[0]; } }
    forall j | 0 <= j < |path| ensures path[j] != '?' && path[j] != '#' {
      if j < |dir| { assert path[j] == dir[j]; }
      else if |dir| < j < |dir| + 1 + |name| { assert path[j] == name[j - |dir| - 1]; }
      else if j >= |dir| + 1 + |name| { assert path[j] == params[j - |dir| - 1 - |name|]; }
    }
  }

  /** The base name of `dir/name;params`, with or without its parameters. */
  lemma BaseNameOfDirName(dir: string, name: string, params: string, cut: bool)
    requires '/' !in name && ';' !in name
    requires params == [] || params[0] == ';'
    requires '/' !in params
    ensures var path := dir + "/" + name + params;
            var kept := if cut then name else name + params;
      BaseName(if cut then CutParams(path) else path) == if kept == [] then DefaultFilename else kept
  {
    if cut {
      CutParamsOf(dir, name, params);
      LastPieceAppend(dir, name, '/');
    } else {
      assert '/' !in name + params by {
        forall j | 0 <= j < |name + params| ensures (name + params)[j] != '/' {
          if j < |name| { assert (name + params)[j] == name[j]; }
          else { assert (name + params)[j] == params[j - |name|]; }
        }
      }
      assert dir + "/" + name + params == dir + "/" + (name + params);
      LastPieceAppend(dir, name + params, '/');
    }
  }

  /** For such a URL with path `dir/name;params` the file name is `name`
      (or the default when `name` is empty) when the scheme uses
      parameters, and `name;params` otherwise. */
  lemma FilenameOfUrl(lead: string, scheme: string, host: string, dir: string, name: string,
                      params: string, tail: string)
    requires AllSatisfy(lead, C0OrSpace)
    requires ValidScheme(scheme)
    requires forall j :: 0 <= j < |host| ==> !EndsNetloc(host[j])
    requires dir == [] || dir[0] == '/'
    requires forall j :: 0 <= j < |dir| ==> dir[j] != '?' && dir[j] != '#'
    requires forall j :: 0 <= j < |name| ==> name[j] != '/' && name[j] != '?' && name[j] != '#' && name[j] != ';'
    requires params == [] || params[0] == ';'
    requires forall j :: 0 <= j < |params| ==> params[j] != '/' && params[j] != '?' && params[j] != '#'
    requires tail == [] || tail[0] == '?' || tail[0] == '#'
    requires NoUnsafe(scheme + "://" + host + dir + "/" + name + params + tail)
    ensures var kept := if UsesParams(LowerAll(scheme)) then name else name + params;
      FilenameFromUrl(lead + scheme + "://" + host + dir + "/" + name + params + tail) ==
      if kept == [] then DefaultFilename else kept
  {
    var path := dir + "/" + name + params;
    DirNameIsPath(dir, name, params);
    RegroupPath(scheme + "://" + host, dir, name, params, tail);
    RegroupPath(lead + scheme + "://" + host, dir, name, params, tail);
    UrlPathOf(lead, scheme, host, path, tail);
    BaseNameOfDirName(dir, name, params, UsesParams(LowerAll(scheme)));
  }

  lemma RegroupPath(front: string, dir: string, name: string, params: string, tail: string)
    ensures front + dir + "/" + name + params + tail == front + (dir + "/" + name + params) + tail
  {
  }

  lemma CleanUrlIgnoresBreaks(a: string, c: char, b: string)
    requires UnsafeUrlChar(c)
    ensures CleanUrl(a + [c] + b) == CleanUrl(a + b)
  {
    var cb := [c] + b;
    assert a + [c] + b == a + cb;
    assert cb[0] == c && cb[1..] == b;
    assert RemoveUnsafe(cb) == RemoveUnsafe(b);
    DropWhileAppend(a, cb, C0OrSpace);
    DropWhileAppend(a, b, C0OrSpace);
    if AllSatisfy(a, C0OrSpace) {
      DropWhileAppend([c], b, C0OrSpace);
      assert AllSatisfy([c], C0OrSpace);
      assert [c] + b == cb;
      assert DropWhile(cb, C0OrSpace) == DropWhile(b, C0OrSpace);
    } else {
      var d := DropWhile(a, C0OrSpace);
      RemoveUnsafeAppend(d, cb);
      RemoveUnsafeAppend(d, b);
    }
  }

  /** A tab, CR or LF anywhere in a URL does not change its path. */
  lemma UrlPathIgnoresBreaks(a: string, c: char, b: string)
    requires UnsafeUrlChar(c)
    ensures UrlPath(a + [c] + b) == UrlPath(a + b)
    ensures FilenameFromUrl(a + [c] + b) == FilenameFromUrl(a + b)
  {
    CleanUrlIgnoresBreaks(a, c, b);
  }

  /** `write_to_storage`'s destination `str(root / tenant_id / document_id / filename)`. */
  function StoragePath(root: string, tenantId: string, documentId: string, filename: string): string {
    PathString(JoinPath(JoinPath(JoinPath(Parse(root), tenantId), documentId), filename))
  }

  /** With plain names the destination is the root's normal form, then
      tenant/document/filename, and the file name is its last segment. */
  lemma StoragePathFilename(root: string, tenantId: string, documentId: string, filename: string)
    requires PlainName(tenantId) && PlainName(documentId) && PlainName(filename)
    ensures StoragePath(root, tenantId, documentId, filename) ==
            Dir(Parse(root)) + tenantId + "/" + documentId + "/" + filename
    ensures LastPiece(StoragePath(root, tenantId, documentId, filename), '/') == filename
  {
    var p0 := Parse(root);
    JoinName(p0, tenantId);
    var p1 := JoinPath(p0, tenantId);
    JoinName(p1, documentId);
    var p2 := JoinPath(p1, documentId);
    JoinName(p2, filename);
    LastPieceAppend(Dir(p0) + tenantId + "/" + documentId, filename, '/');
  }

  /** pathlib normalises what plain concatenation would not: an empty
      tenant id is dropped, an absolute one discards the root, and a
      trailing '/' or a leading "./" on the root changes nothing. */
  lemma StoragePathNormalises(root: string, tenantId: string, documentId: string, filename: string)
    ensures StoragePath(root, "", documentId, filename) == PathString(JoinPath(JoinPath(Parse(root), documentId), filename))
    ensures tenantId != [] && tenantId[0] == '/' ==>
              StoragePath(root, tenantId, documentId, filename) == StoragePath("", tenantId, documentId, filename)
    ensures (exists i :: 0 <= i < |root| && root[i] != '/') ==>
              StoragePath(root + "/", tenantId, documentId, filename) == StoragePath(root, tenantId, documentId, filename)
    ensures root == [] || root[0] != '/' ==>
              StoragePath("./" + root, tenantId, documentId, filename) == StoragePath(root, tenantId, documentId, filename)
  {
    JoinSkipped(Parse(root), "");
    if tenantId != [] && tenantId[0] == '/' {
      JoinAbsolute(Parse(root), Parse(""), tenantId);
    }
    if exists i :: 0 <= i < |root| && root[i] != '/' {
      ParseTrailingSlash(root);
    }
    if root == [] || root[0] != '/' {
      ParseDotPrefix(root);
    }
  }

  // ---------------------------------------------------------------------
  // Seeded records

  /** The document record `seed` inserts for one downloaded file. */
  function SeedDocument(documentId: string, tenantId: string, filename: string, dest: string,
                        size: nat, now: int): (r: Record)
    ensures KeyedBy(r, documentId)
  {
    map["_id" := Str(documentId), "tenant_id" := Str(tenantId), "name" := Str(filename),
        "object_path" := Str(dest), "size" := Num(size), "createdAt" := Time(now), "updatedAt" := Time(now)]
  }

  /** The embedding task `seed` inserts beside it. */
  function SeedTask(embeddingId: string, documentId: string, now: int): (r: Record)
    ensures KeyedBy(r, embeddingId)
  {
    map["_id" := Str(embeddingId), "document_id" := Str(documentId), "status" := Str("pending"),
        "createdAt" := Time(now), "updatedAt" := Time(now)]
  }

  /** A seeded task is pending, points at the document inserted with it,
      and once stored is a job the worker can claim. It carries no text, so
      without a preferred field the worker marks it failed. */
  lemma SeedTaskIsJob(records: map<string, Record>, embeddingId: string, documentId: string, now: int)
    requires WellKeyed(records) && embeddingId !in records
    ensures var task := SeedTask(embeddingId, documentId, now);
      && HasStatus(task, "pending")
      && task["document_id"] == Str(documentId)
      && WellKeyed(records[embeddingId := task])
      && embeddingId in Pending(records[embeddingId := task])
      && Extraction(task, None) == Err(NoTextError)
  {
    var task := SeedTask(embeddingId, documentId, now);
    assert "text" !in task && "content" !in task && "input" !in task;
    ExtractionFailure(task, None);
  }

  /** A document seeded under plain names is stored under its file name,
      in the directory of its tenant and its own id, and the task inserted
      beside it points at it. */
  lemma SeedDocumentStored(filename: string, root: string, tenantId: string, documentId: string,
                           embeddingId: string, size: nat, now: int)
    requires PlainName(tenantId) && PlainName(documentId) && PlainName(filename)
    ensures var dest := StoragePath(root, tenantId, documentId, filename);
            var doc := SeedDocument(documentId, tenantId, filename, dest, size, now);
      && doc["object_path"] == Str(Dir(Parse(root)) + tenantId + "/" + documentId + "/" + filename)
      && LastPiece(doc["object_path"].s, '/') == doc["name"].s
      && SeedTask(embeddingId, documentId, now)["document_id"] == doc["_id"]
  {
    StoragePathFilename(root, tenantId, documentId, filename);
  }

  /** What `seed` stores for the file name `filename`: outside the name
      ".", which pathlib drops, the object path is the document's directory
      and then the name, and its last segment is the document's name; for
      "." it is the document's directory itself. The task inserted beside
      the document points at it. */
  predicate SeededAs(filename: string, root: string, tenantId: string, documentId: string,
                     embeddingId: string, size: nat, now: int)
  {
    var doc := SeedDocument(documentId, tenantId, filename,
                            StoragePath(root, tenantId, documentId, filename), size, now);
    && (filename != "." ==>
          && doc["object_path"] == Str(Dir(Parse(root)) + tenantId + "/" + documentId + "/" + filename)
          && LastPiece(doc["object_path"].s, '/') == doc["name"].s)
    && (filename == "." ==>
          doc["object_path"] == Str(PathString(JoinPath(JoinPath(Parse(root), tenantId), documentId))))
    && SeedTask(embeddingId, documentId, now)["document_id"] == doc["_id"]
  }

  /** The seeded document is stored as above under the file name taken
      from its URL. */
  lemma SeedDocumentLinks(url: string, root: string, tenantId: string, documentId: string,
                          embeddingId: string, size: nat, now: int)
    requires PlainName(tenantId) && PlainName(documentId)
    ensures SeededAs(FilenameFromUrl(url), root, tenantId, documentId, embeddingId, size, now)
  {
    SeedDocumentNamed(FilenameFromUrl(url), root, tenantId, documentId, embeddingId, size, now);
  }

  /** The same for any non-empty file name without '/'. */
  lemma SeedDocumentNamed(filename: string, root: string, tenantId: string, documentId: string,
                          embeddingId: string, size: nat, now: int)
    requires PlainName(tenantId) && PlainName(documentId)
    requires filename != [] && '/' !in filename
    ensures SeededAs(filename, root, tenantId, documentId, embeddingId, size, now)
  {
    if filename != "." {
      SeedDocumentStored(filename, root, tenantId, documentId, embeddingId, size, now);
    } else {
      JoinSkipped(JoinPath(JoinPath(Parse(root), tenantId), documentId), filename);
    }
  }
}
