/**
 * What the asset manager exchanges with the services it calls: the outcomes
 * those calls may report, the calls themselves (in the order they are made),
 * the permission grants, stored locations and route responses, and the pure
 * rules built on them (the read filter of lib/assetmanager.js:266-285, the
 * date stamps of lines 150-152 and 317-319, the grant of lines 164-165 and
 * the upload replies of lines 392, 503-511 and 583-591).
 */
module Services {
  import opened Js
  import opened Records

  /** How an external call with no result of interest completed. */
  datatype Outcome = Pass | Fail(error: Error)

  /** How an external call with a result completed. */
  datatype Result<T> = Ok(value: T) | Err(error: Error)

  /** `permissions.buildResourceString(tenantId, '/api/asset/' + id)`: one
      resource per tenant and asset id. */
  datatype Resource = Resource(tenant: Option<string>, asset: Value)

  /** An `allow` statement of some user's policy: the user may take the action
      on the resource. */
  datatype Grant = Grant(user: string, action: string, resource: Resource)

  /** A file or folder held by a storage repository. */
  datatype Location = Location(repository: Value, path: Value)

  /** The external calls the asset manager makes, as it makes them. */
  datatype Call =
    | GetDatabase
    | GetMasterDatabase
    | DbCreate(data: Object)
    | DbRetrieve(search: Object, options: Object)
    | DbUpdate(search: Object, delta: Object)
    | DbDestroy(search: Object)
    | CreatePolicy(user: string)
    | AddStatement(actions: seq<string>, resource: Resource)
    | CheckPermission(action: string, resource: Resource)
    | GetStorage(repository: Value)
    | StoreFile(path: string)
    | StoreFolder(source: string, target: string)
    | DeleteFile(stored: Value)
    | RemoveDirectory(path: string)
    | Extract(archive: string, target: string)
    | ReadDir(path: string)
    | Unlink(path: string)

  /** What a route hands back: a JSON reply, an HTML reply, a stream of a
      stored file, an error passed to `next`, or an exception thrown inside a
      callback. */
  datatype Response =
    | Json(status: int, body: Value)
    | Html(status: int, text: string)
    | Stream(source: Location, headers: Object, fromMaster: bool)
    | Failed(error: Error)
    | Thrown(error: Error)

  /** An uploaded file as the form parser reports it: its client-side name,
      the temporary path it was written to, and its bytes. */
  datatype Upload = Upload(name: string, tmpPath: string, bytes: seq<bv8>)

  /** The parsed multipart form. */
  datatype Form = Form(fields: Fields, file: Option<Upload>)

  /** Outcomes of the calls retrieveAsset makes. */
  datatype RetrieveOutcomes = RetrieveOutcomes(database: Outcome, retrieve: Outcome)

  /** Outcomes of the calls createAsset makes; `insert` carries the new id. */
  datatype CreateOutcomes = CreateOutcomes(database: Outcome, insert: Result<string>,
                                           policy: Outcome, statement: Outcome)

  /** Outcomes of the calls updateAsset makes. */
  datatype UpdateOutcomes = UpdateOutcomes(database: Outcome, update: Outcome)

  /** Outcomes of the calls destroyAsset makes, the nested retrieval included. */
  datatype DestroyOutcomes = DestroyOutcomes(database: Outcome, lookup: RetrieveOutcomes,
                                             destroy: Outcome, storage: Outcome, delete: Outcome)

  /** Outcomes of the plain-file branch of postAsset; `store` carries the
      backend's description of the stored file. */
  datatype PlainOutcomes = PlainOutcomes(store: Result<Object>, create: CreateOutcomes,
                                         compensate: Outcome)

  /** Outcomes of the package branch of postAsset, one per step. */
  datatype PackageOutcomes = PackageOutcomes(extract: Outcome, readdir: Outcome, folder: Outcome,
                                             create: CreateOutcomes, removeFolder: Outcome,
                                             removeStaging: Outcome, unlink: Outcome)

  /** Outcomes of the calls postAsset makes before it branches, then of each branch. */
  datatype PostOutcomes = PostOutcomes(parse: Result<Form>, storage: Outcome,
                                       plain: PlainOutcomes, package: PackageOutcomes)

  /** Outcomes of serveAsset and assetThumb. */
  datatype ServeOutcomes = ServeOutcomes(lookup: RetrieveOutcomes, storage: Outcome)

  /** Outcomes of serveSharedAsset, which reads the master database directly. */
  datatype SharedOutcomes = SharedOutcomes(database: Outcome, retrieve: Outcome, storage: Outcome)

  /** Everything the asset manager's calls can change, at one moment: the
      current tenant's asset records, the master tenant's, the stored files
      and folders, the local temporary files, the permission grants, and the
      calls made so far. */
  datatype Store = Store(records: seq<Object>, master: seq<Object>, files: set<Location>,
                         scratch: set<string>, grants: set<Grant>, calls: seq<Call>)

  /** The store after an operation, and what the operation handed back. */
  datatype Effect<T> = Effect(after: Store, out: T)

  /** What V8 throws when a property of undefined is read. */
  function UndefinedRead(property: string): Error {
    TypeError("Cannot read property '" + property + "' of undefined")
  }

  /** The resource a permission check on a record is about: its `_id`. */
  function ResourceOf(tenant: Option<string>, item: Object): Resource {
    Resource(tenant, Get(item, "_id"))
  }

  /** `hasPermission(action, user._id, tenantId, item)` answers yes: the user's
      policies allow the action on the item's resource. */
  predicate Allowed(grants: set<Grant>, action: string, user: User, item: Object) {
    Grant(user.id, action, ResourceOf(user.tenant, item)) in grants
  }

  /** `['create', 'read', 'update', 'delete']`. */
  const EditActions: seq<string> := ["create", "read", "update", "delete"]

  /** One `allow` statement for the four editing actions. */
  function GrantsFor(user: string, res: Resource): set<Grant> {
    set a | a in EditActions :: Grant(user, a, res)
  }

  /** The elements of xs that satisfy p, in their order (built from the end,
      as the loops that compute it append). */
  function Filter<T>(xs: seq<T>, p: T -> bool): (ys: seq<T>)
    ensures |ys| <= |xs|
    decreases |xs|
  {
    if xs == [] then []
    else Filter(xs[..|xs| - 1], p) + (if p(Last(xs)) then [Last(xs)] else [])
  }

  /** Filtering one more element. */
  lemma FilterSnoc<T>(xs: seq<T>, x: T, p: T -> bool)
    ensures Filter(xs + [x], p) == Filter(xs, p) + (if p(x) then [x] else [])
  {
    assert (xs + [x])[..|xs|] == xs;
  }

  /** A filter keeps exactly the elements that satisfy the test. */
  lemma {:induction false} FilterMembers<T>(xs: seq<T>, p: T -> bool)
    ensures forall x :: x in Filter(xs, p) <==> x in xs && p(x)
    decreases |xs|
  {
    if xs != [] {
      var init := xs[..|xs| - 1];
      FilterMembers(init, p);
      assert xs == init + [Last(xs)];
    }
  }

  /** A filter keeps relative order: it distributes over concatenation. */
  lemma {:induction false} FilterConcat<T>(a: seq<T>, b: seq<T>, p: T -> bool)
    ensures Filter(a + b, p) == Filter(a, p) + Filter(b, p)
    decreases |b|
  {
    if b == [] {
      assert a + b == a;
    } else {
      var b' := b[..|b| - 1];
      assert (a + b)[..|a + b| - 1] == a + b';
      assert Last(a + b) == Last(b);
      FilterConcat(a, b', p);
    }
  }

  /** A filter drops nothing exactly when every element passes. */
  lemma {:induction false} FilterAll<T>(xs: seq<T>, p: T -> bool)
    ensures Filter(xs, p) == xs <==> forall i | 0 <= i < |xs| :: p(xs[i])
    decreases |xs|
  {
    if xs != [] {
      var init := xs[..|xs| - 1];
      FilterAll(init, p);
      assert xs == init + [Last(xs)];
      assert forall i | 0 <= i < |init| :: init[i] == xs[i];
      if !p(Last(xs)) {
        assert |Filter(xs, p)| < |xs|;
      }
    }
  }

  /** The store's query match, as a test on records. */
  function Selector(selects: (Object, Object) -> bool, search: Object): Object -> bool {
    r => selects(r, search)
  }

  /** Its complement: the records a destroy by that query leaves. */
  function Unselected(selects: (Object, Object) -> bool, search: Object): Object -> bool {
    r => !selects(r, search)
  }

  /** The read check of retrieveAsset: the user holds `read` on the record. */
  function Readable(grants: set<Grant>, user: User): Object -> bool {
    r => Allowed(grants, "read", user, r)
  }

  /** The permission checks retrieveAsset makes, one per record, in order. */
  function ReadChecks(recs: seq<Object>, tenant: Option<string>): (cs: seq<Call>)
    ensures |cs| == |recs|
    decreases |recs|
  {
    if recs == [] then []
    else ReadChecks(recs[..|recs| - 1], tenant) + [CheckPermission("read", ResourceOf(tenant, Last(recs)))]
  }

  /** Checking one more record. */
  lemma ReadChecksSnoc(recs: seq<Object>, r: Object, tenant: Option<string>)
    ensures ReadChecks(recs + [r], tenant) == ReadChecks(recs, tenant) + [CheckPermission("read", ResourceOf(tenant, r))]
  {
    assert (recs + [r])[..|recs|] == recs;
  }

  /** The i-th check is the `read` check of the i-th record. */
  lemma {:induction false} ReadChecksAt(recs: seq<Object>, tenant: Option<string>)
    ensures forall i | 0 <= i < |recs| :: ReadChecks(recs, tenant)[i] == CheckPermission("read", ResourceOf(tenant, recs[i]))
    decreases |recs|
  {
    if recs != [] {
      var init := recs[..|recs| - 1];
      ReadChecksAt(init, tenant);
      assert forall i | 0 <= i < |init| :: init[i] == recs[i];
    }
  }

  /** All the checks are `read` checks. */
  lemma {:induction false} ReadChecksOnly(recs: seq<Object>, tenant: Option<string>)
    ensures forall c | c in ReadChecks(recs, tenant) :: c.CheckPermission? && c.action == "read"
    decreases |recs|
  {
    if recs != [] {
      ReadChecksOnly(recs[..|recs| - 1], tenant);
    }
  }

  /** No store destroy among the calls. */
  predicate NoDestroy(cs: seq<Call>) {
    forall c | c in cs :: !c.DbDestroy?
  }

  /** Two stretches without a destroy make one. */
  lemma NoDestroyJoin(cs: seq<Call>, n: nat, m: nat)
    requires n <= m <= |cs|
    requires NoDestroy(cs[n..m]) && NoDestroy(cs[m..])
    ensures NoDestroy(cs[n..])
  {
    assert cs[n..] == cs[n..m] + cs[m..];
  }

  /** No removal of a directory and no unlink among the calls. */
  predicate NoCleanup(cs: seq<Call>) {
    forall c | c in cs :: !c.RemoveDirectory? && !c.Unlink?
  }

  /** `if (!o[key]) o[key] = new Date()`: a date stamp that never overwrites. */
  function Stamp(o: Object, key: string, now: int): (r: Object)
    ensures Truthy(Get(r, key))
    ensures Truthy(Get(o, key)) ==> r == o
    ensures !Truthy(Get(o, key)) ==> Get(r, key) == Date(now)
    ensures forall k {:trigger Get(r, k)} :: k != key ==> Get(r, k) == Get(o, k)
  {
    if Truthy(Get(o, key)) then o else Assign(o, key, Date(now))
  }

  /** The record the store creates: the stamped data under its new id. */
  function NewRecord(data: Object, now: int, id: string): (doc: Object)
    ensures Get(doc, "_id") == Str(id)
    ensures Truthy(Get(doc, "createdAt"))
    ensures Truthy(Get(data, "createdAt")) ==> Get(doc, "createdAt") == Get(data, "createdAt")
    ensures forall k {:trigger Get(doc, k)} :: k != "_id" && k != "createdAt" ==> Get(doc, k) == Get(data, k)
  {
    Assign(Stamp(data, "createdAt", now), "_id", Str(id))
  }

  /** The creator of a record can read it back once its grant is in place. */
  lemma CreatorCanRead(grants: set<Grant>, user: User, data: Object, now: int, id: string)
    ensures Readable(grants + GrantsFor(user.id, Resource(user.tenant, Str(id))), user)(NewRecord(data, now, id))
  {
    assert "read" in EditActions;
  }

  /** The store's update applied to every record the query selects. */
  function UpdateAll(recs: seq<Object>, sel: Object -> bool, delta: Object): seq<Object> {
    seq(|recs|, i requires 0 <= i < |recs| => if sel(recs[i]) then Extend(recs[i], delta) else recs[i])
  }

  /** `{ success: false, message: ... }`, the body of every 404 reply. */
  function NotFoundBody(message: string): Value {
    Obj([("success", Bool(false)), ("message", Str(message))])
  }

  /** `{ success: true }`. */
  const SuccessBody: Value := Obj([("success", Bool(true))])

  /** The upload's client cannot take JSON: its Accept header mentions text/html. */
  predicate Limited(accept: string) {
    IndexOf(accept, "text/html") > -1
  }

  lemma LimitedIff(accept: string)
    ensures Limited(accept) <==> exists i :: OccursAt(accept, "text/html", i)
  {
    var r := IndexOf(accept, "text/html");
    if r != -1 {
      assert OccursAt(accept, "text/html", r);
    }
  }

  /** `JSON.stringify({_id: id}, null, 2)` for a string id (no characters that
      JSON escapes). */
  function PrettyId(id: string): string {
    "{\n  \"_id\": \"" + id + "\"\n}"
  }

  /** The reply to a successful upload. */
  function Reply(limited: bool, id: string): Response {
    if limited then Html(200, PrettyId(id)) else Json(200, Obj([("_id", Str(id))]))
  }

  /** The reply is the pretty-printed HTML text exactly when the client is
      limited, and the JSON object `{_id: id}` otherwise; either carries the new
      record's id, and it can be read back from it. */
  lemma ReplyCarriesId(limited: bool, id: string)
    ensures Reply(limited, id).Html? <==> limited
    ensures !limited ==> Reply(limited, id) == Json(200, Obj([("_id", Str(id))]))
    ensures var r := Reply(limited, id);
      && (r.Json? ==> r.body.Obj? && Get(r.body.entries, "_id") == Str(id))
      && (r.Html? ==> |r.text| == |id| + 15 && r.text[12..|r.text| - 3] == id)
  {
    var b := PrettyId(id);
    assert b == "{\n  \"_id\": \"" + id + "\"\n}";
    assert |"{\n  \"_id\": \""| == 12;
    assert b[12..|b| - 3] == id;
  }

  /** `_.property(key)(v)`: the key of an object, undefined for anything else. */
  function PropertyOf(v: Value, key: string): Value {
    if v.Obj? then Get(v.entries, key) else Undefined
  }

  /** `_.pluck(v, key)`: the key of each element of an array, of each value of
      an object, or of each character of a string; nothing for other values. */
  function Pluck(v: Value, key: string): seq<Value> {
    match v
    case List(xs) => seq(|xs|, i requires 0 <= i < |xs| => PropertyOf(xs[i], key))
    case Obj(e) => seq(|e|, i requires 0 <= i < |e| => PropertyOf(e[i].1, key))
    case Str(s) => seq(|s|, i requires 0 <= i < |s| => Undefined)
    case _ => []
  }
}
