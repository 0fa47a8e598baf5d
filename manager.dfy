/**
 * The asset manager of lib/assetmanager.js: the record operations
 * (createAsset, retrieveAsset, updateAsset, destroyAsset), the upload
 * handler postAsset with its plain-file and package branches, and the
 * routes built on them.
 *
 * Each operation is a method on the manager's state and is proved against a
 * function of the state before the call (Create, Retrieve, ...). The
 * services it calls (the database, the permission store, file storage, the
 * form parser, the unzip stream) are not modelled; what each one reported is
 * an argument (the `...Outcomes` values), and every call that is made is
 * appended to `calls`, in order. The store's query match is the function
 * `selects`, and the SHA-1 of an upload is `digestOf`.
 */
module Manager {
  import opened Js
  import opened Paths
  import opened Records
  import opened Queries
  import opened Services

  class AssetManager {
    /** Whether the store's query `search` matches a record. */
    const selects: (Object, Object) -> bool
    /** `crypto.createHash('sha1').digest('hex')` of the uploaded bytes. */
    const digestOf: seq<bv8> -> string
    /** Whether `new RegExp(text, 'i')` accepts a text rather than throwing. */
    const validPattern: string -> bool

    /** The current tenant's asset records, in the store's order. */
    var records: seq<Object>
    /** The master tenant's asset records, which shared assets are served from. */
    var master: seq<Object>
    /** What the storage repositories hold. */
    var files: set<Location>
    /** Local temporary files and folders the uploads leave behind. */
    var scratch: set<string>
    /** The permission store's `allow` statements. */
    var grants: set<Grant>
    /** The external calls made so far. */
    var calls: seq<Call>

    /** SHA-1 digests are hex strings. */
    ghost predicate Valid() {
      forall b :: IsHexDigest(digestOf(b))
    }

    function Snapshot(): Store
      reads this
    {
      Store(records, master, files, scratch, grants, calls)
    }

    constructor (selects: (Object, Object) -> bool, digestOf: seq<bv8> -> string,
                 validPattern: string -> bool, start: Store)
      requires forall b :: IsHexDigest(digestOf(b))
      ensures Valid()
      ensures this.selects == selects && this.digestOf == digestOf && this.validPattern == validPattern
      ensures Snapshot() == start
    {
      this.selects := selects;
      this.digestOf := digestOf;
      this.validPattern := validPattern;
      records := start.records;
      master := start.master;
      files := start.files;
      scratch := start.scratch;
      grants := start.grants;
      calls := start.calls;
    }

    /** The records the store matches for a query. */
    function Matching(recs: seq<Object>, search: Object): seq<Object> {
      Filter(recs, Selector(selects, search))
    }

    // ----- hasPermission (lib/assetmanager.js:120-123)

    method HasPermission(action: string, user: User, item: Object) returns (allowed: bool)
      modifies this`calls
      ensures allowed == Allowed(grants, action, user, item)
      ensures calls == old(calls) + [CheckPermission(action, ResourceOf(user.tenant, item))]
    {
      calls := calls + [CheckPermission(action, ResourceOf(user.tenant, item))];
      allowed := Grant(user.id, action, ResourceOf(user.tenant, item)) in grants;
    }

    // ----- createAsset (lib/assetmanager.js:133-175)

    function Create(s: Store, data: Object, user: User, now: int, o: CreateOutcomes): Effect<Result<Object>> {
      var s1 := s.(calls := s.calls + [GetDatabase]);
      if o.database.Fail? then Effect(s1, Err(o.database.error))
      else
        var stamped := Stamp(data, "createdAt", now);
        var s2 := s1.(calls := s1.calls + [DbCreate(stamped)]);
        if o.insert.Err? then Effect(s2, Err(o.insert.error))
        else
          var doc := Assign(stamped, "_id", Str(o.insert.value));
          var res := ResourceOf(user.tenant, doc);
          var s3 := s2.(records := s2.records + [doc],
                        calls := s2.calls + [CreatePolicy(user.id), AddStatement(EditActions, res)]);
          Effect(if o.policy.Pass? && o.statement.Pass? then s3.(grants := s3.grants + GrantsFor(user.id, res)) else s3,
                 Ok(doc))
    }

    method CreateAsset(data: Object, user: User, now: int, o: CreateOutcomes) returns (result: Result<Object>)
      modifies this`records, this`grants, this`calls
      ensures Snapshot() == Create(old(Snapshot()), data, user, now, o).after
      ensures result == Create(old(Snapshot()), data, user, now, o).out
    {
      calls := calls + [GetDatabase];
      if o.database.Fail? {
        result := Err(o.database.error);
        return;
      }
      var stamped := Stamp(data, "createdAt", now);
      calls := calls + [DbCreate(stamped)];
      if o.insert.Err? {
        result := Err(o.insert.error);
        return;
      }
      var doc := Assign(stamped, "_id", Str(o.insert.value));
      records := records + [doc];
      var res := ResourceOf(user.tenant, doc);
      calls := calls + [CreatePolicy(user.id), AddStatement(EditActions, res)];
      if o.policy.Pass? && o.statement.Pass? {
        grants := grants + GrantsFor(user.id, res);
      }
      result := Ok(doc);
    }

    /** What createAsset promises: a new record exactly when the store accepted
        it, carrying the data, its creation date and the store's id; the editing
        grants go to the creator alone, and only when the permission store took
        the statement; nothing else changes. */
    lemma CreateEffect(s: Store, data: Object, user: User, now: int, o: CreateOutcomes)
      ensures var e := Create(s, data, user, now, o);
        && (e.out.Ok? <==> o.database.Pass? && o.insert.Ok?)
        && (e.out.Ok? ==> e.out.value == NewRecord(data, now, o.insert.value) && e.after.records == s.records + [e.out.value])
        && (e.out.Err? ==> e.after.records == s.records && e.after.grants == s.grants)
        && (forall g | g in e.after.grants - s.grants :: g.user == user.id && e.out.Ok? && g.resource == Resource(user.tenant, Str(o.insert.value)))
        && e.after.master == s.master && e.after.files == s.files && e.after.scratch == s.scratch
      ensures var e := Create(s, data, user, now, o);
        var granted := o.database.Pass? && o.insert.Ok? && o.policy.Pass? && o.statement.Pass?;
        && e.after.grants == (if granted then s.grants + GrantsFor(user.id, Resource(user.tenant, Str(o.insert.value))) else s.grants)
        && (granted ==> forall a | a in EditActions :: Grant(user.id, a, Resource(user.tenant, Str(o.insert.value))) in e.after.grants)
    {
    }

    /** createAsset only appends calls: first the database lookup, then at most
        three more, none of them a removal. */
    lemma CreateAppends(s: Store, data: Object, user: User, now: int, o: CreateOutcomes)
      ensures var e := Create(s, data, user, now, o);
        && |s.calls| < |e.after.calls| <= |s.calls| + 4
        && e.after.calls[..|s.calls|] == s.calls && e.after.calls[|s.calls|] == GetDatabase
        && NoCleanup(e.after.calls[|s.calls|..])
    {
      var e := Create(s, data, user, now, o);
      var tail := e.after.calls[|s.calls|..];
      assert forall i | 0 <= i < |tail| :: !tail[i].RemoveDirectory? && !tail[i].Unlink?;
    }

    /** A successful create whose grant went through leaves a record its creator
        can read back. */
    lemma CreatedIsReadable(s: Store, data: Object, user: User, now: int, o: CreateOutcomes)
      requires o.database.Pass? && o.insert.Ok? && o.policy.Pass? && o.statement.Pass?
      ensures var e := Create(s, data, user, now, o);
        e.out.Ok? && Readable(e.after.grants, user)(e.out.value)
    {
      CreatorCanRead(s.grants, user, data, now, o.insert.value);
    }

    // ----- retrieveAsset (lib/assetmanager.js:237-291)

    function Retrieve(s: Store, search: Object, options: Object, user: User, o: RetrieveOutcomes): Effect<Result<seq<Object>>> {
      var s1 := s.(calls := s.calls + [GetDatabase]);
      if o.database.Fail? then Effect(s1, Err(o.database.error))
      else
        var s2 := s1.(calls := s1.calls + [DbRetrieve(search, WithDefaultPopulate(options))]);
        if o.retrieve.Fail? then Effect(s2, Err(o.retrieve.error))
        else
          var found := Matching(s.records, search);
          Effect(s2.(calls := s2.calls + ReadChecks(found, user.tenant)), Ok(Filter(found, Readable(s.grants, user))))
    }

    method RetrieveAsset(search: Object, options: Object, user: User, o: RetrieveOutcomes)
      returns (result: Result<seq<Object>>, sent: Object)
      modifies this`calls
      ensures sent == WithDefaultPopulate(options)
      ensures Snapshot() == Retrieve(old(Snapshot()), search, options, user, o).after
      ensures result == Retrieve(old(Snapshot()), search, options, user, o).out
    {
      sent := WithDefaultPopulate(options);
      calls := calls + [GetDatabase];
      if o.database.Fail? {
        result := Err(o.database.error);
        return;
      }
      calls := calls + [DbRetrieve(search, sent)];
      if o.retrieve.Fail? {
        result := Err(o.retrieve.error);
        return;
      }
      var readable := ReadFilter(Matching(records, search), user);
      result := Ok(readable);
    }

    /** The `async.eachSeries` loop of retrieveAsset (lib/assetmanager.js:266-285):
        one `read` check per record, in order, keeping the allowed ones. */
    method ReadFilter(found: seq<Object>, user: User) returns (readable: seq<Object>)
      modifies this`calls
      ensures readable == Filter(found, Readable(grants, user))
      ensures calls == old(calls) + ReadChecks(found, user.tenant)
    {
      readable := [];
      var i := 0;
      while i < |found|
        invariant 0 <= i <= |found|
        invariant readable == Filter(found[..i], Readable(grants, user))
        invariant calls == old(calls) + ReadChecks(found[..i], user.tenant)
      {
        var rec := found[i];
        var allowed := HasPermission("read", user, rec);
        if allowed {
          readable := readable + [rec];
        }
        ReadStep(found, i, grants, user);
        i := i + 1;
      }
      assert found[..i] == found;
    }

    /** One more record checked, as the loop above takes it. */
    static lemma ReadStep(found: seq<Object>, i: nat, grants: set<Grant>, user: User)
      requires i < |found|
      ensures Filter(found[..i + 1], Readable(grants, user)) ==
              Filter(found[..i], Readable(grants, user)) + (if Allowed(grants, "read", user, found[i]) then [found[i]] else [])
      ensures ReadChecks(found[..i + 1], user.tenant) ==
              ReadChecks(found[..i], user.tenant) + [CheckPermission("read", ResourceOf(user.tenant, found[i]))]
    {
      assert found[..i + 1] == found[..i] + [found[i]];
      FilterSnoc(found[..i], found[i], Readable(grants, user));
      ReadChecksSnoc(found[..i], found[i], user.tenant);
    }

    /** retrieveAsset changes nothing but the call record, and what it hands back
        is exactly the matched records the user may read, in the store's order. */
    lemma RetrieveEffect(s: Store, search: Object, options: Object, user: User, o: RetrieveOutcomes)
      ensures var e := Retrieve(s, search, options, user, o);
        && e.after == s.(calls := e.after.calls)
        && (e.out.Ok? <==> o.database.Pass? && o.retrieve.Pass?)
        && (e.out.Ok? ==> forall r :: r in e.out.value <==>
              r in s.records && selects(r, search) && Allowed(s.grants, "read", user, r))
    {
      var found := Matching(s.records, search);
      FilterMembers(s.records, Selector(selects, search));
      FilterMembers(found, Readable(s.grants, user));
      forall r
        ensures r in Filter(found, Readable(s.grants, user)) <==>
                r in s.records && selects(r, search) && Allowed(s.grants, "read", user, r)
      {
        assert Selector(selects, search)(r) == selects(r, search);
        assert Readable(s.grants, user)(r) == Allowed(s.grants, "read", user, r);
      }
    }

    /** Every matched record is checked for `read`, one call per record, in order,
        and the store is asked with the populate default in the options. */
    lemma RetrieveTrace(s: Store, search: Object, options: Object, user: User, o: RetrieveOutcomes)
      requires o.database.Pass? && o.retrieve.Pass?
      ensures var e := Retrieve(s, search, options, user, o);
        var found := Matching(s.records, search);
        && e.after.calls[..|s.calls| + 2] == s.calls + [GetDatabase, DbRetrieve(search, WithDefaultPopulate(options))]
        && |e.after.calls| == |s.calls| + 2 + |found|
        && forall i | 0 <= i < |found| ::
             e.after.calls[|s.calls| + 2 + i] == CheckPermission("read", ResourceOf(user.tenant, found[i]))
    {
      var found := Matching(s.records, search);
      var e := Retrieve(s, search, options, user, o);
      var head := s.calls + [GetDatabase, DbRetrieve(search, WithDefaultPopulate(options))];
      assert e.after.calls == head + ReadChecks(found, user.tenant);
      ReadChecksAt(found, user.tenant);
      forall i | 0 <= i < |found|
        ensures e.after.calls[|s.calls| + 2 + i] == CheckPermission("read", ResourceOf(user.tenant, found[i]))
      {
        assert e.after.calls[|head| + i] == ReadChecks(found, user.tenant)[i];
      }
    }

    /** A retrieval only appends calls, and none of them destroys. */
    lemma RetrieveNeverDestroys(s: Store, search: Object, options: Object, user: User, o: RetrieveOutcomes)
      ensures var e := Retrieve(s, search, options, user, o);
        |e.after.calls| >= |s.calls| && e.after.calls[..|s.calls|] == s.calls && NoDestroy(e.after.calls[|s.calls|..])
    {
      var e := Retrieve(s, search, options, user, o);
      var checks := ReadChecks(Matching(s.records, search), user.tenant);
      ReadChecksOnly(Matching(s.records, search), user.tenant);
      var head := [GetDatabase, DbRetrieve(search, WithDefaultPopulate(options))];
      if o.database.Fail? {
        assert e.after.calls[|s.calls|..] == [GetDatabase];
      } else if o.retrieve.Fail? {
        assert e.after.calls[|s.calls|..] == head;
      } else {
        assert e.after.calls == s.calls + head + checks;
        assert e.after.calls[|s.calls|..] == head + checks;
      }
    }

    // ----- updateAsset (lib/assetmanager.js:301-324)

    function Update(s: Store, search: Object, delta: Object, user: User, now: int, o: UpdateOutcomes): Effect<Outcome> {
      if user.tenant.None? then Effect(s, Fail(UndefinedRead("_id")))
      else
        var s1 := s.(calls := s.calls + [CheckPermission("update", ResourceOf(user.tenant, search))]);
        if !Allowed(s.grants, "update", user, search) then Effect(s1, Fail(PermissionError()))
        else
          var s2 := s1.(calls := s1.calls + [GetDatabase]);
          if o.database.Fail? then Effect(s2, Fail(o.database.error))
          else
            var stamped := Stamp(delta, "updatedAt", now);
            var s3 := s2.(calls := s2.calls + [DbUpdate(search, stamped)]);
            Effect(if o.update.Pass? then s3.(records := UpdateAll(s3.records, Selector(selects, search), stamped)) else s3,
                   o.update)
    }

    method UpdateAsset(search: Object, delta: Object, user: User, now: int, o: UpdateOutcomes) returns (result: Outcome)
      modifies this`records, this`calls
      ensures Snapshot() == Update(old(Snapshot()), search, delta, user, now, o).after
      ensures result == Update(old(Snapshot()), search, delta, user, now, o).out
    {
      if user.tenant.None? {
        result := Fail(UndefinedRead("_id"));
        return;
      }
      var allowed := HasPermission("update", user, search);
      if !allowed {
        result := Fail(PermissionError());
        return;
      }
      calls := calls + [GetDatabase];
      if o.database.Fail? {
        result := Fail(o.database.error);
        return;
      }
      var stamped := Stamp(delta, "updatedAt", now);
      calls := calls + [DbUpdate(search, stamped)];
      if o.update.Pass? {
        records := UpdateAll(records, Selector(selects, search), stamped);
      }
      result := o.update;
    }

    /** updateAsset asks for `update` permission before it touches the store; the
        records change only when the store reports success, and then only the
        selected ones, each extended by the stamped delta. */
    lemma UpdateEffect(s: Store, search: Object, delta: Object, user: User, now: int, o: UpdateOutcomes)
      ensures var e := Update(s, search, delta, user, now, o);
        && e.after == s.(records := e.after.records, calls := e.after.calls)
        && (user.tenant.Some? ==>
              |e.after.calls| > |s.calls| &&
              e.after.calls[|s.calls|] == CheckPermission("update", ResourceOf(user.tenant, search)))
        && (user.tenant.Some? && !Allowed(s.grants, "update", user, search) ==>
              e.out == Fail(AssetPermission(PermissionText)) && e.after.calls == s.calls + [e.after.calls[|s.calls|]])
        && (e.after.records != s.records ==> e.out.Pass? && Allowed(s.grants, "update", user, search))
        && |e.after.records| == |s.records|
        && (forall i | 0 <= i < |s.records| && !selects(s.records[i], search) :: e.after.records[i] == s.records[i])
        && (e.out.Pass? ==> forall i | 0 <= i < |s.records| && selects(s.records[i], search) ::
              e.after.records[i] == Extend(s.records[i], Stamp(delta, "updatedAt", now)))
    {
    }

    // ----- destroyAsset (lib/assetmanager.js:333-373)

    function Destroy(s: Store, id: string, user: User, o: DestroyOutcomes): Effect<Outcome> {
      var search: Object := [("_id", Str(id))];
      var s1 := s.(calls := s.calls + [CheckPermission("delete", ResourceOf(user.tenant, search))]);
      if !Allowed(s.grants, "delete", user, search) then Effect(s1, Fail(PermissionError()))
      else
        var s2 := s1.(calls := s1.calls + [GetDatabase]);
        if o.database.Fail? then Effect(s2, Fail(o.database.error))
        else
          var r := Retrieve(s2, search, [], user, o.lookup);
          if r.out.Err? then Effect(r.after, Fail(r.out.error))
          else if |r.out.value| != 1 then Effect(r.after, Fail(NotFoundError(None, Some(id))))
          else Discard(r.after, search, r.out.value[0], o)
    }

    /** The destroy of the one record found, then the delete of its file. */
    function Discard(s: Store, search: Object, rec: Object, o: DestroyOutcomes): Effect<Outcome> {
      var s1 := s.(calls := s.calls + [DbDestroy(search)]);
      var s2 := if o.destroy.Pass? then s1.(records := Filter(s1.records, Unselected(selects, search))) else s1;
      var s3 := s2.(calls := s2.calls + [GetStorage(Get(rec, "repository"))]);
      if o.storage.Fail? then Effect(s3, Fail(o.storage.error))
      else
        var at := Location(Get(rec, "repository"), Get(rec, "path"));
        var s4 := s3.(calls := s3.calls + [DeleteFile(at.path)]);
        Effect(if o.delete.Pass? then s4.(files := s4.files - {at}) else s4, o.delete)
    }

    method DestroyAsset(id: string, user: User, o: DestroyOutcomes) returns (result: Outcome)
      modifies this`records, this`files, this`calls
      ensures Snapshot() == Destroy(old(Snapshot()), id, user, o).after
      ensures result == Destroy(old(Snapshot()), id, user, o).out
    {
      var search: Object := [("_id", Str(id))];
      var allowed := HasPermission("delete", user, search);
      if !allowed {
        result := Fail(PermissionError());
        return;
      }
      calls := calls + [GetDatabase];
      if o.database.Fail? {
        result := Fail(o.database.error);
        return;
      }
      var found, _ := RetrieveAsset(search, [], user, o.lookup);
      if found.Err? {
        result := Fail(found.error);
        return;
      }
      if |found.value| != 1 {
        result := Fail(NotFoundError(None, Some(id)));
        return;
      }
      result := DiscardRecord(search, found.value[0], o);
    }

    method DiscardRecord(search: Object, rec: Object, o: DestroyOutcomes) returns (result: Outcome)
      modifies this`records, this`files, this`calls
      ensures Snapshot() == Discard(old(Snapshot()), search, rec, o).after
      ensures result == Discard(old(Snapshot()), search, rec, o).out
    {
      calls := calls + [DbDestroy(search)];
      if o.destroy.Pass? {
        records := Filter(records, Unselected(selects, search));
      }
      calls := calls + [GetStorage(Get(rec, "repository"))];
      if o.storage.Fail? {
        result := Fail(o.storage.error);
        return;
      }
      var at := Location(Get(rec, "repository"), Get(rec, "path"));
      calls := calls + [DeleteFile(at.path)];
      if o.delete.Pass? {
        files := files - {at};
      }
      result := o.delete;
    }

    /** The records with the id that the user may read, as destroyAsset looks them up. */
    function Visible(s: Store, id: string, user: User): seq<Object> {
      Filter(Matching(s.records, [("_id", Str(id))]), Readable(s.grants, user))
    }

    /** destroyAsset asks for `delete` permission first, and stops there with
        the permission error when the user may not delete. */
    lemma DestroyChecksFirst(s: Store, id: string, user: User, o: DestroyOutcomes)
      ensures var e := Destroy(s, id, user, o);
        && |e.after.calls| > |s.calls|
        && e.after.calls[|s.calls|] == CheckPermission("delete", Resource(user.tenant, Str(id)))
        && (!Allowed(s.grants, "delete", user, [("_id", Str(id))]) ==>
              e.out == Fail(AssetPermission(PermissionText)) && e.after == s.(calls := s.calls + [e.after.calls[|s.calls|]]))
    {
      var search: Object := [("_id", Str(id))];
      assert Get(search, "_id") == Str(id);
      var check := CheckPermission("delete", ResourceOf(user.tenant, search));
      var e := Destroy(s, id, user, o);
      if Allowed(s.grants, "delete", user, search) && o.database.Pass? {
        var s1 := s.(calls := s.calls + [check]);
        var s2 := s1.(calls := s1.calls + [GetDatabase]);
        var r := Retrieve(s2, search, [], user, o.lookup);
        RetrieveNeverDestroys(s2, search, [], user, o.lookup);
        assert r.after.calls[|s.calls|] == s2.calls[|s.calls|] == check;
        if r.out.Ok? && |r.out.value| == 1 {
          DiscardKeepsCalls(r.after, search, r.out.value[0], o);
        }
        assert e.after.calls[|s.calls|] == r.after.calls[|s.calls|];
      }
    }

    /** The destroy step only appends calls. */
    lemma DiscardKeepsCalls(s: Store, search: Object, rec: Object, o: DestroyOutcomes)
      ensures var e := Discard(s, search, rec, o);
        |e.after.calls| > |s.calls| && e.after.calls[..|s.calls|] == s.calls && e.after.calls[|s.calls|] == DbDestroy(search)
    {
    }

    /** destroyAsset destroys nothing, requests no destroy and reports an error
        unless the user may delete, every lookup succeeds and the user can read
        exactly one record with the id. */
    lemma DestroyGuard(s: Store, id: string, user: User, o: DestroyOutcomes)
      requires !(Allowed(s.grants, "delete", user, [("_id", Str(id))]) && o.database.Pass? &&
                 o.lookup.database.Pass? && o.lookup.retrieve.Pass? && |Visible(s, id, user)| == 1)
      ensures var e := Destroy(s, id, user, o);
        && e.out.Fail? && e.after == s.(calls := e.after.calls)
        && (Allowed(s.grants, "delete", user, [("_id", Str(id))]) && o.database.Pass?
              && o.lookup.database.Pass? && o.lookup.retrieve.Pass?
            ==> e.out == Fail(NotFoundError(None, Some(id))))
        && e.after.calls[..|s.calls|] == s.calls && NoDestroy(e.after.calls[|s.calls|..])
    {
      var search: Object := [("_id", Str(id))];
      var e := Destroy(s, id, user, o);
      var s1 := s.(calls := s.calls + [CheckPermission("delete", ResourceOf(user.tenant, search))]);
      var s2 := s1.(calls := s1.calls + [GetDatabase]);
      if !Allowed(s.grants, "delete", user, search) {
        assert e.after.calls[|s.calls|..] == s1.calls[|s.calls|..];
      } else if o.database.Fail? {
        assert e.after.calls[|s.calls|..] == s2.calls[|s.calls|..];
      } else {
        var r := Retrieve(s2, search, [], user, o.lookup);
        RetrieveEffect(s2, search, [], user, o.lookup);
        assert r.out.Ok? ==> r.out.value == Visible(s, id, user);
        RetrieveNeverDestroys(s2, search, [], user, o.lookup);
        assert e.after.calls == r.after.calls;
        assert e.after.calls[|s.calls|..|s2.calls|] == s2.calls[|s.calls|..];
        NoDestroyJoin(e.after.calls, |s.calls|, |s2.calls|);
      }
    }

    /** When the guard passes, the records the id selects are removed exactly
        when the store reports the destroy, and the record's file exactly when
        storage is reached and reports the delete; a storage error after the
        destroy leaves the file behind without its record. */
    lemma DestroyEffect(s: Store, id: string, user: User, o: DestroyOutcomes)
      requires Allowed(s.grants, "delete", user, [("_id", Str(id))]) && o.database.Pass?
      requires o.lookup.database.Pass? && o.lookup.retrieve.Pass? && |Visible(s, id, user)| == 1
      ensures var e := Destroy(s, id, user, o);
        var rec := Visible(s, id, user)[0];
        var at := Location(Get(rec, "repository"), Get(rec, "path"));
        && e.after == s.(records := e.after.records, files := e.after.files, calls := e.after.calls)
        && e.after.records == (if o.destroy.Pass? then Filter(s.records, Unselected(selects, [("_id", Str(id))])) else s.records)
        && e.after.files == (if o.storage.Pass? && o.delete.Pass? then s.files - {at} else s.files)
        && e.out == (if o.storage.Fail? then o.storage else o.delete)
        && DbDestroy([("_id", Str(id))]) in e.after.calls
    {
      var search: Object := [("_id", Str(id))];
      var s1 := s.(calls := s.calls + [CheckPermission("delete", ResourceOf(user.tenant, search))]);
      var s2 := s1.(calls := s1.calls + [GetDatabase]);
      RetrieveEffect(s2, search, [], user, o.lookup);
    }

    // ----- postAsset (lib/assetmanager.js:383-599)

    /** The plain-file branch (lib/assetmanager.js:517-596). */
    function Plain(s: Store, fields: Fields, file: Upload, repository: string, limited: bool,
                   user: User, date: int, o: PlainOutcomes): Effect<Response>
      requires Valid()
    {
      var digest := digestOf(file.bytes);
      var ext := Extname(file.name);
      var target := FilePath(digest, ext);
      var s1 := s.(calls := s.calls + [StoreFile(target)]);
      if o.store.Err? then Effect(s1, Failed(o.store.error))
      else
        var stored := o.store.value;
        var s2 := s1.(files := s1.files + {Location(Str(repository), Str(target))});
        var c := Create(s2, FileRecord(fields, repository, digest, ext, user, date, stored), user, date, o.create);
        if c.out.Err? then
          var at := Location(Str(repository), Get(stored, "path"));
          var s3 := c.after.(calls := c.after.calls + [DeleteFile(at.path)]);
          Effect(if o.compensate.Pass? then s3.(files := s3.files - {at}) else s3, Failed(c.out.error))
        else
          Effect(c.after, Reply(limited, o.create.insert.value))
    }

    method PostPlain(fields: Fields, file: Upload, repository: string, limited: bool,
                     user: User, date: int, o: PlainOutcomes) returns (response: Response)
      requires Valid()
      modifies this`records, this`grants, this`files, this`calls
      ensures Snapshot() == Plain(old(Snapshot()), fields, file, repository, limited, user, date, o).after
      ensures response == Plain(old(Snapshot()), fields, file, repository, limited, user, date, o).out
    {
      var digest := digestOf(file.bytes);
      var ext := Extname(file.name);
      var target := FilePath(digest, ext);
      calls := calls + [StoreFile(target)];
      if o.store.Err? {
        response := Failed(o.store.error);
        return;
      }
      var stored := o.store.value;
      files := files + {Location(Str(repository), Str(target))};
      var created := CreateAsset(FileRecord(fields, repository, digest, ext, user, date, stored), user, date, o.create);
      if created.Err? {
        var at := Location(Str(repository), Get(stored, "path"));
        calls := calls + [DeleteFile(at.path)];
        if o.compensate.Pass? {
          files := files - {at};
        }
        response := Failed(created.error);
        return;
      }
      response := Reply(limited, o.create.insert.value);
    }

    /** The plain-file branch first stores the upload under its content address,
        as the digest and extension name it, and reports a storage error as it is. */
    lemma PlainStoresFirst(s: Store, fields: Fields, file: Upload, repository: string, limited: bool,
                           user: User, date: int, o: PlainOutcomes)
      requires Valid()
      ensures var e := Plain(s, fields, file, repository, limited, user, date, o);
        && |e.after.calls| > |s.calls|
        && e.after.calls[|s.calls|] == StoreFile(FilePath(digestOf(file.bytes), Extname(file.name)))
        && (o.store.Err? ==> e.after == s.(calls := e.after.calls) && e.out == Failed(o.store.error))
    {
      var digest := digestOf(file.bytes);
      var target := FilePath(digest, Extname(file.name));
      if o.store.Ok? {
        var s1 := s.(calls := s.calls + [StoreFile(target)]);
        var s2 := s1.(files := s1.files + {Location(Str(repository), Str(target))});
        var data := FileRecord(fields, repository, digest, Extname(file.name), user, date, o.store.value);
        var c := Create(s2, data, user, date, o.create);
        CreateAppends(s2, data, user, date, o.create);
        assert c.after.calls[|s.calls|] == s2.calls[|s.calls|];
        var e := Plain(s, fields, file, repository, limited, user, date, o);
        if c.out.Err? {
          var at := Location(Str(repository), Get(o.store.value, "path"));
          assert e.after.calls == c.after.calls + [DeleteFile(at.path)];
        } else {
          assert e.after == c.after;
        }
      }
    }

    /** When the record cannot be created, the branch deletes what the backend
        reported storing and reports the create error, leaving no record and no grant. */
    lemma PlainCompensates(s: Store, fields: Fields, file: Upload, repository: string, limited: bool,
                           user: User, date: int, o: PlainOutcomes)
      requires Valid()
      requires o.store.Ok? && (o.create.database.Fail? || o.create.insert.Err?)
      ensures var e := Plain(s, fields, file, repository, limited, user, date, o);
        var kept := Location(Str(repository), Str(FilePath(digestOf(file.bytes), Extname(file.name))));
        var at := Location(Str(repository), Get(o.store.value, "path"));
        && e.out == Failed(if o.create.database.Fail? then o.create.database.error else o.create.insert.error)
        && e.after.records == s.records && e.after.grants == s.grants
        && e.after.master == s.master && e.after.scratch == s.scratch
        && e.after.files == (if o.compensate.Pass? then (s.files + {kept}) - {at} else s.files + {kept})
        && Last(e.after.calls) == DeleteFile(at.path)
    {
    }

    /** When the record is created, the stored file stays and the new record is
        the plain-file record with its creation date and the store's id. */
    lemma PlainSucceeds(s: Store, fields: Fields, file: Upload, repository: string, limited: bool,
                        user: User, date: int, o: PlainOutcomes)
      requires Valid()
      requires o.store.Ok? && o.create.database.Pass? && o.create.insert.Ok?
      ensures var e := Plain(s, fields, file, repository, limited, user, date, o);
        var digest := digestOf(file.bytes);
        && e.out == Reply(limited, o.create.insert.value)
        && e.after.master == s.master && e.after.scratch == s.scratch
        && e.after.files == s.files + {Location(Str(repository), Str(FilePath(digest, Extname(file.name))))}
        && e.after.records == s.records + [NewRecord(FileRecord(fields, repository, digest, Extname(file.name), user, date, o.store.value), date, o.create.insert.value)]
    {
    }

    /** The package branch (lib/assetmanager.js:411-515). */
    function Package(s: Store, fields: Fields, file: Upload, repository: string, limited: bool,
                     user: User, date: int, o: PackageOutcomes): Effect<Response>
      requires Valid()
    {
      var staging := file.tmpPath + "_unzipped";
      var s1 := s.(calls := s.calls + [Extract(file.tmpPath, staging)]);
      if o.extract.Fail? then Effect(s1, Failed(o.extract.error))
      else
        var s2 := s1.(scratch := s1.scratch + {staging}, calls := s1.calls + [ReadDir(staging)]);
        if o.readdir.Fail? then Effect(s2, Failed(o.readdir.error))
        else
          var folder := PackageFolder(digestOf(file.bytes));
          var placed := Location(Str(repository), Str(folder));
          var s3 := s2.(calls := s2.calls + [StoreFolder(staging, folder)]);
          if o.folder.Fail? then Effect(s3, Failed(o.folder.error))
          else
            var c := Create(s3.(files := s3.files + {placed}),
                            PackageRecord(fields, repository, file.name, folder, user, date), user, date, o.create);
            if c.out.Err? then
              var s4 := c.after.(calls := c.after.calls + [RemoveDirectory(folder)]);
              Effect(if o.removeFolder.Pass? then s4.(files := s4.files - {placed}) else s4, Failed(c.out.error))
            else
              var s5 := c.after.(calls := c.after.calls + [RemoveDirectory(staging)]);
              var s6 := if o.removeStaging.Pass? then s5.(scratch := s5.scratch - {staging}) else s5;
              var s7 := s6.(calls := s6.calls + [Unlink(file.tmpPath)]);
              if o.unlink.Fail? then Effect(s7, Failed(o.unlink.error))
              else Effect(s7.(scratch := s7.scratch - {file.tmpPath}), Reply(limited, o.create.insert.value))
    }

    method PostPackage(fields: Fields, file: Upload, repository: string, limited: bool,
                       user: User, date: int, o: PackageOutcomes) returns (response: Response)
      requires Valid()
      modifies this`records, this`grants, this`files, this`scratch, this`calls
      ensures Snapshot() == Package(old(Snapshot()), fields, file, repository, limited, user, date, o).after
      ensures response == Package(old(Snapshot()), fields, file, repository, limited, user, date, o).out
    {
      var staging := file.tmpPath + "_unzipped";
      calls := calls + [Extract(file.tmpPath, staging)];
      if o.extract.Fail? {
        response := Failed(o.extract.error);
        return;
      }
      scratch := scratch + {staging};
      calls := calls + [ReadDir(staging)];
      if o.readdir.Fail? {
        response := Failed(o.readdir.error);
        return;
      }
      var folder := PackageFolder(digestOf(file.bytes));
      var placed := Location(Str(repository), Str(folder));
      calls := calls + [StoreFolder(staging, folder)];
      if o.folder.Fail? {
        response := Failed(o.folder.error);
        return;
      }
      files := files + {placed};
      var created := CreateAsset(PackageRecord(fields, repository, file.name, folder, user, date), user, date, o.create);
      if created.Err? {
        calls := calls + [RemoveDirectory(folder)];
        if o.removeFolder.Pass? {
          files := files - {placed};
        }
        response := Failed(created.error);
        return;
      }
      calls := calls + [RemoveDirectory(staging)];
      if o.removeStaging.Pass? {
        scratch := scratch - {staging};
      }
      calls := calls + [Unlink(file.tmpPath)];
      if o.unlink.Fail? {
        response := Failed(o.unlink.error);
        return;
      }
      scratch := scratch - {file.tmpPath};
      response := Reply(limited, o.create.insert.value);
    }

    /** The package branch places the extracted folder under the digest, and the
        steps run in series: a failed create removes that folder and reports the
        create error with no record kept; once the record exists, a failure to
        delete the uploaded archive is reported although the record and its
        folder stay. */
    lemma PackageEffect(s: Store, fields: Fields, file: Upload, repository: string, limited: bool,
                        user: User, date: int, o: PackageOutcomes)
      requires Valid()
      ensures var e := Package(s, fields, file, repository, limited, user, date, o);
        var placed := Location(Str(repository), Str(PackageFolder(digestOf(file.bytes))));
        var asset := PackageRecord(fields, repository, file.name, PackageFolder(digestOf(file.bytes)), user, date);
        var stages := o.extract.Pass? && o.readdir.Pass? && o.folder.Pass?;
        && e.after.master == s.master
        && (!stages ==> e.out.Failed? && e.after.records == s.records && e.after.files == s.files && e.after.grants == s.grants)
        && (stages && (o.create.database.Fail? || o.create.insert.Err?) ==>
              && e.out == Failed(if o.create.database.Fail? then o.create.database.error else o.create.insert.error)
              && e.after.records == s.records && e.after.grants == s.grants
              && e.after.files == if o.removeFolder.Pass? then s.files - {placed} else s.files + {placed})
        && (stages && o.create.database.Pass? && o.create.insert.Ok? ==>
              && e.after.records == s.records + [NewRecord(asset, date, o.create.insert.value)]
              && e.after.files == s.files + {placed}
              && e.out == if o.unlink.Fail? then Failed(o.unlink.error) else Reply(limited, o.create.insert.value))
    {
      var staging := file.tmpPath + "_unzipped";
      var folder := PackageFolder(digestOf(file.bytes));
      var placed := Location(Str(repository), Str(folder));
      if o.extract.Pass? && o.readdir.Pass? && o.folder.Pass? {
        var s1 := s.(calls := s.calls + [Extract(file.tmpPath, staging)]);
        var s2 := s1.(scratch := s1.scratch + {staging}, calls := s1.calls + [ReadDir(staging)]);
        var s3 := s2.(calls := s2.calls + [StoreFolder(staging, folder)]);
        CreateEffect(s3.(files := s3.files + {placed}), PackageRecord(fields, repository, file.name, folder, user, date), user, date, o.create);
      }
    }

    /** A failed extraction, directory read or folder placement stops the
        package branch there with that step's error: no later step runs, and
        neither the extracted staging directory nor the uploaded archive is
        removed. */
    lemma PackageStops(s: Store, fields: Fields, file: Upload, repository: string, limited: bool,
                       user: User, date: int, o: PackageOutcomes)
      requires Valid()
      requires o.extract.Fail? || o.readdir.Fail? || o.folder.Fail?
      ensures var e := Package(s, fields, file, repository, limited, user, date, o);
        var staging := file.tmpPath + "_unzipped";
        var steps := [Extract(file.tmpPath, staging), ReadDir(staging),
                      StoreFolder(staging, PackageFolder(digestOf(file.bytes)))];
        && e.out == Failed(if o.extract.Fail? then o.extract.error
                           else if o.readdir.Fail? then o.readdir.error else o.folder.error)
        && e.after.calls == s.calls + steps[..if o.extract.Fail? then 1 else if o.readdir.Fail? then 2 else 3]
        && e.after.scratch == (if o.extract.Fail? then s.scratch else s.scratch + {staging})
        && e.after == s.(calls := e.after.calls, scratch := e.after.scratch)
    {
      var staging := file.tmpPath + "_unzipped";
      var steps := [Extract(file.tmpPath, staging), ReadDir(staging),
                    StoreFolder(staging, PackageFolder(digestOf(file.bytes)))];
      assert steps[..1] == [steps[0]] && steps[..2] == [steps[0], steps[1]] && steps[..3] == steps;
    }

    /** A failed record creation in the package branch removes the placed
        folder, as its last call, and reports the create error; the series
        stops there, so the staging directory and the uploaded archive are
        left behind. */
    lemma PackageCompensates(s: Store, fields: Fields, file: Upload, repository: string, limited: bool,
                             user: User, date: int, o: PackageOutcomes)
      requires Valid()
      requires o.extract.Pass? && o.readdir.Pass? && o.folder.Pass?
      requires o.create.database.Fail? || o.create.insert.Err?
      ensures var e := Package(s, fields, file, repository, limited, user, date, o);
        var staging := file.tmpPath + "_unzipped";
        var folder := PackageFolder(digestOf(file.bytes));
        && e.out == Failed(if o.create.database.Fail? then o.create.database.error else o.create.insert.error)
        && |e.after.calls| > |s.calls| + 3
        && e.after.calls[..|s.calls| + 3] == s.calls + [Extract(file.tmpPath, staging), ReadDir(staging), StoreFolder(staging, folder)]
        && Last(e.after.calls) == RemoveDirectory(folder)
        && NoCleanup(e.after.calls[|s.calls|..|e.after.calls| - 1])
        && e.after.scratch == s.scratch + {staging}
    {
      var staging := file.tmpPath + "_unzipped";
      var folder := PackageFolder(digestOf(file.bytes));
      var placed := Location(Str(repository), Str(folder));
      var s1 := s.(calls := s.calls + [Extract(file.tmpPath, staging)]);
      var s2 := s1.(scratch := s1.scratch + {staging}, calls := s1.calls + [ReadDir(staging)]);
      var s3 := s2.(calls := s2.calls + [StoreFolder(staging, folder)]);
      var s3' := s3.(files := s3.files + {placed});
      var data := PackageRecord(fields, repository, file.name, folder, user, date);
      var c := Create(s3', data, user, date, o.create);
      CreateAppends(s3', data, user, date, o.create);
      var e := Package(s, fields, file, repository, limited, user, date, o);
      assert e.after.calls == c.after.calls + [RemoveDirectory(folder)];
      assert c.after.calls[..|s3.calls|] == s3.calls;
      assert e.after.calls[|s.calls|..|e.after.calls| - 1] == s3.calls[|s.calls|..] + c.after.calls[|s3.calls|..];
    }

    /** Once the record exists, the package branch removes the staging
        directory and then unlinks the uploaded archive, as its last two calls. */
    lemma PackageCleansUp(s: Store, fields: Fields, file: Upload, repository: string, limited: bool,
                          user: User, date: int, o: PackageOutcomes)
      requires Valid()
      requires o.extract.Pass? && o.readdir.Pass? && o.folder.Pass?
      requires o.create.database.Pass? && o.create.insert.Ok?
      ensures var e := Package(s, fields, file, repository, limited, user, date, o);
        var staging := file.tmpPath + "_unzipped";
        var folder := PackageFolder(digestOf(file.bytes));
        var n := |e.after.calls|;
        && n > |s.calls| + 5
        && e.after.calls[..|s.calls| + 3] == s.calls + [Extract(file.tmpPath, staging), ReadDir(staging), StoreFolder(staging, folder)]
        && e.after.calls[n - 2..] == [RemoveDirectory(staging), Unlink(file.tmpPath)]
    {
      var staging := file.tmpPath + "_unzipped";
      var folder := PackageFolder(digestOf(file.bytes));
      var placed := Location(Str(repository), Str(folder));
      var s1 := s.(calls := s.calls + [Extract(file.tmpPath, staging)]);
      var s2 := s1.(scratch := s1.scratch + {staging}, calls := s1.calls + [ReadDir(staging)]);
      var s3 := s2.(calls := s2.calls + [StoreFolder(staging, folder)]);
      var s3' := s3.(files := s3.files + {placed});
      var data := PackageRecord(fields, repository, file.name, folder, user, date);
      var c := Create(s3', data, user, date, o.create);
      var cs := c.after.calls + [RemoveDirectory(staging), Unlink(file.tmpPath)];
      var e := Package(s, fields, file, repository, limited, user, date, o);
      assert e.after.calls == cs by {
        var s5 := c.after.(calls := c.after.calls + [RemoveDirectory(staging)]);
        var s6 := if o.removeStaging.Pass? then s5.(scratch := s5.scratch - {staging}) else s5;
        var s7 := s6.(calls := s6.calls + [Unlink(file.tmpPath)]);
        assert s7.calls == cs;
      }
      CreateAppends(s3', data, user, date, o.create);
    }

    /** No cleanup runs before the record exists: every call before the last
        two is a step of the series or a call of createAsset. */
    lemma PackageCleansUpLast(s: Store, fields: Fields, file: Upload, repository: string, limited: bool,
                              user: User, date: int, o: PackageOutcomes)
      requires Valid()
      requires o.extract.Pass? && o.readdir.Pass? && o.folder.Pass?
      requires o.create.database.Pass? && o.create.insert.Ok?
      ensures var e := Package(s, fields, file, repository, limited, user, date, o);
        var n := |e.after.calls|;
        && n > |s.calls| + 2
        && NoCleanup(e.after.calls[|s.calls|..n - 2])
    {
      var staging := file.tmpPath + "_unzipped";
      var folder := PackageFolder(digestOf(file.bytes));
      var placed := Location(Str(repository), Str(folder));
      var s1 := s.(calls := s.calls + [Extract(file.tmpPath, staging)]);
      var s2 := s1.(scratch := s1.scratch + {staging}, calls := s1.calls + [ReadDir(staging)]);
      var s3 := s2.(calls := s2.calls + [StoreFolder(staging, folder)]);
      var s3' := s3.(files := s3.files + {placed});
      var data := PackageRecord(fields, repository, file.name, folder, user, date);
      var c := Create(s3', data, user, date, o.create);
      var cs := c.after.calls + [RemoveDirectory(staging), Unlink(file.tmpPath)];
      var e := Package(s, fields, file, repository, limited, user, date, o);
      assert e.after.calls == cs by {
        var s5 := c.after.(calls := c.after.calls + [RemoveDirectory(staging)]);
        var s6 := if o.removeStaging.Pass? then s5.(scratch := s5.scratch - {staging}) else s5;
        var s7 := s6.(calls := s6.calls + [Unlink(file.tmpPath)]);
        assert s7.calls == cs;
      }
      CreateAppends(s3', data, user, date, o.create);
      assert cs[|s.calls|..|cs| - 2] == s3.calls[|s.calls|..] + c.after.calls[|s3.calls|..];
    }

    /** After the cleanup, a failed removal of the staging directory is
        ignored and a failed unlink of the archive is reported; each removes
        its file from the local ones only when it succeeded. */
    lemma PackageCleanupResult(s: Store, fields: Fields, file: Upload, repository: string, limited: bool,
                               user: User, date: int, o: PackageOutcomes)
      requires Valid()
      requires o.extract.Pass? && o.readdir.Pass? && o.folder.Pass?
      requires o.create.database.Pass? && o.create.insert.Ok?
      ensures var e := Package(s, fields, file, repository, limited, user, date, o);
        var staging := file.tmpPath + "_unzipped";
        && e.out == (if o.unlink.Fail? then Failed(o.unlink.error) else Reply(limited, o.create.insert.value))
        && e.after.scratch == ((s.scratch + {staging}) - (if o.removeStaging.Pass? then {staging} else {}))
                              - (if o.unlink.Pass? then {file.tmpPath} else {})
    {
    }

    /** postAsset up to the branch (lib/assetmanager.js:383-411). */
    function Post(s: Store, accept: Option<string>, user: User, date: int, o: PostOutcomes): Effect<Response>
      requires Valid()
    {
      if o.parse.Err? then Effect(s, Failed(o.parse.error))
      else if accept.None? then Effect(s, Thrown(UndefinedRead("indexOf")))
      else
        var form := o.parse.value;
        var limited := Limited(accept.value);
        var repository := RepositoryOf(form.fields);
        var s1 := s.(calls := s.calls + [GetStorage(Str(repository))]);
        if o.storage.Fail? then Effect(s1, Failed(o.storage.error))
        else if form.file.None? then Effect(s1, Thrown(UndefinedRead("path")))
        else if IsPackageName(form.file.value.name) then
          Package(s1, form.fields, form.file.value, repository, limited, user, date, o.package)
        else
          Plain(s1, form.fields, form.file.value, repository, limited, user, date, o.plain)
    }

    method PostAsset(accept: Option<string>, user: User, date: int, o: PostOutcomes) returns (response: Response)
      requires Valid()
      modifies this`records, this`grants, this`files, this`scratch, this`calls
      ensures Snapshot() == Post(old(Snapshot()), accept, user, date, o).after
      ensures response == Post(old(Snapshot()), accept, user, date, o).out
    {
      if o.parse.Err? {
        response := Failed(o.parse.error);
        return;
      }
      if accept.None? {
        response := Thrown(UndefinedRead("indexOf"));
        return;
      }
      var form := o.parse.value;
      var limited := Limited(accept.value);
      var repository := RepositoryOf(form.fields);
      calls := calls + [GetStorage(Str(repository))];
      if o.storage.Fail? {
        response := Failed(o.storage.error);
        return;
      }
      if form.file.None? {
        response := Thrown(UndefinedRead("path"));
        return;
      }
      if IsPackageName(form.file.value.name) {
        response := PostPackage(form.fields, form.file.value, repository, limited, user, date, o.package);
      } else {
        response := PostPlain(form.fields, form.file.value, repository, limited, user, date, o.plain);
      }
    }

    /** An upload adds at most one record, never changes an existing one, and
        leaves the master tenant alone; nothing is stored before the form, the
        Accept header, the repository and the file are all in hand. */
    lemma PostEffect(s: Store, accept: Option<string>, user: User, date: int, o: PostOutcomes)
      requires Valid()
      ensures var e := Post(s, accept, user, date, o);
        && e.after.master == s.master
        && s.records <= e.after.records && |e.after.records| <= |s.records| + 1
        && (o.parse.Err? || accept.None? || o.storage.Fail? || o.parse.value.file.None? ==>
              e.after == s.(calls := e.after.calls) && (e.out.Failed? || e.out.Thrown?))
    {
      if o.parse.Ok? && accept.Some? && o.storage.Pass? && o.parse.value.file.Some? {
        var form := o.parse.value;
        var repository := RepositoryOf(form.fields);
        var s1 := s.(calls := s.calls + [GetStorage(Str(repository))]);
        if IsPackageName(form.file.value.name) {
          PackageEffect(s1, form.fields, form.file.value, repository, Limited(accept.value), user, date, o.package);
        } else {
          var limited := Limited(accept.value);
          PlainStoresFirst(s1, form.fields, form.file.value, repository, limited, user, date, o.plain);
          if o.plain.store.Ok? {
            if o.plain.create.database.Fail? || o.plain.create.insert.Err? {
              PlainCompensates(s1, form.fields, form.file.value, repository, limited, user, date, o.plain);
            } else {
              PlainSucceeds(s1, form.fields, form.file.value, repository, limited, user, date, o.plain);
            }
          }
        }
      }
    }

    // ----- putAsset (lib/assetmanager.js:609-630)

    /** `{ title, description, tags: _.pluck(fields.tags, '_id') }`. */
    function PutDelta(body: Object): Object {
      [("title", Get(body, "title")), ("description", Get(body, "description")),
       ("tags", List(Pluck(Get(body, "tags"), "_id")))]
    }

    function Put(s: Store, body: Object, user: User, now: int, o: UpdateOutcomes): Effect<Response> {
      var u := Update(s, [("_id", Get(body, "_id"))], PutDelta(body), user, now, o);
      Effect(u.after, if u.out.Fail? then Failed(u.out.error) else Json(200, SuccessBody))
    }

    method PutAsset(body: Object, user: User, now: int, o: UpdateOutcomes) returns (response: Response)
      modifies this`records, this`calls
      ensures Snapshot() == Put(old(Snapshot()), body, user, now, o).after
      ensures response == Put(old(Snapshot()), body, user, now, o).out
    {
      var result := UpdateAsset([("_id", Get(body, "_id"))], PutDelta(body), user, now, o);
      if result.Fail? {
        response := Failed(result.error);
        return;
      }
      response := Json(200, SuccessBody);
    }

    /** The edit route sends only the title, the description and the tag ids, and
        answers `{success: true}` exactly when the update went through. */
    lemma PutEffect(s: Store, body: Object, user: User, now: int, o: UpdateOutcomes)
      ensures var e := Put(s, body, user, now, o);
        var delta := PutDelta(body);
        && Names(delta) == ["title", "description", "tags"]
        && Get(delta, "title") == Get(body, "title") && Get(delta, "description") == Get(body, "description")
        && Get(delta, "tags") == List(Pluck(Get(body, "tags"), "_id"))
        && (e.out == Json(200, SuccessBody) <==> Update(s, [("_id", Get(body, "_id"))], delta, user, now, o).out.Pass?)
        && (e.out != Json(200, SuccessBody) ==> e.out.Failed?)
    {
      var delta := PutDelta(body);
      assert Names(delta) == ["title", "description", "tags"];
      GetFirst(delta, 0, "title");
      GetFirst(delta, 1, "description");
      GetFirst(delta, 2, "tags");
    }

    // ----- queryAssets (lib/assetmanager.js:712-762)

    function Query(s: Store, body: Object, query: Object, user: User, o: RetrieveOutcomes): Effect<Response> {
      var options := OptionsOf(body, query);
      var t := Translate(OwnEntries(SearchOf(options)), validPattern);
      if t.BadPattern? then Effect(s, Thrown(SyntaxError(t.pattern)))
      else
        var r := Retrieve(s, t.query, options, user, o);
        Effect(r.after, if r.out.Err? then Failed(r.out.error) else Json(200, List(AsValues(r.out.value))))
    }

    /** An array of records as a JSON value. */
    function AsValues(recs: seq<Object>): seq<Value> {
      seq(|recs|, i requires 0 <= i < |recs| => Obj(recs[i]))
    }

    method QueryAssets(body: Object, query: Object, user: User, o: RetrieveOutcomes) returns (response: Response)
      modifies this`calls
      ensures Snapshot() == Query(old(Snapshot()), body, query, user, o).after
      ensures response == Query(old(Snapshot()), body, query, user, o).out
    {
      var options := OptionsOf(body, query);
      var t := TranslateQuery(OwnEntries(SearchOf(options)), validPattern);
      if t.BadPattern? {
        response := Thrown(SyntaxError(t.pattern));
        return;
      }
      var result, _ := RetrieveAsset(t.query, options, user, o);
      if result.Err? {
        response := Failed(result.error);
        return;
      }
      response := Json(200, List(AsValues(result.value)));
    }

    /** The query route throws, before any call, exactly when a string value of
        the search is no valid pattern; otherwise it fails exactly when a store
        call fails, and answers 200 with the readable matches, an empty array
        included: it never answers 404. */
    lemma QueryNeverNotFound(s: Store, body: Object, query: Object, user: User, o: RetrieveOutcomes)
      ensures var e := Query(s, body, query, user, o);
        var entries := OwnEntries(SearchOf(OptionsOf(body, query)));
        var valid := forall i | 0 <= i < |entries| :: !BadAt(entries, validPattern, i);
        && (e.out.Thrown? <==> !valid)
        && (!valid ==> e.after == s && e.out.error.SyntaxError?)
        && (e.out.Failed? <==> valid && (o.database.Fail? || o.retrieve.Fail?))
        && (valid && !e.out.Failed? ==> e.out.Json? && e.out.status == 200 && e.out.body.List?)
        && !(e.out.Json? && e.out.status == 404)
    {
      TranslateFails(OwnEntries(SearchOf(OptionsOf(body, query))), validPattern);
    }

    /** The options come from the body when it has a key and from the query
        string otherwise; their `search` (none reads as `{}`, which matches
        every record) is translated, and the store is asked with it and with
        the options carrying the populate default. */
    lemma QueryOptions(s: Store, body: Object, query: Object, user: User, o: RetrieveOutcomes)
      ensures var opts := if |body| > 0 then body else query;
        var v := Get(opts, "search");
        var entries := if Truthy(v) then OwnEntries(v) else [];
        var e := Query(s, body, query, user, o);
        && ((forall i | 0 <= i < |entries| :: !BadAt(entries, validPattern, i)) ==>
              && |e.after.calls| >= |s.calls| + 1 && e.after.calls[..|s.calls| + 1] == s.calls + [GetDatabase]
              && (o.database.Pass? ==>
                    |e.after.calls| >= |s.calls| + 2 &&
                    e.after.calls[|s.calls| + 1] == DbRetrieve(QueryOf(entries), WithDefaultPopulate(opts))))
        && (!Truthy(v) ==> QueryOf(entries) == [])
    {
      var opts := if |body| > 0 then body else query;
      var v := Get(opts, "search");
      var entries := if Truthy(v) then OwnEntries(v) else [];
      assert OwnEntries(SearchOf(opts)) == entries;
      TranslateFails(entries, validPattern);
      if forall i | 0 <= i < |entries| :: !BadAt(entries, validPattern, i) {
        var s1 := s.(calls := s.calls + [GetDatabase]);
        if o.database.Pass? {
          var s2 := s1.(calls := s1.calls + [DbRetrieve(QueryOf(entries), WithDefaultPopulate(opts))]);
          var r := Retrieve(s, QueryOf(entries), opts, user, o);
          RetrieveNeverDestroys(s, QueryOf(entries), opts, user, o);
          if o.retrieve.Pass? {
            RetrieveTrace(s, QueryOf(entries), opts, user, o);
          }
        }
      }
    }

    // ----- getAsset (lib/assetmanager.js:807-830)

    function GetOne(s: Store, id: string, operators: Object, user: User, o: RetrieveOutcomes): Effect<Response> {
      var r := Retrieve(s, [("_id", Str(id))], WithDefaultPopulate(operators), user, o);
      Effect(r.after,
             if r.out.Err? then Failed(r.out.error)
             else if |r.out.value| == 0 then Json(404, NotFoundBody("asset not found"))
             else Json(200, Obj(r.out.value[0])))
    }

    method GetAsset(id: string, operators: Object, user: User, o: RetrieveOutcomes) returns (response: Response)
      modifies this`calls
      ensures Snapshot() == GetOne(old(Snapshot()), id, operators, user, o).after
      ensures response == GetOne(old(Snapshot()), id, operators, user, o).out
    {
      var options := WithDefaultPopulate(operators);
      var result, _ := RetrieveAsset([("_id", Str(id))], options, user, o);
      if result.Err? {
        response := Failed(result.error);
        return;
      }
      if |result.value| == 0 {
        response := Json(404, NotFoundBody("asset not found"));
        return;
      }
      response := Json(200, Obj(result.value[0]));
    }

    /** getAsset answers 404 exactly when the user can read no record with the id,
        and applying the populate default before retrieveAsset applies it again
        sends the store the same options as applying it once. */
    lemma GetOneEffect(s: Store, id: string, operators: Object, user: User, o: RetrieveOutcomes)
      requires o.database.Pass? && o.retrieve.Pass?
      ensures var e := GetOne(s, id, operators, user, o);
        var visible := Visible(s, id, user);
        && (e.out == Json(404, NotFoundBody("asset not found")) <==> visible == [])
        && (visible != [] ==> e.out == Json(200, Obj(visible[0])))
        && e.after.calls[|s.calls| + 1] == DbRetrieve([("_id", Str(id))], WithDefaultPopulate(operators))
    {
      PopulateIdempotent(operators);
      RetrieveTrace(s, [("_id", Str(id))], WithDefaultPopulate(operators), user, o);
    }

    // ----- serveAsset and assetThumb (lib/assetmanager.js:840-906)

    /** The headers serveAsset writes before it streams the file. */
    function FileHeaders(rec: Object): Object {
      [("Content-Type", Get(rec, "mimeType")), ("Content-Length", Get(rec, "size"))]
    }

    /** serveAsset, or assetThumb when `thumbnail`: the record's file, or its
        thumbnail with no headers set. */
    function Serve(s: Store, id: string, user: User, o: ServeOutcomes, thumbnail: bool): Effect<Response> {
      var r := Retrieve(s, [("_id", Str(id))], [], user, o.lookup);
      if r.out.Err? then Effect(r.after, Failed(r.out.error))
      else if |r.out.value| != 1 then Effect(r.after, Json(404, NotFoundBody("asset not found")))
      else
        var rec := r.out.value[0];
        var s1 := r.after.(calls := r.after.calls + [GetStorage(Get(rec, "repository"))]);
        if o.storage.Fail? then Effect(s1, Failed(o.storage.error))
        else if thumbnail then Effect(s1, Stream(Location(Get(rec, "repository"), Get(rec, "thumbnailPath")), [], false))
        else Effect(s1, Stream(Location(Get(rec, "repository"), Get(rec, "path")), FileHeaders(rec), false))
    }

    method ServeAsset(id: string, user: User, o: ServeOutcomes) returns (response: Response)
      modifies this`calls
      ensures Snapshot() == Serve(old(Snapshot()), id, user, o, false).after
      ensures response == Serve(old(Snapshot()), id, user, o, false).out
    {
      var result, _ := RetrieveAsset([("_id", Str(id))], [], user, o.lookup);
      if result.Err? {
        response := Failed(result.error);
        return;
      }
      if |result.value| != 1 {
        response := Json(404, NotFoundBody("asset not found"));
        return;
      }
      var rec := result.value[0];
      calls := calls + [GetStorage(Get(rec, "repository"))];
      if o.storage.Fail? {
        response := Failed(o.storage.error);
        return;
      }
      response := Stream(Location(Get(rec, "repository"), Get(rec, "path")), FileHeaders(rec), false);
    }

    method AssetThumb(id: string, user: User, o: ServeOutcomes) returns (response: Response)
      modifies this`calls
      ensures Snapshot() == Serve(old(Snapshot()), id, user, o, true).after
      ensures response == Serve(old(Snapshot()), id, user, o, true).out
    {
      var result, _ := RetrieveAsset([("_id", Str(id))], [], user, o.lookup);
      if result.Err? {
        response := Failed(result.error);
        return;
      }
      if |result.value| != 1 {
        response := Json(404, NotFoundBody("asset not found"));
        return;
      }
      var rec := result.value[0];
      calls := calls + [GetStorage(Get(rec, "repository"))];
      if o.storage.Fail? {
        response := Failed(o.storage.error);
        return;
      }
      response := Stream(Location(Get(rec, "repository"), Get(rec, "thumbnailPath")), [], false);
    }

    /** A file is streamed only when the user can read exactly one record with the
        id, and it is that record's file (or thumbnail) in that record's
        repository; serving changes nothing but the call record. */
    lemma ServeEffect(s: Store, id: string, user: User, o: ServeOutcomes, thumbnail: bool)
      ensures var e := Serve(s, id, user, o, thumbnail);
        var visible := Visible(s, id, user);
        && e.after == s.(calls := e.after.calls)
        && (e.out.Stream? ==>
              && o.lookup.database.Pass? && o.lookup.retrieve.Pass? && |visible| == 1
              && e.out.source == Location(Get(visible[0], "repository"),
                                          Get(visible[0], if thumbnail then "thumbnailPath" else "path"))
              && !e.out.fromMaster)
        && (o.lookup.database.Pass? && o.lookup.retrieve.Pass? && |visible| != 1 ==>
              e.out == Json(404, NotFoundBody("asset not found")))
    {
      RetrieveEffect(s, [("_id", Str(id))], [], user, o.lookup);
    }

    // ----- serveSharedAsset (lib/assetmanager.js:916-955)

    function Shared(s: Store, id: string, operators: Object, o: SharedOutcomes): Effect<Response> {
      var search: Object := [("_id", Str(id))];
      var s1 := s.(calls := s.calls + [GetMasterDatabase]);
      if o.database.Fail? then Effect(s1, Failed(o.database.error))
      else
        var s2 := s1.(calls := s1.calls + [DbRetrieve(search, operators)]);
        if o.retrieve.Fail? then Effect(s2, Failed(o.retrieve.error))
        else
          var found := Matching(s.master, search);
          if |found| != 1 then Effect(s2, Json(404, NotFoundBody("asset not found")))
          else
            var rec := found[0];
            var s3 := s2.(calls := s2.calls + [GetStorage(Get(rec, "repository"))]);
            if o.storage.Fail? then Effect(s3, Failed(o.storage.error))
            else Effect(s3, Stream(Location(Get(rec, "repository"), Get(rec, "path")), FileHeaders(rec), true))
    }

    method ServeSharedAsset(id: string, operators: Object, o: SharedOutcomes) returns (response: Response)
      modifies this`calls
      ensures Snapshot() == Shared(old(Snapshot()), id, operators, o).after
      ensures response == Shared(old(Snapshot()), id, operators, o).out
    {
      var search: Object := [("_id", Str(id))];
      calls := calls + [GetMasterDatabase];
      if o.database.Fail? {
        response := Failed(o.database.error);
        return;
      }
      calls := calls + [DbRetrieve(search, operators)];
      if o.retrieve.Fail? {
        response := Failed(o.retrieve.error);
        return;
      }
      var found := Matching(master, search);
      if |found| != 1 {
        response := Json(404, NotFoundBody("asset not found"));
        return;
      }
      var rec := found[0];
      calls := calls + [GetStorage(Get(rec, "repository"))];
      if o.storage.Fail? {
        response := Failed(o.storage.error);
        return;
      }
      response := Stream(Location(Get(rec, "repository"), Get(rec, "path")), FileHeaders(rec), true);
    }

    /** A shared asset comes from the master tenant's records with no permission
        check: the answer is the same whatever the grants, and no `read` check
        is made. */
    lemma SharedIgnoresPermissions(s: Store, id: string, operators: Object, o: SharedOutcomes, other: set<Grant>)
      ensures Shared(s.(grants := other), id, operators, o).out == Shared(s, id, operators, o).out
      ensures forall c | c in Shared(s, id, operators, o).after.calls[|s.calls|..] :: !c.CheckPermission?
      ensures Shared(s, id, operators, o).out.Stream? ==>
        |Matching(s.master, [("_id", Str(id))])| == 1 && Shared(s, id, operators, o).out.fromMaster
      ensures o.database.Pass? && o.retrieve.Pass? && |Matching(s.master, [("_id", Str(id))])| != 1 ==>
        Shared(s, id, operators, o).out == Json(404, NotFoundBody("asset not found"))
    {
      var e := Shared(s, id, operators, o);
      var tail := e.after.calls[|s.calls|..];
      assert |tail| <= 3;
      assert forall i | 0 <= i < |tail| :: !tail[i].CheckPermission?;
    }

    // ----- deleteAsset (lib/assetmanager.js:965-974)

    function Delete(s: Store, id: string, user: User, o: DestroyOutcomes): Effect<Response> {
      var d := Destroy(s, id, user, o);
      Effect(d.after, if d.out.Fail? then Failed(d.out.error) else Json(200, SuccessBody))
    }

    method DeleteAsset(id: string, user: User, o: DestroyOutcomes) returns (response: Response)
      modifies this`records, this`files, this`calls
      ensures Snapshot() == Delete(old(Snapshot()), id, user, o).after
      ensures response == Delete(old(Snapshot()), id, user, o).out
    {
      var result := DestroyAsset(id, user, o);
      if result.Fail? {
        response := Failed(result.error);
        return;
      }
      response := Json(200, SuccessBody);
    }

    /** The delete route answers `{success: true}` exactly when the file deletion,
        the last step of destroyAsset, succeeded. */
    lemma DeleteEffect(s: Store, id: string, user: User, o: DestroyOutcomes)
      ensures var e := Delete(s, id, user, o);
        (e.out == Json(200, SuccessBody) <==> Destroy(s, id, user, o).out.Pass?)
        && (e.out != Json(200, SuccessBody) ==> e.out.Failed?)
        && e.after == Destroy(s, id, user, o).after
    {
    }
  }
}
