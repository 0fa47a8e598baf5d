/**
 * The request-side rules of the query route (lib/assetmanager.js:712-744) and
 * the `populate` default that retrieveAsset, getAsset and the commented-out
 * getAssets all apply (lib/assetmanager.js:249-254, 776-781, 808-814).
 */
module Queries {
  import opened Js
  import opened Records

  /** `_.keys(req.body).length ? req.body : req.query`. */
  function OptionsOf(body: Object, query: Object): Object {
    if |body| > 0 then body else query
  }

  /** `options.search || {}`. */
  function SearchOf(options: Object): Value {
    var s := Get(options, "search");
    if Truthy(s) then s else Obj([])
  }

  /** `exp[key] = new RegExp(value, 'i')`: a string search becomes a
      case-insensitive pattern. */
  function OrClause(key: string, pattern: string): Value {
    Obj([(key, Regex(pattern, "i"))])
  }

  /** `exp[key] = value` for every other search value. */
  function AndClause(key: string, v: Value): Value {
    Obj([(key, v)])
  }

  /** The clauses the loop pushes onto orList, for the first entries seen. */
  function OrList(search: Object): seq<Value>
    decreases |search|
  {
    if search == [] then []
    else
      var (k, v) := Last(search);
      OrList(search[..|search| - 1]) + (if v.Str? then [OrClause(k, v.s)] else [])
  }

  /** The clauses the loop pushes onto andList, for the first entries seen. */
  function AndList(search: Object): seq<Value>
    decreases |search|
  {
    if search == [] then []
    else
      var (k, v) := Last(search);
      AndList(search[..|search| - 1]) + (if v.Str? then [] else [AndClause(k, v)])
  }

  /** The query object: `$or` and `$and`, each only when its list is non-empty. */
  function QueryOf(search: Object): (query: Object)
    ensures "$or" in Keys(query) <==> |OrList(search)| > 0
    ensures "$and" in Keys(query) <==> |AndList(search)| > 0
    ensures Keys(query) <= {"$or", "$and"}
    ensures |OrList(search)| > 0 ==> Get(query, "$or") == List(OrList(search))
    ensures |AndList(search)| > 0 ==> Get(query, "$and") == List(AndList(search))
  {
    var q1: Object := if |OrList(search)| > 0 then Assign([], "$or", List(OrList(search))) else [];
    if |AndList(search)| > 0 then Assign(q1, "$and", List(AndList(search))) else q1
  }

  /** The search entry at i has a string value that `new RegExp` rejects. */
  predicate BadAt(search: Object, valid: string -> bool, i: int)
    requires 0 <= i < |search|
  {
    search[i].1.Str? && !valid(search[i].1.s)
  }

  /** The first string value, in key order, that is no valid pattern. */
  function FirstBad(search: Object, valid: string -> bool): Option<string>
    decreases |search|
  {
    if search == [] then None
    else if search[0].1.Str? && !valid(search[0].1.s) then Some(search[0].1.s)
    else FirstBad(search[1..], valid)
  }

  /** What the translation loop ends with: the query, or the pattern whose
      `new RegExp` threw. */
  datatype Translation = Translated(query: Object) | BadPattern(pattern: string)

  function Translate(search: Object, valid: string -> bool): Translation {
    match FirstBad(search, valid)
    case Some(p) => BadPattern(p)
    case None => Translated(QueryOf(search))
  }

  /** The loop of queryAssets over `Object.keys(search)`: string values go to
      orList as patterns, every other value to andList, in key order. The
      first string value that `valid` rejects makes `new RegExp` throw, which
      ends the loop there. */
  method TranslateQuery(search: Object, valid: string -> bool) returns (t: Translation)
    ensures t == Translate(search, valid)
  {
    var orList: seq<Value> := [];
    var andList: seq<Value> := [];
    var i := 0;
    while i < |search|
      invariant 0 <= i <= |search|
      invariant forall j | 0 <= j < i :: !BadAt(search, valid, j)
      invariant orList == OrList(search[..i])
      invariant andList == AndList(search[..i])
    {
      var (key, v) := search[i];
      assert search[..i + 1][..i] == search[..i];
      if v.Str? {
        if !valid(v.s) {
          FirstBadAt(search, valid, i);
          t := BadPattern(v.s);
          return;
        }
        orList := orList + [OrClause(key, v.s)];
      } else {
        andList := andList + [AndClause(key, v)];
      }
      i := i + 1;
    }
    assert search[..i] == search;
    FirstBadNone(search, valid);
    var query: Object := [];
    if |orList| > 0 {
      query := Assign(query, "$or", List(orList));
    }
    if |andList| > 0 {
      query := Assign(query, "$and", List(andList));
    }
    t := Translated(query);
  }

  /** A rejected value with none before it is the first one. */
  lemma {:induction false} FirstBadAt(search: Object, valid: string -> bool, i: nat)
    requires i < |search| && BadAt(search, valid, i)
    requires forall j | 0 <= j < i :: !BadAt(search, valid, j)
    ensures FirstBad(search, valid) == Some(search[i].1.s)
    decreases i
  {
    if i > 0 {
      assert !BadAt(search, valid, 0);
      var rest := search[1..];
      forall j | 0 <= j < i - 1 ensures !BadAt(rest, valid, j) {
        assert !BadAt(search, valid, j + 1);
      }
      FirstBadAt(rest, valid, i - 1);
    }
  }

  /** There is no first rejected value exactly when every string value is a
      valid pattern. */
  lemma {:induction false} FirstBadNone(search: Object, valid: string -> bool)
    ensures FirstBad(search, valid) == None <==> forall i | 0 <= i < |search| :: !BadAt(search, valid, i)
    decreases |search|
  {
    if search != [] {
      var rest := search[1..];
      FirstBadNone(rest, valid);
      assert forall i | 1 <= i < |search| :: BadAt(search, valid, i) == BadAt(rest, valid, i - 1);
      if !BadAt(search, valid, 0) {
        assert FirstBad(search, valid) == FirstBad(rest, valid);
        if forall i | 0 <= i < |search| :: !BadAt(search, valid, i) {
          forall i | 0 <= i < |rest| ensures !BadAt(rest, valid, i) {
            assert !BadAt(search, valid, i + 1);
          }
        }
        if forall i | 0 <= i < |rest| :: !BadAt(rest, valid, i) {
          forall i | 0 <= i < |search| ensures !BadAt(search, valid, i) {
            if i > 0 { assert !BadAt(rest, valid, i - 1); }
          }
        }
      }
    }
  }

  /** A rejected value is reported only when the search holds it, and before it
      every string value was a valid pattern. */
  lemma {:induction false} FirstBadSome(search: Object, valid: string -> bool)
    requires FirstBad(search, valid).Some?
    ensures exists i | 0 <= i < |search| :: BadAt(search, valid, i) && search[i].1.s == FirstBad(search, valid).value
                                            && forall j | 0 <= j < i :: !BadAt(search, valid, j)
    decreases |search|
  {
    if !BadAt(search, valid, 0) {
      var rest := search[1..];
      FirstBadSome(rest, valid);
      var i :| 0 <= i < |rest| && BadAt(rest, valid, i) && rest[i].1.s == FirstBad(rest, valid).value
               && forall j | 0 <= j < i :: !BadAt(rest, valid, j);
      assert BadAt(search, valid, i + 1);
      forall j | 0 <= j < i + 1 ensures !BadAt(search, valid, j) {
        if j > 0 { assert !BadAt(rest, valid, j - 1); }
      }
    }
  }

  /** The translation fails exactly when some string value is no valid
      pattern, and then on the first such value in key order; otherwise it is
      the query the lists build. */
  lemma TranslateFails(search: Object, valid: string -> bool)
    ensures var t := Translate(search, valid);
      && (t.BadPattern? <==> exists i | 0 <= i < |search| :: BadAt(search, valid, i))
      && (t.BadPattern? ==> exists i | 0 <= i < |search| :: BadAt(search, valid, i) && search[i].1.s == t.pattern
                                                          && forall j | 0 <= j < i :: !BadAt(search, valid, j))
      && (t.Translated? ==> t.query == QueryOf(search))
  {
    FirstBadNone(search, valid);
    if FirstBad(search, valid).Some? {
      FirstBadSome(search, valid);
    }
  }

  /** Both lists distribute over a split of the search: the entries of the
      first part come first, in order. */
  lemma {:induction false} ListsConcat(a: Object, b: Object)
    ensures OrList(a + b) == OrList(a) + OrList(b)
    ensures AndList(a + b) == AndList(a) + AndList(b)
    decreases |b|
  {
    if b == [] {
      assert a + b == a;
    } else {
      var b' := b[..|b| - 1];
      assert (a + b)[..|a + b| - 1] == a + b';
      assert Last(a + b) == Last(b);
      ListsConcat(a, b');
    }
  }

  /** Each search entry lands in exactly one list: a string value gives one
      pattern clause and no equality clause, any other value the reverse. */
  lemma Route(key: string, v: Value)
    ensures OrList([(key, v)]) == (if v.Str? then [OrClause(key, v.s)] else [])
    ensures AndList([(key, v)]) == (if v.Str? then [] else [AndClause(key, v)])
    ensures |OrList([(key, v)])| + |AndList([(key, v)])| == 1
  {
    assert [(key, v)][..0] == [];
  }

  /** Nothing is lost or duplicated: the two lists together have one clause per key. */
  lemma {:induction false} Partition(search: Object)
    ensures |OrList(search)| + |AndList(search)| == |search|
    decreases |search|
  {
    if search != [] {
      Partition(search[..|search| - 1]);
    }
  }

  /** The pattern clauses are exactly those of the string-valued entries, and
      the equality clauses exactly those of the others. */
  lemma {:induction false} ListMembers(search: Object)
    ensures forall i | 0 <= i < |search| && search[i].1.Str? :: OrClause(search[i].0, search[i].1.s) in OrList(search)
    ensures forall i | 0 <= i < |search| && !search[i].1.Str? :: AndClause(search[i].0, search[i].1) in AndList(search)
    ensures forall c | c in OrList(search) :: exists i | 0 <= i < |search| :: search[i].1.Str? && c == OrClause(search[i].0, search[i].1.s)
    ensures forall c | c in AndList(search) :: exists i | 0 <= i < |search| :: !search[i].1.Str? && c == AndClause(search[i].0, search[i].1)
    decreases |search|
  {
    if search != [] {
      var n := |search| - 1;
      var init := search[..n];
      ListMembers(init);
      assert forall i | 0 <= i < n :: search[i] == init[i];
    }
  }

  /** An empty search yields the empty query `{}`. */
  lemma EmptySearch()
    ensures QueryOf([]) == []
  {
  }

  /** A search with only string values yields only `$or`; one with none yields only `$and`. */
  lemma {:induction false} OnlyStrings(search: Object)
    requires search != []
    requires forall i | 0 <= i < |search| :: search[i].1.Str?
    ensures QueryOf(search) == [("$or", List(OrList(search)))]
    decreases |search|
  {
    NoAndClauses(search);
    Partition(search);
  }

  lemma {:induction false} NoAndClauses(search: Object)
    requires forall i | 0 <= i < |search| :: search[i].1.Str?
    ensures AndList(search) == []
    decreases |search|
  {
    if search != [] {
      var init := search[..|search| - 1];
      assert forall i | 0 <= i < |init| :: init[i] == search[i];
      NoAndClauses(init);
    }
  }

  /** With only string values, the i-th pattern clause is that of the i-th entry. */
  lemma {:induction false} OrListOfStrings(search: Object)
    requires forall i | 0 <= i < |search| :: search[i].1.Str?
    ensures |OrList(search)| == |search|
    ensures forall i | 0 <= i < |search| :: OrList(search)[i] == OrClause(search[i].0, search[i].1.s)
    decreases |search|
  {
    if search != [] {
      var init := search[..|search| - 1];
      assert forall i | 0 <= i < |init| :: init[i] == search[i];
      OrListOfStrings(init);
    }
  }

  /** A search given as a string: `Object.keys` lists its character positions,
      so each character becomes a pattern clause keyed by its index, and
      nothing goes to `$and`. */
  lemma StringSearch(text: string)
    requires text != ""
    ensures var entries := OwnEntries(Str(text));
      && QueryOf(entries) == [("$or", List(OrList(entries)))]
      && |OrList(entries)| == |text|
      && forall i | 0 <= i < |text| :: OrList(entries)[i] == OrClause(Decimal(i), [text[i]])
  {
    var entries := OwnEntries(Str(text));
    assert forall i | 0 <= i < |entries| :: entries[i] == (Decimal(i), Str([text[i]]));
    OnlyStrings(entries);
    OrListOfStrings(entries);
  }

  /** `{ tags: '_id title' }`: tags are populated with their id and title. */
  const DefaultPopulate: Object := [("tags", Str("_id title"))]

  /** `options.populate = options.populate ? _.extend(pop, options.populate) : pop`. */
  function WithDefaultPopulate(options: Object): (r: Object)
    ensures Keys(r) == Keys(options) + {"populate"}
    ensures forall k {:trigger Get(r, k)} :: k != "populate" ==> Get(r, k) == Get(options, k)
  {
    var p := Get(options, "populate");
    Assign(options, "populate", Obj(if Truthy(p) then Extend(DefaultPopulate, ExtendSource(p)) else DefaultPopulate))
  }

  /** The populate option sent to the store: it is an object; with no caller
      populate it is the default; otherwise each caller key keeps the caller's
      value and `tags` keeps the default only when the caller did not set it. */
  lemma PopulateMerge(options: Object, k: string)
    requires Distinct(ExtendSource(Get(options, "populate")))
    ensures Get(WithDefaultPopulate(options), "populate").Obj?
    ensures var pop := Get(WithDefaultPopulate(options), "populate").entries;
      var caller := Get(options, "populate");
      && (!Truthy(caller) ==> pop == DefaultPopulate)
      && (Truthy(caller) ==>
            Get(pop, k) == if k in Keys(ExtendSource(caller)) then Get(ExtendSource(caller), k) else Get(DefaultPopulate, k))
  {
    var caller := Get(options, "populate");
    if Truthy(caller) {
      ExtendGet(DefaultPopulate, ExtendSource(caller), k);
    }
  }

  /** `_.extend` reads no keys from a string, number, boolean or date, so such
      a caller populate leaves the default in place. */
  lemma PrimitivePopulate(options: Object)
    requires !Get(options, "populate").Obj? && !Get(options, "populate").List?
    ensures Get(WithDefaultPopulate(options), "populate") == Obj(DefaultPopulate)
  {
  }

  /** Applying the default twice is applying it once: getAsset applies it and
      retrieveAsset applies it again, to the same effect. */
  lemma PopulateIdempotent(options: Object)
    ensures WithDefaultPopulate(WithDefaultPopulate(options)) == WithDefaultPopulate(options)
  {
    var once := WithDefaultPopulate(options);
    var caller := Get(options, "populate");
    var pop := if Truthy(caller) then Extend(DefaultPopulate, ExtendSource(caller)) else DefaultPopulate;
    assert Get(once, "populate") == Obj(pop);
    assert DefaultPopulate[0].0 == "tags";
    assert Distinct(DefaultPopulate);
    ExtendOverDefault(DefaultPopulate, pop);
    AssignSame(once, "populate");
  }

  /** Extending a one-entry object by an object that starts with the same key
      gives that object back; the populate default is such a one-entry object. */
  lemma ExtendOverDefault(base: Object, pop: Object)
    requires |base| == 1 && Distinct(pop) && |pop| >= 1 && pop[0].0 == base[0].0
    ensures Extend(base, pop) == pop
  {
    var head := [pop[0]];
    assert base[1..] == [];
    assert Assign(base, pop[0].0, pop[0].1) == head;
    assert Keys(head) == {pop[0].0} by {
      assert head[1..] == [];
    }
    ExtendFresh(head, pop[1..]);
    assert head + pop[1..] == pop;
  }
}
