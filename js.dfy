/**
 * The part of the JavaScript runtime (and of underscore.js) that the asset
 * manager leans on: values and plain objects, truthiness, property lookup and
 * assignment, `_.extend`, `String.prototype.split`, `indexOf` and the key
 * views that `Object.keys` and `_.allKeys` give of a value.
 */
module Js {

  /** A JavaScript value as far as the asset manager can see one. Numbers are
      modelled as integers; a Date carries an opaque time stamp. */
  datatype Value =
    | Undefined
    | Null
    | Bool(b: bool)
    | Num(n: int)
    | Str(s: string)
    | Date(stamp: int)
    | Regex(source: string, flags: string)
    | List(items: seq<Value>)
    | Obj(entries: seq<(string, Value)>)

  /** A plain object: its own properties in insertion order. */
  type Object = seq<(string, Value)>

  /** ToBoolean: what `if (v)`, `v || d` and `v && e` test. */
  predicate Truthy(v: Value) {
    match v
    case Undefined => false
    case Null => false
    case Bool(b) => b
    case Num(n) => n != 0
    case Str(s) => s != ""
    case _ => true
  }

  function Keys(o: Object): set<string> {
    if o == [] then {} else {o[0].0} + Keys(o[1..])
  }

  /** No key occurs twice, as in every object JavaScript builds. */
  predicate Distinct(o: Object) {
    o == [] || (o[0].0 !in Keys(o[1..]) && Distinct(o[1..]))
  }

  lemma {:induction false} KeysConcat(a: Object, b: Object)
    ensures Keys(a + b) == Keys(a) + Keys(b)
  {
    if a == [] {
      assert a + b == b;
    } else {
      assert (a + b)[0] == a[0];
      assert (a + b)[1..] == a[1..] + b;
      KeysConcat(a[1..], b);
    }
  }

  /** Property read `o[k]`: the value of the entry with key k, or undefined. */
  function Get(o: Object, k: string): (v: Value)
    ensures k !in Keys(o) ==> v == Undefined
  {
    if o == [] then Undefined
    else if o[0].0 == k then o[0].1
    else Get(o[1..], k)
  }

  /** The keys of an object in order, as `Object.keys` lists them. */
  function Names(o: Object): (ns: seq<string>)
    ensures |ns| == |o| && forall j | 0 <= j < |o| :: ns[j] == o[j].0
  {
    seq(|o|, j requires 0 <= j < |o| => o[j].0)
  }

  /** A read finds the first entry with the key. */
  lemma {:induction false} GetFirst(o: Object, i: nat, k: string)
    requires i < |o| && o[i].0 == k && k !in Names(o)[..i]
    ensures Get(o, k) == o[i].1
  {
    if i > 0 {
      assert Names(o)[0] == o[0].0;
      assert Names(o[1..])[..i - 1] == Names(o)[1..i];
      GetFirst(o[1..], i - 1, k);
    }
  }

  /** Property write `o[k] = v`: an existing key keeps its place, a new key goes last. */
  function Assign(o: Object, k: string, v: Value): (r: Object)
    ensures Get(r, k) == v
    ensures forall k' {:trigger Get(r, k')} :: k' != k ==> Get(r, k') == Get(o, k')
    ensures Keys(r) == Keys(o) + {k}
    ensures k !in Keys(o) ==> r == o + [(k, v)]
  {
    if o == [] then [(k, v)]
    else if o[0].0 == k then [(k, v)] + o[1..]
    else
      var r := [o[0]] + Assign(o[1..], k, v);
      assert r[1..] == Assign(o[1..], k, v);
      r
  }

  /** Writing back the value a key already has changes nothing. */
  lemma {:induction false} AssignSame(o: Object, k: string)
    requires k in Keys(o)
    ensures Assign(o, k, Get(o, k)) == o
  {
    if o[0].0 != k {
      AssignSame(o[1..], k);
      assert [o[0]] + o[1..] == o;
    } else {
      assert [(k, o[0].1)] + o[1..] == o;
    }
  }

  /** Assignment keeps every existing key in its place and adds none twice. */
  lemma {:induction false} AssignPlaces(o: Object, k: string, v: Value)
    ensures |Assign(o, k, v)| == if k in Keys(o) then |o| else |o| + 1
    ensures forall i | 0 <= i < |o| :: Assign(o, k, v)[i].0 == o[i].0
    ensures Distinct(o) ==> Distinct(Assign(o, k, v))
  {
    if o != [] && o[0].0 != k {
      AssignPlaces(o[1..], k, v);
      var r := Assign(o, k, v);
      assert r[1..] == Assign(o[1..], k, v);
      assert forall i | 1 <= i < |o| :: r[i] == r[1..][i - 1];
    } else if o != [] {
      var r := Assign(o, k, v);
      assert r[1..] == o[1..];
    }
  }

  /** `_.extend(target, source)`: the source's entries assigned in order onto the target. */
  function Extend(target: Object, source: Object): (r: Object)
    ensures Keys(r) == Keys(target) + Keys(source)
    ensures |r| >= |target|
    ensures forall i | 0 <= i < |target| :: r[i].0 == target[i].0
    ensures Distinct(target) ==> Distinct(r)
    decreases |source|
  {
    if source == [] then target
    else
      AssignPlaces(target, source[0].0, source[0].1);
      Extend(Assign(target, source[0].0, source[0].1), source[1..])
  }

  /** What `_.extend` promises: every key the source has takes the source's value,
      every other key keeps the target's. */
  lemma {:induction false} ExtendGet(target: Object, source: Object, k: string)
    requires Distinct(source)
    ensures Get(Extend(target, source), k) == if k in Keys(source) then Get(source, k) else Get(target, k)
    decreases |source|
  {
    if source != [] {
      var (k0, v0) := source[0];
      ExtendGet(Assign(target, k0, v0), source[1..], k);
      if k == k0 {
        assert k !in Keys(source[1..]);
      }
    }
  }

  /** Extending by keys the target lacks appends them in order. */
  lemma {:induction false} ExtendFresh(target: Object, source: Object)
    requires Distinct(source)
    requires Keys(target) !! Keys(source)
    ensures Extend(target, source) == target + source
    decreases |source|
  {
    if source != [] {
      var (k0, v0) := source[0];
      var t' := target + [(k0, v0)];
      assert Assign(target, k0, v0) == t';
      assert Extend(target, source) == Extend(t', source[1..]);
      KeysConcat(target, [(k0, v0)]);
      assert Keys(t') == Keys(target) + {k0};
      assert k0 !in Keys(source[1..]);
      ExtendFresh(t', source[1..]);
      assert t' + source[1..] == target + source;
    }
  }

  /** `Object.keys(v)` paired with `v[key]`: own enumerable properties. Strings
      and arrays expose their indices; other primitives and Date or RegExp
      objects have none. */
  function OwnEntries(v: Value): Object {
    match v
    case Obj(e) => e
    case List(xs) => Indexed(xs)
    case Str(s) => seq(|s|, i requires 0 <= i < |s| => (Decimal(i), Str([s[i]])))
    case _ => []
  }

  /** `_.allKeys(v)` paired with `v[key]`, as `_.extend` reads its source: nothing
      for primitives (strings included), indices for arrays. */
  function ExtendSource(v: Value): Object {
    match v
    case Obj(e) => e
    case List(xs) => Indexed(xs)
    case _ => []
  }

  function Indexed(xs: seq<Value>): Object {
    seq(|xs|, i requires 0 <= i < |xs| => (Decimal(i), xs[i]))
  }

  /** The decimal spelling of a natural number, as `String(n)` writes it. */
  function Decimal(n: nat): (r: string)
    ensures |r| >= 1
    ensures forall c | c in r :: '0' <= c <= '9'
    ensures (|r| > 1 ==> r[0] != '0')
  {
    if n < 10 then [DigitChar(n)] else Decimal(n / 10) + [DigitChar(n % 10)]
  }

  function DigitChar(d: nat): (c: char)
    requires d < 10
    ensures '0' <= c <= '9' && (d > 0 ==> c != '0')
  {
    "0123456789"[d]
  }

  /** `s.split(sep)` for a one-character separator: the pieces between separators,
      empty pieces included; "" splits into [""]. */
  function Split(s: string, sep: char): (parts: seq<string>)
    ensures |parts| >= 1
  {
    if s == [] then [""]
    else
      var rest := Split(s[1..], sep);
      if s[0] == sep then [""] + rest else [[s[0]] + rest[0]] + rest[1..]
  }

  /** `parts.join(sep)`. */
  function Join(parts: seq<string>, sep: char): string
    requires |parts| >= 1
  {
    if |parts| == 1 then parts[0] else parts[0] + [sep] + Join(parts[1..], sep)
  }

  function Last<T>(s: seq<T>): T
    requires |s| >= 1
  {
    s[|s| - 1]
  }

  /** Splitting loses nothing: joining the pieces gives the string back, and no
      piece contains the separator. */
  lemma {:induction false} JoinSplit(s: string, sep: char)
    ensures Join(Split(s, sep), sep) == s
    ensures forall i | 0 <= i < |Split(s, sep)| :: sep !in Split(s, sep)[i]
  {
    if s != [] {
      JoinSplit(s[1..], sep);
      var rest := Split(s[1..], sep);
      if s[0] == sep {
        assert Split(s, sep)[1..] == rest;
      } else {
        var parts := Split(s, sep);
        assert parts[1..] == rest[1..];
        if |rest| > 1 {
          assert Join(rest, sep) == rest[0] + [sep] + Join(rest[1..], sep);
        }
        forall i | 0 <= i < |parts| ensures sep !in parts[i] {
          if i > 0 { assert parts[i] == rest[i]; }
        }
      }
    }
  }

  /** A string free of the separator splits into itself alone. */
  lemma {:induction false} SplitNone(s: string, sep: char)
    requires sep !in s
    ensures Split(s, sep) == [s]
  {
    if s != [] {
      SplitNone(s[1..], sep);
      assert [s[0]] + s[1..] == s;
    }
  }

  /** A separator-free piece, the separator, then the rest: the piece comes
      first among the pieces, and the rest splits on its own. */
  lemma {:induction false} SplitCons(a: string, b: string, sep: char)
    requires sep !in a
    ensures Split(a + [sep] + b, sep) == [a] + Split(b, sep)
  {
    var s := a + [sep] + b;
    if a == [] {
      assert s == [sep] + b;
      assert s[1..] == b;
    } else {
      assert s[1..] == a[1..] + [sep] + b;
      SplitCons(a[1..], b, sep);
      assert [a[0]] + a[1..] == a;
    }
  }

  /** `s.lastIndexOf(c)`: the last position holding c, or -1 when there is none. */
  function LastIndex(s: string, c: char): (r: int)
    ensures -1 <= r < |s|
    ensures r >= 0 ==> s[r] == c && c !in s[r + 1..]
    ensures r == -1 ==> c !in s
    decreases |s|
  {
    if s == [] then -1
    else if s[|s| - 1] == c then |s| - 1
    else
      var r := LastIndex(s[..|s| - 1], c);
      assert s == s[..|s| - 1] + [s[|s| - 1]];
      assert r >= 0 ==> s[r + 1..] == s[..|s| - 1][r + 1..] + [s[|s| - 1]];
      r
  }

  /** The last piece of a split is the longest suffix free of the separator:
      either the whole string (which then holds no separator) or the text that
      follows the last separator. */
  lemma {:induction false} LastPiece(s: string, sep: char)
    ensures var l := Last(Split(s, sep));
      && |l| <= |s| && l == s[|s| - |l|..] && sep !in l
      && (|Split(s, sep)| == 1 <==> sep !in s)
      && (|l| == |s| <==> sep !in s)
      && (|l| < |s| ==> s[|s| - |l| - 1] == sep)
  {
    LastSuffix(s, sep);
    JoinSplit(s, sep);
    var parts := Split(s, sep);
    assert Last(parts) == parts[|parts| - 1];
    if |parts| > 1 {
      assert s == parts[0] + [sep] + Join(parts[1..], sep);
      assert s[|parts[0]|] == sep;
    }
  }

  /** The last piece is a suffix, preceded by a separator unless it is everything. */
  lemma {:induction false} LastSuffix(s: string, sep: char)
    ensures var l := Last(Split(s, sep));
      && |l| <= |s| && l == s[|s| - |l|..]
      && (|l| < |s| ==> s[|s| - |l| - 1] == sep)
      && (|Split(s, sep)| == 1 ==> l == s)
      && (|Split(s, sep)| > 1 ==> |l| < |s|)
  {
    if s != [] {
      var t := s[1..];
      LastSuffix(t, sep);
      SplitStep(s, sep);
      var rest := Split(t, sep);
      var l := Last(rest);
      if s[0] == sep || |rest| > 1 {
        assert Last(Split(s, sep)) == l;
        assert |Split(s, sep)| > 1;
        assert t[|t| - |l|..] == s[|s| - |l|..];
        if |l| < |t| {
          assert s[|s| - |l| - 1] == t[|t| - |l| - 1];
        } else {
          assert s[|s| - |l| - 1] == s[0] == sep;
        }
      } else {
        assert l == t;
        assert Last(Split(s, sep)) == [s[0]] + t == s;
      }
    }
  }

  /** How one more leading character changes the pieces of a split. */
  lemma SplitStep(s: string, sep: char)
    requires s != []
    ensures var rest := Split(s[1..], sep);
      && |Split(s, sep)| == (if s[0] == sep then |rest| + 1 else |rest|)
      && Last(Split(s, sep)) == (if s[0] == sep || |rest| > 1 then Last(rest) else [s[0]] + Last(rest))
  {
  }

  /** t occurs in s at position i. */
  predicate OccursAt(s: string, t: string, i: int) {
    0 <= i && i + |t| <= |s| && s[i..i + |t|] == t
  }

  /** `s.indexOf(t)`: the first position at which t occurs, or -1. */
  function IndexOf(s: string, t: string): (r: int)
    ensures r == -1 || OccursAt(s, t, r)
    ensures forall i | 0 <= i && (r == -1 || i < r) :: !OccursAt(s, t, i)
    decreases |s|
  {
    if |s| < |t| then -1
    else if s[..|t|] == t then 0
    else
      var r := IndexOf(s[1..], t);
      forall i | 1 <= i
        ensures OccursAt(s, t, i) == OccursAt(s[1..], t, i - 1)
      {
        OccursShift(s, t, i);
      }
      if r == -1 then -1 else r + 1
  }

  lemma OccursShift(s: string, t: string, i: int)
    requires s != [] && 1 <= i
    ensures OccursAt(s, t, i) == OccursAt(s[1..], t, i - 1)
  {
    if i + |t| <= |s| {
      assert s[1..][i - 1..i - 1 + |t|] == s[i..i + |t|];
    }
  }
}
