/**
 * The configuration object that the overlay writes into: a store of objects that refer to each other, as a YAML document
 * with anchors yields it, with sharing and cycles, and the `Object.prototype` that every mapping inherits from.
 */
module ConfigStore {
  import opened Wrappers

  /**
   * The identity of an object. The mapping that the walk creates under key `k` of `r` is `Created(r, k)`: nothing else
   * ever refers to it. `Copy(r)` is what the clone makes of `r`.
   */
  datatype Ref = Prototype | Original(id: nat) | Copy(original: Ref) | Created(parent: Ref, key: string)

  /** A scalar, or a reference to an object. */
  datatype Value = Scalar(text: string) | At(ref: Ref)

  /** A mapping, or something that is not a plain object: a list with its elements under their indices, a date. */
  datatype Object = Object(isMapping: bool, own: map<string, Value>)

  type Store = map<Ref, Object>

  const PROTO := "__proto__"

  function Own(s: Store, r: Ref): map<string, Value> {
    if r in s then s[r].own else map[]
  }

  predicate IsMapping(s: Store, r: Ref) {
    r in s && s[r].isMapping
  }

  /** The key is the accessor that every mapping inherits, not a property of its own. */
  predicate IsAccessor(s: Store, r: Ref, k: string) {
    k == PROTO && k !in Own(s, r)
  }

  /** `object[key]`: an own property, the prototype through the accessor, or an inherited property. */
  function Get(s: Store, r: Ref, k: string): Option<Value> {
    if k in Own(s, r) then Some(Own(s, r)[k])
    else if r == Prototype then None
    else if k == PROTO then (if IsMapping(s, r) then Some(At(Prototype)) else None)
    else if k in Own(s, Prototype) then Some(Own(s, Prototype)[k])
    else None
  }

  predicate Enters(s: Store, r: Ref, k: string) {
    Get(s, r, k).Some? && Get(s, r, k).value.At? && IsMapping(s, Get(s, r, k).value.ref)
  }

  function Put(s: Store, r: Ref, k: string, v: Value): Store {
    s[r := Object(r !in s || s[r].isMapping, Own(s, r)[k := v])]
  }

  /** `object[key] = {}` */
  function Create(s: Store, r: Ref, k: string): Store {
    Put(s, r, k, At(Created(r, k)))[Created(r, k) := Object(true, map[])]
  }

  datatype Error = InvalidPath | ImmutablePrototype

  /**
   * `setByPath`: walks into existing mappings and creates missing ones, in place. Setting `__proto__` to a string is
   * ignored by the accessor; `Object.prototype` itself has no prototype to walk into and refuses to be given one.
   */
  function SetByPath(s: Store, r: Ref, path: seq<string>, v: string): (Store, Option<Error>)
    requires path != []
    decreases |path|
  {
    var k := path[0];
    if |path| == 1 then
      if k == "" then (s, Some(InvalidPath))
      else if IsAccessor(s, r, k) then (s, None)
      else (Put(s, r, k, Scalar(v)), None)
    else if Enters(s, r, k) then SetByPath(s, Get(s, r, k).value.ref, path[1..], v)
    else if IsAccessor(s, r, k) then (s, Some(ImmutablePrototype))
    else SetByPath(Create(s, r, k), Created(r, k), path[1..], v)
  }

  // ---------------------------------------------------------------------------------------------
  // Reading
  // ---------------------------------------------------------------------------------------------

  /** What reading a path property by property gives, inherited properties included. */
  function Lookup(s: Store, v: Value, path: seq<string>): Option<Value>
    decreases |path|
  {
    if path == [] then Some(v)
    else if v.Scalar? || Get(s, v.ref, path[0]) == None then None
    else Lookup(s, Get(s, v.ref, path[0]).value, path[1..])
  }

  datatype Answer = Nothing | Said(text: string) | AMapping | AList

  /** What the configuration says at a path, through own properties only. */
  function AnswerOf(s: Store, v: Value, path: seq<string>): Answer
    decreases |path|
  {
    if path == [] then
      match v
      case Scalar(text) => Said(text)
      case At(r) => if IsMapping(s, r) then AMapping else AList
    else if v.Scalar? || path[0] !in Own(s, v.ref) then Nothing
    else AnswerOf(s, Own(s, v.ref)[path[0]], path[1..])
  }

  function AnswerAt(s: Store, r: Ref, path: seq<string>): Answer {
    AnswerOf(s, At(r), path)
  }

  predicate SaysAsIn(s: Store, v: Option<Value>, answer: Answer) {
    match v
    case None => answer == Nothing
    case Some(Scalar(text)) => answer == Said(text)
    case Some(At(r)) => answer == if IsMapping(s, r) then AMapping else AList
  }

  /** Nothing has been put on `Object.prototype`. */
  predicate Clean(s: Store) {
    Own(s, Prototype) == map[]
  }

  /** While `Object.prototype` is clean, reading a path without `__proto__` is reading own properties. */
  lemma {:induction false} ReadsOwnProperties(s: Store, v: Value, path: seq<string>)
    requires Clean(s) && PROTO !in path
    ensures SaysAsIn(s, Lookup(s, v, path), AnswerOf(s, v, path))
    decreases |path|
  {
    if path != [] && v.At? && path[0] in Own(s, v.ref) {
      ReadsOwnProperties(s, Own(s, v.ref)[path[0]], path[1..]);
    }
  }

  /**
   * No property refers to `Object.prototype`; a created mapping is referred to only by the property it was created for,
   * and itself refers only to created ones.
   */
  ghost predicate Sound(s: Store) {
    && IsMapping(s, Prototype)
    && forall r, k :: k in Own(s, r) && Own(s, r)[k].At? ==>
         && Own(s, r)[k].ref != Prototype
         && (Own(s, r)[k].ref.Created? ==> Own(s, r)[k].ref == Created(r, k))
         && (r.Created? ==> Own(s, r)[k].ref.Created?)
  }

  // ---------------------------------------------------------------------------------------------
  // Where a write lands
  // ---------------------------------------------------------------------------------------------

  predicate OwnEnters(s: Store, r: Ref, k: string) {
    k in Own(s, r) && Own(s, r)[k].At? && IsMapping(s, Own(s, r)[k].ref)
  }

  /** How many existing mappings the walk along a path goes into. */
  function Depth(s: Store, r: Ref, path: seq<string>): (d: nat)
    requires path != []
    ensures d < |path|
    decreases |path|
  {
    if |path| > 1 && OwnEnters(s, r, path[0]) then 1 + Depth(s, Own(s, r)[path[0]].ref, path[1..]) else 0
  }

  /** The last existing mapping that it goes into: the one object it changes. */
  function Landing(s: Store, r: Ref, path: seq<string>): Ref
    requires path != []
    decreases |path|
  {
    if |path| > 1 && OwnEnters(s, r, path[0]) then Landing(s, Own(s, r)[path[0]].ref, path[1..]) else r
  }

  /** The key it sets there, followed by the keys of what it creates. */
  function Rest(s: Store, r: Ref, path: seq<string>): (rest: seq<string>)
    requires path != []
    ensures rest != []
  {
    path[Depth(s, r, path)..]
  }

  /** The walk never uses the `__proto__` accessor. */
  predicate Safe(s: Store, r: Ref, path: seq<string>)
    requires path != []
    decreases |path|
  {
    && !IsAccessor(s, r, path[0])
    && (|path| == 1 || if OwnEnters(s, r, path[0]) then Safe(s, Own(s, r)[path[0]].ref, path[1..]) else PROTO !in path[1..])
  }

  /** Sets `rest[0]` of one object, creating a mapping for each further key. */
  function Grow(s: Store, r: Ref, rest: seq<string>, v: string): Store
    requires rest != []
    decreases |rest|
  {
    if |rest| == 1 then Put(s, r, rest[0], Scalar(v)) else Grow(Create(s, r, rest[0]), Created(r, rest[0]), rest[1..], v)
  }

  lemma {:induction false} GrowIsWrite(s: Store, r: Ref, path: seq<string>, v: string)
    requires Clean(s) && r != Prototype && path != [] && path[|path| - 1] != "" && PROTO !in path[1..] && !IsAccessor(s, r, path[0])
    requires |path| > 1 ==> !OwnEnters(s, r, path[0])
    ensures SetByPath(s, r, path, v) == (Grow(s, r, path, v), None)
    decreases |path|
  {
    if |path| > 1 {
      assert path[1] in path[1..];
      GrowIsWrite(Create(s, r, path[0]), Created(r, path[0]), path[1..], v);
    }
  }

  /** A walk into an existing mapping goes on from there. */
  lemma WalkEnters(s: Store, r: Ref, path: seq<string>, v: string)
    requires |path| > 1 && OwnEnters(s, r, path[0])
    ensures
      var next := Own(s, r)[path[0]].ref;
      && SetByPath(s, r, path, v) == SetByPath(s, next, path[1..], v)
      && Landing(s, r, path) == Landing(s, next, path[1..]) && Rest(s, r, path) == Rest(s, next, path[1..])
  {
    var next := Own(s, r)[path[0]].ref;
    assert path[1 + Depth(s, next, path[1..])..] == path[1..][Depth(s, next, path[1..])..];
  }

  /** A safe write changes one object and creates mappings under it; it cannot fail. */
  lemma {:induction false} SafeWriteGrows(s: Store, r: Ref, path: seq<string>, v: string)
    requires Sound(s) && Clean(s) && r != Prototype && path != [] && path[|path| - 1] != "" && Safe(s, r, path)
    ensures SetByPath(s, r, path, v) == (Grow(s, Landing(s, r, path), Rest(s, r, path), v), None)
    ensures Landing(s, r, path) != Prototype
    decreases |path|
  {
    if |path| > 1 && OwnEnters(s, r, path[0]) {
      WalkEnters(s, r, path, v);
      SafeWriteGrows(s, Own(s, r)[path[0]].ref, path[1..], v);
    } else {
      assert Rest(s, r, path) == path;
      GrowIsWrite(s, r, path, v);
    }
  }

  // ---------------------------------------------------------------------------------------------
  // What a write changes
  // ---------------------------------------------------------------------------------------------

  /** The mapping was created under key `k` of `x`, directly or further down. */
  predicate Under(f: Ref, x: Ref, k: string) {
    f.Created? && ((f.parent == x && f.key == k) || Under(f.parent, x, k))
  }

  function Size(r: Ref): nat {
    match r
    case Created(parent, _) => 1 + Size(parent)
    case _ => 0
  }

  lemma {:induction false} UnderIsDeeper(f: Ref, x: Ref, k: string)
    requires Under(f, x, k)
    ensures Size(f) > Size(x)
  {
    if !(f.parent == x && f.key == k) {
      UnderIsDeeper(f.parent, x, k);
    }
  }

  /** `after` differs from `before` at most in that property and in what was created under it. */
  ghost predicate ChangesOnly(before: Store, after: Store, x: Ref, k: string) {
    && (forall r :: r != x && !Under(r, x, k) ==> (r in after <==> r in before) && (r in before ==> after[r] == before[r]))
    && Own(after, x) - {k} == Own(before, x) - {k}
    && IsMapping(after, x) == (x !in before || IsMapping(before, x))
  }

  lemma {:induction false} UnderUnder(f: Ref, x: Ref, k: string, k': string)
    requires Under(f, Created(x, k), k')
    ensures Under(f, x, k)
  {
    if !(f.parent == Created(x, k) && f.key == k') {
      UnderUnder(f.parent, x, k, k');
    }
  }

  lemma {:induction false} GrowChangesOnly(s: Store, x: Ref, rest: seq<string>, v: string)
    requires rest != []
    ensures ChangesOnly(s, Grow(s, x, rest, v), x, rest[0])
    ensures rest[0] in Own(Grow(s, x, rest, v), x)
    ensures Own(Grow(s, x, rest, v), x)[rest[0]] == if |rest| == 1 then Scalar(v) else At(Created(x, rest[0]))
    decreases |rest|
  {
    if |rest| > 1 {
      var f := Created(x, rest[0]);
      GrowChangesOnly(Create(s, x, rest[0]), f, rest[1..], v);
      assert !Under(x, f, rest[1]) by {
        if Under(x, f, rest[1]) {
          UnderIsDeeper(x, f, rest[1]);
        }
      }
      forall r | !Under(r, x, rest[0]) ensures !Under(r, f, rest[1]) {
        if Under(r, f, rest[1]) {
          UnderUnder(r, x, rest[0], rest[1]);
        }
      }
    }
  }

  lemma PutKeepsSound(s: Store, r: Ref, k: string, v: Value)
    requires Sound(s) && (v.At? ==> v.ref == Created(r, k))
    ensures Sound(Put(s, r, k, v))
  {
    var put := Put(s, r, k, v);
    forall y, j | j in Own(put, y) && Own(put, y)[j].At?
      ensures
        var t := Own(put, y)[j].ref;
        t != Prototype && (t.Created? ==> t == Created(y, j)) && (y.Created? ==> t.Created?)
    {
      if y != r || j != k {
        assert j in Own(s, y) && Own(s, y)[j] == Own(put, y)[j];
      }
    }
  }

  lemma CreateKeepsSound(s: Store, r: Ref, k: string)
    requires Sound(s)
    ensures Sound(Create(s, r, k))
  {
    var put := Put(s, r, k, At(Created(r, k)));
    PutKeepsSound(s, r, k, At(Created(r, k)));
    forall y, j | j in Own(Create(s, r, k), y) ensures j in Own(put, y) && Own(Create(s, r, k), y)[j] == Own(put, y)[j] {}
  }

  lemma {:induction false} GrowKeepsSound(s: Store, x: Ref, rest: seq<string>, v: string)
    requires Sound(s) && Clean(s) && x != Prototype && rest != []
    ensures Sound(Grow(s, x, rest, v)) && Clean(Grow(s, x, rest, v))
    decreases |rest|
  {
    if |rest| == 1 {
      PutKeepsSound(s, x, rest[0], Scalar(v));
    } else {
      CreateKeepsSound(s, x, rest[0]);
      GrowKeepsSound(Create(s, x, rest[0]), Created(x, rest[0]), rest[1..], v);
    }
  }

  // ---------------------------------------------------------------------------------------------
  // What is read after a write
  // ---------------------------------------------------------------------------------------------

  /** The path leads from `r` to `x` without taking property `k` of `x` on the way. */
  predicate Leads(s: Store, r: Ref, path: seq<string>, x: Ref, k: string)
    decreases |path|
  {
    if path == [] then r == x
    else
      && !(r == x && path[0] == k)
      && path[0] in Own(s, r) && Own(s, r)[path[0]].At?
      && Leads(s, Own(s, r)[path[0]].ref, path[1..], x, k)
  }

  /** What a chain of fresh mappings along `rest`, with a value at its end, answers. */
  function Below(rest: seq<string>, v: string, path: seq<string>): Answer {
    if rest == [] then (if path == [] then Said(v) else Nothing)
    else if path == [] then AMapping
    else if path[0] == rest[0] then Below(rest[1..], v, path[1..])
    else Nothing
  }

  /** The answer of the store before the write, until the path takes the property that is set. */
  function AnswerAfter(s: Store, from: Value, path: seq<string>, x: Ref, rest: seq<string>, v: string): Answer
    requires rest != []
    decreases |path|
  {
    if path == [] || from.Scalar? then AnswerOf(s, from, path)
    else if from.ref == x && path[0] == rest[0] then Below(rest[1..], v, path[1..])
    else if path[0] !in Own(s, from.ref) then Nothing
    else AnswerAfter(s, Own(s, from.ref)[path[0]], path[1..], x, rest, v)
  }

  lemma {:induction false} GrownAnswers(s: Store, x: Ref, rest: seq<string>, v: string, path: seq<string>)
    requires rest != []
    ensures rest[0] in Own(Grow(s, x, rest, v), x)
    ensures AnswerOf(Grow(s, x, rest, v), Own(Grow(s, x, rest, v), x)[rest[0]], path) == Below(rest[1..], v, path)
    decreases |rest|
  {
    GrowChangesOnly(s, x, rest, v);
    if |rest| > 1 {
      var f := Created(x, rest[0]);
      GrowChangesOnly(Create(s, x, rest[0]), f, rest[1..], v);
      if path != [] && path[0] == rest[1] {
        GrownAnswers(Create(s, x, rest[0]), f, rest[1..], v, path[1..]);
      } else if path != [] {
        assert path[0] !in Own(Grow(s, x, rest, v), f) - {rest[1]};
      }
    }
  }

  lemma {:induction false} AnswerLaw(s: Store, from: Value, path: seq<string>, x: Ref, rest: seq<string>, v: string)
    requires Sound(s) && IsMapping(s, x) && rest != [] && (from.At? ==> !Under(from.ref, x, rest[0]))
    ensures AnswerOf(Grow(s, x, rest, v), from, path) == AnswerAfter(s, from, path, x, rest, v)
    decreases |path|
  {
    GrowChangesOnly(s, x, rest, v);
    if path != [] && from.At? {
      if from.ref == x && path[0] == rest[0] {
        GrownAnswers(s, x, rest, v, path[1..]);
      } else {
        SameOwn(s, x, rest, v, from.ref, path[0]);
        if path[0] in Own(s, from.ref) {
          AnswerLaw(s, Own(s, from.ref)[path[0]], path[1..], x, rest, v);
        }
      }
    }
  }

  lemma SameOwn(s: Store, x: Ref, rest: seq<string>, v: string, r: Ref, k: string)
    requires rest != [] && !Under(r, x, rest[0]) && !(r == x && k == rest[0])
    ensures k in Own(Grow(s, x, rest, v), r) <==> k in Own(s, r)
    ensures k in Own(s, r) ==> Own(Grow(s, x, rest, v), r)[k] == Own(s, r)[k]
  {
    GrowChangesOnly(s, x, rest, v);
    if r == x {
      var was, now := Own(s, x) - {rest[0]}, Own(Grow(s, x, rest, v), x) - {rest[0]};
      assert k in was <==> k in Own(s, x);
      assert k in now <==> k in Own(Grow(s, x, rest, v), x);
      assert k in was ==> was[k] == Own(s, x)[k] && now[k] == Own(Grow(s, x, rest, v), x)[k];
    }
  }
}
