/**
 * The deep merge of two configuration mappings: on the trees it is meant for, and on JavaScript objects as the code does
 * it, where a key `__proto__` that the target does not own goes to the prototype instead.
 */
module Config {
  import opened Wrappers
  import ConfigStore

  /** What a document holds: scalars and lists, which merging replaces as a whole, and mappings. */
  datatype Tree = Scalar(text: string) | Null | List(elements: map<string, Tree>) | Node(children: map<string, Tree>)

  function Merge(a: Tree, b: Tree): Tree
    decreases b
  {
    if !a.Node? || !b.Node? then b
    else
      Node(map k | k in a.children.Keys + b.children.Keys ::
        if k !in b.children then a.children[k]
        else if k !in a.children then b.children[k]
        else Merge(a.children[k], b.children[k]))
  }

  // ---------------------------------------------------------------------------------------------
  // Objects
  // ---------------------------------------------------------------------------------------------

  /** A JavaScript value, with its own properties and its prototype if it is an object. */
  datatype Js = Text(text: string) | JsNull | Object(proto: Proto, own: map<string, Js>)

  /** `Object.prototype`, none, `Array.prototype`, or an object that was made the prototype. */
  datatype Proto = Default | NoProto | OfList | Inherits(parent: Js)

  const PROTO := ConfigStore.PROTO

  /** `ObjectUtils.isPlainObject` */
  predicate IsPlain(v: Js) {
    v.Object? && (v.proto.Default? || v.proto.NoProto?)
  }

  /** `Object.prototype` has no enumerable properties, and the functions it holds are not plain objects. */
  const OBJECT_PROTOTYPE := Object(NoProto, map[])

  /** `object[key]`, where that can be a plain object. */
  function Get(o: Js, k: string): Option<Js>
    requires o.Object?
  {
    if k in o.own then Some(o.own[k])
    else
      match o.proto
      case Default => if k == PROTO then Some(OBJECT_PROTOTYPE) else None
      case NoProto => None
      case OfList => None
      case Inherits(parent) => if k == PROTO then Some(parent) else if parent.Object? then Get(parent, k) else None
  }

  /** `object[key] = value`: the inherited accessor takes an object or null as the prototype and ignores anything else. */
  function Assign(o: Js, k: string, v: Js): Js
    requires o.Object?
  {
    if k in o.own || k != PROTO || o.proto.NoProto? then Object(o.proto, o.own[k := v])
    else
      match v
      case Text(_) => o
      case JsNull => Object(NoProto, o.own)
      case Object(_, _) => Object(Inherits(v), o.own)
  }

  /** The order in which `Object.entries` lists the keys. */
  type Order = map<string, Js> -> seq<string>

  ghost predicate Lists(order: Order) {
    forall m: map<string, Js> :: Enumerates(order(m), m.Keys)
  }

  ghost predicate Enumerates(keys: seq<string>, all: set<string>) {
    && (forall k :: k in keys <==> k in all)
    && forall i, j :: 0 <= i < j < |keys| ==> keys[i] != keys[j]
  }

  ghost function MergeJs(order: Order, target: Js, source: Js): (result: Js)
    requires Lists(order) && target.Object? && source.Object?
    ensures result.Object?
    decreases source, 1, 0
  {
    assert Enumerates(order(source.own), source.own.Keys);
    MergeKeys(order, Object(Default, target.own), source, order(source.own))
  }

  ghost function MergeKeys(order: Order, result: Js, source: Js, keys: seq<string>): (merged: Js)
    requires Lists(order) && result.Object? && source.Object? && forall k :: k in keys ==> k in source.own
    ensures merged.Object?
    decreases source, 0, |keys|
  {
    if keys == [] then result
    else MergeKeys(order, Assign(result, keys[0], Merged(order, result, source, keys[0])), source, keys[1..])
  }

  ghost function Merged(order: Order, result: Js, source: Js, k: string): Js
    requires Lists(order) && result.Object? && source.Object? && k in source.own
    decreases source, 0, 0
  {
    var existing, value := Get(result, k), source.own[k];
    if existing.Some? && IsPlain(existing.value) && IsPlain(value) then MergeJs(order, existing.value, value) else value
  }

  method DeepMerge(order: Order, target: Js, source: Js) returns (result: Js)
    requires Lists(order) && target.Object? && source.Object?
    ensures result == MergeJs(order, target, source)
    decreases source
  {
    result := Object(Default, target.own);
    var keys := order(source.own);
    assert Enumerates(keys, source.own.Keys);
    for n := 0 to |keys|
      invariant result.Object?
      invariant MergeJs(order, target, source) == MergeKeys(order, result, source, keys[n..])
    {
      assert keys[n..][1..] == keys[n + 1..] && keys[n] in source.own;
      var key, value := keys[n], source.own[keys[n]];
      var existing := Get(result, key);
      if existing.Some? && IsPlain(existing.value) && IsPlain(value) {
        var merged := DeepMerge(order, existing.value, value);
        result := Assign(result, key, merged);
        continue;
      }
      result := Assign(result, key, value);
    }
  }

  // ---------------------------------------------------------------------------------------------
  // The tree merge is what the code does, unless a key `__proto__` is in the way
  // ---------------------------------------------------------------------------------------------

  /** The object that a document is loaded into. */
  function Of(t: Tree): (o: Js)
    ensures t.Node? <==> IsPlain(o)
  {
    match t
    case Scalar(text) => Text(text)
    case Null => JsNull
    case List(elements) => Object(OfList, map k | k in elements :: Of(elements[k]))
    case Node(children) => Object(Default, map k | k in children :: Of(children[k]))
  }

  /** No mapping of the source has a key `__proto__` where the target's mapping has none. */
  predicate NoBare(a: Tree, b: Tree)
    decreases b
  {
    a.Node? && b.Node? ==>
      && (PROTO in b.children ==> PROTO in a.children)
      && forall k :: k in a.children && k in b.children ==> NoBare(a.children[k], b.children[k])
  }

  /** Two values of one key. */
  ghost function MergedValues(order: Order, x: Tree, y: Tree): Js
    requires Lists(order)
  {
    if x.Node? && y.Node? then MergeJs(order, Of(x), Of(y)) else Of(y)
  }

  /** What a key comes to when the result does not lose it to the prototype. */
  ghost function MergedAt(order: Order, a: Tree, b: Tree, k: string): Js
    requires Lists(order) && a.Node? && b.Node? && (k in a.children || k in b.children)
  {
    if k !in b.children then Of(a.children[k])
    else if k !in a.children then Of(b.children[k])
    else MergedValues(order, a.children[k], b.children[k])
  }

  /** The source's key `__proto__` goes to the accessor. */
  predicate IsBare(target: Js, source: Tree)
    requires target.Object? && source.Node?
  {
    PROTO in source.children && PROTO !in target.own
  }

  /** And makes its value the prototype of the result. */
  predicate TakesPrototype(target: Js, source: Tree)
    requires target.Object? && source.Node?
  {
    IsBare(target, source) && (source.children[PROTO].Node? || source.children[PROTO].List?)
  }

  function KeysInto(target: Js, source: Tree, done: set<string>): set<string>
    requires target.Object? && source.Node?
  {
    target.own.Keys + if IsBare(target, source) then done - {PROTO} else done
  }

  /** The prototype of the result, once the source's key `__proto__` has been assigned. */
  ghost function ProtoInto(order: Order, target: Js, source: Tree, isAssigned: bool): Proto
    requires Lists(order) && target.Object? && source.Node?
  {
    if !IsBare(target, source) || !isAssigned then Default
    else
      match source.children[PROTO]
      case Scalar(_) => Default
      case Null => NoProto
      case List(_) => Inherits(Of(source.children[PROTO]))
      case Node(_) => Inherits(MergeJs(order, OBJECT_PROTOTYPE, Of(source.children[PROTO])))
  }

  predicate IsListedBefore(keys: seq<string>, j: string, k: string) {
    keys != [] && keys[0] != k && (keys[0] == j || IsListedBefore(keys[1..], j, k))
  }

  /** What the source's key finds in the result: a property of the target, or one inherited from a prototype taken before it. */
  ghost function Finds(order: Order, target: Js, source: Tree, k: string): Option<Js>
    requires Lists(order) && target.Object? && source.Node?
  {
    Get(Object(ProtoInto(order, target, source, IsListedBefore(order(Of(source).own), PROTO, k)), target.own), k)
  }

  predicate MeetsMapping(found: Option<Js>, value: Tree) {
    found.Some? && IsPlain(found.value) && value.Node?
  }

  ghost function Into(order: Order, target: Js, source: Tree, k: string): Js
    requires Lists(order) && target.Object? && source.Node? && (k in target.own || k in source.children)
  {
    if k !in source.children then target.own[k]
    else
      var found := Finds(order, target, source, k);
      if MeetsMapping(found, source.children[k]) then MergeJs(order, found.value, Of(source.children[k])) else Of(source.children[k])
  }

  /** Merging key by key. */
  lemma {:induction false} MergeKeysInto(order: Order, target: Js, b: Tree, result: Js, keys: seq<string>, done: set<string>)
    requires Lists(order) && target.Object? && b.Node?
    requires Enumerates(keys, b.children.Keys - done) && done <= b.children.Keys
    requires forall k :: k in keys ==>
               (IsListedBefore(order(Of(b).own), PROTO, k) <==> PROTO in done || IsListedBefore(keys, PROTO, k))
    requires result.Object? && result.proto == ProtoInto(order, target, b, PROTO in done) && result.own.Keys == KeysInto(target, b, done)
    requires forall k :: k in result.own ==> result.own[k] == if k in done then Into(order, target, b, k) else target.own[k]
    ensures
      var merged := MergeKeys(order, result, Of(b), keys);
      && merged.proto == ProtoInto(order, target, b, true) && merged.own.Keys == KeysInto(target, b, b.children.Keys)
      && forall k :: k in merged.own ==> merged.own[k] == Into(order, target, b, k)
    decreases |keys|
  {
    if keys == [] {
      forall k | k in b.children ensures k in done {
        assert k in b.children.Keys - done ==> k in keys;
      }
      assert done == b.children.Keys;
    } else {
      var k := keys[0];
      EnumeratesRest(keys, b.children.Keys - done);
      assert b.children.Keys - done - {k} == b.children.Keys - (done + {k});
      MergeKeyInto(order, target, b, result, k, done);
      MergeKeysInto(order, target, b, Assign(result, k, Merged(order, result, Of(b), k)), keys[1..], done + {k});
    }
  }

  lemma {:induction false} MergeKeyInto(order: Order, target: Js, b: Tree, result: Js, k: string, done: set<string>)
    requires Lists(order) && target.Object? && b.Node? && k in b.children && k !in done && done <= b.children.Keys
    requires IsListedBefore(order(Of(b).own), PROTO, k) <==> PROTO in done
    requires result.Object? && result.proto == ProtoInto(order, target, b, PROTO in done) && result.own.Keys == KeysInto(target, b, done)
    requires forall j :: j in result.own ==> result.own[j] == if j in done then Into(order, target, b, j) else target.own[j]
    ensures
      var next := Assign(result, k, Merged(order, result, Of(b), k));
      && next.proto == ProtoInto(order, target, b, PROTO in done + {k}) && next.own.Keys == KeysInto(target, b, done + {k})
      && forall j :: j in next.own ==> next.own[j] == if j in done + {k} then Into(order, target, b, j) else target.own[j]
  {
    assert Get(result, k) == Finds(order, target, b, k);
    assert Merged(order, result, Of(b), k) == Into(order, target, b, k);
  }

  lemma {:induction false} EnumeratesRest(keys: seq<string>, all: set<string>)
    requires Enumerates(keys, all) && keys != []
    ensures keys[0] in all && Enumerates(keys[1..], all - {keys[0]})
  {}

  /** A key `__proto__` that the target does not own never becomes a property. */
  lemma {:induction false} ProtoIsLost(order: Order, result: Js, source: Js, keys: seq<string>)
    requires Lists(order) && result.Object? && source.Object? && forall k :: k in keys ==> k in source.own
    requires PROTO !in result.own && result.proto != OfList && forall i, j :: 0 <= i < j < |keys| ==> keys[i] != keys[j]
    requires PROTO in keys ==> !result.proto.NoProto?
    ensures PROTO !in MergeKeys(order, result, source, keys).own && MergeKeys(order, result, source, keys).proto != OfList
    decreases |keys|
  {
    if keys != [] {
      assert keys == [keys[0]] + keys[1..];
      assert forall i :: 0 <= i < |keys[1..]| ==> keys[1..][i] == keys[i + 1];
      ProtoIsLost(order, Assign(result, keys[0], Merged(order, result, source, keys[0])), source, keys[1..]);
    }
  }

  /** Everything in `a` is overridden by `c`: mappings key by key, anything else as a whole. */
  predicate Covered(a: Tree, c: Tree)
    decreases c
  {
    !a.Node? || !c.Node? || forall k :: k in a.children ==> k in c.children && Covered(a.children[k], c.children[k])
  }

  lemma {:induction false} CoversItself(a: Tree)
    ensures Covered(a, a)
    decreases a
  {
    if a.Node? {
      forall k | k in a.children ensures Covered(a.children[k], a.children[k]) {
        CoversItself(a.children[k]);
      }
    }
  }

  lemma {:induction false} MergeCoversSource(a: Tree, b: Tree)
    ensures Covered(b, Merge(a, b))
    decreases b
  {
    if !a.Node? || !b.Node? {
      CoversItself(b);
    } else {
      forall k | k in b.children ensures k in Merge(a, b).children && Covered(b.children[k], Merge(a, b).children[k]) {
        if k in a.children {
          MergeCoversSource(a.children[k], b.children[k]);
        } else {
          CoversItself(b.children[k]);
        }
      }
    }
  }

  /** What a merge comes to, for any target. */
  lemma {:induction false} MergeOwnsInto(order: Order, target: Js, b: Tree)
    requires Lists(order) && target.Object? && b.Node?
    ensures
      var merged := MergeJs(order, target, Of(b));
      && merged.proto == ProtoInto(order, target, b, true) && merged.own.Keys == KeysInto(target, b, b.children.Keys)
      && forall k :: k in merged.own ==> merged.own[k] == Into(order, target, b, k)
  {
    assert Enumerates(order(Of(b).own), Of(b).own.Keys);
    MergeKeysInto(order, target, b, Object(Default, target.own), order(Of(b).own), {});
  }

  lemma {:induction false} MergeOwns(order: Order, a: Tree, b: Tree)
    requires Lists(order) && a.Node? && b.Node? && (PROTO in b.children ==> PROTO in a.children)
    ensures
      var merged := MergeJs(order, Of(a), Of(b));
      && merged.proto == Default && merged.own.Keys == a.children.Keys + b.children.Keys
      && forall k :: k in merged.own ==> merged.own[k] == MergedAt(order, a, b, k)
  {
    MergeOwnsInto(order, Of(a), b);
    var merged := MergeJs(order, Of(a), Of(b));
    forall k | k in merged.own ensures merged.own[k] == MergedAt(order, a, b, k) {
      IntoIsMergedAt(order, a, b, k);
    }
  }

  lemma {:induction false} IntoIsMergedAt(order: Order, a: Tree, b: Tree, k: string)
    requires Lists(order) && a.Node? && b.Node? && (PROTO in b.children ==> PROTO in a.children) && (k in a.children || k in b.children)
    ensures Into(order, Of(a), b, k) == MergedAt(order, a, b, k)
  {}

  /** The merge with a bare `__proto__` somewhere is no document that holds all of the source. */
  lemma {:induction false} BareIsLost(order: Order, a: Tree, b: Tree, t: Tree)
    requires Lists(order) && a.Node? && b.Node? && !NoBare(a, b) && Covered(b, t)
    ensures MergeJs(order, Of(a), Of(b)) != Of(t)
    decreases b
  {
    if PROTO in b.children && PROTO !in a.children {
      assert Enumerates(order(Of(b).own), Of(b).own.Keys);
      ProtoIsLost(order, Object(Default, Of(a).own), Of(b), order(Of(b).own));
    } else {
      MergeOwns(order, a, b);
      var k :| k in a.children && k in b.children && !NoBare(a.children[k], b.children[k]);
      assert MergeJs(order, Of(a), Of(b)).own[k] == MergeJs(order, Of(a.children[k]), Of(b.children[k]));
      if t.Node? {
        BareIsLost(order, a.children[k], b.children[k], t.children[k]);
      }
    }
  }

  lemma {:induction false} PlainMerge(order: Order, a: Tree, b: Tree)
    requires Lists(order) && a.Node? && b.Node? && NoBare(a, b)
    ensures MergeJs(order, Of(a), Of(b)) == Of(Merge(a, b))
    decreases b
  {
    var merged, tree := MergeJs(order, Of(a), Of(b)), Merge(a, b);
    MergeOwns(order, a, b);
    assert merged.own.Keys == tree.children.Keys;
    forall k | k in tree.children ensures MergedAt(order, a, b, k) == Of(tree.children[k]) {
      PlainKey(order, a, b, k);
    }
    assert merged.own == Of(tree).own;
  }

  lemma {:induction false} PlainKey(order: Order, a: Tree, b: Tree, k: string)
    requires Lists(order) && a.Node? && b.Node? && NoBare(a, b) && (k in a.children || k in b.children)
    ensures MergedAt(order, a, b, k) == Of(Merge(a, b).children[k])
    decreases b, 0
  {
    if k in a.children && k in b.children && a.children[k].Node? && b.children[k].Node? {
      PlainMerge(order, a.children[k], b.children[k]);
    }
  }

  /** The code computes the tree merge exactly when no mapping of the source has a bare key `__proto__`. */
  lemma {:induction false} MergeIsTreeMergeIff(order: Order, a: Tree, b: Tree)
    requires Lists(order) && a.Node? && b.Node?
    ensures MergeJs(order, Of(a), Of(b)) == Of(Merge(a, b)) <==> NoBare(a, b)
  {
    if NoBare(a, b) {
      PlainMerge(order, a, b);
    } else {
      MergeCoversSource(a, b);
      BareIsLost(order, a, b, Merge(a, b));
    }
  }

  lemma {:induction false} OfIsInjective(a: Tree, b: Tree)
    requires Of(a) == Of(b)
    ensures a == b
    decreases a
  {
    match (a, b)
    case (Node(c), Node(d)) =>
      assert c.Keys == Of(a).own.Keys && d.Keys == Of(b).own.Keys;
      forall k | k in c ensures c[k] == d[k] {
        assert Of(a).own[k] == Of(b).own[k];
        OfIsInjective(c[k], d[k]);
      }
      assert c == d;
    case (List(c), List(d)) =>
      assert c.Keys == Of(a).own.Keys && d.Keys == Of(b).own.Keys;
      forall k | k in c ensures c[k] == d[k] {
        assert Of(a).own[k] == Of(b).own[k];
        OfIsInjective(c[k], d[k]);
      }
      assert c == d;
    case _ =>
  }

  // ---------------------------------------------------------------------------------------------
  // The laws of merging
  // ---------------------------------------------------------------------------------------------

  const EMPTY := Node(map[])

  /** Merging into nothing gives the source, exactly when that does not own `__proto__`. */
  lemma {:induction false} IntoEmptyIff(order: Order, a: Tree)
    requires Lists(order) && a.Node?
    ensures MergeJs(order, Of(EMPTY), Of(a)) == Of(a) <==> PROTO !in a.children
  {
    assert Merge(EMPTY, a) == a;
    MergeIsTreeMergeIff(order, EMPTY, a);
  }

  lemma {:induction false} NoBareInItself(a: Tree)
    ensures NoBare(a, a)
    decreases a
  {
    if a.Node? {
      forall k | k in a.children ensures NoBare(a.children[k], a.children[k]) {
        NoBareInItself(a.children[k]);
      }
    }
  }

  lemma {:induction false} TreeMergeWithItself(a: Tree)
    ensures Merge(a, a) == a
    decreases a
  {
    if a.Node? {
      forall k | k in a.children ensures Merge(a.children[k], a.children[k]) == a.children[k] {
        TreeMergeWithItself(a.children[k]);
      }
      assert Merge(a, a).children == a.children;
    }
  }

  /** Merging nothing into a mapping, or the mapping into itself, changes nothing, whatever its keys. */
  lemma {:induction false} MergeIsIdempotent(order: Order, a: Tree)
    requires Lists(order) && a.Node?
    ensures MergeJs(order, Of(a), Of(EMPTY)) == Of(a) && MergeJs(order, Of(a), Of(a)) == Of(a)
  {
    assert Merge(a, EMPTY) == a;
    MergeIsTreeMergeIff(order, a, EMPTY);
    NoBareInItself(a);
    TreeMergeWithItself(a);
    MergeIsTreeMergeIff(order, a, a);
  }

  /** Merging trees into `a` gives back `c` exactly when `c` overrides everything in `a`. */
  lemma {:induction false} TreeAbsorbsIff(a: Tree, c: Tree)
    ensures Merge(a, c) == c <==> Covered(a, c)
    decreases c
  {
    if a.Node? && c.Node? {
      forall k | k in a.children && k in c.children
        ensures Merge(a.children[k], c.children[k]) == c.children[k] <==> Covered(a.children[k], c.children[k])
      {
        TreeAbsorbsIff(a.children[k], c.children[k]);
      }
      if Covered(a, c) {
        assert Merge(a, c).children == c.children;
      } else {
        var k :| k in a.children && !(k in c.children && Covered(a.children[k], c.children[k]));
        assert k in Merge(a, c).children;
      }
    }
  }

  /** Merging gives back the source exactly when that overrides everything in the target and has no bare `__proto__`. */
  lemma {:induction false} MergeAbsorbsIff(order: Order, a: Tree, c: Tree)
    requires Lists(order) && a.Node? && c.Node?
    ensures MergeJs(order, Of(a), Of(c)) == Of(c) <==> Covered(a, c) && NoBare(a, c)
  {
    TreeAbsorbsIff(a, c);
    if NoBare(a, c) {
      PlainMerge(order, a, c);
      if MergeJs(order, Of(a), Of(c)) == Of(c) {
        OfIsInjective(Merge(a, c), c);
      }
    } else {
      CoversItself(c);
      BareIsLost(order, a, c, c);
    }
  }

  lemma {:induction false} PlainUnlessTaken(order: Order, target: Js, b: Tree)
    requires Lists(order) && target.Object? && b.Node?
    ensures IsPlain(MergeJs(order, target, Of(b))) <==> !TakesPrototype(target, b)
  {
    MergeOwnsInto(order, target, b);
  }

  /** No mapping that a key of the source meets, directly or further down, is given a prototype. */
  ghost predicate Stable(order: Order, target: Js, b: Tree)
    requires Lists(order) && target.Object? && b.Node?
    decreases b, 1
  {
    forall k :: k in b.children ==> StableAt(order, target, b, k)
  }

  ghost predicate StableAt(order: Order, target: Js, b: Tree, k: string)
    requires Lists(order) && target.Object? && b.Node? && k in b.children
    decreases b, 0
  {
    var found := Finds(order, target, b, k);
    (k != PROTO || !IsBare(target, b)) && MeetsMapping(found, b.children[k]) ==>
      !TakesPrototype(found.value, b.children[k]) && Stable(order, found.value, b.children[k])
  }

  lemma {:induction false} SameShapeAgain(order: Order, target: Js, b: Tree)
    requires Lists(order) && target.Object? && b.Node?
    ensures
      var once := MergeJs(order, target, Of(b));
      var twice := MergeJs(order, once, Of(b));
      && twice.proto == once.proto && twice.own.Keys == once.own.Keys == KeysInto(target, b, b.children.Keys)
      && forall k :: k in once.own ==> once.own[k] == Into(order, target, b, k) && twice.own[k] == Into(order, once, b, k)
  {
    MergeOwnsInto(order, target, b);
    MergeOwnsInto(order, MergeJs(order, target, Of(b)), b);
  }

  lemma SameShapeSame(a: Js, b: Js)
    requires a.Object? && b.Object? && a.proto == b.proto && a.own.Keys == b.own.Keys
    ensures a == b <==> forall k :: k in a.own ==> a.own[k] == b.own[k]
  {
    if forall k :: k in a.own ==> a.own[k] == b.own[k] {
      assert a.own == b.own;
    }
  }

  /** Applying the same source again changes nothing, exactly when no mapping that its keys meet is given a prototype. */
  lemma {:induction false} MergeAgainIff(order: Order, target: Js, b: Tree)
    requires Lists(order) && target.Object? && b.Node?
    ensures MergeJs(order, MergeJs(order, target, Of(b)), Of(b)) == MergeJs(order, target, Of(b)) <==> Stable(order, target, b)
    decreases b
  {
    var once := MergeJs(order, target, Of(b));
    var twice := MergeJs(order, once, Of(b));
    SameShapeAgain(order, target, b);
    SameShapeSame(twice, once);
    forall k | k in once.own ensures twice.own[k] == once.own[k] <==> (k in b.children ==> StableAt(order, target, b, k)) {
      KeyAgain(order, target, b, once, k);
    }
    forall k | k in b.children && k !in once.own ensures StableAt(order, target, b, k) {}
  }

  lemma {:induction false} KeyAgain(order: Order, target: Js, b: Tree, once: Js, k: string)
    requires Lists(order) && target.Object? && b.Node? && once.Object? && k in once.own && (k in target.own || k in b.children)
    requires once.own[k] == Into(order, target, b, k) && !(k == PROTO && IsBare(target, b))
    ensures Into(order, once, b, k) == once.own[k] <==> (k in b.children ==> StableAt(order, target, b, k))
    decreases b, 0
  {
    if k in b.children && b.children[k].Node? {
      assert Finds(order, once, b, k) == Some(once.own[k]);
      var found := Finds(order, target, b, k);
      if MeetsMapping(found, b.children[k]) {
        PlainUnlessTaken(order, found.value, b.children[k]);
        if !TakesPrototype(found.value, b.children[k]) {
          MergeAgainIff(order, found.value, b.children[k]);
        }
      } else {
        MergeIsIdempotent(order, b.children[k]);
      }
    }
  }

  /** A source without a bare `__proto__` gives no mapping a prototype. */
  lemma {:induction false} NoBareIsStable(order: Order, a: Tree, b: Tree)
    requires Lists(order) && a.Node? && b.Node? && NoBare(a, b)
    ensures Stable(order, Of(a), b)
    decreases b
  {
    forall k | k in b.children ensures StableAt(order, Of(a), b, k) {
      if k in a.children && a.children[k].Node? && b.children[k].Node? {
        NoBareIsStable(order, a.children[k], b.children[k]);
      }
    }
  }

  lemma {:induction false} NothingToList(keys: seq<string>)
    requires Enumerates(keys, {})
    ensures keys == []
  {
    if keys != [] {
      EnumeratesRest(keys, {});
    }
  }

  lemma {:induction false} OneKey(order: Order, m: map<string, Js>, k: string)
    requires Lists(order) && m.Keys == {k}
    ensures order(m) == [k]
  {
    var keys := order(m);
    assert Enumerates(keys, m.Keys);
    assert k in keys;
    EnumeratesRest(keys, m.Keys);
    assert m.Keys - {keys[0]} == {};
    NothingToList(keys[1..]);
  }

  /** Merging a mapping with one key into a mapping without keys. */
  lemma {:induction false} MergeOneKey(order: Order, target: Js, k: string, v: Js)
    requires Lists(order) && target.Object? && target.own == map[]
    ensures
      var made := Object(Default, map[]);
      var existing := Get(made, k);
      MergeJs(order, target, Object(Default, map[k := v])) ==
      Assign(made, k, if existing.Some? && IsPlain(existing.value) && IsPlain(v) then MergeJs(order, existing.value, v) else v)
  {
    var source, made := Object(Default, map[k := v]), Object(Default, map[]);
    assert source.own.Keys == {k};
    OneKey(order, source.own, k);
    assert [k][1..] == [];
    var next := Assign(made, k, Merged(order, made, source, k));
    assert MergeKeys(order, next, source, []) == next;
  }

  lemma {:induction false} OfOneKey(k: string, t: Tree)
    ensures Of(Node(map[k := t])) == Object(Default, map[k := Of(t)])
  {}

  /** Merging `{__proto__: v}` into an empty mapping drops a scalar, and makes a mapping the prototype. */
  lemma {:induction false} BareProtoGoesAstray(order: Order, text: string)
    requires Lists(order)
    ensures MergeJs(order, Of(EMPTY), Of(Node(map[PROTO := Scalar(text)]))) == Of(EMPTY)
    ensures MergeJs(order, Of(EMPTY), Of(Node(map[PROTO := Node(map["x" := Scalar(text)])]))) ==
            Object(Inherits(Object(Default, map["x" := Text(text)])), map[])
  {
    assert Of(EMPTY) == Object(Default, map[]);
    assert |PROTO| != |"x"|;
    OfOneKey(PROTO, Scalar(text));
    OfOneKey(PROTO, Node(map["x" := Scalar(text)]));
    OfOneKey("x", Scalar(text));
    MergeOneKey(order, Of(EMPTY), PROTO, Text(text));
    MergeOneKey(order, Of(EMPTY), PROTO, Object(Default, map["x" := Text(text)]));
    MergeOneKey(order, OBJECT_PROTOTYPE, "x", Text(text));
  }

  /**
   * Where a leaf of `b` stands between two mappings, the outer mapping must be overridden by the inner one, without a bare
   * `__proto__`.
   */
  predicate Associates(a: Tree, b: Tree, c: Tree)
    decreases c
  {
    if !a.Node? || !c.Node? then true
    else if !b.Node? then Covered(a, c) && NoBare(a, c)
    else forall k :: k in a.children && k in b.children && k in c.children ==> Associates(a.children[k], b.children[k], c.children[k])
  }

  lemma {:induction false} PlainValues(order: Order, x: Tree, y: Tree)
    requires Lists(order) && NoBare(x, y)
    ensures MergedValues(order, x, y) == Of(Merge(x, y))
  {
    if x.Node? && y.Node? {
      PlainMerge(order, x, y);
    }
  }

  lemma {:induction false} ValuesAssociateIff(order: Order, a: Tree, b: Tree, c: Tree)
    requires Lists(order) && NoBare(a, b) && NoBare(b, c)
    ensures MergedValues(order, Merge(a, b), c) == MergedValues(order, a, Merge(b, c)) <==> Associates(a, b, c)
    decreases c, 1
  {
    if a.Node? && b.Node? && c.Node? {
      NodesAssociateIff(order, a, b, c);
    } else if a.Node? && c.Node? {
      MergeAbsorbsIff(order, a, c);
    } else {
      PlainValues(order, b, c);
    }
  }

  /** Two merges without a bare outer `__proto__` agree when they agree key by key. */
  lemma {:induction false} SameMergesIff(order: Order, a: Tree, b: Tree, a': Tree, b': Tree)
    requires Lists(order) && a.Node? && b.Node? && (PROTO in b.children ==> PROTO in a.children)
    requires a'.Node? && b'.Node? && (PROTO in b'.children ==> PROTO in a'.children)
    requires a.children.Keys + b.children.Keys == a'.children.Keys + b'.children.Keys
    ensures MergeJs(order, Of(a), Of(b)) == MergeJs(order, Of(a'), Of(b')) <==>
            forall k :: k in a.children.Keys + b.children.Keys ==> MergedAt(order, a, b, k) == MergedAt(order, a', b', k)
  {
    MergeOwns(order, a, b);
    MergeOwns(order, a', b');
    SameObjectsIff(order, MergeJs(order, Of(a), Of(b)), MergeJs(order, Of(a'), Of(b')), a, b, a', b');
  }

  lemma {:induction false} SameObjectsIff(order: Order, left: Js, right: Js, a: Tree, b: Tree, a': Tree, b': Tree)
    requires Lists(order) && a.Node? && b.Node? && a'.Node? && b'.Node?
    requires left.Object? && right.Object? && left.proto == right.proto
    requires left.own.Keys == a.children.Keys + b.children.Keys == a'.children.Keys + b'.children.Keys == right.own.Keys
    requires forall k :: k in left.own ==> left.own[k] == MergedAt(order, a, b, k)
    requires forall k :: k in right.own ==> right.own[k] == MergedAt(order, a', b', k)
    ensures left == right <==>
            forall k :: k in a.children.Keys + b.children.Keys ==> MergedAt(order, a, b, k) == MergedAt(order, a', b', k)
  {
    forall k | k in a.children.Keys + b.children.Keys ensures left.own[k] == MergedAt(order, a, b, k) && right.own[k] == MergedAt(order, a', b', k) {
      assert k in left.own && k in right.own;
    }
    if left.own == right.own {
    } else {
      var k :| k in left.own && left.own[k] != right.own[k];
      assert k in a.children.Keys + b.children.Keys;
    }
  }

  lemma {:induction false} NodesAssociateIff(order: Order, a: Tree, b: Tree, c: Tree)
    requires Lists(order) && a.Node? && b.Node? && c.Node? && NoBare(a, b) && NoBare(b, c)
    ensures MergeJs(order, Of(Merge(a, b)), Of(c)) == MergeJs(order, Of(a), Of(Merge(b, c))) <==> Associates(a, b, c)
    decreases c, 0
  {
    var ab, bc, keys := Merge(a, b), Merge(b, c), a.children.Keys + b.children.Keys + c.children.Keys;
    assert ab.children.Keys + c.children.Keys == keys == a.children.Keys + bc.children.Keys;
    SameMergesIff(order, ab, c, a, bc);
    forall k | k in keys
      ensures MergedAt(order, ab, c, k) == MergedAt(order, a, bc, k) <==>
              (k in a.children && k in b.children && k in c.children ==> Associates(a.children[k], b.children[k], c.children[k]))
    {
      if k in a.children && k in b.children && k in c.children {
        ValuesAssociateIff(order, a.children[k], b.children[k], c.children[k]);
      } else {
        OutsideOne(order, a, b, c, k);
      }
    }
    assert forall k :: k in a.children && k in b.children && k in c.children ==> k in keys;
  }

  /** A key that one of the three lacks comes to the same either way. */
  lemma {:induction false} OutsideOne(order: Order, a: Tree, b: Tree, c: Tree, k: string)
    requires Lists(order) && a.Node? && b.Node? && c.Node? && NoBare(a, b) && NoBare(b, c)
    requires k in a.children || k in b.children || k in c.children
    requires !(k in a.children && k in b.children && k in c.children)
    ensures MergedAt(order, Merge(a, b), c, k) == MergedAt(order, a, Merge(b, c), k)
  {
    var ab, bc := Merge(a, b).children, Merge(b, c).children;
    if k in a.children && k in b.children {
      assert ab[k] == Merge(a.children[k], b.children[k]) && bc[k] == b.children[k];
      PlainValues(order, a.children[k], b.children[k]);
    } else if k in b.children && k in c.children {
      assert ab[k] == b.children[k] && bc[k] == Merge(b.children[k], c.children[k]);
      PlainValues(order, b.children[k], c.children[k]);
    }
  }

  /** Both first merges are by the book and the two groupings agree, exactly on these trees. */
  lemma {:induction false} AssociativeIff(order: Order, a: Tree, b: Tree, c: Tree)
    requires Lists(order) && a.Node? && b.Node? && c.Node?
    ensures
      var ab, bc := MergeJs(order, Of(a), Of(b)), MergeJs(order, Of(b), Of(c));
      (ab == Of(Merge(a, b)) && bc == Of(Merge(b, c)) && MergeJs(order, ab, Of(c)) == MergeJs(order, Of(a), bc)) <==>
      (NoBare(a, b) && NoBare(b, c) && Associates(a, b, c))
  {
    MergeIsTreeMergeIff(order, a, b);
    MergeIsTreeMergeIff(order, b, c);
    if NoBare(a, b) && NoBare(b, c) {
      NodesAssociateIff(order, a, b, c);
    }
  }

  lemma {:induction false} OtherKeysLeavePrototype(order: Order, result: Js, source: Js, keys: seq<string>)
    requires Lists(order) && result.Object? && source.Object? && PROTO !in keys && forall k :: k in keys ==> k in source.own
    ensures MergeKeys(order, result, source, keys).proto == result.proto
    decreases |keys|
  {
    if keys != [] {
      OtherKeysLeavePrototype(order, Assign(result, keys[0], Merged(order, result, source, keys[0])), source, keys[1..]);
    }
  }

  /** A bare `__proto__` of the last source that is no scalar takes effect in one grouping only. */
  lemma {:induction false} BareInLastRegroups(order: Order, a: Tree, b: Tree, c: Tree)
    requires Lists(order) && a.Node? && b.Node? && c.Node?
    requires PROTO !in a.children && PROTO !in b.children && PROTO in c.children && !c.children[PROTO].Scalar?
    ensures MergeJs(order, MergeJs(order, Of(a), Of(b)), Of(c)).proto != Default
    ensures MergeJs(order, Of(a), MergeJs(order, Of(b), Of(c))).proto == Default
  {
    var ab, bc := MergeJs(order, Of(a), Of(b)), MergeJs(order, Of(b), Of(c));
    MergeOwnsInto(order, Of(a), b);
    MergeOwnsInto(order, ab, c);
    MergeOwnsInto(order, Of(b), c);
    assert Enumerates(order(bc.own), bc.own.Keys);
    OtherKeysLeavePrototype(order, Object(Default, Of(a).own), bc, order(bc.own));
  }

  /** No leaf of `b` meets mappings on both sides. */
  predicate NoClash(a: Tree, b: Tree, c: Tree)
    decreases c
  {
    if !a.Node? || !c.Node? then true
    else b.Node? && forall k :: k in a.children && k in b.children && k in c.children ==> NoClash(a.children[k], b.children[k], c.children[k])
  }

  lemma {:induction false} NoClashAssociates(a: Tree, b: Tree, c: Tree)
    requires NoClash(a, b, c)
    ensures Associates(a, b, c)
    decreases c
  {
    if a.Node? && c.Node? {
      forall k | k in a.children && k in b.children && k in c.children
        ensures Associates(a.children[k], b.children[k], c.children[k])
      {
        NoClashAssociates(a.children[k], b.children[k], c.children[k]);
      }
    }
  }

  /** Merging is not associative in general: a scalar between two mappings. */
  lemma {:induction false} NotAssociative(order: Order)
    requires Lists(order)
    ensures
      var a, b, c := Node(map["x" := Node(map["y" := Scalar("1")])]), Node(map["x" := Scalar("2")]), Node(map["x" := Node(map["z" := Scalar("3")])]);
      MergeJs(order, MergeJs(order, Of(a), Of(b)), Of(c)) != MergeJs(order, Of(a), MergeJs(order, Of(b), Of(c)))
  {
    var ax, cx := Node(map["y" := Scalar("1")]), Node(map["z" := Scalar("3")]);
    var a, b, c := Node(map["x" := ax]), Node(map["x" := Scalar("2")]), Node(map["x" := cx]);
    assert "y" in ax.children && "y" !in cx.children;
    assert !Covered(ax, cx);
    assert !Associates(a.children["x"], b.children["x"], c.children["x"]);
    assert "x" in a.children && "x" in b.children && "x" in c.children;
    assert |PROTO| != |"x"|;
    assert NoBare(a, b) && NoBare(b, c);
    AssociativeIff(order, a, b, c);
    MergeIsTreeMergeIff(order, a, b);
    MergeIsTreeMergeIff(order, b, c);
  }

  // ---------------------------------------------------------------------------------------------
  // Reading
  // ---------------------------------------------------------------------------------------------

  function Lookup(t: Tree, path: seq<string>): Option<Tree>
    decreases |path|
  {
    if path == [] then Some(t)
    else if !t.Node? || path[0] !in t.children then None
    else Lookup(t.children[path[0]], path[1..])
  }

  /** Reading own properties of plain objects. */
  function LookupJs(o: Js, path: seq<string>): Option<Js>
    decreases |path|
  {
    if path == [] then Some(o)
    else if !IsPlain(o) || path[0] !in o.own then None
    else LookupJs(o.own[path[0]], path[1..])
  }

  lemma {:induction false} OfReads(t: Tree, path: seq<string>)
    ensures LookupJs(Of(t), path) == match Lookup(t, path) case None => None case Some(u) => Some(Of(u))
    decreases |path|
  {
    if path != [] && t.Node? && path[0] in t.children {
      OfReads(t.children[path[0]], path[1..]);
    }
  }

  /** A proper prefix of the path ends in a leaf. */
  predicate Blocked(t: Tree, path: seq<string>)
    decreases |path|
  {
    path != [] && (!t.Node? || (path[0] in t.children && Blocked(t.children[path[0]], path[1..])))
  }

  /** What a merged configuration should answer at a path, from what the two sources answer there. */
  function Reads(a: Tree, b: Tree, path: seq<string>): Option<Tree> {
    match (Lookup(a, path), Lookup(b, path))
    case (Some(ta), Some(tb)) => Some(Merge(ta, tb))
    case (None, Some(tb)) => Some(tb)
    case (Some(ta), None) => if Blocked(b, path) then None else Some(ta)
    case (None, None) => None
  }

  lemma {:induction false} TreeMergeReads(a: Tree, b: Tree, path: seq<string>)
    ensures Lookup(Merge(a, b), path) == Reads(a, b, path)
    decreases |path|
  {
    if path != [] && a.Node? && b.Node? && path[0] in a.children && path[0] in b.children {
      TreeMergeReads(a.children[path[0]], b.children[path[0]], path[1..]);
    } else if path != [] && a.Node? && b.Node? && path[0] in b.children {
      assert Lookup(a, path) == None;
    }
  }

  /** The merged object answers every path so, exactly when no mapping of the source has a bare `__proto__`. */
  lemma {:induction false} MergeReadsIff(order: Order, a: Tree, b: Tree)
    requires Lists(order) && a.Node? && b.Node?
    ensures (forall path :: LookupJs(MergeJs(order, Of(a), Of(b)), path) == match Reads(a, b, path) case None => None case Some(t) => Some(Of(t))) <==>
            NoBare(a, b)
  {
    MergeIsTreeMergeIff(order, a, b);
    if NoBare(a, b) {
      forall path ensures LookupJs(MergeJs(order, Of(a), Of(b)), path) == match Reads(a, b, path) case None => None case Some(t) => Some(Of(t)) {
        TreeMergeReads(a, b, path);
        OfReads(Merge(a, b), path);
      }
    } else {
      assert LookupJs(MergeJs(order, Of(a), Of(b)), []) == Some(MergeJs(order, Of(a), Of(b)));
      assert Reads(a, b, []) == Some(Merge(a, b));
    }
  }
}
