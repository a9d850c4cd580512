/**
 * When a write at a path fails, and when an overlay does: `Object.prototype` has no prototype to walk into, and a path that
 * asks for it gets stuck there.
 */
module ConfigFailure {
  import opened Wrappers
  import opened ConfigStore
  import opened ConfigOverlay
  import opened ConfigRun

  // ---------------------------------------------------------------------------------------------
  // The condition
  // ---------------------------------------------------------------------------------------------

  /** The path goes through the `__proto__` of a `__proto__`. */
  predicate Doubles(path: seq<string>) {
    exists i :: 0 <= i && i + 2 < |path| && path[i] == PROTO && path[i + 1] == PROTO
  }

  /** The walk comes to `Object.prototype` and asks for its prototype; past its last existing mapping every `__proto__` leads there. */
  predicate GetsStuck(s: Store, r: Ref, path: seq<string>)
    requires path != []
    decreases |path|
  {
    && |path| > 1
    && if Enters(s, r, path[0]) then GetsStuck(s, Get(s, r, path[0]).value.ref, path[1..])
       else (r == Prototype && path[0] == PROTO) || Doubles(path[1..])
  }

  /** The walk goes into the mapping under `k` of `x`, and could not do without it: the rest of the path doubles `__proto__`. */
  predicate DependsOn(s: Store, r: Ref, path: seq<string>, x: Ref, k: string)
    requires path != []
    decreases |path|
  {
    && |path| > 1 && OwnEnters(s, r, path[0])
    && ((r == x && path[0] == k && Doubles(path[1..])) || DependsOn(s, Own(s, r)[path[0]].ref, path[1..], x, k))
  }

  /** The value that `q` sets replaces a mapping that the walk of `p` depends on. */
  predicate CutsOff(s: Store, r: Ref, q: seq<string>, p: seq<string>)
    requires p != [] && q != []
  {
    |Rest(s, r, q)| == 1 && DependsOn(s, r, p, Landing(s, r, q), Rest(s, r, q)[0])
  }

  /** What an overlay adds mappings to, or made itself. */
  predicate IsAdded(r: Ref) {
    r == Prototype || r.Created?
  }

  /** No property refers to `Object.prototype`. */
  ghost predicate PrototypeIsApart(s: Store) {
    IsMapping(s, Prototype) && forall r: Ref, k: string :: k in Own(s, r) && Own(s, r)[k].At? ==> Own(s, r)[k].ref != Prototype
  }

  /** Added mappings lead to added mappings only, and none has a `__proto__` of its own. */
  ghost predicate AddedIsPlain(s: Store) {
    forall r: Ref, k: string :: IsAdded(r) && k in Own(s, r) ==> k != PROTO && (Own(s, r)[k].At? ==> Own(s, r)[k].ref.Created?)
  }

  ghost predicate Ready(s: Store) {
    PrototypeIsApart(s) && AddedIsPlain(s)
  }

  lemma DoublesFromHere(path: seq<string>)
    requires |path| > 1
    ensures Doubles(path) <==> Doubles(path[1..]) || (|path| > 2 && path[0] == PROTO && path[1] == PROTO)
  {
    if Doubles(path[1..]) {
      var i :| 0 <= i && i + 2 < |path[1..]| && path[1..][i] == PROTO && path[1..][i + 1] == PROTO;
      assert path[i + 1] == PROTO && path[i + 2] == PROTO;
    }
    if Doubles(path) {
      var i :| 0 <= i && i + 2 < |path| && path[i] == PROTO && path[i + 1] == PROTO;
      if i > 0 {
        assert path[1..][i - 1] == PROTO && path[1..][i] == PROTO;
      }
    }
  }

  /** Among added mappings a walk gets stuck exactly when its path doubles `__proto__`. */
  lemma {:induction false} StuckAmongAdded(s: Store, r: Ref, path: seq<string>)
    requires Ready(s) && IsAdded(r) && IsMapping(s, r) && path != []
    ensures GetsStuck(s, r, path) <==> Doubles(path) || (|path| > 1 && r == Prototype && path[0] == PROTO)
    decreases |path|
  {
    if |path| > 1 {
      DoublesFromHere(path);
      if Enters(s, r, path[0]) {
        StuckAmongAdded(s, Get(s, r, path[0]).value.ref, path[1..]);
      }
    }
  }

  // ---------------------------------------------------------------------------------------------
  // One write
  // ---------------------------------------------------------------------------------------------

  lemma PutKeepsReady(s: Store, r: Ref, k: string, v: Value)
    requires Ready(s) && !IsAccessor(s, r, k) && (v.At? ==> v.ref.Created?)
    ensures Ready(Put(s, r, k, v))
  {
    var put := Put(s, r, k, v);
    forall y: Ref, j: string | j in Own(put, y) && !(y == r && j == k) ensures j in Own(s, y) && Own(s, y)[j] == Own(put, y)[j] {}
    assert IsAdded(r) ==> k != PROTO;
  }

  lemma CreateKeepsReady(s: Store, r: Ref, k: string)
    requires Ready(s) && !IsAccessor(s, r, k)
    ensures Ready(Create(s, r, k))
  {
    var put := Put(s, r, k, At(Created(r, k)));
    PutKeepsReady(s, r, k, At(Created(r, k)));
    forall y: Ref, j: string | j in Own(Create(s, r, k), y) ensures j in Own(put, y) && Own(Create(s, r, k), y)[j] == Own(put, y)[j] {}
  }

  /** A write fails exactly when its last segment is empty or its walk gets stuck. */
  lemma {:induction false} WriteFailsIff(s: Store, r: Ref, path: seq<string>, v: string)
    requires Ready(s) && IsMapping(s, r) && path != []
    ensures SetByPath(s, r, path, v).1.Some? <==> !IsValid(path) || GetsStuck(s, r, path)
    ensures Ready(SetByPath(s, r, path, v).0)
    decreases |path|
  {
    if |path| == 1 {
      if !IsAccessor(s, r, path[0]) {
        PutKeepsReady(s, r, path[0], Scalar(v));
      }
    } else if Enters(s, r, path[0]) {
      WriteFailsIff(s, Get(s, r, path[0]).value.ref, path[1..], v);
    } else if !IsAccessor(s, r, path[0]) {
      CreateKeepsReady(s, r, path[0]);
      WriteFailsIff(Create(s, r, path[0]), Created(r, path[0]), path[1..], v);
      StuckAmongAdded(Create(s, r, path[0]), Created(r, path[0]), path[1..]);
    }
  }

  /** In a document without `__proto__` keys a walk gets stuck exactly when its path doubles `__proto__`. */
  lemma {:induction false} StuckInPlainDocument(s: Store, r: Ref, path: seq<string>)
    requires Ready(s) && IsMapping(s, r) && r != Prototype && path != [] && forall y: Ref :: PROTO !in Own(s, y)
    ensures GetsStuck(s, r, path) <==> Doubles(path)
    decreases |path|
  {
    if |path| > 1 {
      DoublesFromHere(path);
      if Enters(s, r, path[0]) {
        var next := Get(s, r, path[0]).value.ref;
        if next == Prototype {
          StuckAmongAdded(s, next, path[1..]);
        } else {
          StuckInPlainDocument(s, next, path[1..]);
        }
      }
    }
  }

  // ---------------------------------------------------------------------------------------------
  // What a write does to the document
  // ---------------------------------------------------------------------------------------------

  ghost predicate SameProperty(s: Store, after: Store, y: Ref, j: string) {
    && (j in Own(after, y) <==> j in Own(s, y))
    && (j in Own(s, y) ==> Own(after, y)[j] == Own(s, y)[j])
  }

  /**
   * No object of the document has changed, except for property `k` of `x`: that one keeps its accessor, and leads on only
   * to an added mapping, where it did not lead on before.
   */
  ghost predicate DocumentStays(s: Store, after: Store, x: Ref, k: string, isLeaf: bool) {
    && (forall y: Ref :: !IsAdded(y) ==> (IsMapping(after, y) <==> IsMapping(s, y)))
    && (forall y: Ref, j: string :: !IsAdded(y) && !(y == x && j == k) ==> SameProperty(s, after, y, j))
    && (!IsAdded(x) ==>
          && (k in Own(s, x) ==> k in Own(after, x))
          && (IsAccessor(s, x, k) ==> IsAccessor(after, x, k))
          && (OwnEnters(after, x, k) ==> !isLeaf && Own(after, x)[k].ref.Created?)
          && (OwnEnters(s, x, k) ==> isLeaf))
  }

  lemma {:induction false} LandsAmongAdded(s: Store, r: Ref, path: seq<string>)
    requires AddedIsPlain(s) && IsAdded(r) && path != []
    ensures IsAdded(Landing(s, r, path))
    decreases |path|
  {
    if |path| > 1 && OwnEnters(s, r, path[0]) {
      LandsAmongAdded(s, Own(s, r)[path[0]].ref, path[1..]);
    }
  }

  /** A walk among added mappings changes only those. */
  lemma {:induction false} AddedWriteStays(s: Store, r: Ref, path: seq<string>, v: string)
    requires Ready(s) && IsAdded(r) && IsMapping(s, r) && path != []
    ensures forall y: Ref :: !IsAdded(y) ==> (y in SetByPath(s, r, path, v).0 <==> y in s) && (y in s ==> SetByPath(s, r, path, v).0[y] == s[y])
    decreases |path|
  {
    if |path| > 1 {
      if Enters(s, r, path[0]) {
        AddedWriteStays(s, Get(s, r, path[0]).value.ref, path[1..], v);
      } else if !IsAccessor(s, r, path[0]) {
        CreateKeepsReady(s, r, path[0]);
        AddedWriteStays(Create(s, r, path[0]), Created(r, path[0]), path[1..], v);
      }
    }
  }

  lemma {:induction false} WriteStays(s: Store, r: Ref, path: seq<string>, v: string)
    requires Ready(s) && !IsAdded(r) && IsMapping(s, r) && IsValid(path)
    ensures DocumentStays(s, SetByPath(s, r, path, v).0, Landing(s, r, path), Rest(s, r, path)[0], |Rest(s, r, path)| == 1)
    decreases |path|
  {
    if |path| > 1 {
      if OwnEnters(s, r, path[0]) {
        var next := Own(s, r)[path[0]].ref;
        assert Rest(s, r, path) == Rest(s, next, path[1..]);
        if IsAdded(next) {
          AddedWriteStays(s, next, path[1..], v);
          LandsAmongAdded(s, next, path[1..]);
        } else {
          WriteStays(s, next, path[1..], v);
        }
      } else if Enters(s, r, path[0]) {
        AddedWriteStays(s, Get(s, r, path[0]).value.ref, path[1..], v);
      } else {
        CreateKeepsReady(s, r, path[0]);
        AddedWriteStays(Create(s, r, path[0]), Created(r, path[0]), path[1..], v);
      }
    }
  }

  // ---------------------------------------------------------------------------------------------
  // Other walks after a write
  // ---------------------------------------------------------------------------------------------

  lemma {:induction false} DependsDoubles(s: Store, r: Ref, path: seq<string>, x: Ref, k: string)
    requires path != [] && DependsOn(s, r, path, x, k)
    ensures Doubles(path[1..])
    decreases |path|
  {
    if !(r == x && path[0] == k && Doubles(path[1..])) {
      DependsDoubles(s, Own(s, r)[path[0]].ref, path[1..], x, k);
      DoublesFromHere(path[1..]);
    }
  }

  /** A walk that leaves the document here does not get stuck if the rest of its path does not double `__proto__`. */
  lemma LeavesDocument(s: Store, r: Ref, path: seq<string>)
    requires Ready(s) && IsMapping(s, r) && !IsAdded(r) && |path| > 1 && !Doubles(path[1..])
    requires !IsAccessor(s, r, path[0]) && (OwnEnters(s, r, path[0]) ==> Own(s, r)[path[0]].ref.Created?)
    ensures !GetsStuck(s, r, path)
  {
    if Enters(s, r, path[0]) {
      StuckAmongAdded(s, Get(s, r, path[0]).value.ref, path[1..]);
    }
  }

  lemma {:induction false} StillNotStuck(s: Store, after: Store, r: Ref, path: seq<string>, x: Ref, k: string, isLeaf: bool)
    requires Ready(s) && Ready(after) && DocumentStays(s, after, x, k, isLeaf) && IsMapping(s, r) && !IsAdded(r) && path != []
    requires !GetsStuck(s, r, path) && !(isLeaf && DependsOn(s, r, path, x, k))
    ensures !GetsStuck(after, r, path)
    decreases |path|
  {
    if |path| > 1 {
      if IsAccessor(s, r, path[0]) {
        assert !(r == x && path[0] == k) ==> SameProperty(s, after, r, path[0]);
        StuckAmongAdded(s, Prototype, path[1..]);
        StuckAmongAdded(after, Prototype, path[1..]);
      } else if OwnEnters(s, r, path[0]) && !IsAdded(Own(s, r)[path[0]].ref) && !(r == x && path[0] == k) {
        assert SameProperty(s, after, r, path[0]);
        StillNotStuck(s, after, Own(s, r)[path[0]].ref, path[1..], x, k, isLeaf);
      } else {
        if Enters(s, r, path[0]) && IsAdded(Get(s, r, path[0]).value.ref) {
          StuckAmongAdded(s, Get(s, r, path[0]).value.ref, path[1..]);
        }
        assert !(r == x && path[0] == k) ==> SameProperty(s, after, r, path[0]);
        LeavesDocument(after, r, path);
      }
    }
  }

  /** What a walk depends on after the write, it depended on before. */
  lemma {:induction false} DependedBefore(s: Store, after: Store, r: Ref, path: seq<string>, x: Ref, k: string, isLeaf: bool, x': Ref, k': string)
    requires Ready(s) && Ready(after) && DocumentStays(s, after, x, k, isLeaf) && IsMapping(s, r) && !IsAdded(r) && path != []
    requires !GetsStuck(after, r, path) && DependsOn(after, r, path, x', k')
    ensures !IsAdded(x') && DependsOn(s, r, path, x', k')
    decreases |path|
  {
    var next := Own(after, r)[path[0]].ref;
    if next.Created? {
      DependsDoubles(after, r, path, x', k');
      StuckAmongAdded(after, next, path[1..]);
    } else {
      assert SameProperty(s, after, r, path[0]);
      if !(r == x' && path[0] == k' && Doubles(path[1..])) {
        DependedBefore(s, after, next, path[1..], x, k, isLeaf, x', k');
      }
    }
  }

  lemma {:induction false} LandedBefore(s: Store, after: Store, r: Ref, path: seq<string>, x: Ref, k: string, isLeaf: bool)
    requires Ready(s) && Ready(after) && DocumentStays(s, after, x, k, isLeaf) && IsMapping(s, r) && !IsAdded(r) && path != []
    requires !IsAdded(Landing(after, r, path)) && |Rest(after, r, path)| == 1
    ensures Landing(s, r, path) == Landing(after, r, path) && Rest(s, r, path) == Rest(after, r, path)
    decreases |path|
  {
    if |path| > 1 {
      var next := Own(after, r)[path[0]].ref;
      if next.Created? {
        LandsAmongAdded(after, next, path[1..]);
      } else {
        assert SameProperty(s, after, r, path[0]);
        assert Rest(after, r, path) == Rest(after, next, path[1..]);
        LandedBefore(s, after, next, path[1..], x, k, isLeaf);
        assert Rest(s, r, path) == Rest(s, next, path[1..]);
      }
    }
  }

  lemma StillNotCutOff(s: Store, r: Ref, t: seq<string>, v: string, q: seq<string>, p: seq<string>)
    requires Ready(s) && IsMapping(s, r) && !IsAdded(r) && IsValid(t) && p != [] && q != []
    requires !GetsStuck(SetByPath(s, r, t, v).0, r, p) && !CutsOff(s, r, q, p)
    ensures !CutsOff(SetByPath(s, r, t, v).0, r, q, p)
  {
    var after, x, k, isLeaf := SetByPath(s, r, t, v).0, Landing(s, r, t), Rest(s, r, t)[0], |Rest(s, r, t)| == 1;
    WriteFailsIff(s, r, t, v);
    WriteStays(s, r, t, v);
    if CutsOff(after, r, q, p) {
      DependedBefore(s, after, r, p, x, k, isLeaf, Landing(after, r, q), Rest(after, r, q)[0]);
      LandedBefore(s, after, r, q, x, k, isLeaf);
    }
  }

  // ---------------------------------------------------------------------------------------------
  // All writes
  // ---------------------------------------------------------------------------------------------

  /** Every path is valid, none gets stuck, and none replaces what another depends on. */
  ghost predicate AllGoThrough(s: Store, r: Ref, paths: set<seq<string>>)
    requires [] !in paths
  {
    && (forall p :: p in paths ==> IsValid(p) && !GetsStuck(s, r, p))
    && forall p, q :: p in paths && q in paths && p != q ==> !CutsOff(s, r, q, p)
  }

  lemma GoThroughIsKept(s: Store, r: Ref, paths: set<seq<string>>, t: seq<string>, v: string)
    requires Ready(s) && IsMapping(s, r) && !IsAdded(r) && [] !in paths && AllGoThrough(s, r, paths) && t in paths
    ensures
      var (after, error) := SetByPath(s, r, t, v);
      error == None && Ready(after) && IsMapping(after, r) && AllGoThrough(after, r, paths - {t})
  {
    var after, x, k, isLeaf := SetByPath(s, r, t, v).0, Landing(s, r, t), Rest(s, r, t)[0], |Rest(s, r, t)| == 1;
    WriteFailsIff(s, r, t, v);
    WriteStays(s, r, t, v);
    forall p | p in paths - {t} ensures !GetsStuck(after, r, p) {
      assert !CutsOff(s, r, t, p);
      StillNotStuck(s, after, r, p, x, k, isLeaf);
    }
    forall p, q | p in paths - {t} && q in paths - {t} && p != q ensures !CutsOff(after, r, q, p) {
      StillNotCutOff(s, r, t, v, q, p);
    }
  }

  lemma {:induction false} AllSucceed(s: Store, r: Ref, writes: seq<Write>, paths: set<seq<string>>)
    requires Ready(s) && IsMapping(s, r) && !IsAdded(r) && [] !in paths && AllGoThrough(s, r, paths) && Selects(writes, paths)
    ensures Run(s, r, writes).1 == None
    decreases |writes|
  {
    if writes != [] {
      var first := writes[0];
      assert first in writes;
      GoThroughIsKept(s, r, paths, first.path, first.value);
      SelectsRest(writes, paths);
      AllSucceed(SetByPath(s, r, first.path, first.value).0, r, writes[1..], paths - {first.path});
    }
  }

  lemma {:induction false} LeafWriteReplaces(s: Store, r: Ref, path: seq<string>, v: string)
    requires IsValid(path) && |Rest(s, r, path)| == 1 && OwnEnters(s, Landing(s, r, path), Rest(s, r, path)[0])
    ensures SetByPath(s, r, path, v) == (Put(s, Landing(s, r, path), Rest(s, r, path)[0], Scalar(v)), None)
    decreases |path|
  {
    if |path| > 1 {
      var next := Own(s, r)[path[0]].ref;
      assert Rest(s, r, path) == Rest(s, next, path[1..]);
      LeafWriteReplaces(s, next, path[1..], v);
    }
  }

  lemma {:induction false} CutOffIsStuck(s: Store, r: Ref, path: seq<string>, x: Ref, k: string, v: string)
    requires IsMapping(s, r) && IsMapping(s, x) && path != [] && DependsOn(s, r, path, x, k)
    ensures GetsStuck(Put(s, x, k, Scalar(v)), r, path)
    decreases |path|
  {
    if r == x && path[0] == k {
      DependsDoubles(s, r, path, x, k);
    } else {
      CutOffIsStuck(s, Own(s, r)[path[0]].ref, path[1..], x, k, v);
    }
  }

  lemma {:induction false} DependsIsEntered(s: Store, r: Ref, path: seq<string>, x: Ref, k: string)
    requires IsMapping(s, r) && path != [] && DependsOn(s, r, path, x, k)
    ensures IsMapping(s, x) && OwnEnters(s, x, k)
    decreases |path|
  {
    if !(r == x && path[0] == k && Doubles(path[1..])) {
      DependsIsEntered(s, Own(s, r)[path[0]].ref, path[1..], x, k);
    }
  }

  lemma CutOffFails(s: Store, r: Ref, paths: set<seq<string>>, q: seq<string>, p: seq<string>)
    requires Ready(s) && IsMapping(s, r) && !IsAdded(r) && [] !in paths && p in paths && q in paths && p != q
    requires IsValid(p) && IsValid(q) && CutsOff(s, r, q, p)
    ensures exists writes :: Selects(writes, paths) && Run(s, r, writes).1.Some?
  {
    var x, k := Landing(s, r, q), Rest(s, r, q)[0];
    var two := [Write(q, ""), Write(p, "")];
    assert Selects(two, paths);
    assert two[1..] == [Write(p, "")];
    DependsIsEntered(s, r, p, x, k);
    LeafWriteReplaces(s, r, q, "");
    CutOffIsStuck(s, r, p, x, k, "");
    var after := Put(s, x, k, Scalar(""));
    WriteFailsIff(s, r, q, "");
    WriteFailsIff(after, r, p, "");
    assert Run(after, r, two[1..]).1.Some?;
  }

  lemma OneFails(s: Store, r: Ref, paths: set<seq<string>>, p: seq<string>)
    requires Ready(s) && IsMapping(s, r) && [] !in paths && p in paths && !(IsValid(p) && !GetsStuck(s, r, p))
    ensures exists writes :: Selects(writes, paths) && Run(s, r, writes).1.Some?
  {
    var one := [Write(p, "")];
    WriteFailsIff(s, r, p, "");
    assert Selects(one, paths) && Run(s, r, one).1.Some?;
  }

  /** An overlay succeeds, whatever the environment selects and in whatever order, exactly when all of its paths go through. */
  lemma RunSucceedsIff(s: Store, r: Ref, paths: set<seq<string>>)
    requires Ready(s) && IsMapping(s, r) && !IsAdded(r) && [] !in paths
    ensures (forall writes :: Selects(writes, paths) ==> Run(s, r, writes).1 == None) <==> AllGoThrough(s, r, paths)
  {
    if AllGoThrough(s, r, paths) {
      forall writes | Selects(writes, paths) ensures Run(s, r, writes).1 == None {
        AllSucceed(s, r, writes, paths);
      }
    } else if p :| p in paths && !(IsValid(p) && !GetsStuck(s, r, p)) {
      OneFails(s, r, paths, p);
    } else {
      var p, q :| p in paths && q in paths && p != q && CutsOff(s, r, q, p);
      CutOffFails(s, r, paths, q, p);
    }
  }

  /** In a document without `__proto__` keys that means: the paths are valid and none doubles `__proto__`. */
  lemma PlainDocumentGoesThrough(s: Store, r: Ref, paths: set<seq<string>>)
    requires Ready(s) && IsMapping(s, r) && !IsAdded(r) && [] !in paths && forall y: Ref :: PROTO !in Own(s, y)
    ensures AllGoThrough(s, r, paths) <==> forall p :: p in paths ==> IsValid(p) && !Doubles(p)
  {
    forall p | p in paths ensures GetsStuck(s, r, p) <==> Doubles(p) {
      StuckInPlainDocument(s, r, p);
    }
    forall p, q | p in paths && q in paths && CutsOff(s, r, q, p) ensures Doubles(p) {
      DependsDoubles(s, r, p, Landing(s, r, q), Rest(s, r, q)[0]);
      DoublesFromHere(p);
    }
  }
}
