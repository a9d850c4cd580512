/** The overlay of environment values on a configuration object: a deep copy, then writes at dotted paths, in place. */
module EnvOverlay {
  import opened Wrappers
  import opened Text
  import opened ConfigStore
  import opened ConfigOverlay
  import opened ConfigRun
  import opened ConfigFailure

  // ---------------------------------------------------------------------------------------------
  // The copy
  // ---------------------------------------------------------------------------------------------

  /** The objects of a loaded document: they refer to each other in any way, but not to `Object.prototype`, which has no keys. */
  ghost predicate IsHeap(s: Store) {
    && IsMapping(s, Prototype) && Clean(s)
    && (forall r :: r in s ==> r.Original? || r == Prototype)
    && forall r, k :: k in Own(s, r) && Own(s, r)[k].At? ==> Own(s, r)[k].ref.Original? && Own(s, r)[k].ref in s
  }

  function CopyValue(v: Value): Value {
    match v
    case Scalar(_) => v
    case At(r) => At(Copy(r))
  }

  function CopyObject(o: Object): Object {
    Object(o.isMapping, map k | k in o.own :: CopyValue(o.own[k]))
  }

  /** `structuredClone`: a copy of every object, with the sharing and the cycles of the originals. */
  function Clone(s: Store): Store {
    map r | r in s.Keys + (set q | q in s && q != Prototype :: Copy(q)) ::
      if r.Copy? && r.original in s && r.original != Prototype then CopyObject(s[r.original]) else if r in s then s[r] else Object(true, map[])
  }

  lemma CloneObjects(s: Store)
    requires IsHeap(s)
    ensures forall r :: r in s ==> r in Clone(s) && Clone(s)[r] == s[r]
    ensures forall r :: r in s && r != Prototype ==> Copy(r) in Clone(s) && Clone(s)[Copy(r)] == CopyObject(s[r])
    ensures forall r :: r in Clone(s) && r !in s ==> r.Copy? && r.original in s && r.original != Prototype
  {}

  lemma CloneIsSound(s: Store)
    requires IsHeap(s)
    ensures Sound(Clone(s)) && Clean(Clone(s)) && Detached(Clone(s))
    ensures forall r :: IsMapping(s, r) && r != Prototype ==> IsRoot(Clone(s), Copy(r))
  {
    CloneObjects(s);
    forall r, k | k in Own(Clone(s), r) && Own(Clone(s), r)[k].At?
      ensures Own(Clone(s), r)[k].ref.Original? || Own(Clone(s), r)[k].ref.Copy?
      ensures !r.Created? && (!r.Original? ==> Own(Clone(s), r)[k].ref.Copy?)
    {
      if r !in s {
        assert k in Own(s, r.original);
      } else {
        assert k in Own(s, r);
      }
    }
  }

  /** The copy answers every path as the original does. */
  lemma {:induction false} CloneAnswers(s: Store, v: Value, path: seq<string>)
    requires IsHeap(s) && (v.At? ==> v.ref in s && v.ref != Prototype)
    ensures AnswerOf(Clone(s), CopyValue(v), path) == AnswerOf(s, v, path)
    decreases |path|
  {
    CloneObjects(s);
    if path != [] && v.At? && path[0] in Own(s, v.ref) {
      assert path[0] in Own(Clone(s), Copy(v.ref));
      CloneAnswers(s, Own(s, v.ref)[path[0]], path[1..]);
    }
  }

  // ---------------------------------------------------------------------------------------------
  // The overlay
  // ---------------------------------------------------------------------------------------------

  /** An overlay entry: a dotted path, and the environment's value for its variable if it has one. */
  datatype Entry = Entry(path: string, value: Option<string>)

  function Writes(overlay: seq<Entry>): (writes: seq<Write>)
    ensures AllPaths(writes)
  {
    if overlay == [] then []
    else (if overlay[0].value.Some? then [Write(Split(overlay[0].path, '.'), overlay[0].value.value)] else []) + Writes(overlay[1..])
  }

  function Overlaid(s: Store, target: Ref, overlay: seq<Entry>): (Store, Option<Error>) {
    Run(Clone(s), Copy(target), Writes(overlay))
  }

  /** The objects that configuration values live in, changed in place. */
  class Heap {
    var store: Store

    constructor (s: Store)
      ensures store == s
    {
      store := s;
    }

    method SetByPath(target: Ref, path: string, value: string) returns (error: Option<Error>)
      modifies this
      ensures (store, error) == ConfigStore.SetByPath(old(store), target, Split(path, '.'), value)
    {
      var segments := Split(path, '.');
      var last := |segments| - 1;
      var current := target;
      for n := 0 to last
        invariant ConfigStore.SetByPath(old(store), target, segments, value) == ConfigStore.SetByPath(store, current, segments[n..], value)
      {
        var segment := segments[n];
        assert segments[n..][1..] == segments[n + 1..];
        if Enters(store, current, segment) {
          current := Get(store, current, segment).value.ref;
        } else if IsAccessor(store, current, segment) {
          return Some(ImmutablePrototype);
        } else {
          store := Create(store, current, segment);
          current := Created(current, segment);
        }
      }
      var leaf := segments[last];
      if leaf == "" {
        return Some(InvalidPath);
      }
      if !IsAccessor(store, current, leaf) {
        store := Put(store, current, leaf, Scalar(value));
      }
      error := None;
    }

    /** Returns the changed copy of the target, or the error that ended the overlay. */
    method Apply(target: Ref, overlay: seq<Entry>) returns (result: Result<Ref, Error>)
      modifies this
      ensures
        var (after, error) := Overlaid(old(store), target, overlay);
        store == after && result == if error.Some? then Err(error.value) else Ok(Copy(target))
    {
      store := Clone(store);
      for n := 0 to |overlay|
        invariant Run(Clone(old(store)), Copy(target), Writes(overlay)) == Run(store, Copy(target), Writes(overlay[n..]))
      {
        assert overlay[n..][1..] == overlay[n + 1..];
        if overlay[n].value == None {
          assert Writes(overlay[n..]) == Writes(overlay[n + 1..]);
          continue;
        }
        assert Writes(overlay[n..])[1..] == Writes(overlay[n + 1..]);
        var error := SetByPath(Copy(target), overlay[n].path, overlay[n].value.value);
        if error.Some? {
          return Err(error.value);
        }
      }
      result := Ok(Copy(target));
    }
  }

  // ---------------------------------------------------------------------------------------------
  // The target itself
  // ---------------------------------------------------------------------------------------------

  /** Nothing that the overlay can reach refers to an original. */
  ghost predicate Detached(s: Store) {
    forall r: Ref, k: string :: !r.Original? && k in Own(s, r) && Own(s, r)[k].At? ==> !Own(s, r)[k].ref.Original?
  }

  ghost predicate OriginalsStay(s: Store, after: Store) {
    forall r: Ref :: r.Original? ==> (r in after <==> r in s) && (r in s ==> after[r] == s[r])
  }

  lemma PutDetached(s: Store, r: Ref, k: string, v: Value)
    requires Detached(s) && !r.Original? && (v.At? ==> !v.ref.Original?)
    ensures Detached(Put(s, r, k, v)) && OriginalsStay(s, Put(s, r, k, v))
  {
    var put := Put(s, r, k, v);
    forall y: Ref, j: string | !y.Original? && j in Own(put, y) && Own(put, y)[j].At? ensures !Own(put, y)[j].ref.Original? {
      if y != r || j != k {
        assert j in Own(s, y) && Own(s, y)[j] == Own(put, y)[j];
      }
    }
  }

  lemma CreateDetached(s: Store, r: Ref, k: string)
    requires Detached(s) && !r.Original?
    ensures Detached(Create(s, r, k)) && OriginalsStay(s, Create(s, r, k))
  {
    var put := Put(s, r, k, At(Created(r, k)));
    PutDetached(s, r, k, At(Created(r, k)));
    forall y: Ref, j: string | j in Own(Create(s, r, k), y) ensures j in Own(put, y) && Own(Create(s, r, k), y)[j] == Own(put, y)[j] {}
  }

  lemma {:induction false} WriteLeavesOriginals(s: Store, r: Ref, path: seq<string>, v: string)
    requires Detached(s) && !r.Original? && path != []
    ensures Detached(SetByPath(s, r, path, v).0) && OriginalsStay(s, SetByPath(s, r, path, v).0)
    decreases |path|
  {
    if |path| == 1 {
      PutDetached(s, r, path[0], Scalar(v));
    } else if Enters(s, r, path[0]) {
      WriteLeavesOriginals(s, Get(s, r, path[0]).value.ref, path[1..], v);
    } else if !IsAccessor(s, r, path[0]) {
      CreateDetached(s, r, path[0]);
      WriteLeavesOriginals(Create(s, r, path[0]), Created(r, path[0]), path[1..], v);
    }
  }

  lemma {:induction false} RunLeavesOriginals(s: Store, r: Ref, writes: seq<Write>)
    requires Detached(s) && !r.Original? && AllPaths(writes)
    ensures OriginalsStay(s, Run(s, r, writes).0)
    decreases |writes|
  {
    if writes != [] {
      WriteLeavesOriginals(s, r, writes[0].path, writes[0].value);
      RunLeavesOriginals(SetByPath(s, r, writes[0].path, writes[0].value).0, r, writes[1..]);
    }
  }

  /** The caller's objects are never changed, whatever the overlay, even when it fails. */
  lemma ApplyLeavesTarget(s: Store, target: Ref, overlay: seq<Entry>)
    requires IsHeap(s)
    ensures OriginalsStay(s, Overlaid(s, target, overlay).0)
  {
    CloneObjects(s);
    CloneIsSound(s);
    RunLeavesOriginals(Clone(s), Copy(target), Writes(overlay));
  }

  // ---------------------------------------------------------------------------------------------
  // When it does what it says
  // ---------------------------------------------------------------------------------------------

  lemma CopyOwn(s: Store, r: Ref, k: string)
    requires IsHeap(s) && r in s && r != Prototype
    ensures k in Own(Clone(s), Copy(r)) <==> k in Own(s, r)
    ensures k in Own(s, r) ==> Own(Clone(s), Copy(r))[k] == CopyValue(Own(s, r)[k])
    ensures OwnEnters(Clone(s), Copy(r), k) <==> OwnEnters(s, r, k)
    ensures k in Own(s, r) && Own(s, r)[k].At? ==> Own(s, r)[k].ref in s && Own(s, r)[k].ref != Prototype
  {
    CloneObjects(s);
  }

  lemma {:induction false} CopyWalk(s: Store, r: Ref, path: seq<string>)
    requires IsHeap(s) && r in s && r != Prototype && path != []
    ensures Depth(Clone(s), Copy(r), path) == Depth(s, r, path) && Landing(Clone(s), Copy(r), path) == Copy(Landing(s, r, path))
    ensures Landing(s, r, path) in s && Landing(s, r, path) != Prototype
    ensures Safe(Clone(s), Copy(r), path) <==> Safe(s, r, path)
    decreases |path|
  {
    CopyOwn(s, r, path[0]);
    if |path| > 1 && OwnEnters(s, r, path[0]) {
      CopyWalk(s, Own(s, r)[path[0]].ref, path[1..]);
    }
  }

  lemma {:induction false} CopyLeads(s: Store, r: Ref, path: seq<string>, x: Ref, k: string)
    requires IsHeap(s) && r in s && r != Prototype
    ensures Leads(Clone(s), Copy(r), path, Copy(x), k) <==> Leads(s, r, path, x, k)
    decreases |path|
  {
    if path != [] {
      CopyOwn(s, r, path[0]);
      if path[0] in Own(s, r) && Own(s, r)[path[0]].At? {
        CopyLeads(s, Own(s, r)[path[0]].ref, path[1..], x, k);
      }
    }
  }

  lemma {:induction false} CopyOnlyAlong(s: Store, from: Value, path: seq<string>)
    requires IsHeap(s) && (from.At? ==> from.ref in s && from.ref != Prototype)
    ensures OnlyAlong(Clone(s), CopyValue(from), path) <==> OnlyAlong(s, from, path)
    decreases |path|
  {
    if from.At? && path != [] {
      CloneObjects(s);
      forall k | k in Own(s, from.ref)
        ensures k in Own(Clone(s), Copy(from.ref))
        ensures OnlyAlong(Clone(s), Own(Clone(s), Copy(from.ref))[k], path[1..]) <==> OnlyAlong(s, Own(s, from.ref)[k], path[1..])
      {
        CopyOwn(s, from.ref, k);
        CopyOnlyAlong(s, Own(s, from.ref)[k], path[1..]);
      }
    }
  }

  /** The condition can be checked on the target itself. */
  lemma CopyIsLocal(s: Store, r: Ref, path: seq<string>)
    requires IsHeap(s) && r in s && r != Prototype && path != []
    ensures IsLocal(Clone(s), Copy(r), path) <==> IsLocal(s, r, path)
  {
    var x, rest := Landing(s, r, path), Rest(s, r, path);
    CopyWalk(s, r, path);
    forall q ensures Leads(Clone(s), Copy(r), q, Copy(x), rest[0]) <==> Leads(s, r, q, x, rest[0]) {
      CopyLeads(s, r, q, x, rest[0]);
    }
    CopyOwn(s, x, rest[0]);
    if rest[0] in Own(s, x) {
      CopyOnlyAlong(s, Own(s, x)[rest[0]], rest[1..]);
    }
  }

  /** The entries of an overlay record with these keys, in any order, with whatever the environment holds. */
  ghost predicate Over(overlay: seq<Entry>, texts: set<string>) {
    && (forall e :: e in overlay ==> e.path in texts)
    && forall i, j :: 0 <= i < j < |overlay| ==> overlay[i].path != overlay[j].path
  }

  function Paths(texts: set<string>): set<seq<string>> {
    set t | t in texts :: Split(t, '.')
  }

  ghost predicate BesideAll(overlay: seq<Entry>, q: seq<string>) {
    forall e :: e in overlay && e.value.Some? ==> !Comparable(Split(e.path, '.'), q)
  }

  /** The result holds every value at its path and answers every other path as the target did. */
  ghost predicate AppliesLikeATree(s: Store, target: Ref, overlay: seq<Entry>) {
    var (after, error) := Overlaid(s, target, overlay);
    && error == None && Clean(after)
    && (forall e :: e in overlay && e.value.Some? ==> AnswerAt(after, Copy(target), Split(e.path, '.')) == Said(e.value.value))
    && forall q :: BesideAll(overlay, q) ==> AnswerAt(after, Copy(target), q) == AnswerAt(s, target, q)
  }

  lemma {:induction false} EntryIsWritten(overlay: seq<Entry>, e: Entry)
    requires e in overlay && e.value.Some?
    ensures Write(Split(e.path, '.'), e.value.value) in Writes(overlay)
    decreases |overlay|
  {
    if e != overlay[0] {
      EntryIsWritten(overlay[1..], e);
    }
  }

  lemma {:induction false} WrittenIsEntry(overlay: seq<Entry>, w: Write) returns (i: nat)
    requires w in Writes(overlay)
    ensures i < |overlay| && overlay[i].value.Some? && w == Write(Split(overlay[i].path, '.'), overlay[i].value.value)
    decreases |overlay|
  {
    if overlay[0].value.Some? && w == Write(Split(overlay[0].path, '.'), overlay[0].value.value) {
      i := 0;
    } else {
      i := WrittenIsEntry(overlay[1..], w);
      i := i + 1;
    }
  }

  lemma {:induction false} WritesSelect(overlay: seq<Entry>, texts: set<string>)
    requires Over(overlay, texts)
    ensures Selects(Writes(overlay), Paths(texts))
    decreases |overlay|
  {
    if overlay != [] {
      var first, rest := overlay[0], overlay[1..];
      assert forall i :: 0 <= i < |rest| ==> rest[i] == overlay[i + 1];
      WritesSelect(rest, texts);
      assert first in overlay;
      if first.value.Some? {
        forall w | w in Writes(rest) ensures w.path != Split(first.path, '.') {
          var i := WrittenIsEntry(rest, w);
          JoinInvertsSplit(first.path, '.');
          JoinInvertsSplit(rest[i].path, '.');
        }
      }
    }
  }

  /** The entries that make these writes. */
  function Entries(writes: seq<Write>): (entries: seq<Entry>)
    requires AllPaths(writes)
    ensures |entries| == |writes|
    ensures forall n :: 0 <= n < |writes| ==> entries[n] == Entry(Join(writes[n].path, '.'), Some(writes[n].value))
  {
    if writes == [] then [] else [Entry(Join(writes[0].path, '.'), Some(writes[0].value))] + Entries(writes[1..])
  }

  lemma EntriesAreOver(writes: seq<Write>, texts: set<string>)
    requires Selects(writes, Paths(texts))
    ensures Over(Entries(writes), texts)
    ensures forall n :: 0 <= n < |writes| ==> Split(Entries(writes)[n].path, '.') == writes[n].path
  {
    var entries := Entries(writes);
    forall n | 0 <= n < |writes| ensures entries[n].path in texts && Split(entries[n].path, '.') == writes[n].path {
      assert writes[n] in writes;
      var t :| t in texts && Split(t, '.') == writes[n].path;
      JoinInvertsSplit(t, '.');
    }
  }

  lemma {:induction false} EntriesWrite(writes: seq<Write>)
    requires AllPaths(writes) && forall n :: 0 <= n < |writes| ==> Split(Entries(writes)[n].path, '.') == writes[n].path
    ensures Writes(Entries(writes)) == writes
    decreases |writes|
  {
    if writes != [] {
      var rest := writes[1..];
      assert forall n :: 0 <= n < |rest| ==> Entries(rest)[n] == Entries(writes)[n + 1];
      EntriesWrite(rest);
      assert Entries(writes)[1..] == Entries(rest);
    }
  }

  lemma LikeATreeIff(s: Store, target: Ref, overlay: seq<Entry>)
    requires IsHeap(s) && IsMapping(s, target) && target != Prototype
    ensures AppliesLikeATree(s, target, overlay) <==> RunsLikeATree(Clone(s), Copy(target), Writes(overlay))
  {
    var writes, after := Writes(overlay), Overlaid(s, target, overlay).0;
    forall q ensures AnswerAt(Clone(s), Copy(target), q) == AnswerAt(s, target, q) {
      CloneAnswers(s, At(target), q);
    }
    forall e | e in overlay && e.value.Some? ensures Write(Split(e.path, '.'), e.value.value) in writes {
      EntryIsWritten(overlay, e);
    }
    forall w | w in writes ensures exists e :: e in overlay && e.value.Some? && w == Write(Split(e.path, '.'), e.value.value) {
      var i := WrittenIsEntry(overlay, w);
      assert overlay[i] in overlay;
    }
    forall q ensures BesideAll(overlay, q) <==> Beside(writes, q) {}
  }

  /**
   * Applying an overlay record gives the configuration that its keys and the environment's values describe, for every
   * environment and every order of the keys, exactly when the keys are valid paths, none is a prefix of another, and each
   * is local in the target.
   */
  lemma OverlayIff(s: Store, target: Ref, texts: set<string>)
    requires IsHeap(s) && IsMapping(s, target) && target != Prototype
    ensures (forall overlay :: Over(overlay, texts) ==> AppliesLikeATree(s, target, overlay)) <==>
            (PrefixFree(Paths(texts)) && forall t :: t in texts ==> IsValid(Split(t, '.')) && IsLocal(s, target, Split(t, '.')))
  {
    CloneIsSound(s);
    OverlayIsLocalIff(Clone(s), Copy(target), Paths(texts));
    forall t | t in texts ensures IsLocal(Clone(s), Copy(target), Split(t, '.')) <==> IsLocal(s, target, Split(t, '.')) {
      CopyIsLocal(s, target, Split(t, '.'));
    }
    forall overlay | Over(overlay, texts)
      ensures AppliesLikeATree(s, target, overlay) <==> RunsLikeATree(Clone(s), Copy(target), Writes(overlay))
      ensures Selects(Writes(overlay), Paths(texts))
    {
      LikeATreeIff(s, target, overlay);
      WritesSelect(overlay, texts);
    }
    forall writes | Selects(writes, Paths(texts)) ensures Over(Entries(writes), texts) && Writes(Entries(writes)) == writes {
      EntriesAreOver(writes, texts);
      EntriesWrite(writes);
    }
  }

  // ---------------------------------------------------------------------------------------------
  // When it succeeds
  // ---------------------------------------------------------------------------------------------

  lemma DocumentIsReady(s: Store)
    requires IsHeap(s)
    ensures Ready(s) && Ready(Clone(s))
  {
    CloneIsSound(s);
    CloneObjects(s);
    forall r: Ref | IsAdded(r) ensures Own(Clone(s), r) == map[] {}
  }

  lemma {:induction false} CopyGetsStuck(s: Store, r: Ref, path: seq<string>)
    requires IsHeap(s) && IsMapping(s, r) && r != Prototype && path != []
    ensures GetsStuck(Clone(s), Copy(r), path) <==> GetsStuck(s, r, path)
    decreases |path|
  {
    CopyOwn(s, r, path[0]);
    DocumentIsReady(s);
    CloneObjects(s);
    if |path| > 1 {
      if OwnEnters(s, r, path[0]) {
        CopyGetsStuck(s, Own(s, r)[path[0]].ref, path[1..]);
      } else if IsAccessor(s, r, path[0]) {
        StuckAmongAdded(s, Prototype, path[1..]);
        StuckAmongAdded(Clone(s), Prototype, path[1..]);
      }
    }
  }

  lemma {:induction false} CopyDependsOn(s: Store, r: Ref, path: seq<string>, x: Ref, k: string)
    requires IsHeap(s) && r in s && r != Prototype && path != []
    ensures DependsOn(Clone(s), Copy(r), path, Copy(x), k) <==> DependsOn(s, r, path, x, k)
    decreases |path|
  {
    CopyOwn(s, r, path[0]);
    if |path| > 1 && OwnEnters(s, r, path[0]) {
      CopyDependsOn(s, Own(s, r)[path[0]].ref, path[1..], x, k);
    }
  }

  lemma CopyGoesThrough(s: Store, target: Ref, paths: set<seq<string>>)
    requires IsHeap(s) && IsMapping(s, target) && target != Prototype && [] !in paths
    ensures AllGoThrough(Clone(s), Copy(target), paths) <==> AllGoThrough(s, target, paths)
  {
    forall p | p in paths ensures GetsStuck(Clone(s), Copy(target), p) <==> GetsStuck(s, target, p) {
      CopyGetsStuck(s, target, p);
    }
    forall p, q | p in paths && q in paths ensures CutsOff(Clone(s), Copy(target), q, p) <==> CutsOff(s, target, q, p) {
      CopyWalk(s, target, q);
      CopyDependsOn(s, target, p, Landing(s, target, q), Rest(s, target, q)[0]);
    }
  }

  /**
   * Applying an overlay record succeeds, for every environment and every order of the keys, exactly when the keys are valid
   * paths, none gets stuck at `Object.prototype` in the target, and none replaces a mapping that another one depends on.
   */
  lemma OverlaySucceedsIff(s: Store, target: Ref, texts: set<string>)
    requires IsHeap(s) && IsMapping(s, target) && target != Prototype
    ensures (forall overlay :: Over(overlay, texts) ==> Overlaid(s, target, overlay).1 == None) <==> AllGoThrough(s, target, Paths(texts))
  {
    CloneIsSound(s);
    DocumentIsReady(s);
    CopyGoesThrough(s, target, Paths(texts));
    RunSucceedsIff(Clone(s), Copy(target), Paths(texts));
    forall overlay | Over(overlay, texts) ensures Selects(Writes(overlay), Paths(texts)) {
      WritesSelect(overlay, texts);
    }
    forall writes | Selects(writes, Paths(texts)) ensures Over(Entries(writes), texts) && Writes(Entries(writes)) == writes {
      EntriesAreOver(writes, texts);
      EntriesWrite(writes);
    }
  }

  // ---------------------------------------------------------------------------------------------
  // Where it does not
  // ---------------------------------------------------------------------------------------------

  /** `a: &m {x: one}` and `b: *m`: one mapping under two keys. */
  const ROOT := Original(0)
  const SHARED := Original(1)

  function Aliased(): Store {
    map[
      Prototype := Object(true, map[]),
      ROOT := Object(true, map["a" := At(SHARED), "b" := At(SHARED)]),
      SHARED := Object(true, map["x" := Scalar("one")])
    ]
  }

  /** Writing `a.x` changes `b.x`, and of two writes the last one shows at both paths. */
  lemma SharingBreaksOverlays()
    ensures IsHeap(Aliased()) && IsRoot(Aliased(), ROOT) && !Comparable(["a", "x"], ["b", "x"])
    ensures
      var s := Aliased();
      var (one, _) := SetByPath(s, ROOT, ["a", "x"], "A");
      var (two, _) := SetByPath(one, ROOT, ["b", "x"], "B");
      && AnswerAt(s, ROOT, ["b", "x"]) == Said("one") && AnswerAt(one, ROOT, ["b", "x"]) == Said("A")
      && AnswerAt(two, ROOT, ["a", "x"]) == Said("B")
  {
    var s := Aliased();
    var a, b := ["a", "x"], ["b", "x"];
    assert a[1..] == ["x"] && b[1..] == ["x"] && ["x"][1..] == [] && a[0] != b[0];
    var one := SetByPath(s, ROOT, a, "A").0;
    assert one == Put(s, SHARED, "x", Scalar("A"));
    var two := SetByPath(one, ROOT, b, "B").0;
    assert two == Put(one, SHARED, "x", Scalar("B"));
  }

  /** Writing `__proto__.x` into an empty mapping makes `x` readable there, and in every mapping. */
  lemma PrototypeBreaksOverlays()
    ensures
      var s: Store := map[Prototype := Object(true, map[]), ROOT := Object(true, map[]), SHARED := Object(true, map[])];
      var (after, error) := SetByPath(s, ROOT, [PROTO, "x"], "A");
      && IsHeap(s) && error == None && !Clean(after)
      && Lookup(s, At(ROOT), ["x"]) == None
      && Lookup(after, At(ROOT), ["x"]) == Some(Scalar("A")) && Lookup(after, At(SHARED), ["x"]) == Some(Scalar("A"))
  {
    var s: Store := map[Prototype := Object(true, map[]), ROOT := Object(true, map[]), SHARED := Object(true, map[])];
    var p := [PROTO, "x"];
    assert p[1..] == ["x"] && ["x"][1..] == [] && |PROTO| != |"x"|;
    assert Get(s, ROOT, p[0]) == Some(At(Prototype));
    assert SetByPath(s, Prototype, p[1..], "A") == (Put(s, Prototype, "x", Scalar("A")), None);
    assert "x" in Own(SetByPath(s, ROOT, p, "A").0, Prototype);
  }
}
