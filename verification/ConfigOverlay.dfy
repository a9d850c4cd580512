/**
 * When a write at a path does what the path says: the value reads back there and every path beside it answers as before.
 * Sharing, cycles and `__proto__` break this; the conditions here say exactly when.
 */
module ConfigOverlay {
  import opened Wrappers
  import opened ConfigStore

  predicate IsPrefix(p: seq<string>, q: seq<string>) {
    |p| <= |q| && q[..|p|] == p
  }

  predicate Comparable(p: seq<string>, q: seq<string>) {
    IsPrefix(p, q) || IsPrefix(q, p)
  }

  /** A path that ends in a name. */
  predicate IsValid(path: seq<string>) {
    path != [] && path[|path| - 1] != ""
  }

  // ---------------------------------------------------------------------------------------------
  // The condition
  // ---------------------------------------------------------------------------------------------

  /** Nobody else can see the property that the write sets: only the path itself leads to the mapping that holds it. */
  ghost predicate Private(s: Store, r: Ref, path: seq<string>)
    requires path != []
  {
    forall q :: Leads(s, r, q, Landing(s, r, path), Rest(s, r, path)[0]) ==> q == path[..Depth(s, r, path)]
  }

  /** Whatever the value holds, it holds it along the path. */
  predicate OnlyAlong(s: Store, from: Value, path: seq<string>)
    decreases |path|
  {
    from.Scalar? || path == [] || forall k :: k in Own(s, from.ref) ==> k == path[0] && OnlyAlong(s, Own(s, from.ref)[k], path[1..])
  }

  /** No list with elements of its own makes way for a mapping. */
  predicate LosesNothing(s: Store, r: Ref, path: seq<string>)
    requires path != []
  {
    var x, rest := Landing(s, r, path), Rest(s, r, path);
    rest[0] in Own(s, x) ==> OnlyAlong(s, Own(s, x)[rest[0]], rest[1..])
  }

  ghost predicate IsLocal(s: Store, r: Ref, path: seq<string>)
    requires path != []
  {
    Safe(s, r, path) && Private(s, r, path) && LosesNothing(s, r, path)
  }

  /** The write succeeds, reads back and changes no path beside it. */
  ghost predicate WritesLikeATree(s: Store, r: Ref, path: seq<string>, v: string)
    requires path != []
  {
    var (after, error) := SetByPath(s, r, path, v);
    && error == None && Clean(after)
    && AnswerAt(after, r, path) == Said(v)
    && forall q :: !Comparable(path, q) ==> AnswerAt(after, r, q) == AnswerAt(s, r, q)
  }

  ghost predicate IsRoot(s: Store, r: Ref) {
    IsMapping(s, r) && r != Prototype && !r.Created?
  }

  // ---------------------------------------------------------------------------------------------
  // It is enough
  // ---------------------------------------------------------------------------------------------

  lemma {:induction false} LandingIsMapping(s: Store, r: Ref, path: seq<string>)
    requires IsMapping(s, r) && path != []
    ensures IsMapping(s, Landing(s, r, path))
    decreases |path|
  {
    if |path| > 1 && OwnEnters(s, r, path[0]) {
      LandingIsMapping(s, Own(s, r)[path[0]].ref, path[1..]);
    }
  }

  /** The walk takes the property, or ends at it. */
  predicate Touches(s: Store, r: Ref, path: seq<string>, x: Ref, k: string)
    requires path != []
    decreases |path|
  {
    (r == x && path[0] == k) || (|path| > 1 && OwnEnters(s, r, path[0]) && Touches(s, Own(s, r)[path[0]].ref, path[1..], x, k))
  }

  lemma {:induction false} TouchesItsLanding(s: Store, r: Ref, path: seq<string>)
    requires path != []
    ensures Touches(s, r, path, Landing(s, r, path), Rest(s, r, path)[0])
    decreases |path|
  {
    if |path| > 1 && OwnEnters(s, r, path[0]) {
      TouchesItsLanding(s, Own(s, r)[path[0]].ref, path[1..]);
    }
  }

  lemma {:induction false} FirstMeeting(s: Store, r: Ref, path: seq<string>, x: Ref, k: string) returns (i: nat)
    requires path != [] && Touches(s, r, path, x, k)
    ensures i <= Depth(s, r, path) && Leads(s, r, path[..i], x, k) && path[i] == k
    decreases |path|
  {
    if r == x && path[0] == k {
      i := 0;
    } else {
      i := FirstMeeting(s, Own(s, r)[path[0]].ref, path[1..], x, k);
      assert path[..i + 1][1..] == path[1..][..i];
      i := i + 1;
    }
  }

  /** A path that meets the property: what it answers before and after the write. */
  lemma {:induction false} MeetingReads(s: Store, r: Ref, q: seq<string>, i: nat, x: Ref, rest: seq<string>, v: string)
    requires rest != [] && i < |q| && Leads(s, r, q[..i], x, rest[0]) && q[i] == rest[0]
    ensures AnswerAfter(s, At(r), q, x, rest, v) == Below(rest[1..], v, q[i + 1..])
    ensures AnswerAt(s, r, q) == if rest[0] in Own(s, x) then AnswerOf(s, Own(s, x)[rest[0]], q[i + 1..]) else Nothing
    decreases i
  {
    if i > 0 {
      assert q[..i][1..] == q[1..][..i - 1];
      MeetingReads(s, Own(s, r)[q[0]].ref, q[1..], i - 1, x, rest, v);
      assert q[1..][i..] == q[i + 1..];
    }
  }

  /** A path either meets the property or does not notice the write. */
  lemma {:induction false} MeetsOrMisses(s: Store, r: Ref, q: seq<string>, x: Ref, rest: seq<string>, v: string) returns (i: nat)
    requires rest != []
    ensures i <= |q|
    ensures i < |q| ==> Leads(s, r, q[..i], x, rest[0]) && q[i] == rest[0]
    ensures i == |q| ==> AnswerAfter(s, At(r), q, x, rest, v) == AnswerAt(s, r, q)
    decreases |q|
  {
    i := |q|;
    if q != [] {
      if r == x && q[0] == rest[0] {
        i := 0;
      } else if q[0] in Own(s, r) && Own(s, r)[q[0]].At? {
        i := MeetsOrMisses(s, Own(s, r)[q[0]].ref, q[1..], x, rest, v);
        if i < |q| - 1 {
          assert q[..i + 1][1..] == q[1..][..i];
        }
        i := i + 1;
      }
    }
  }

  lemma {:induction false} BelowAnswers(rest: seq<string>, v: string, q: seq<string>)
    ensures Below(rest, v, rest) == Said(v)
    ensures !Comparable(rest, q) ==> Below(rest, v, q) == Nothing
    decreases |rest|
  {
    if rest != [] {
      BelowAnswers(rest[1..], v, if q == [] then [] else q[1..]);
    }
  }

  lemma BesideAtOnce(p: seq<string>, q: seq<string>)
    requires p != [] && q != [] && p[0] != q[0]
    ensures !Comparable(p, q)
  {
    if |p| <= |q| {
      assert q[..|p|][0] == q[0];
    }
    if |q| <= |p| {
      assert p[..|q|][0] == p[0];
    }
  }

  /** Holding nothing beside a path is answering nothing beside it. */
  lemma {:induction false} OnlyAlongIff(s: Store, from: Value, path: seq<string>)
    ensures OnlyAlong(s, from, path) <==> forall q :: !Comparable(path, q) ==> AnswerOf(s, from, q) == Nothing
    decreases |path|
  {
    if from.At? && path != [] {
      var own := Own(s, from.ref);
      forall k | k in own ensures OnlyAlong(s, own[k], path[1..]) <==> forall q :: !Comparable(path[1..], q) ==> AnswerOf(s, own[k], q) == Nothing {
        OnlyAlongIff(s, own[k], path[1..]);
      }
      if OnlyAlong(s, from, path) {
        forall q | !Comparable(path, q) ensures AnswerOf(s, from, q) == Nothing {
          if q[0] in own {
            assert !Comparable(path[1..], q[1..]);
          }
        }
      } else {
        var k :| k in own && !(k == path[0] && OnlyAlong(s, own[k], path[1..]));
        if k != path[0] {
          assert [k][1..] == [];
          BesideAtOnce(path, [k]);
          assert AnswerOf(s, from, [k]) != Nothing;
        } else {
          var q :| !Comparable(path[1..], q) && AnswerOf(s, own[k], q) != Nothing;
          assert ([k] + q)[1..] == q;
          assert AnswerOf(s, from, [k] + q) != Nothing && !Comparable(path, [k] + q);
        }
      }
    }
  }

  lemma BesideBelow(p: seq<string>, q: seq<string>, d: nat)
    requires d < |p| && d < |q| && p[..d] == q[..d] && p[d] == q[d]
    ensures Comparable(p, q) <==> Comparable(p[d + 1..], q[d + 1..])
  {
    if Comparable(p[d + 1..], q[d + 1..]) {
      assert p == p[..d] + [p[d]] + p[d + 1..] && q == q[..d] + [q[d]] + q[d + 1..];
    }
  }

  /** A path beside the written one answers as before, whether or not it meets the property. */
  lemma BesideStays(s: Store, r: Ref, path: seq<string>, q: seq<string>, v: string)
    requires path != [] && Private(s, r, path) && LosesNothing(s, r, path) && !Comparable(path, q)
    ensures AnswerAfter(s, At(r), q, Landing(s, r, path), Rest(s, r, path), v) == AnswerAt(s, r, q)
  {
    var x, rest, d := Landing(s, r, path), Rest(s, r, path), Depth(s, r, path);
    var i := MeetsOrMisses(s, r, q, x, rest, v);
    if i < |q| {
      assert |q[..i]| == |path[..d]|;
      BesideBelow(path, q, d);
      MeetingReads(s, r, q, d, x, rest, v);
      BelowAnswers(rest[1..], v, q[d + 1..]);
      if rest[0] in Own(s, x) {
        OnlyAlongIff(s, Own(s, x)[rest[0]], rest[1..]);
      }
    }
  }

  /** Where the walk meets the property for the first time: at its end. */
  lemma MeetsAtEnd(s: Store, r: Ref, path: seq<string>)
    requires path != [] && Private(s, r, path)
    ensures Leads(s, r, path[..Depth(s, r, path)], Landing(s, r, path), Rest(s, r, path)[0])
  {
    TouchesItsLanding(s, r, path);
    var i := FirstMeeting(s, r, path, Landing(s, r, path), Rest(s, r, path)[0]);
    assert |path[..i]| == |path[..Depth(s, r, path)]|;
  }

  lemma LocalWrites(s: Store, r: Ref, path: seq<string>, v: string)
    requires Sound(s) && Clean(s) && IsRoot(s, r) && IsValid(path) && IsLocal(s, r, path)
    ensures WritesLikeATree(s, r, path, v)
  {
    var x, rest, d := Landing(s, r, path), Rest(s, r, path), Depth(s, r, path);
    SafeWriteGrows(s, r, path, v);
    LandingIsMapping(s, r, path);
    GrowKeepsSound(s, x, rest, v);
    MeetsAtEnd(s, r, path);
    MeetingReads(s, r, path, d, x, rest, v);
    BelowAnswers(rest[1..], v, []);
    AnswerLaw(s, At(r), path, x, rest, v);
    forall q | !Comparable(path, q) ensures AnswerAt(Grow(s, x, rest, v), r, q) == AnswerAt(s, r, q) {
      AnswerLaw(s, At(r), q, x, rest, v);
      BesideStays(s, r, path, q, v);
    }
  }

  // ---------------------------------------------------------------------------------------------
  // It is necessary: through the accessor
  // ---------------------------------------------------------------------------------------------

  lemma {:induction false} PrototypeKeysStay(s: Store, r: Ref, path: seq<string>, v: string)
    requires path != []
    ensures Own(s, Prototype).Keys <= Own(SetByPath(s, r, path, v).0, Prototype).Keys
    decreases |path|
  {
    if |path| > 1 {
      if Enters(s, r, path[0]) {
        PrototypeKeysStay(s, Get(s, r, path[0]).value.ref, path[1..], v);
      } else if !IsAccessor(s, r, path[0]) {
        PrototypeKeysStay(Create(s, r, path[0]), Created(r, path[0]), path[1..], v);
      }
    }
  }

  /** A walk that has gone to `Object.prototype` fails, or puts a key there, or does nothing at all. */
  lemma FromPrototype(s: Store, path: seq<string>, v: string)
    requires Clean(s) && IsMapping(s, Prototype) && IsValid(path)
    ensures
      var (after, error) := SetByPath(s, Prototype, path, v);
      error.Some? || !Clean(after) || after == s
  {
    if |path| > 1 && path[0] != PROTO {
      var created := Create(s, Prototype, path[0]);
      assert path[0] in Own(created, Prototype);
      PrototypeKeysStay(created, Created(Prototype, path[0]), path[1..], v);
    }
  }

  /** Mappings that a walk can enter are where they were, except where the write landed and below. */
  ghost predicate EntrancesStay(s: Store, after: Store, x: Ref, k: string) {
    forall y, j :: OwnEnters(s, y, j) && !Under(y, x, k) ==> j in Own(after, y) && Own(after, y)[j] == Own(s, y)[j]
  }

  lemma {:induction false} LandsNoHigher(s: Store, r: Ref, path: seq<string>)
    requires Sound(s) && path != []
    ensures !Under(r, Landing(s, r, path), Rest(s, r, path)[0])
    ensures r.Created? ==> Size(Landing(s, r, path)) >= Size(r)
    decreases |path|
  {
    if |path| > 1 && OwnEnters(s, r, path[0]) {
      LandsNoHigher(s, Own(s, r)[path[0]].ref, path[1..]);
    }
    if Under(r, Landing(s, r, path), Rest(s, r, path)[0]) {
      UnderIsDeeper(r, Landing(s, r, path), Rest(s, r, path)[0]);
    }
  }

  lemma {:induction false} UnsafeFails(s: Store, r: Ref, path: seq<string>, v: string)
    requires Sound(s) && Clean(s) && r != Prototype && IsMapping(s, r) && IsValid(path) && !Safe(s, r, path)
    ensures
      var (after, error) := SetByPath(s, r, path, v);
      || error.Some? || !Clean(after)
      || (EntrancesStay(s, after, Landing(s, r, path), Rest(s, r, path)[0]) && AnswerAt(after, r, path) == Nothing)
    decreases |path|
  {
    LandsNoHigher(s, r, path);
    if IsAccessor(s, r, path[0]) {
      if |path| > 1 {
        FromPrototype(s, path[1..], v);
      }
    } else if OwnEnters(s, r, path[0]) {
      UnsafeFails(s, Own(s, r)[path[0]].ref, path[1..], v);
    } else {
      var created, f := Create(s, r, path[0]), Created(r, path[0]);
      CreateKeepsSound(s, r, path[0]);
      UnsafeFails(created, f, path[1..], v);
      LandsNoHigher(created, f, path[1..]);
      var after := SetByPath(s, r, path, v).0;
      if EntrancesStay(created, after, f, path[1]) {
        StayBelow(s, r, path[0], after, path[1]);
      }
    }
  }

  lemma StayBelow(s: Store, r: Ref, k: string, after: Store, k': string)
    requires !OwnEnters(s, r, k) && EntrancesStay(Create(s, r, k), after, Created(r, k), k')
    ensures EntrancesStay(s, after, r, k) && k in Own(after, r) && Own(after, r)[k] == At(Created(r, k))
  {
    var created, f := Create(s, r, k), Created(r, k);
    if Under(r, f, k') {
      UnderIsDeeper(r, f, k');
    }
    assert OwnEnters(created, r, k);
    forall y, j | OwnEnters(s, y, j) && !Under(y, r, k) ensures j in Own(after, y) && Own(after, y)[j] == Own(s, y)[j] {
      if Under(y, f, k') {
        UnderUnder(y, r, k, k');
      }
      assert y != f;
      assert OwnEnters(created, y, j) && Own(created, y)[j] == Own(s, y)[j];
    }
  }

  // ---------------------------------------------------------------------------------------------
  // It is necessary: through a second path
  // ---------------------------------------------------------------------------------------------

  lemma {:induction false} BelowSays(rest: seq<string>, v: string, q: seq<string>)
    requires Below(rest, v, q).Said?
    ensures q == rest
    decreases |rest|
  {
    if rest != [] {
      BelowSays(rest[1..], v, q[1..]);
    }
  }

  lemma {:induction false} LeadsOnce(s: Store, r: Ref, q: seq<string>, d: nat, x: Ref, k: string)
    requires Leads(s, r, q, x, k) && d < |q| && Leads(s, r, q[..d], x, k)
    ensures q[d] != k
    decreases d
  {
    if d > 0 {
      assert q[..d][1..] == q[1..][..d - 1];
      LeadsOnce(s, Own(s, r)[q[0]].ref, q[1..], d - 1, x, k);
    }
  }

  lemma {:induction false} CreatesWhereNothingIsEntered(s: Store, r: Ref, path: seq<string>)
    requires path != [] && |Rest(s, r, path)| > 1
    ensures !OwnEnters(s, Landing(s, r, path), Rest(s, r, path)[0])
    decreases |path|
  {
    if OwnEnters(s, r, path[0]) {
      CreatesWhereNothingIsEntered(s, Own(s, r)[path[0]].ref, path[1..]);
    }
  }

  /** A value that reads back was written where the walk first meets the property. */
  lemma MeetsOnlyAtEnd(s: Store, r: Ref, path: seq<string>, i: nat, v: string)
    requires Sound(s) && Clean(s) && IsRoot(s, r) && IsValid(path) && Safe(s, r, path) && WritesLikeATree(s, r, path, v)
    requires i < |path| && Leads(s, r, path[..i], Landing(s, r, path), Rest(s, r, path)[0]) && path[i] == Rest(s, r, path)[0]
    ensures i == Depth(s, r, path)
  {
    var x, rest := Landing(s, r, path), Rest(s, r, path);
    SafeWriteGrows(s, r, path, v);
    LandingIsMapping(s, r, path);
    AnswerLaw(s, At(r), path, x, rest, v);
    MeetingReads(s, r, path, i, x, rest, v);
    BelowSays(rest[1..], v, path[i + 1..]);
  }

  lemma ComparableAgree(p: seq<string>, q: seq<string>, i: nat)
    requires Comparable(p, q) && i < |p| && i < |q|
    ensures p[..i] == q[..i] && p[i] == q[i]
  {
    if IsPrefix(p, q) {
      assert q[..|p|][..i] == q[..i] && q[..|p|][i] == q[i];
    } else {
      assert p[..|q|][..i] == p[..i] && p[..|q|][i] == p[i];
    }
  }

  lemma SecondPathIsBeside(s: Store, r: Ref, path: seq<string>, d: nat, q: seq<string>, x: Ref)
    requires d < |path| && Leads(s, r, path[..d], x, path[d]) && Leads(s, r, q, x, path[d]) && q != path[..d]
    requires forall i :: 0 <= i < d && path[i] == path[d] ==> !Leads(s, r, path[..i], x, path[d])
    ensures !Comparable(path, q + [path[d]])
  {
    var other, i := q + [path[d]], if |q| > d then d else |q|;
    if Comparable(path, other) {
      ComparableAgree(path, other, i);
      assert other[..i] == q[..i] && q[..|q|] == q;
      if |q| > d {
        LeadsOnce(s, r, q, d, x, path[d]);
      }
    }
  }

  lemma SecondPathAnswers(s: Store, r: Ref, path: seq<string>, q: seq<string>, v: string)
    requires Sound(s) && Clean(s) && IsRoot(s, r) && IsValid(path) && Safe(s, r, path)
    requires Leads(s, r, q, Landing(s, r, path), Rest(s, r, path)[0])
    ensures
      var x, rest, after := Landing(s, r, path), Rest(s, r, path), SetByPath(s, r, path, v).0;
      && AnswerAt(after, r, q + [rest[0]]) == (if |rest| == 1 then Said(v) else AMapping)
      && (|rest| > 1 ==> AnswerAt(s, r, q + [rest[0]]) != AMapping)
      && (AnswerAt(s, r, q + [rest[0]]) == if rest[0] in Own(s, x) then AnswerOf(s, Own(s, x)[rest[0]], []) else Nothing)
  {
    var x, rest := Landing(s, r, path), Rest(s, r, path);
    var other := q + [rest[0]];
    SafeWriteGrows(s, r, path, v);
    LandingIsMapping(s, r, path);
    AnswerLaw(s, At(r), other, x, rest, v);
    assert other[..|q|] == q && other[|q| + 1..] == [];
    MeetingReads(s, r, other, |q|, x, rest, v);
    if |rest| > 1 {
      CreatesWhereNothingIsEntered(s, r, path);
    }
  }

  lemma OnlyPrivateWrites(s: Store, r: Ref, path: seq<string>)
    requires Sound(s) && Clean(s) && IsRoot(s, r) && IsValid(path) && Safe(s, r, path)
    requires forall v :: WritesLikeATree(s, r, path, v)
    ensures Private(s, r, path)
    ensures Leads(s, r, path[..Depth(s, r, path)], Landing(s, r, path), Rest(s, r, path)[0])
  {
    var x, k, d := Landing(s, r, path), Rest(s, r, path)[0], Depth(s, r, path);
    var v := if k in Own(s, x) && Own(s, x)[k] == Scalar("") then "a" else "";
    assert WritesLikeATree(s, r, path, v);
    TouchesItsLanding(s, r, path);
    var first := FirstMeeting(s, r, path, x, k);
    MeetsOnlyAtEnd(s, r, path, first, v);
    forall q | Leads(s, r, q, x, k) && q != path[..d] ensures false {
      forall i | 0 <= i < d && path[i] == k && Leads(s, r, path[..i], x, k) ensures false {
        MeetsOnlyAtEnd(s, r, path, i, v);
      }
      SecondPathIsBeside(s, r, path, d, q, x);
      SecondPathAnswers(s, r, path, q, v);
    }
  }

  lemma OnlyLosingNothingWrites(s: Store, r: Ref, path: seq<string>, v: string)
    requires Sound(s) && Clean(s) && IsRoot(s, r) && IsValid(path) && Safe(s, r, path)
    requires WritesLikeATree(s, r, path, v)
    requires Leads(s, r, path[..Depth(s, r, path)], Landing(s, r, path), Rest(s, r, path)[0])
    ensures LosesNothing(s, r, path)
  {
    var x, rest, d := Landing(s, r, path), Rest(s, r, path), Depth(s, r, path);
    SafeWriteGrows(s, r, path, v);
    LandingIsMapping(s, r, path);
    if rest[0] in Own(s, x) {
      forall q | !Comparable(rest[1..], q) ensures AnswerOf(s, Own(s, x)[rest[0]], q) == Nothing {
        var other := path[..d + 1] + q;
        assert other[..d] == path[..d] && other[d] == path[d] && other[d + 1..] == q;
        BesideBelow(path, other, d);
        AnswerLaw(s, At(r), other, x, rest, v);
        MeetingReads(s, r, other, d, x, rest, v);
        BelowAnswers(rest[1..], v, q);
      }
      OnlyAlongIff(s, Own(s, x)[rest[0]], rest[1..]);
    }
  }

  /** A write at a path does what the path says, whatever the value, exactly when it is local. */
  lemma WriteIsLocalIff(s: Store, r: Ref, path: seq<string>)
    requires Sound(s) && Clean(s) && IsRoot(s, r) && IsValid(path)
    ensures (forall v :: WritesLikeATree(s, r, path, v)) <==> IsLocal(s, r, path)
  {
    if IsLocal(s, r, path) {
      forall v ensures WritesLikeATree(s, r, path, v) {
        LocalWrites(s, r, path, v);
      }
    } else if Safe(s, r, path) {
      if forall v :: WritesLikeATree(s, r, path, v) {
        OnlyPrivateWrites(s, r, path);
        OnlyLosingNothingWrites(s, r, path, "");
      }
    } else {
      UnsafeFails(s, r, path, "");
      assert !WritesLikeATree(s, r, path, "");
    }
  }
}
