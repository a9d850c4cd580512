/** When the order of an overlay's entries does not matter. */
module ConfigOrder {
  import opened Wrappers
  import opened ConfigStore
  import opened ConfigOverlay
  import opened ConfigRun
  import opened ConfigFailure

  // ---------------------------------------------------------------------------------------------
  // The condition
  // ---------------------------------------------------------------------------------------------

  /** The walk comes to object `x` with a path left over that is comparable with `rest`. */
  predicate Hits(s: Store, y: Ref, q: seq<string>, x: Ref, rest: seq<string>)
    requires q != []
    decreases |q|
  {
    (y == x && Comparable(q, rest)) || (|q| > 1 && OwnEnters(s, y, q[0]) && Hits(s, Own(s, y)[q[0]].ref, q[1..], x, rest))
  }

  /** Neither walk comes across what the other one sets. */
  predicate NoConflict(s: Store, r: Ref, p: seq<string>, q: seq<string>)
    requires p != [] && q != []
  {
    && !Hits(s, r, q, Landing(s, r, p), Rest(s, r, p))
    && !Hits(s, r, p, Landing(s, r, q), Rest(s, r, q))
  }

  /** A safe write that starts its walk at `y`. */
  function SetFrom(s: Store, y: Ref, q: seq<string>, v: string): Store
    requires q != []
  {
    Grow(s, Landing(s, y, q), Rest(s, y, q), v)
  }

  /** Here a write along `rest` begins to create or sets a value. */
  predicate LandsAt(s: Store, x: Ref, rest: seq<string>) {
    rest != [] && IsMapping(s, x) && (|rest| == 1 || !OwnEnters(s, x, rest[0]))
  }

  // ---------------------------------------------------------------------------------------------
  // Two properties
  // ---------------------------------------------------------------------------------------------

  predicate Apart(x: Ref, j: string, y: Ref, k: string) {
    !(x == y && j == k) && !Under(x, y, k) && !Under(y, x, j)
  }

  lemma PutsCommute(s: Store, x: Ref, j: string, v: Value, y: Ref, k: string, w: Value)
    requires !(x == y && j == k)
    ensures Put(Put(s, x, j, v), y, k, w) == Put(Put(s, y, k, w), x, j, v)
  {
    var one, other := Put(Put(s, x, j, v), y, k, w), Put(Put(s, y, k, w), x, j, v);
    assert one.Keys == other.Keys;
    forall z | z in one ensures one[z] == other[z] {
      assert one[z].own == other[z].own;
    }
  }

  lemma PutBeside(s: Store, f: Ref, o: Object, y: Ref, k: string, v: Value)
    requires y != f
    ensures Put(s[f := o], y, k, v) == Put(s, y, k, v)[f := o]
  {}

  lemma PutAndCreateCommute(s: Store, x: Ref, j: string, v: Value, y: Ref, k: string)
    requires Apart(x, j, y, k)
    ensures Put(Create(s, y, k), x, j, v) == Create(Put(s, x, j, v), y, k)
  {
    PutBeside(Put(s, y, k, At(Created(y, k))), Created(y, k), Object(true, map[]), x, j, v);
    PutsCommute(s, x, j, v, y, k, At(Created(y, k)));
  }

  lemma CreatesCommute(s: Store, x: Ref, j: string, y: Ref, k: string)
    requires Apart(x, j, y, k)
    ensures Create(Create(s, x, j), y, k) == Create(Create(s, y, k), x, j)
  {
    var f, g, empty := Created(x, j), Created(y, k), Object(true, map[]);
    PutBeside(Put(s, x, j, At(f)), f, empty, y, k, At(g));
    PutBeside(Put(s, y, k, At(g)), g, empty, x, j, At(f));
    PutsCommute(s, x, j, At(f), y, k, At(g));
  }

  lemma ApartBelow(x: Ref, j: string, j': string, y: Ref, k: string)
    requires Apart(x, j, y, k)
    ensures Apart(Created(x, j), j', y, k)
  {
    if Under(y, Created(x, j), j') {
      UnderUnder(y, x, j, j');
    }
  }

  lemma {:induction false} CreateAndGrowCommute(s: Store, x: Ref, j: string, y: Ref, rest: seq<string>, w: string)
    requires rest != [] && Apart(x, j, y, rest[0])
    ensures Grow(Create(s, x, j), y, rest, w) == Create(Grow(s, y, rest, w), x, j)
    decreases |rest|
  {
    if |rest| == 1 {
      PutAndCreateCommute(s, y, rest[0], Scalar(w), x, j);
    } else {
      CreatesCommute(s, x, j, y, rest[0]);
      ApartBelow(y, rest[0], rest[1], x, j);
      CreateAndGrowCommute(Create(s, y, rest[0]), x, j, Created(y, rest[0]), rest[1..], w);
    }
  }

  /** Writes that set different properties, neither below the other, commute. */
  lemma {:induction false} GrowsCommute(s: Store, x: Ref, p: seq<string>, v: string, y: Ref, q: seq<string>, w: string)
    requires p != [] && q != [] && Apart(x, p[0], y, q[0])
    ensures Grow(Grow(s, x, p, v), y, q, w) == Grow(Grow(s, y, q, w), x, p, v)
    decreases |p| + |q|, |q|
  {
    if |p| > 1 {
      ApartBelow(x, p[0], p[1], y, q[0]);
      GrowsCommute(Create(s, x, p[0]), Created(x, p[0]), p[1..], v, y, q, w);
      CreateAndGrowCommute(s, x, p[0], y, q, w);
    } else if |q| > 1 {
      GrowsCommute(s, y, q, w, x, p, v);
    } else {
      PutsCommute(s, x, p[0], Scalar(v), y, q[0], Scalar(w));
    }
  }

  // ---------------------------------------------------------------------------------------------
  // Two writes
  // ---------------------------------------------------------------------------------------------

  lemma {:induction false} LandsAtLanding(s: Store, r: Ref, q: seq<string>)
    requires IsMapping(s, r) && q != []
    ensures LandsAt(s, Landing(s, r, q), Rest(s, r, q))
    decreases |q|
  {
    if |q| > 1 && OwnEnters(s, r, q[0]) {
      LandsAtLanding(s, Own(s, r)[q[0]].ref, q[1..]);
      assert Rest(s, r, q) == Rest(s, Own(s, r)[q[0]].ref, q[1..]);
    }
  }

  /** A walk that comes to the property, but across nothing that is set, ends there to create another branch. */
  lemma {:induction false} TouchesBeside(s: Store, y: Ref, q: seq<string>, x: Ref, rest: seq<string>)
    requires LandsAt(s, x, rest) && q != [] && Touches(s, y, q, x, rest[0]) && !Hits(s, y, q, x, rest)
    ensures Landing(s, y, q) == x && Leads(s, y, q[..Depth(s, y, q)], x, rest[0]) && q[Depth(s, y, q)] == rest[0]
    ensures |rest| > 1 && |Rest(s, y, q)| > 1 && !Comparable(Rest(s, y, q), rest)
    decreases |q|
  {
    if !(y == x && q[0] == rest[0]) {
      var next := Own(s, y)[q[0]].ref;
      TouchesBeside(s, next, q[1..], x, rest);
      assert Rest(s, y, q) == Rest(s, next, q[1..]);
      assert q[..Depth(s, y, q)][1..] == q[1..][..Depth(s, y, q) - 1];
    } else if |q| == 1 || |rest| == 1 {
      ComparableAtOnce(q, rest);
    }
  }

  lemma ComparableAtOnce(p: seq<string>, q: seq<string>)
    requires p != [] && q != [] && p[0] == q[0] && (|p| == 1 || |q| == 1)
    ensures Comparable(p, q)
  {
    if |p| == 1 {
      assert q[..1] == p;
    } else {
      assert p[..1] == q;
    }
  }

  lemma NotUnderItself(x: Ref, k: string)
    ensures !Under(x, x, k)
  {
    if Under(x, x, k) {
      UnderIsDeeper(x, x, k);
    }
  }

  lemma LandsOnBeside(s: Store, x: Ref, rest: seq<string>, v: string, r: Ref, q: seq<string>, w: string)
    requires Sound(s) && IsRoot(s, r) && LandsAt(s, x, rest) && q != []
    requires Touches(s, r, q, x, rest[0]) && !Hits(s, r, q, x, rest)
    ensures SetFrom(Grow(s, x, rest, v), r, q, w) == SetFrom(Grow(s, x, rest, v), Landing(s, r, q), Rest(s, r, q), w)
  {
    var after, d := Grow(s, x, rest, v), Depth(s, r, q);
    TouchesBeside(s, r, q, x, rest);
    WalkGoesOn(s, x, rest, v, r, q, d);
    GrowMakesMapping(s, x, rest, v);
    assert Rest(s, r, q)[1..] == q[d + 1..];
    assert Landing(after, x, Rest(s, r, q)) == Landing(after, r, q);
    assert Rest(after, x, Rest(s, r, q)) == Rest(after, r, q);
  }

  lemma SafeBeside(s: Store, x: Ref, rest: seq<string>, v: string, r: Ref, q: seq<string>)
    requires Sound(s) && IsRoot(s, r) && LandsAt(s, x, rest) && q != []
    requires Touches(s, r, q, x, rest[0]) && !Hits(s, r, q, x, rest) && Safe(s, r, q)
    ensures Safe(Grow(s, x, rest, v), r, q)
  {
    var d := Depth(s, r, q);
    TouchesBeside(s, r, q, x, rest);
    WalkGoesOn(s, x, rest, v, r, q, d);
    SafeRest(s, r, q);
    assert Rest(s, r, q)[1..] == q[d + 1..];
    PlainIsSafe(Grow(s, x, rest, v), Created(x, rest[0]), q[d + 1..]);
  }

  /** After a write that it does not come across, a walk still comes to where it landed before, and goes on from there. */
  lemma LandsOn(s: Store, x: Ref, rest: seq<string>, v: string, r: Ref, q: seq<string>, w: string)
    requires Sound(s) && IsRoot(s, r) && LandsAt(s, x, rest) && q != [] && !Hits(s, r, q, x, rest)
    ensures SetFrom(Grow(s, x, rest, v), r, q, w) == SetFrom(Grow(s, x, rest, v), Landing(s, r, q), Rest(s, r, q), w)
    ensures Safe(s, r, q) ==> Safe(Grow(s, x, rest, v), r, q)
  {
    if Touches(s, r, q, x, rest[0]) {
      LandsOnBeside(s, x, rest, v, r, q, w);
      if Safe(s, r, q) {
        SafeBeside(s, x, rest, v, r, q);
      }
    } else {
      var after := Grow(s, x, rest, v);
      WalkStays(s, x, rest, v, r, q);
      GrowChangesOnly(s, x, rest, v);
      LandsAtLanding(after, r, q);
    }
  }

  /** Two branches of one property. */
  lemma {:induction false} BranchesCommute(s: Store, x: Ref, p: seq<string>, v: string, q: seq<string>, w: string)
    requires Sound(s) && LandsAt(s, x, p) && LandsAt(s, x, q) && !Comparable(p, q)
    ensures SetFrom(Grow(s, x, p, v), x, q, w) == SetFrom(Grow(s, x, q, w), x, p, v)
    decreases |p|
  {
    if p[0] == q[0] {
      if |p| == 1 || |q| == 1 {
        ComparableAtOnce(p, q);
      }
      var created, f := Create(s, x, p[0]), Created(x, p[0]);
      BranchBelow(s, x, p, v, q, w);
      BranchBelow(s, x, q, w, p, v);
      BesideBelow(p, q, 0);
      CreateKeepsSound(s, x, p[0]);
      BranchesCommute(created, f, p[1..], v, q[1..], w);
    } else {
      NotUnderItself(x, p[0]);
      NotUnderItself(x, q[0]);
      LandsAsBefore(s, x, p, v, x, q);
      LandsAsBefore(s, x, q, w, x, p);
      GrowsCommute(s, x, p, v, x, q, w);
    }
  }

  lemma BranchBelow(s: Store, x: Ref, p: seq<string>, v: string, q: seq<string>, w: string)
    requires |p| > 1 && |q| > 1 && p[0] == q[0]
    ensures SetFrom(Grow(s, x, p, v), x, q, w) == SetFrom(Grow(Create(s, x, p[0]), Created(x, p[0]), p[1..], v), Created(x, p[0]), q[1..], w)
  {
    GrowMakesMapping(s, x, p, v);
  }

  lemma SetAfterSet(s: Store, r: Ref, p: seq<string>, v: string, q: seq<string>, w: string)
    requires Sound(s) && Clean(s) && IsRoot(s, r) && IsValid(p) && IsValid(q) && Safe(s, r, p) && Safe(s, r, q)
    requires !Hits(s, r, q, Landing(s, r, p), Rest(s, r, p))
    ensures
      var next := SetByPath(s, r, p, v);
      && next == (SetFrom(s, r, p, v), None)
      && SetByPath(next.0, r, q, w) == (SetFrom(next.0, Landing(s, r, q), Rest(s, r, q), w), None)
  {
    AfterSafeWrite(s, r, p, v);
    LandsAtLanding(s, r, p);
    LandsOn(s, Landing(s, r, p), Rest(s, r, p), v, r, q, w);
    SafeWriteGrows(SetFrom(s, r, p, v), r, q, w);
  }

  lemma LandedSetsCommute(s: Store, r: Ref, p: seq<string>, v: string, q: seq<string>, w: string)
    requires Sound(s) && IsRoot(s, r) && p != [] && q != [] && NoConflict(s, r, p, q)
    ensures
      var x, y, a, b := Landing(s, r, p), Landing(s, r, q), Rest(s, r, p), Rest(s, r, q);
      SetFrom(Grow(s, x, a, v), y, b, w) == SetFrom(Grow(s, y, b, w), x, a, v)
  {
    var x, y, a, b := Landing(s, r, p), Landing(s, r, q), Rest(s, r, p), Rest(s, r, q);
    LandsAtLanding(s, r, p);
    LandsAtLanding(s, r, q);
    if x == y && a[0] == b[0] {
      if Comparable(a, b) {
        HitsAtLanding(s, r, q, a);
      }
      BranchesCommute(s, x, a, v, b, w);
    } else {
      LandingsApart(s, r, p, q);
      LandsAsBefore(s, x, a, v, y, b);
      LandsAsBefore(s, y, b, w, x, a);
      GrowsCommute(s, x, a, v, y, b, w);
    }
  }

  /** Writes without conflict commute: both orders leave the same store. */
  lemma WritesCommute(s: Store, r: Ref, p: seq<string>, v: string, q: seq<string>, w: string)
    requires Sound(s) && Clean(s) && IsRoot(s, r) && IsValid(p) && IsValid(q) && Safe(s, r, p) && Safe(s, r, q) && NoConflict(s, r, p, q)
    ensures
      var (one, other) := (SetByPath(s, r, p, v), SetByPath(s, r, q, w));
      && one.1 == None && other.1 == None
      && SetByPath(one.0, r, q, w) == SetByPath(other.0, r, p, v) && SetByPath(one.0, r, q, w).1 == None
  {
    SetAfterSet(s, r, p, v, q, w);
    SetAfterSet(s, r, q, w, p, v);
    LandedSetsCommute(s, r, p, v, q, w);
  }

  lemma {:induction false} HitsAtLanding(s: Store, r: Ref, q: seq<string>, rest: seq<string>)
    requires q != [] && Comparable(Rest(s, r, q), rest)
    ensures Hits(s, r, q, Landing(s, r, q), rest)
    decreases |q|
  {
    if |q| > 1 && OwnEnters(s, r, q[0]) {
      HitsAtLanding(s, Own(s, r)[q[0]].ref, q[1..], rest);
      assert Rest(s, r, q) == Rest(s, Own(s, r)[q[0]].ref, q[1..]);
    }
  }

  lemma LandsAsBefore(s: Store, x: Ref, rest: seq<string>, v: string, y: Ref, q: seq<string>)
    requires Sound(s) && IsMapping(s, x) && rest != [] && LandsAt(s, y, q) && !Under(y, x, rest[0]) && !(y == x && q[0] == rest[0])
    ensures Landing(Grow(s, x, rest, v), y, q) == y && Rest(Grow(s, x, rest, v), y, q) == q
  {
    EntersAsBefore(s, x, rest, v, y, q[0]);
  }

  lemma LandingsApart(s: Store, r: Ref, p: seq<string>, q: seq<string>)
    requires Sound(s) && IsRoot(s, r) && p != [] && q != [] && NoConflict(s, r, p, q)
    requires !(Landing(s, r, p) == Landing(s, r, q) && Rest(s, r, p)[0] == Rest(s, r, q)[0])
    ensures Apart(Landing(s, r, p), Rest(s, r, p)[0], Landing(s, r, q), Rest(s, r, q)[0])
  {
    LandingNotUnder(s, r, p, q);
    LandingNotUnder(s, r, q, p);
  }

  lemma LandingNotUnder(s: Store, r: Ref, p: seq<string>, q: seq<string>)
    requires Sound(s) && IsRoot(s, r) && p != [] && q != [] && !Hits(s, r, q, Landing(s, r, p), Rest(s, r, p))
    requires !(Landing(s, r, p) == Landing(s, r, q) && Rest(s, r, p)[0] == Rest(s, r, q)[0])
    ensures !Under(Landing(s, r, q), Landing(s, r, p), Rest(s, r, p)[0])
  {
    LandingIsMapping(s, r, p);
    LandsAtLanding(s, r, p);
    if Touches(s, r, q, Landing(s, r, p), Rest(s, r, p)[0]) {
      TouchesBeside(s, r, q, Landing(s, r, p), Rest(s, r, p));
    } else {
      WalkStays(s, Landing(s, r, p), Rest(s, r, p), "", r, q);
    }
  }

  // ---------------------------------------------------------------------------------------------
  // Conflicts show
  // ---------------------------------------------------------------------------------------------

  lemma ChangesBelow(s: Store, after: Store, x: Ref, k: string, k': string)
    requires IsMapping(s, x) && ChangesOnly(Create(s, x, k), after, Created(x, k), k')
    ensures ChangesOnly(s, after, x, k) && after[x] == Create(s, x, k)[x]
  {
    var f := Created(x, k);
    if Under(x, f, k') {
      UnderIsDeeper(x, f, k');
    }
    forall r | !Under(r, x, k) ensures !Under(r, f, k') {
      if Under(r, f, k') {
        UnderUnder(r, x, k, k');
      }
    }
    assert Own(after, x) - {k} == Own(s, x) - {k};
  }

  /** A write over the end of a chain, or past it, leaves its own chain and nothing else there. */
  lemma {:induction false} OverwritesChain(s: Store, x: Ref, rest: seq<string>, w: string, q: seq<string>, v: string, u: seq<string>)
    requires LandsAt(s, x, rest) && q != [] && Comparable(q, rest)
    ensures
      var after := SetFrom(Grow(s, x, rest, w), x, q, v);
      && q[0] == rest[0] && ChangesOnly(s, after, x, q[0])
      && q[0] in Own(after, x) && AnswerOf(after, Own(after, x)[q[0]], u) == Below(q[1..], v, u)
    decreases |q|
  {
    var before := Grow(s, x, rest, w);
    var after := SetFrom(before, x, q, v);
    ComparableAgree(q, rest, 0);
    GrowChangesOnly(s, x, rest, w);
    if |q| == 1 || |rest| == 1 {
      GrowChangesOnly(before, x, q, v);
      GrownAnswers(before, x, q, v, u);
    } else {
      var created, f := Create(s, x, q[0]), Created(x, q[0]);
      BranchBelow(s, x, rest, w, q, v);
      BesideBelow(q, rest, 0);
      OverwritesChain(created, f, rest[1..], w, q[1..], v, if u == [] then [] else u[1..]);
      ChangesBelow(s, after, x, q[0], q[1]);
      assert Own(after, f) - {q[1]} == map[];
      if u != [] && u[0] != q[1] {
        assert u[0] !in Own(after, f) - {q[1]};
      }
    }
  }

  /** After a write, a walk that comes across it sets its value from there. */
  lemma {:induction false} ComesAcross(s: Store, x: Ref, rest: seq<string>, v: string, y: Ref, q: seq<string>, w: string) returns (left: seq<string>)
    requires Sound(s) && LandsAt(s, x, rest) && q != [] && Hits(s, y, q, x, rest) && !Under(y, x, rest[0])
    ensures left != [] && Comparable(left, rest)
    ensures SetFrom(Grow(s, x, rest, v), y, q, w) == SetFrom(Grow(s, x, rest, v), x, left, w)
    ensures Landing(s, x, left) == Landing(s, y, q) && Rest(s, x, left) == Rest(s, y, q)
    decreases |q|
  {
    if y == x && Comparable(q, rest) {
      left := q;
    } else {
      var next, after := Own(s, y)[q[0]].ref, Grow(s, x, rest, v);
      if y == x && q[0] == rest[0] && |rest| == 1 {
        ComparableAtOnce(q, rest);
      }
      EntersAsBefore(s, x, rest, v, y, q[0]);
      left := ComesAcross(s, x, rest, v, next, q[1..], w);
      assert Rest(s, y, q) == Rest(s, next, q[1..]);
      assert Rest(after, y, q) == Rest(after, next, q[1..]);
    }
  }

  /** A path to the property reads what is there now. */
  lemma {:induction false} MeetsStill(s: Store, after: Store, y: Ref, q: seq<string>, i: nat, x: Ref, k: string)
    requires Sound(s) && ChangesOnly(s, after, x, k) && k in Own(after, x) && !Under(y, x, k)
    requires i < |q| && Leads(s, y, q[..i], x, k) && q[i] == k
    ensures AnswerAt(after, y, q) == AnswerOf(after, Own(after, x)[k], q[i + 1..])
    decreases i
  {
    if i > 0 {
      assert q[..i][1..] == q[1..][..i - 1];
      if y == x {
        assert q[0] in Own(s, x) - {k} && q[0] in Own(after, x) - {k};
        assert (Own(s, x) - {k})[q[0]] == (Own(after, x) - {k})[q[0]];
      }
      assert q[0] in Own(after, y) && Own(after, y)[q[0]] == Own(s, y)[q[0]];
      MeetsStill(s, after, Own(s, y)[q[0]].ref, q[1..], i - 1, x, k);
      assert q[1..][i..] == q[i + 1..];
    }
  }

  lemma {:induction false} BelowSaysItsValue(rest: seq<string>, v: string, q: seq<string>)
    ensures Below(rest, v, q).Said? ==> Below(rest, v, q) == Said(v)
    decreases |rest|
  {
    if rest != [] && q != [] {
      BelowSaysItsValue(rest[1..], v, q[1..]);
    }
  }

  /** The last write across a property reads back from the object that holds it. */
  lemma LastReadsBack(s: Store, x: Ref, rest: seq<string>, v: string, left: seq<string>, w: string)
    requires LandsAt(s, x, rest) && left != [] && Comparable(left, rest)
    ensures AnswerAt(SetFrom(Grow(s, x, rest, v), x, left, w), x, left) == Said(w)
  {
    OverwritesChain(s, x, rest, v, left, w, left[1..]);
    BelowAnswers(left[1..], w, []);
  }

  /** If `p` does not come across `q`, its value reads back when it is written last. */
  lemma ReadsBackWhenLast(s: Store, r: Ref, p: seq<string>, v: string, q: seq<string>, w: string, left: seq<string>)
    requires Sound(s) && IsRoot(s, r) && p != [] && q != [] && !Hits(s, r, p, Landing(s, r, q), Rest(s, r, q))
    requires left != [] && Comparable(left, Rest(s, r, p))
    requires Landing(s, Landing(s, r, p), left) == Landing(s, r, q) && Rest(s, Landing(s, r, p), left) == Rest(s, r, q)
    ensures AnswerAt(SetFrom(SetFrom(s, r, q, w), r, p, v), Landing(s, r, p), Rest(s, r, p)) == Said(v)
  {
    var x, y, a, b := Landing(s, r, p), Landing(s, r, q), Rest(s, r, p), Rest(s, r, q);
    LandsAtLanding(s, r, p);
    LandsAtLanding(s, r, q);
    if x == y && a[0] == b[0] {
      ComparableAgree(left, a, 0);
      if |a| == 1 {
        ComparableAtOnce(a, b);
      }
      HitsAtLanding(s, r, p, b);
    }
    LandsOn(s, y, b, w, r, p, v);
    LandingNotUnder(s, r, q, p);
    LandsAsBefore(s, y, b, w, x, a);
    GrownAnswers(SetFrom(s, r, q, w), x, a, v, a[1..]);
    BelowAnswers(a[1..], v, []);
  }

  /** If `p` comes across `q` as well, the value of `q` does not survive where it was. */
  lemma LostWhenFirst(s: Store, r: Ref, p: seq<string>, v: string, q: seq<string>, w: string, left: seq<string>)
    requires Sound(s) && IsRoot(s, r) && p != [] && q != [] && Hits(s, r, p, Landing(s, r, q), Rest(s, r, q)) && v != w
    requires left != []
    requires Landing(s, Landing(s, r, p), left) == Landing(s, r, q) && Rest(s, Landing(s, r, p), left) == Rest(s, r, q)
    ensures AnswerAt(SetFrom(SetFrom(s, r, q, w), r, p, v), Landing(s, r, p), left) != Said(w)
  {
    var x, y, b := Landing(s, r, p), Landing(s, r, q), Rest(s, r, q);
    LandsAtLanding(s, r, q);
    var mine := ComesAcross(s, y, b, w, r, p, v);
    TouchesItsLanding(s, x, left);
    var i := FirstMeeting(s, x, left, y, b[0]);
    LandsNoHigher(s, x, left);
    OverwritesChain(s, y, b, w, mine, v, left[i + 1..]);
    MeetsStill(s, SetFrom(SetFrom(s, r, q, w), r, p, v), x, left, i, y, b[0]);
    BelowSaysItsValue(mine[1..], v, left[i + 1..]);
  }

  lemma ConflictShows(s: Store, r: Ref, p: seq<string>, v: string, q: seq<string>, w: string)
    requires Sound(s) && IsRoot(s, r) && p != [] && q != [] && Hits(s, r, q, Landing(s, r, p), Rest(s, r, p)) && v != w
    ensures SetFrom(SetFrom(s, r, p, v), r, q, w) != SetFrom(SetFrom(s, r, q, w), r, p, v)
  {
    var x, a, one := Landing(s, r, p), Rest(s, r, p), SetFrom(SetFrom(s, r, p, v), r, q, w);
    LandsAtLanding(s, r, p);
    var left := ComesAcross(s, x, a, v, r, q, w);
    LastReadsBack(s, x, a, v, left, w);
    if Hits(s, r, p, Landing(s, r, q), Rest(s, r, q)) {
      LostWhenFirst(s, r, p, v, q, w, left);
    } else {
      ReadsBackWhenLast(s, r, p, v, q, w, left);
      if AnswerAt(one, x, a) == Said(v) && a != left {
        if IsPrefix(a, left) {
          NothingBelowAValue(one, At(x), a, left);
        } else {
          NothingBelowAValue(one, At(x), left, a);
        }
      }
    }
  }

  lemma PlainSet(s: Store, r: Ref, p: seq<string>, v: string)
    requires Sound(s) && Clean(s) && IsRoot(s, r) && IsValid(p) && PROTO !in p
    ensures SetByPath(s, r, p, v) == (SetFrom(s, r, p, v), None)
    ensures Sound(SetFrom(s, r, p, v)) && Clean(SetFrom(s, r, p, v)) && IsRoot(SetFrom(s, r, p, v), r)
  {
    PlainIsSafe(s, r, p);
    AfterSafeWrite(s, r, p, v);
  }

  ghost predicate BothOrdersAgree(s: Store, r: Ref, p: seq<string>, q: seq<string>)
    requires p != [] && q != []
  {
    forall v, w :: SetByPath(SetByPath(s, r, p, v).0, r, q, w) == SetByPath(SetByPath(s, r, q, w).0, r, p, v)
  }

  lemma PlainConflictShows(s: Store, r: Ref, p: seq<string>, v: string, q: seq<string>, w: string)
    requires Sound(s) && Clean(s) && IsRoot(s, r) && IsValid(p) && IsValid(q) && PROTO !in p && PROTO !in q
    requires Hits(s, r, q, Landing(s, r, p), Rest(s, r, p)) && v != w
    ensures SetByPath(SetByPath(s, r, p, v).0, r, q, w) != SetByPath(SetByPath(s, r, q, w).0, r, p, v)
  {
    PlainSet(s, r, p, v);
    PlainSet(s, r, q, w);
    PlainSet(SetFrom(s, r, p, v), r, q, w);
    PlainSet(SetFrom(s, r, q, w), r, p, v);
    ConflictShows(s, r, p, v, q, w);
  }

  lemma ConflictsDisagree(s: Store, r: Ref, p: seq<string>, q: seq<string>)
    requires Sound(s) && Clean(s) && IsRoot(s, r) && IsValid(p) && IsValid(q) && PROTO !in p && PROTO !in q && !NoConflict(s, r, p, q)
    ensures !BothOrdersAgree(s, r, p, q)
  {
    if Hits(s, r, q, Landing(s, r, p), Rest(s, r, p)) {
      PlainConflictShows(s, r, p, "a", q, "b");
    } else {
      PlainConflictShows(s, r, q, "b", p, "a");
    }
  }

  /** Two writes commute, whatever their values, exactly when neither walk comes across what the other one sets. */
  lemma WritesCommuteIff(s: Store, r: Ref, p: seq<string>, q: seq<string>)
    requires Sound(s) && Clean(s) && IsRoot(s, r) && IsValid(p) && IsValid(q) && PROTO !in p && PROTO !in q
    ensures BothOrdersAgree(s, r, p, q) <==> NoConflict(s, r, p, q)
  {
    if NoConflict(s, r, p, q) {
      PlainIsSafe(s, r, p);
      PlainIsSafe(s, r, q);
      forall v, w ensures SetByPath(SetByPath(s, r, p, v).0, r, q, w) == SetByPath(SetByPath(s, r, q, w).0, r, p, v) {
        WritesCommute(s, r, p, v, q, w);
      }
    } else {
      ConflictsDisagree(s, r, p, q);
    }
  }

  // ---------------------------------------------------------------------------------------------
  // A third write
  // ---------------------------------------------------------------------------------------------

  lemma {:induction false} CreatedTrapsHits(s: Store, y: Ref, q: seq<string>, z: Ref, rest: seq<string>, x: Ref, k: string)
    requires Sound(s) && q != [] && Under(y, x, k) && Hits(s, y, q, z, rest)
    ensures Under(z, x, k)
    decreases |q|
  {
    if !(y == z && Comparable(q, rest)) {
      CreatedTrapsHits(s, Own(s, y)[q[0]].ref, q[1..], z, rest, x, k);
    }
  }

  /** What a walk comes across at an old object, it came across before. */
  lemma {:induction false} HitsBefore(s: Store, x: Ref, chain: seq<string>, v: string, y: Ref, q: seq<string>, z: Ref, rest: seq<string>)
    requires Sound(s) && Clean(s) && x != Prototype && IsMapping(s, x) && chain != [] && q != []
    requires !Under(y, x, chain[0]) && !Under(z, x, chain[0]) && Hits(Grow(s, x, chain, v), y, q, z, rest)
    ensures Hits(s, y, q, z, rest)
    decreases |q|
  {
    var after := Grow(s, x, chain, v);
    if !(y == z && Comparable(q, rest)) {
      if y == x && q[0] == chain[0] {
        GrowChangesOnly(s, x, chain, v);
        GrowKeepsSound(s, x, chain, v);
        CreatedTrapsHits(after, Created(x, chain[0]), q[1..], z, rest, x, chain[0]);
        assert false;
      }
      EntersAsBefore(s, x, chain, v, y, q[0]);
      HitsBefore(s, x, chain, v, Own(s, y)[q[0]].ref, q[1..], z, rest);
    }
  }

  /** Only through the property that was set does a walk come to a created mapping. */
  lemma {:induction false} HitsThrough(s: Store, x: Ref, chain: seq<string>, v: string, y: Ref, q: seq<string>, z: Ref, rest: seq<string>)
    requires Sound(s) && IsMapping(s, x) && chain != [] && q != []
    requires !Under(y, x, chain[0]) && Under(z, x, chain[0]) && !Touches(s, y, q, x, chain[0])
    ensures !Hits(Grow(s, x, chain, v), y, q, z, rest)
    decreases |q|
  {
    EntersAsBefore(s, x, chain, v, y, q[0]);
    if |q| > 1 && OwnEnters(s, y, q[0]) {
      HitsThrough(s, x, chain, v, Own(s, y)[q[0]].ref, q[1..], z, rest);
    }
  }

  lemma {:induction false} HitsFurtherOn(s: Store, x: Ref, chain: seq<string>, v: string, y: Ref, q: seq<string>, d: nat, z: Ref, rest: seq<string>)
    requires Sound(s) && IsMapping(s, x) && |chain| > 1 && d + 1 < |q| && !Under(y, x, chain[0]) && Under(z, x, chain[0])
    requires Depth(s, y, q) == d && Leads(s, y, q[..d], x, chain[0]) && q[d] == chain[0]
    requires Hits(Grow(s, x, chain, v), y, q, z, rest)
    ensures Hits(Grow(s, x, chain, v), Created(x, chain[0]), q[d + 1..], z, rest)
    decreases d
  {
    GrowMakesMapping(s, x, chain, v);
    if d > 0 {
      EntersAsBefore(s, x, chain, v, y, q[0]);
      assert q[..d][1..] == q[1..][..d - 1];
      HitsFurtherOn(s, x, chain, v, Own(s, y)[q[0]].ref, q[1..], d - 1, z, rest);
      assert q[1..][d..] == q[d + 1..];
    }
  }

  /** In a tree, only comparable paths come across each other. */
  lemma {:induction false} BranchesHit(s: Store, y: Ref, q: seq<string>, p: seq<string>)
    requires Sound(s) && y.Created? && q != [] && p != [] && Hits(s, y, q, Landing(s, y, p), Rest(s, y, p))
    ensures Comparable(q, p)
    decreases |p|
  {
    var z, rest := Landing(s, y, p), Rest(s, y, p);
    NotUnderItself(y, p[0]);
    NotUnderItself(y, q[0]);
    if |p| > 1 && OwnEnters(s, y, p[0]) {
      var next := Own(s, y)[p[0]].ref;
      LandsUnder(s, next, p[1..], y, p[0]);
      CreatedTrapsHits(s, Own(s, y)[q[0]].ref, q[1..], z, rest, y, q[0]);
      UnderOneKey(z, y, p[0], q[0]);
      assert rest == Rest(s, next, p[1..]);
      BranchesHit(s, next, q[1..], p[1..]);
      BesideBelow(q, p, 0);
    } else if !Comparable(q, p) {
      CreatedTrapsHits(s, Own(s, y)[q[0]].ref, q[1..], z, rest, y, q[0]);
    }
  }

  lemma StillNoHit(s: Store, r: Ref, t: seq<string>, v: string, p: seq<string>, q: seq<string>)
    requires Sound(s) && Clean(s) && IsRoot(s, r) && IsValid(t) && Safe(s, r, t) && p != [] && q != []
    requires !Hits(s, r, p, Landing(s, r, t), Rest(s, r, t)) && !Hits(s, r, q, Landing(s, r, t), Rest(s, r, t))
    requires !Hits(s, r, q, Landing(s, r, p), Rest(s, r, p))
    ensures !Hits(SetFrom(s, r, t, v), r, q, Landing(SetFrom(s, r, t, v), r, p), Rest(SetFrom(s, r, t, v), r, p))
  {
    var x, chain, after := Landing(s, r, t), Rest(s, r, t), SetFrom(s, r, t, v);
    var z, rest := Landing(after, r, p), Rest(after, r, p);
    AfterSafeWrite(s, r, t, v);
    LandsAtLanding(s, r, t);
    if Hits(after, r, q, z, rest) {
      if !Touches(s, r, p, x, chain[0]) {
        WalkStays(s, x, chain, v, r, p);
        HitsBefore(s, x, chain, v, r, q, z, rest);
      } else {
        MeetInTheTree(s, r, x, chain, v, p, q);
      }
    }
  }

  /** A walk that comes to the property of a write, beside what it sets, lands among the created mappings. */
  lemma LandsInTheTree(s: Store, r: Ref, x: Ref, chain: seq<string>, v: string, p: seq<string>) returns (down: seq<string>)
    requires Sound(s) && IsRoot(s, r) && LandsAt(s, x, chain) && Sound(Grow(s, x, chain, v)) && p != []
    requires Touches(s, r, p, x, chain[0]) && !Hits(s, r, p, x, chain)
    ensures Landing(s, r, p) == x && |chain| > 1 && down != [] && Rest(s, r, p) == [chain[0]] + down
    ensures
      var after, f := Grow(s, x, chain, v), Created(x, chain[0]);
      && Landing(after, r, p) == Landing(after, f, down) && Rest(after, r, p) == Rest(after, f, down)
      && Under(Landing(after, f, down), x, chain[0])
  {
    var after, f, d := Grow(s, x, chain, v), Created(x, chain[0]), Depth(s, r, p);
    TouchesBeside(s, r, p, x, chain);
    down := p[d + 1..];
    WalkGoesOn(s, x, chain, v, r, p, d);
    assert Rest(after, r, p) == Rest(after, f, down);
    LandsUnder(after, f, down, x, chain[0]);
  }

  /** And only such a walk comes across anything there. */
  lemma HitsInTheTree(s: Store, r: Ref, x: Ref, chain: seq<string>, v: string, q: seq<string>, z: Ref, rest: seq<string>) returns (down: seq<string>)
    requires Sound(s) && IsRoot(s, r) && LandsAt(s, x, chain) && q != [] && !Hits(s, r, q, x, chain)
    requires Under(z, x, chain[0]) && Hits(Grow(s, x, chain, v), r, q, z, rest)
    ensures Landing(s, r, q) == x && down != [] && Rest(s, r, q) == [chain[0]] + down
    ensures Hits(Grow(s, x, chain, v), Created(x, chain[0]), down, z, rest)
  {
    if !Touches(s, r, q, x, chain[0]) {
      HitsThrough(s, x, chain, v, r, q, z, rest);
    }
    TouchesBeside(s, r, q, x, chain);
    down := q[Depth(s, r, q) + 1..];
    HitsFurtherOn(s, x, chain, v, r, q, Depth(s, r, q), z, rest);
  }

  lemma MeetInTheTree(s: Store, r: Ref, x: Ref, chain: seq<string>, v: string, p: seq<string>, q: seq<string>)
    requires Sound(s) && IsRoot(s, r) && LandsAt(s, x, chain) && Sound(Grow(s, x, chain, v)) && p != [] && q != []
    requires Touches(s, r, p, x, chain[0]) && !Hits(s, r, p, x, chain) && !Hits(s, r, q, x, chain)
    requires Hits(Grow(s, x, chain, v), r, q, Landing(Grow(s, x, chain, v), r, p), Rest(Grow(s, x, chain, v), r, p))
    ensures Hits(s, r, q, Landing(s, r, p), Rest(s, r, p))
  {
    var after := Grow(s, x, chain, v);
    var mine := LandsInTheTree(s, r, x, chain, v, p);
    var other := HitsInTheTree(s, r, x, chain, v, q, Landing(after, r, p), Rest(after, r, p));
    BranchesHit(after, Created(x, chain[0]), other, mine);
    BesideBelow([chain[0]] + other, [chain[0]] + mine, 0);
    HitsAtLanding(s, r, q, Rest(s, r, p));
  }

  // ---------------------------------------------------------------------------------------------
  // All writes
  // ---------------------------------------------------------------------------------------------

  ghost predicate Peaceful(s: Store, r: Ref, paths: set<seq<string>>) {
    && (forall p :: p in paths ==> IsValid(p) && Safe(s, r, p))
    && forall p, q :: p in paths && q in paths && p != q ==> NoConflict(s, r, p, q)
  }

  lemma StillPeaceful(s: Store, r: Ref, t: seq<string>, v: string, p: seq<string>, q: seq<string>)
    requires Sound(s) && Clean(s) && IsRoot(s, r) && IsValid(t) && Safe(s, r, t) && p != [] && q != []
    requires NoConflict(s, r, t, p) && NoConflict(s, r, t, q) && NoConflict(s, r, p, q)
    ensures NoConflict(SetFrom(s, r, t, v), r, p, q)
  {
    StillNoHit(s, r, t, v, p, q);
    StillNoHit(s, r, t, v, q, p);
  }

  lemma PeaceIsKept(s: Store, r: Ref, paths: set<seq<string>>, t: seq<string>, v: string)
    requires Sound(s) && Clean(s) && IsRoot(s, r) && Peaceful(s, r, paths) && t in paths
    ensures
      var (after, error) := SetByPath(s, r, t, v);
      error == None && Sound(after) && Clean(after) && IsRoot(after, r) && Peaceful(after, r, paths - {t})
  {
    var after := SetFrom(s, r, t, v);
    AfterSafeWrite(s, r, t, v);
    LandsAtLanding(s, r, t);
    forall p | p in paths - {t} ensures IsValid(p) && Safe(after, r, p) {
      assert NoConflict(s, r, t, p);
      LandsOn(s, Landing(s, r, t), Rest(s, r, t), v, r, p, "");
    }
    forall p, q | p in paths - {t} && q in paths - {t} && p != q ensures NoConflict(after, r, p, q) {
      StillPeaceful(s, r, t, v, p, q);
    }
  }

  lemma {:induction false} MoveToFront(s: Store, r: Ref, front: seq<Write>, moved: Write, back: seq<Write>, paths: set<seq<string>>)
    requires Sound(s) && Clean(s) && IsRoot(s, r) && Peaceful(s, r, paths)
    requires Selects(front, paths) && moved.path in paths && AllPaths(back) && forall w :: w in front ==> w.path != moved.path
    ensures AllPaths(front + ([moved] + back)) && AllPaths([moved] + (front + back))
    ensures Run(s, r, front + ([moved] + back)) == Run(s, r, [moved] + (front + back))
    decreases |front|
  {
    if front == [] {
      assert front + ([moved] + back) == [moved] + back == [moved] + (front + back);
    } else {
      var first, rest := front[0], front[1..];
      PeaceIsKept(s, r, paths, first.path, first.value);
      SelectsRest(front, paths);
      MoveToFront(SetByPath(s, r, first.path, first.value).0, r, rest, moved, back, paths - {first.path});
      ThenSwap(s, r, first, rest, moved, back, paths);
      Regroup(front, moved, back);
    }
  }

  lemma Regroup(front: seq<Write>, moved: Write, back: seq<Write>)
    requires front != []
    ensures front + ([moved] + back) == [front[0]] + (front[1..] + ([moved] + back))
    ensures [moved] + (front + back) == [moved] + ([front[0]] + (front[1..] + back))
  {
    assert front == [front[0]] + front[1..];
  }

  lemma ThenSwap(s: Store, r: Ref, first: Write, rest: seq<Write>, moved: Write, back: seq<Write>, paths: set<seq<string>>)
    requires Sound(s) && Clean(s) && IsRoot(s, r) && Peaceful(s, r, paths)
    requires first.path in paths && moved.path in paths && first.path != moved.path && AllPaths(rest) && AllPaths(back)
    requires
      var next := SetByPath(s, r, first.path, first.value).0;
      Run(next, r, rest + ([moved] + back)) == Run(next, r, [moved] + (rest + back))
    ensures AllPaths([first] + (rest + ([moved] + back))) && AllPaths([moved] + ([first] + (rest + back)))
    ensures Run(s, r, [first] + (rest + ([moved] + back))) == Run(s, r, [moved] + ([first] + (rest + back)))
  {
    SwapFirst(s, r, first, moved, rest + back, paths);
    WritesCommute(s, r, first.path, first.value, moved.path, moved.value);
    OneStep(s, r, first, rest + ([moved] + back));
    OneStep(s, r, first, [moved] + (rest + back));
  }

  lemma OneStep(s: Store, r: Ref, a: Write, rest: seq<Write>)
    requires a.path != [] && AllPaths(rest) && SetByPath(s, r, a.path, a.value).1 == None
    ensures AllPaths([a] + rest) && Run(s, r, [a] + rest) == Run(SetByPath(s, r, a.path, a.value).0, r, rest)
  {
    assert ([a] + rest)[1..] == rest;
  }

  lemma SwapFirst(s: Store, r: Ref, a: Write, b: Write, rest: seq<Write>, paths: set<seq<string>>)
    requires Sound(s) && Clean(s) && IsRoot(s, r) && Peaceful(s, r, paths)
    requires a.path in paths && b.path in paths && a.path != b.path && AllPaths(rest)
    ensures AllPaths([a] + ([b] + rest)) && AllPaths([b] + ([a] + rest))
    ensures Run(s, r, [a] + ([b] + rest)) == Run(s, r, [b] + ([a] + rest))
  {
    var one, other := SetByPath(s, r, a.path, a.value).0, SetByPath(s, r, b.path, b.value).0;
    WritesCommute(s, r, a.path, a.value, b.path, b.value);
    OneStep(one, r, b, rest);
    OneStep(other, r, a, rest);
    OneStep(s, r, a, [b] + rest);
    OneStep(s, r, b, [a] + rest);
  }

  lemma PermutationsSplit(a: seq<Write>, b: seq<Write>) returns (front: seq<Write>, back: seq<Write>)
    requires a != [] && multiset(a) == multiset(b)
    ensures b == front + ([a[0]] + back)
    ensures multiset(a[1..]) == multiset(front + back)
  {
    assert a[0] in multiset(b);
    var i :| 0 <= i < |b| && b[i] == a[0];
    front, back := b[..i], b[i + 1..];
    assert b == front + ([a[0]] + back);
    assert a == [a[0]] + a[1..];
    assert multiset(a) == multiset{a[0]} + multiset(a[1..]);
    assert multiset(front + ([a[0]] + back)) == multiset(front) + (multiset{a[0]} + multiset(back));
    assert multiset(front + back) == multiset(front) + multiset(back);
    assert multiset(a[1..]) == multiset(a) - multiset{a[0]};
  }

  lemma SelectsSplit(front: seq<Write>, w: Write, back: seq<Write>, paths: set<seq<string>>)
    requires Selects(front + ([w] + back), paths)
    ensures Selects(front, paths) && Selects(front + back, paths - {w.path}) && forall u :: u in front ==> u.path != w.path
  {
    var all, rest, n := front + ([w] + back), front + back, |front|;
    assert all[n] == w;
    forall i | 0 <= i < |rest| ensures rest[i] in all && rest[i].path != w.path {
      assert rest[i] == all[if i < n then i else i + 1];
    }
    forall i, j | 0 <= i < j < |rest| ensures rest[i].path != rest[j].path {
      assert rest[i] == all[if i < n then i else i + 1] && rest[j] == all[if j < n then j else j + 1];
    }
    forall u | u in front ensures u.path != w.path && u in all {
      assert u in rest;
    }
    forall i, j | 0 <= i < j < |front| ensures front[i].path != front[j].path {
      assert front[i] == all[i] && front[j] == all[j];
    }
  }

  /** Without conflicts the order of the entries does not matter. */
  lemma {:induction false} OrderIrrelevant(s: Store, r: Ref, paths: set<seq<string>>, a: seq<Write>, b: seq<Write>)
    requires Sound(s) && Clean(s) && IsRoot(s, r) && Peaceful(s, r, paths)
    requires Selects(a, paths) && Selects(b, paths) && multiset(a) == multiset(b)
    ensures Run(s, r, a) == Run(s, r, b)
    decreases |a|
  {
    if a == [] {
      assert |multiset(b)| == 0;
    } else {
      var front, back := PermutationsSplit(a, b);
      SelectsSplit(front, a[0], back, paths);
      SelectsRest(a, paths);
      PeaceIsKept(s, r, paths, a[0].path, a[0].value);
      MoveToFront(s, r, front, a[0], back, paths);
      assert ([a[0]] + (front + back))[1..] == front + back;
      OrderIrrelevant(SetByPath(s, r, a[0].path, a[0].value).0, r, paths - {a[0].path}, a[1..], front + back);
    }
  }

  ghost predicate OrderDoesNotMatter(s: Store, r: Ref, paths: set<seq<string>>) {
    forall a, b :: Selects(a, paths) && Selects(b, paths) && multiset(a) == multiset(b) ==> Run(s, r, a) == Run(s, r, b)
  }

  lemma TwoWrites(a: Write, b: Write, paths: set<seq<string>>)
    requires IsValid(a.path) && IsValid(b.path) && a.path in paths && b.path in paths && a.path != b.path
    ensures Selects([a, b], paths) && Selects([b, a], paths) && multiset([a, b]) == multiset([b, a])
  {}

  lemma RunTwo(s: Store, r: Ref, a: Write, b: Write)
    requires Sound(s) && Clean(s) && IsRoot(s, r)
    requires IsValid(a.path) && IsValid(b.path) && PROTO !in a.path && PROTO !in b.path
    ensures Run(s, r, [a, b]) == SetByPath(SetByPath(s, r, a.path, a.value).0, r, b.path, b.value)
  {
    var one := SetByPath(s, r, a.path, a.value).0;
    PlainSet(s, r, a.path, a.value);
    PlainSet(one, r, b.path, b.value);
    OneStep(one, r, b, []);
    OneStep(s, r, a, [b]);
  }

  lemma TwoWritesAgree(s: Store, r: Ref, paths: set<seq<string>>, a: Write, b: Write)
    requires Sound(s) && Clean(s) && IsRoot(s, r) && OrderDoesNotMatter(s, r, paths) && a.path in paths && b.path in paths && a.path != b.path
    requires IsValid(a.path) && IsValid(b.path) && PROTO !in a.path && PROTO !in b.path
    ensures SetByPath(SetByPath(s, r, a.path, a.value).0, r, b.path, b.value) == SetByPath(SetByPath(s, r, b.path, b.value).0, r, a.path, a.value)
  {
    RunTwo(s, r, a, b);
    RunTwo(s, r, b, a);
    TwoWrites(a, b, paths);
  }

  lemma ConflictMatters(s: Store, r: Ref, paths: set<seq<string>>, p: seq<string>, q: seq<string>)
    requires Sound(s) && Clean(s) && IsRoot(s, r) && OrderDoesNotMatter(s, r, paths) && p in paths && q in paths && p != q
    requires IsValid(p) && IsValid(q) && PROTO !in p && PROTO !in q
    ensures NoConflict(s, r, p, q)
  {
    forall v, w ensures SetByPath(SetByPath(s, r, p, v).0, r, q, w) == SetByPath(SetByPath(s, r, q, w).0, r, p, v) {
      TwoWritesAgree(s, r, paths, Write(p, v), Write(q, w));
    }
    WritesCommuteIff(s, r, p, q);
  }

  /** The order of an overlay's entries does not matter exactly when no two of its paths are in conflict. */
  lemma OrderIrrelevantIff(s: Store, r: Ref, paths: set<seq<string>>)
    requires Sound(s) && Clean(s) && IsRoot(s, r) && [] !in paths
    requires forall p :: p in paths ==> IsValid(p) && PROTO !in p
    ensures OrderDoesNotMatter(s, r, paths) <==> forall p, q :: p in paths && q in paths && p != q ==> NoConflict(s, r, p, q)
  {
    if p, q :| p in paths && q in paths && p != q && !NoConflict(s, r, p, q) {
      if OrderDoesNotMatter(s, r, paths) {
        ConflictMatters(s, r, paths, p, q);
      }
    } else {
      forall p | p in paths ensures Safe(s, r, p) {
        PlainIsSafe(s, r, p);
      }
      forall a, b | Selects(a, paths) && Selects(b, paths) && multiset(a) == multiset(b) ensures Run(s, r, a) == Run(s, r, b) {
        OrderIrrelevant(s, r, paths, a, b);
      }
    }
  }

  /** A path and its extension are always in conflict. */
  lemma {:induction false} PrefixHits(s: Store, r: Ref, p: seq<string>, q: seq<string>)
    requires p != [] && IsPrefix(p, q)
    ensures Hits(s, r, q, Landing(s, r, p), Rest(s, r, p))
    decreases |p|
  {
    if |p| > 1 && OwnEnters(s, r, p[0]) {
      assert q[..|p|][1..] == q[1..][..|p| - 1] && q[..|p|][0] == q[0];
      PrefixHits(s, Own(s, r)[p[0]].ref, p[1..], q[1..]);
      assert Rest(s, r, p) == Rest(s, Own(s, r)[p[0]].ref, p[1..]);
    }
  }

  /** The order of two writes matters, in every target, when one path is a prefix of the other. */
  lemma PrefixOrderMatters(s: Store, r: Ref, p: seq<string>, q: seq<string>)
    requires Sound(s) && Clean(s) && IsRoot(s, r) && IsValid(p) && IsValid(q) && PROTO !in p && PROTO !in q
    requires Comparable(p, q)
    ensures !BothOrdersAgree(s, r, p, q)
  {
    if IsPrefix(p, q) {
      PrefixHits(s, r, p, q);
    } else {
      PrefixHits(s, r, q, p);
    }
    WritesCommuteIff(s, r, p, q);
  }

  lemma IgnoredWrite(s: Store, r: Ref, v: string)
    requires IsAccessor(s, r, PROTO)
    ensures SetByPath(s, r, [PROTO], v) == (s, None)
  {}

  lemma AccessorStays(s: Store, r: Ref, q: seq<string>, w: string)
    requires Ready(s) && IsRoot(s, r) && IsAccessor(s, r, PROTO) && IsValid(q) && q[0] == PROTO
    ensures IsAccessor(SetByPath(s, r, q, w).0, r, PROTO)
  {
    if |q| > 1 {
      AddedWriteStays(s, Prototype, q[1..], w);
    }
  }

  /**
   * The inherited `__proto__` is outside of this: a value written there is ignored, so the write commutes with every other
   * below it, though the one path is a prefix of the other and the two are in conflict.
   */
  lemma IgnoredWriteCommutes(s: Store, r: Ref, q: seq<string>)
    requires Ready(s) && IsRoot(s, r) && IsAccessor(s, r, PROTO) && IsValid(q) && q[0] == PROTO && !GetsStuck(s, r, q)
    ensures Comparable([PROTO], q) && !NoConflict(s, r, [PROTO], q) && BothOrdersAgree(s, r, [PROTO], q)
  {
    assert q[..1] == [PROTO];
    PrefixHits(s, r, [PROTO], q);
    forall v, w ensures SetByPath(SetByPath(s, r, [PROTO], v).0, r, q, w) == SetByPath(SetByPath(s, r, q, w).0, r, [PROTO], v) {
      WriteFailsIff(s, r, q, w);
      IgnoredWrite(s, r, v);
      AccessorStays(s, r, q, w);
      IgnoredWrite(SetByPath(s, r, q, w).0, r, v);
    }
  }

  lemma {:induction false} HitsTouches(s: Store, y: Ref, q: seq<string>, x: Ref, rest: seq<string>)
    requires q != [] && rest != [] && Hits(s, y, q, x, rest)
    ensures Touches(s, y, q, x, rest[0])
    decreases |q|
  {
    if y == x && Comparable(q, rest) {
      ComparableAgree(q, rest, 0);
    } else {
      HitsTouches(s, Own(s, y)[q[0]].ref, q[1..], x, rest);
    }
  }

  lemma PrivateIsNotHit(s: Store, r: Ref, p: seq<string>, q: seq<string>)
    requires Sound(s) && IsRoot(s, r) && p != [] && q != [] && Private(s, r, p) && !Comparable(p, q)
    ensures !Hits(s, r, q, Landing(s, r, p), Rest(s, r, p))
  {
    var x, rest := Landing(s, r, p), Rest(s, r, p);
    if Hits(s, r, q, x, rest) {
      LandsAtLanding(s, r, p);
      HitsTouches(s, r, q, x, rest);
      MeetingPaths(s, r, p, q);
      var left := ComesAcross(s, x, rest, "", r, q, "");
      ComparableAgree(left, rest, 0);
      assert left == Rest(s, x, left) == Rest(s, r, q);
      ComparableFromHere(p, q, Depth(s, r, p));
    }
  }

  lemma ComparableFromHere(p: seq<string>, q: seq<string>, d: nat)
    requires d < |p| && d < |q| && p[..d + 1] == q[..d + 1] && Comparable(q[d..], p[d..])
    ensures Comparable(p, q)
  {
    TakesAgree(p, q, d + 1, d);
    assert p[d] == p[..d + 1][d] && q[d] == q[..d + 1][d];
    BesideBelow(q[d..], p[d..], 0);
    assert q[d..][1..] == q[d + 1..] && p[d..][1..] == p[d + 1..];
    BesideBelow(p, q, d);
  }

  /** An overlay that does what it says does so in any order, and every order leaves the same store. */
  lemma LocalOverlayHasNoOrder(s: Store, r: Ref, paths: set<seq<string>>)
    requires Sound(s) && Clean(s) && IsRoot(s, r) && [] !in paths && PrefixFree(paths)
    requires forall p :: p in paths ==> IsValid(p) && IsLocal(s, r, p)
    ensures OrderDoesNotMatter(s, r, paths)
  {
    forall p, q | p in paths && q in paths && p != q ensures NoConflict(s, r, p, q) {
      PrivateIsNotHit(s, r, p, q);
      PrivateIsNotHit(s, r, q, p);
    }
    forall a, b | Selects(a, paths) && Selects(b, paths) && multiset(a) == multiset(b) ensures Run(s, r, a) == Run(s, r, b) {
      OrderIrrelevant(s, r, paths, a, b);
    }
  }
}
