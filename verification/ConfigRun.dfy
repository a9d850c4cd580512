/** A whole overlay: the writes that an environment selects, one after the other. */
module ConfigRun {
  import opened Wrappers
  import opened ConfigStore
  import opened ConfigOverlay

  // ---------------------------------------------------------------------------------------------
  // Another walk, after a write
  // ---------------------------------------------------------------------------------------------

  lemma EntersAsBefore(s: Store, x: Ref, rest: seq<string>, v: string, y: Ref, k: string)
    requires Sound(s) && IsMapping(s, x) && rest != [] && !Under(y, x, rest[0]) && !(y == x && k == rest[0])
    ensures OwnEnters(Grow(s, x, rest, v), y, k) <==> OwnEnters(s, y, k)
    ensures IsAccessor(Grow(s, x, rest, v), y, k) <==> IsAccessor(s, y, k)
    ensures k in Own(s, y) ==> k in Own(Grow(s, x, rest, v), y) && Own(Grow(s, x, rest, v), y)[k] == Own(s, y)[k]
    ensures k in Own(s, y) && Own(s, y)[k].At? ==> !Under(Own(s, y)[k].ref, x, rest[0])
  {
    SameOwn(s, x, rest, v, y, k);
    GrowChangesOnly(s, x, rest, v);
  }

  /** A walk that does not touch the property goes as before. */
  lemma {:induction false} WalkStays(s: Store, x: Ref, rest: seq<string>, v: string, y: Ref, q: seq<string>)
    requires Sound(s) && IsMapping(s, x) && rest != [] && q != []
    requires !Under(y, x, rest[0]) && !Touches(s, y, q, x, rest[0])
    ensures
      var after := Grow(s, x, rest, v);
      && Depth(after, y, q) == Depth(s, y, q) && Landing(after, y, q) == Landing(s, y, q)
      && (Safe(after, y, q) <==> Safe(s, y, q))
    ensures !Under(Landing(s, y, q), x, rest[0])
    decreases |q|
  {
    EntersAsBefore(s, x, rest, v, y, q[0]);
    if |q| > 1 && OwnEnters(s, y, q[0]) {
      WalkStays(s, x, rest, v, Own(s, y)[q[0]].ref, q[1..]);
    }
  }

  /** A walk that ends at the property goes on into the new mappings. */
  lemma {:induction false} WalkGoesOn(s: Store, x: Ref, rest: seq<string>, v: string, y: Ref, q: seq<string>, d: nat)
    requires Sound(s) && IsMapping(s, x) && |rest| > 1 && d + 1 < |q| && !Under(y, x, rest[0])
    requires Depth(s, y, q) == d && Leads(s, y, q[..d], x, rest[0]) && q[d] == rest[0]
    ensures
      var after, f := Grow(s, x, rest, v), Created(x, rest[0]);
      && Depth(after, y, q) == d + 1 + Depth(after, f, q[d + 1..])
      && Landing(after, y, q) == Landing(after, f, q[d + 1..])
      && (Safe(s, y, q) && Safe(after, f, q[d + 1..]) ==> Safe(after, y, q))
    decreases d
  {
    var after := Grow(s, x, rest, v);
    GrowChangesOnly(s, x, rest, v);
    if d == 0 {
      GrowMakesMapping(s, x, rest, v);
    } else {
      EntersAsBefore(s, x, rest, v, y, q[0]);
      assert q[..d][1..] == q[1..][..d - 1];
      WalkGoesOn(s, x, rest, v, Own(s, y)[q[0]].ref, q[1..], d - 1);
      assert q[1..][d..] == q[d + 1..];
    }
  }

  lemma GrowMakesMapping(s: Store, x: Ref, rest: seq<string>, v: string)
    requires |rest| > 1
    ensures OwnEnters(Grow(s, x, rest, v), x, rest[0]) && Own(Grow(s, x, rest, v), x)[rest[0]].ref == Created(x, rest[0])
  {
    GrowChangesOnly(s, x, rest, v);
    GrowChangesOnly(Create(s, x, rest[0]), Created(x, rest[0]), rest[1..], v);
  }

  /** Two paths that agree up to the property that the first sets, and go on behind it, end at the same property. */
  lemma {:induction false} SharedWalk(s: Store, r: Ref, p: seq<string>, q: seq<string>)
    requires p != [] && Depth(s, r, p) + 1 < |p| && Depth(s, r, p) + 1 < |q| && p[..Depth(s, r, p) + 1] == q[..Depth(s, r, p) + 1]
    ensures Depth(s, r, q) == Depth(s, r, p) && Landing(s, r, q) == Landing(s, r, p)
    decreases |p|
  {
    var d := Depth(s, r, p);
    assert p[0] == p[..d + 1][0] == q[..d + 1][0] == q[0];
    if OwnEnters(s, r, p[0]) {
      assert p[1..][..d] == p[..d + 1][1..] == q[..d + 1][1..] == q[1..][..d];
      SharedWalk(s, Own(s, r)[p[0]].ref, p[1..], q[1..]);
    }
  }

  // ---------------------------------------------------------------------------------------------
  // Other paths to a mapping, after a write
  // ---------------------------------------------------------------------------------------------

  /** From a mapping that the write created, only such mappings are reached. */
  lemma {:induction false} CreatedTraps(s: Store, y: Ref, q: seq<string>, z: Ref, j: string, x: Ref, k: string)
    requires Sound(s) && Under(y, x, k) && Leads(s, y, q, z, j)
    ensures Under(z, x, k)
    decreases |q|
  {
    if q != [] {
      CreatedTraps(s, Own(s, y)[q[0]].ref, q[1..], z, j, x, k);
    }
  }

  lemma {:induction false} LandsUnder(s: Store, y: Ref, q: seq<string>, x: Ref, k: string)
    requires Sound(s) && Under(y, x, k) && q != []
    ensures Under(Landing(s, y, q), x, k)
    decreases |q|
  {
    if |q| > 1 && OwnEnters(s, y, q[0]) {
      LandsUnder(s, Own(s, y)[q[0]].ref, q[1..], x, k);
    }
  }

  /** A path to an old mapping was there before the write. */
  lemma {:induction false} LeadsBack(s: Store, x: Ref, rest: seq<string>, v: string, y: Ref, q: seq<string>, z: Ref, j: string)
    requires Sound(s) && Clean(s) && x != Prototype && IsMapping(s, x) && rest != []
    requires !Under(y, x, rest[0]) && !Under(z, x, rest[0]) && Leads(Grow(s, x, rest, v), y, q, z, j)
    ensures Leads(s, y, q, z, j)
    decreases |q|
  {
    if q != [] {
      if y == x && q[0] == rest[0] {
        GrowChangesOnly(s, x, rest, v);
        GrowKeepsSound(s, x, rest, v);
        CreatedTraps(Grow(s, x, rest, v), Created(x, rest[0]), q[1..], z, j, x, rest[0]);
        assert false;
      }
      SameOwn(s, x, rest, v, y, q[0]);
      LeadsBack(s, x, rest, v, Own(s, y)[q[0]].ref, q[1..], z, j);
    }
  }

  predicate Walks(s: Store, y: Ref, q: seq<string>, z: Ref)
    decreases |q|
  {
    if q == [] then y == z
    else q[0] in Own(s, y) && Own(s, y)[q[0]].At? && Walks(s, Own(s, y)[q[0]].ref, q[1..], z)
  }

  lemma {:induction false} LeadsWalks(s: Store, y: Ref, q: seq<string>, z: Ref, j: string)
    requires Leads(s, y, q, z, j)
    ensures Walks(s, y, q, z)
    decreases |q|
  {
    if q != [] {
      LeadsWalks(s, Own(s, y)[q[0]].ref, q[1..], z, j);
    }
  }

  /** A path to a created mapping takes the property that was set. */
  lemma {:induction false} WalksThrough(s: Store, x: Ref, k: string, y: Ref, q: seq<string>, z: Ref) returns (i: nat)
    requires Sound(s) && k in Own(s, x) && Own(s, x)[k] == At(Created(x, k))
    requires !Under(y, x, k) && Under(z, x, k) && Walks(s, y, q, z)
    ensures i < |q| && Leads(s, y, q[..i], x, k) && q[i] == k && Walks(s, Created(x, k), q[i + 1..], z)
    decreases |q|
  {
    if y == x && q[0] == k {
      i := 0;
    } else {
      i := WalksThrough(s, x, k, Own(s, y)[q[0]].ref, q[1..], z);
      assert q[..i + 1][1..] == q[1..][..i];
      assert q[1..][i + 1..] == q[i + 2..];
      i := i + 1;
    }
  }

  lemma {:induction false} LandingWalks(s: Store, y: Ref, q: seq<string>)
    requires q != []
    ensures Walks(s, y, q[..Depth(s, y, q)], Landing(s, y, q))
    decreases |q|
  {
    if |q| > 1 && OwnEnters(s, y, q[0]) {
      LandingWalks(s, Own(s, y)[q[0]].ref, q[1..]);
      assert q[..Depth(s, y, q)][1..] == q[1..][..Depth(s, y, q) - 1];
    }
  }

  lemma {:induction false} WalkDescends(s: Store, y: Ref, q: seq<string>, z: Ref)
    requires Sound(s) && y.Created? && q != [] && Walks(s, y, q, z)
    ensures Under(z, y, q[0])
    decreases |q|
  {
    if |q| > 1 {
      WalkDescends(s, Own(s, y)[q[0]].ref, q[1..], z);
      UnderUnder(z, y, q[0], q[1]);
    }
  }

  lemma {:induction false} UnderOneKey(z: Ref, y: Ref, j: string, k: string)
    requires Under(z, y, j) && Under(z, y, k)
    ensures j == k
  {
    if z.parent == y {
      if Under(y, y, j) {
        UnderIsDeeper(y, y, j);
      }
      if Under(y, y, k) {
        UnderIsDeeper(y, y, k);
      }
    } else {
      UnderOneKey(z.parent, y, j, k);
    }
  }

  /** Created mappings form a tree. */
  lemma {:induction false} OneWayDown(s: Store, y: Ref, p: seq<string>, q: seq<string>, z: Ref)
    requires Sound(s) && y.Created? && Walks(s, y, p, z) && Walks(s, y, q, z)
    ensures p == q
    decreases |p|
  {
    if p != [] {
      WalkDescends(s, y, p, z);
    }
    if q != [] {
      WalkDescends(s, y, q, z);
    }
    if p == [] || q == [] {
      if p != q {
        UnderIsDeeper(z, y, if p == [] then q[0] else p[0]);
      }
    } else {
      UnderOneKey(z, y, p[0], q[0]);
      OneWayDown(s, Own(s, y)[p[0]].ref, p[1..], q[1..], z);
    }
  }

  // ---------------------------------------------------------------------------------------------
  // A local write keeps the paths beside it local
  // ---------------------------------------------------------------------------------------------

  lemma AfterSafeWrite(s: Store, r: Ref, p: seq<string>, v: string)
    requires Sound(s) && Clean(s) && IsRoot(s, r) && IsValid(p) && Safe(s, r, p)
    ensures IsMapping(s, Landing(s, r, p)) && Landing(s, r, p) != Prototype
    ensures
      var after := Grow(s, Landing(s, r, p), Rest(s, r, p), v);
      SetByPath(s, r, p, v) == (after, None) && Sound(after) && Clean(after) && IsRoot(after, r)
  {
    SafeWriteGrows(s, r, p, v);
    LandingIsMapping(s, r, p);
    GrowKeepsSound(s, Landing(s, r, p), Rest(s, r, p), v);
    GrowChangesOnly(s, Landing(s, r, p), Rest(s, r, p), v);
  }

  /** The walk of `q` ends at the property that the write at `p` sets. */
  predicate MeetsAt(s: Store, r: Ref, p: seq<string>, q: seq<string>)
    requires p != [] && q != []
  {
    Touches(s, r, q, Landing(s, r, p), Rest(s, r, p)[0])
  }

  lemma MeetingPaths(s: Store, r: Ref, p: seq<string>, q: seq<string>)
    requires p != [] && q != [] && Private(s, r, p) && !Comparable(p, q) && MeetsAt(s, r, p, q)
    ensures
      var d := Depth(s, r, p);
      && d + 1 < |p| && d + 1 < |q| && p[..d + 1] == q[..d + 1]
      && Depth(s, r, q) == d && Landing(s, r, q) == Landing(s, r, p)
      && Leads(s, r, q[..d], Landing(s, r, p), q[d])
  {
    var x, k, d := Landing(s, r, p), Rest(s, r, p)[0], Depth(s, r, p);
    var i := FirstMeeting(s, r, q, x, k);
    assert |q[..i]| == |p[..d]|;
    Agree(p, q, d);
    SharedWalk(s, r, p, q);
  }

  lemma Agree(p: seq<string>, q: seq<string>, d: nat)
    requires d < |p| && d < |q| && p[..d] == q[..d] && p[d] == q[d] && !Comparable(p, q)
    ensures d + 1 < |p| && d + 1 < |q| && p[..d + 1] == q[..d + 1]
  {
    assert p[..d + 1] == p[..d] + [p[d]] && q[..d + 1] == q[..d] + [q[d]];
  }

  lemma SafeKept(s: Store, r: Ref, p: seq<string>, q: seq<string>, v: string)
    requires Sound(s) && Clean(s) && IsRoot(s, r) && p != [] && q != [] && Private(s, r, p) && Safe(s, r, q) && !Comparable(p, q)
    ensures Safe(Grow(s, Landing(s, r, p), Rest(s, r, p), v), r, q)
    ensures Depth(Grow(s, Landing(s, r, p), Rest(s, r, p), v), r, q) >= Depth(s, r, q)
  {
    var x, rest := Landing(s, r, p), Rest(s, r, p);
    LandingIsMapping(s, r, p);
    if MeetsAt(s, r, p, q) {
      MeetingPaths(s, r, p, q);
      WalkGoesOn(s, x, rest, v, r, q, Depth(s, r, p));
      SafeRest(s, r, q);
      PlainIsSafe(Grow(s, x, rest, v), Created(x, rest[0]), q[Depth(s, r, p) + 1..]);
    } else {
      WalkStays(s, x, rest, v, r, q);
    }
  }

  lemma {:induction false} SafeRest(s: Store, r: Ref, q: seq<string>)
    requires q != [] && Safe(s, r, q)
    ensures PROTO !in Rest(s, r, q)[1..]
    decreases |q|
  {
    if |q| > 1 && OwnEnters(s, r, q[0]) {
      SafeRest(s, Own(s, r)[q[0]].ref, q[1..]);
      assert Rest(s, r, q) == Rest(s, Own(s, r)[q[0]].ref, q[1..]);
    }
  }

  lemma {:induction false} PlainIsSafe(s: Store, r: Ref, q: seq<string>)
    requires q != [] && PROTO !in q
    ensures Safe(s, r, q)
    decreases |q|
  {
    if |q| > 1 && OwnEnters(s, r, q[0]) {
      PlainIsSafe(s, Own(s, r)[q[0]].ref, q[1..]);
    }
  }

  lemma PrivateKeptApart(s: Store, r: Ref, p: seq<string>, q: seq<string>, v: string)
    requires Sound(s) && Clean(s) && IsRoot(s, r) && IsValid(p) && q != [] && IsLocal(s, r, p) && Private(s, r, q)
    requires !MeetsAt(s, r, p, q)
    ensures Private(Grow(s, Landing(s, r, p), Rest(s, r, p), v), r, q)
  {
    var x, rest := Landing(s, r, p), Rest(s, r, p);
    var after := Grow(s, x, rest, v);
    AfterSafeWrite(s, r, p, v);
    WalkStays(s, x, rest, v, r, q);
    var z, j := Landing(after, r, q), Rest(after, r, q)[0];
    assert z == Landing(s, r, q) && j == Rest(s, r, q)[0];
    forall t | Leads(after, r, t, z, j) ensures t == q[..Depth(after, r, q)] {
      LeadsBack(s, x, rest, v, r, t, z, j);
    }
  }

  /** If one path leads to the property, every path to a mapping that the write created begins with it. */
  lemma OneWayIn(s: Store, x: Ref, rest: seq<string>, v: string, r: Ref, top: seq<string>, t: seq<string>, z: Ref, j: string)
    returns (down: seq<string>)
    requires Sound(s) && Clean(s) && x != Prototype && IsMapping(s, x) && |rest| > 1 && !Under(r, x, rest[0])
    requires forall q :: Leads(s, r, q, x, rest[0]) ==> q == top
    requires Leads(Grow(s, x, rest, v), r, t, z, j) && Under(z, x, rest[0])
    ensures t == top + ([rest[0]] + down) && Walks(Grow(s, x, rest, v), Created(x, rest[0]), down, z)
  {
    var after := Grow(s, x, rest, v);
    GrowMakesMapping(s, x, rest, v);
    GrowKeepsSound(s, x, rest, v);
    LeadsWalks(after, r, t, z, j);
    var i := WalksThrough(after, x, rest[0], r, t, z);
    if Under(x, x, rest[0]) {
      UnderIsDeeper(x, x, rest[0]);
    }
    LeadsBack(s, x, rest, v, r, t[..i], x, rest[0]);
    down := t[i + 1..];
    assert t == t[..i] + ([t[i]] + down);
  }

  /** Where a walk that goes on into the created mappings lands. */
  lemma LandsBelow(s: Store, x: Ref, rest: seq<string>, v: string, r: Ref, q: seq<string>, d: nat) returns (own: seq<string>)
    requires Sound(s) && Clean(s) && x != Prototype && IsMapping(s, x) && |rest| > 1 && d + 1 < |q| && !Under(r, x, rest[0])
    requires Depth(s, r, q) == d && Leads(s, r, q[..d], x, rest[0]) && q[d] == rest[0]
    ensures
      var after := Grow(s, x, rest, v);
      && Under(Landing(after, r, q), x, rest[0]) && Walks(after, Created(x, rest[0]), own, Landing(after, r, q))
      && q[..Depth(after, r, q)] == q[..d] + ([rest[0]] + own)
  {
    var after, f := Grow(s, x, rest, v), Created(x, rest[0]);
    GrowKeepsSound(s, x, rest, v);
    WalkGoesOn(s, x, rest, v, r, q, d);
    LandsUnder(after, f, q[d + 1..], x, rest[0]);
    LandingWalks(after, f, q[d + 1..]);
    own := q[d + 1..][..Depth(after, f, q[d + 1..])];
    assert q[..Depth(after, r, q)] == q[..d] + ([q[d]] + own);
  }

  lemma PrivateBelow(s: Store, x: Ref, rest: seq<string>, v: string, r: Ref, q: seq<string>, d: nat)
    requires Sound(s) && Clean(s) && x != Prototype && IsMapping(s, x) && |rest| > 1 && d + 1 < |q| && !Under(r, x, rest[0])
    requires Depth(s, r, q) == d && Leads(s, r, q[..d], x, rest[0]) && q[d] == rest[0]
    requires forall t :: Leads(s, r, t, x, rest[0]) ==> t == q[..d]
    ensures Private(Grow(s, x, rest, v), r, q)
  {
    var after := Grow(s, x, rest, v);
    GrowKeepsSound(s, x, rest, v);
    var own := LandsBelow(s, x, rest, v, r, q, d);
    var z, j := Landing(after, r, q), Rest(after, r, q)[0];
    forall t | Leads(after, r, t, z, j) ensures t == q[..Depth(after, r, q)] {
      var down := OneWayIn(s, x, rest, v, r, q[..d], t, z, j);
      OneWayDown(after, Created(x, rest[0]), down, own, z);
    }
  }

  lemma PrivateKeptBelow(s: Store, r: Ref, p: seq<string>, q: seq<string>, v: string)
    requires Sound(s) && Clean(s) && IsRoot(s, r) && IsValid(p) && q != [] && Safe(s, r, p) && Private(s, r, p) && !Comparable(p, q)
    requires MeetsAt(s, r, p, q)
    ensures Private(Grow(s, Landing(s, r, p), Rest(s, r, p), v), r, q)
  {
    var d := Depth(s, r, p);
    AfterSafeWrite(s, r, p, v);
    MeetingPaths(s, r, p, q);
    TakesAgree(p, q, d + 1, d);
    PrivateBelow(s, Landing(s, r, p), Rest(s, r, p), v, r, q, d);
  }

  /** Before the write at `q`, nothing is answered below its property that is not along `q`. */
  lemma NothingBeside(s: Store, r: Ref, q: seq<string>, t: seq<string>)
    requires q != [] && Private(s, r, q) && LosesNothing(s, r, q) && IsPrefix(q[..Depth(s, r, q) + 1], t) && !Comparable(q, t)
    ensures AnswerAt(s, r, t) == Nothing
  {
    var x, rest, d := Landing(s, r, q), Rest(s, r, q), Depth(s, r, q);
    MeetsAtEnd(s, r, q);
    assert t[..d + 1][..d] == t[..d] && q[..d + 1][..d] == q[..d] && t[d] == t[..d + 1][d] == q[d];
    BesideBelow(q, t, d);
    MeetingReads(s, r, t, d, x, rest, "");
    assert rest[1..] == q[d + 1..] && !Comparable(rest[1..], t[d + 1..]);
    if rest[0] in Own(s, x) {
      OnlyAlongIff(s, Own(s, x)[rest[0]], rest[1..]);
    }
  }

  lemma {:induction false} GrownDepth(s: Store, x: Ref, rest: seq<string>, v: string)
    requires rest != []
    ensures Depth(Grow(s, x, rest, v), x, rest) == |rest| - 1
    decreases |rest|
  {
    if |rest| > 1 {
      GrowMakesMapping(s, x, rest, v);
      GrownDepth(Create(s, x, rest[0]), Created(x, rest[0]), rest[1..], v);
    }
  }

  /** After a write, its own path leads all the way down. */
  lemma {:induction false} OwnDepth(s: Store, x: Ref, rest: seq<string>, v: string, y: Ref, p: seq<string>)
    requires Sound(s) && IsMapping(s, x) && rest != [] && p != [] && !Under(y, x, rest[0])
    requires Landing(s, y, p) == x && Rest(s, y, p) == rest && Leads(s, y, p[..Depth(s, y, p)], x, rest[0])
    ensures Depth(Grow(s, x, rest, v), y, p) == |p| - 1
    decreases |p|
  {
    if |p| > 1 && OwnEnters(s, y, p[0]) {
      EntersAsBefore(s, x, rest, v, y, p[0]);
      assert p[..Depth(s, y, p)][1..] == p[1..][..Depth(s, y, p) - 1];
      assert Rest(s, Own(s, y)[p[0]].ref, p[1..]) == rest;
      OwnDepth(s, x, rest, v, Own(s, y)[p[0]].ref, p[1..]);
    } else {
      GrownDepth(s, x, rest, v);
    }
  }

  lemma LosesNothingKept(s: Store, r: Ref, p: seq<string>, q: seq<string>, v: string)
    requires Sound(s) && Clean(s) && IsRoot(s, r) && IsValid(p) && IsValid(q) && IsLocal(s, r, p) && IsLocal(s, r, q) && !Comparable(p, q)
    requires Private(Grow(s, Landing(s, r, p), Rest(s, r, p), v), r, q)
    requires Depth(Grow(s, Landing(s, r, p), Rest(s, r, p), v), r, q) >= Depth(s, r, q)
    ensures LosesNothing(Grow(s, Landing(s, r, p), Rest(s, r, p), v), r, q)
  {
    var after := Grow(s, Landing(s, r, p), Rest(s, r, p), v);
    var z, rest, d := Landing(after, r, q), Rest(after, r, q), Depth(after, r, q);
    if rest[0] in Own(after, z) {
      forall t | !Comparable(rest[1..], t) ensures AnswerOf(after, Own(after, z)[rest[0]], t) == Nothing {
        var u := q[..d + 1] + t;
        assert u[..d] == q[..d] && u[d] == q[d] && u[d + 1..] == t;
        BesideBelow(q, u, d);
        MeetsAtEnd(after, r, q);
        MeetingReads(after, r, u, d, z, rest, v);
        StillNothing(s, r, p, q, u, v);
      }
      OnlyAlongIff(after, Own(after, z)[rest[0]], rest[1..]);
    }
  }

  lemma StillNothing(s: Store, r: Ref, p: seq<string>, q: seq<string>, u: seq<string>, v: string)
    requires Sound(s) && Clean(s) && IsRoot(s, r) && IsValid(p) && IsValid(q) && IsLocal(s, r, p) && IsLocal(s, r, q)
    requires !Comparable(p, q) && !Comparable(q, u)
    requires
      var d := Depth(Grow(s, Landing(s, r, p), Rest(s, r, p), v), r, q);
      d >= Depth(s, r, q) && IsPrefix(q[..d + 1], u)
    ensures AnswerAt(Grow(s, Landing(s, r, p), Rest(s, r, p), v), r, u) == Nothing
  {
    BesideBoth(s, r, p, q, u, v);
    LocalWrites(s, r, p, v);
    SafeWriteGrows(s, r, p, v);
    NothingBeside(s, r, q, u);
  }

  /** What hangs below the property that `q` sets after the write at `p` is beside `p` too. */
  lemma BesideBoth(s: Store, r: Ref, p: seq<string>, q: seq<string>, u: seq<string>, v: string)
    requires Sound(s) && Clean(s) && IsRoot(s, r) && p != [] && q != [] && Private(s, r, p) && !Comparable(p, q) && !Comparable(q, u)
    requires
      var d := Depth(Grow(s, Landing(s, r, p), Rest(s, r, p), v), r, q);
      d >= Depth(s, r, q) && IsPrefix(q[..d + 1], u)
    ensures !Comparable(p, u) && IsPrefix(q[..Depth(s, r, q) + 1], u)
  {
    var after := Grow(s, Landing(s, r, p), Rest(s, r, p), v);
    var d := Depth(after, r, q);
    TakesAgree(u, q, d + 1, Depth(s, r, q) + 1);
    if Comparable(p, u) {
      FollowsBoth(p, q, u, d + 1);
      SharedWalk(after, r, q, p);
      LandingIsMapping(s, r, p);
      MeetsAtEnd(s, r, p);
      OwnDepth(s, Landing(s, r, p), Rest(s, r, p), v, r, p);
    }
  }

  lemma TakesAgree(p: seq<string>, q: seq<string>, n: nat, m: nat)
    requires m <= n <= |p| && n <= |q| && p[..n] == q[..n]
    ensures p[..m] == q[..m]
  {
    assert p[..m] == p[..n][..m] && q[..m] == q[..n][..m];
  }

  lemma FollowsBoth(p: seq<string>, q: seq<string>, u: seq<string>, n: nat)
    requires n <= |q| && IsPrefix(q[..n], u) && !Comparable(p, q) && !Comparable(q, u) && Comparable(p, u)
    ensures n < |p| && n < |q| && p[..n] == q[..n]
  {
    if |p| <= n {
      TakesAgree(u, q, n, |p|);
    } else if IsPrefix(p, u) {
      assert u[..|p|][..n] == u[..n];
    } else {
      assert p[..|u|][..n] == p[..n];
    }
  }

  lemma LocalKept(s: Store, r: Ref, p: seq<string>, q: seq<string>, v: string)
    requires Sound(s) && Clean(s) && IsRoot(s, r) && IsValid(p) && IsValid(q) && IsLocal(s, r, p) && IsLocal(s, r, q) && !Comparable(p, q)
    ensures IsLocal(SetByPath(s, r, p, v).0, r, q)
  {
    SafeWriteGrows(s, r, p, v);
    SafeKept(s, r, p, q, v);
    if MeetsAt(s, r, p, q) {
      PrivateKeptBelow(s, r, p, q, v);
    } else {
      PrivateKeptApart(s, r, p, q, v);
    }
    LosesNothingKept(s, r, p, q, v);
  }

  // ---------------------------------------------------------------------------------------------
  // All writes
  // ---------------------------------------------------------------------------------------------

  /** An overlay entry whose variable is set: its path in segments, and the value. */
  datatype Write = Write(path: seq<string>, value: string)

  ghost predicate AllPaths(writes: seq<Write>) {
    forall w :: w in writes ==> w.path != []
  }

  /** The writes in order, up to the first that fails. */
  function Run(s: Store, r: Ref, writes: seq<Write>): (Store, Option<Error>)
    requires AllPaths(writes)
    decreases |writes|
  {
    if writes == [] then (s, None)
    else
      var (next, error) := SetByPath(s, r, writes[0].path, writes[0].value);
      if error.Some? then (next, error) else Run(next, r, writes[1..])
  }

  /** The writes that some environment selects: some of the paths, each once, in any order, with any values. */
  ghost predicate Selects(writes: seq<Write>, paths: set<seq<string>>) {
    && AllPaths(writes)
    && (forall w :: w in writes ==> w.path in paths)
    && forall i, j :: 0 <= i < j < |writes| ==> writes[i].path != writes[j].path
  }

  lemma SelectsRest(writes: seq<Write>, paths: set<seq<string>>)
    requires Selects(writes, paths) && writes != []
    ensures Selects(writes[1..], paths - {writes[0].path})
  {
    var rest := writes[1..];
    forall w | w in rest ensures w.path in paths - {writes[0].path} && w.path != [] {
      var j :| 0 <= j < |rest| && rest[j] == w;
      assert writes[j + 1] == w && writes[0].path != writes[j + 1].path;
    }
    forall i, j | 0 <= i < j < |rest| ensures rest[i].path != rest[j].path {
      assert writes[i + 1].path != writes[j + 1].path;
    }
  }

  ghost predicate PrefixFree(paths: set<seq<string>>) {
    forall p, q :: p in paths && q in paths && p != q ==> !Comparable(p, q)
  }

  ghost predicate Beside(writes: seq<Write>, q: seq<string>) {
    forall w :: w in writes ==> !Comparable(w.path, q)
  }

  /** All writes succeed, every value reads back, and every path beside all of them answers as before. */
  ghost predicate RunsLikeATree(s: Store, r: Ref, writes: seq<Write>)
    requires AllPaths(writes)
  {
    var (after, error) := Run(s, r, writes);
    && error == None && Clean(after)
    && (forall w :: w in writes ==> AnswerAt(after, r, w.path) == Said(w.value))
    && forall q :: Beside(writes, q) ==> AnswerAt(after, r, q) == AnswerAt(s, r, q)
  }

  lemma {:induction false} LocalRuns(s: Store, r: Ref, writes: seq<Write>, paths: set<seq<string>>)
    requires Sound(s) && Clean(s) && IsRoot(s, r) && Selects(writes, paths) && PrefixFree(paths)
    requires forall w :: w in writes ==> IsValid(w.path) && IsLocal(s, r, w.path)
    ensures RunsLikeATree(s, r, writes)
    decreases |writes|
  {
    if writes != [] {
      var first, rest := writes[0], writes[1..];
      assert writes == [first] + rest;
      var next := SetByPath(s, r, first.path, first.value).0;
      LocalWrites(s, r, first.path, first.value);
      AfterSafeWrite(s, r, first.path, first.value);
      forall w | w in rest ensures !Comparable(first.path, w.path) && IsLocal(next, r, w.path) {
        var j :| 0 <= j < |rest| && rest[j] == w;
        assert writes[j + 1] == w && writes[0].path != writes[j + 1].path;
        LocalKept(s, r, first.path, w.path, first.value);
      }
      LocalRuns(next, r, rest, paths);
      RunsOn(s, r, writes);
    }
  }

  lemma RunsOn(s: Store, r: Ref, writes: seq<Write>)
    requires AllPaths(writes) && writes != [] && WritesLikeATree(s, r, writes[0].path, writes[0].value)
    requires RunsLikeATree(SetByPath(s, r, writes[0].path, writes[0].value).0, r, writes[1..])
    requires forall w :: w in writes[1..] ==> !Comparable(writes[0].path, w.path)
    ensures RunsLikeATree(s, r, writes)
  {
    var next, after := SetByPath(s, r, writes[0].path, writes[0].value).0, Run(s, r, writes).0;
    assert writes == [writes[0]] + writes[1..];
    forall w | w in writes[1..] ensures !Comparable(w.path, writes[0].path) {
      assert !Comparable(writes[0].path, w.path);
    }
    forall q | Beside(writes, q) ensures AnswerAt(after, r, q) == AnswerAt(s, r, q) {
      assert Beside(writes[1..], q);
    }
  }

  lemma {:induction false} InvalidFails(s: Store, r: Ref, path: seq<string>, v: string)
    requires path != [] && !IsValid(path)
    ensures SetByPath(s, r, path, v).1.Some?
    decreases |path|
  {
    if |path| > 1 {
      if Enters(s, r, path[0]) {
        InvalidFails(s, Get(s, r, path[0]).value.ref, path[1..], v);
      } else if !IsAccessor(s, r, path[0]) {
        InvalidFails(Create(s, r, path[0]), Created(r, path[0]), path[1..], v);
      }
    }
  }

  /** Two values cannot both read back when one path is a prefix of the other. */
  lemma {:induction false} NothingBelowAValue(s: Store, from: Value, p: seq<string>, q: seq<string>)
    requires IsPrefix(p, q) && p != q && AnswerOf(s, from, p).Said?
    ensures AnswerOf(s, from, q) == Nothing
    decreases |p|
  {
    if p != [] {
      assert q[..|p|][0] == q[0] && q[..|p|][1..] == q[1..][..|p| - 1];
      assert p == [p[0]] + p[1..] && q == [q[0]] + q[1..];
      NothingBelowAValue(s, Own(s, from.ref)[p[0]], p[1..], q[1..]);
    }
  }

  lemma OneWriteRuns(s: Store, r: Ref, p: seq<string>, v: string)
    requires p != [] && AllPaths([Write(p, v)]) && RunsLikeATree(s, r, [Write(p, v)])
    ensures WritesLikeATree(s, r, p, v)
  {
    var one := [Write(p, v)];
    assert one[0] in one && one[1..] == [];
    var after := SetByPath(s, r, p, v).0;
    assert Run(after, r, one[1..]) == (after, None);
    assert Run(s, r, one).0 == after;
    forall q | !Comparable(p, q) ensures AnswerAt(after, r, q) == AnswerAt(s, r, q) {
      assert Beside(one, q);
    }
  }

  lemma OnlyLocalRuns(s: Store, r: Ref, paths: set<seq<string>>, p: seq<string>)
    requires Sound(s) && Clean(s) && IsRoot(s, r) && [] !in paths && p in paths
    requires forall writes :: Selects(writes, paths) ==> RunsLikeATree(s, r, writes)
    ensures IsValid(p) && IsLocal(s, r, p)
  {
    forall v ensures WritesLikeATree(s, r, p, v) {
      assert Selects([Write(p, v)], paths);
      OneWriteRuns(s, r, p, v);
    }
    assert WritesLikeATree(s, r, p, "");
    if IsValid(p) {
      WriteIsLocalIff(s, r, p);
    } else {
      InvalidFails(s, r, p, "");
    }
  }

  lemma OnlyPrefixFreeRuns(s: Store, r: Ref, paths: set<seq<string>>, p: seq<string>, q: seq<string>)
    requires [] !in paths && p in paths && q in paths && p != q && IsPrefix(p, q)
    ensures exists writes :: Selects(writes, paths) && !RunsLikeATree(s, r, writes)
  {
    var two := [Write(p, ""), Write(q, "")];
    assert Selects(two, paths);
    assert two[0] in two && two[1] in two;
    if RunsLikeATree(s, r, two) {
      NothingBelowAValue(Run(s, r, two).0, At(r), p, q);
    }
  }

  /**
   * An overlay does what it says, whatever the environment selects and in whatever order, exactly when its paths are valid,
   * none is a prefix of another, and each is local in the target.
   */
  lemma OverlayIsLocalIff(s: Store, r: Ref, paths: set<seq<string>>)
    requires Sound(s) && Clean(s) && IsRoot(s, r) && [] !in paths
    ensures (forall writes :: Selects(writes, paths) ==> RunsLikeATree(s, r, writes)) <==>
            (PrefixFree(paths) && forall p :: p in paths ==> IsValid(p) && IsLocal(s, r, p))
  {
    if PrefixFree(paths) && forall p :: p in paths ==> IsValid(p) && IsLocal(s, r, p) {
      forall writes | Selects(writes, paths) ensures RunsLikeATree(s, r, writes) {
        LocalRuns(s, r, writes, paths);
      }
    } else if !PrefixFree(paths) {
      var p, q :| p in paths && q in paths && p != q && Comparable(p, q);
      if IsPrefix(p, q) {
        OnlyPrefixFreeRuns(s, r, paths, p, q);
      } else {
        OnlyPrefixFreeRuns(s, r, paths, q, p);
      }
    } else if forall writes :: Selects(writes, paths) ==> RunsLikeATree(s, r, writes) {
      forall p | p in paths ensures IsValid(p) && IsLocal(s, r, p) {
        OnlyLocalRuns(s, r, paths, p);
      }
    }
  }
}
