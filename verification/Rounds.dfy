/** Two devices pulling from each other (`engine/internal/syncengine/syncengine.go`):
    where rounds of pulls lead, and what they keep. */
module Rounds {
  import opened Basics
  import opened Reconcile

  /** What one device holds: its folder and the baseline of its last successful pull. */
  datatype Device<P, C, H> = Device(files: map<P, C>, base: map<P, H>)

  /** `indexHashes`: the digest of every file. */
  function Digests<P, C, H>(digest: C -> H, f: map<P, C>): map<P, H> {
    map p | p in f :: digest(f[p])
  }

  ghost predicate Injective<C(!new), H>(digest: C -> H, u: iset<C>) {
    forall x, y :: x in u && y in u && digest(x) == digest(y) ==> x == y
  }

  ghost predicate Within<P, C>(f: map<P, C>, u: iset<C>) {
    forall p :: p in f ==> f[p] in u
  }

  function PlansOf<P, C, H(==)>(digest: C -> H, d: Device<P, C, H>, r: map<P, C>): map<P, Plan> {
    PlansFor(Digests(digest, d.files), Digests(digest, r), d.base)
  }

  /** `PullFolder` succeeded: `d` pulled the folder `r`, conflict copies went to fresh
      names, and the rescanned folder became the baseline. */
  ghost predicate Pulled<P(!new), C, H>(digest: C -> H, d: Device<P, C, H>, r: map<P, C>, names: map<P, P>,
                                        d': Device<P, C, H>)
  {
    && Fresh(names, PlansOf(digest, d, r), d.files, r)
    && IsMerge(d.files, r, PlansOf(digest, d, r), names, d'.files)
    && d'.base == Digests(digest, d'.files)
  }

  ghost predicate Synced<P, C, H>(digest: C -> H, a: Device<P, C, H>, b: Device<P, C, H>) {
    a.files == b.files && a.base == b.base == Digests(digest, a.files)
  }

  // ----- one pull -------------------------------------------------------------

  lemma PullStaysWithin<P(!new), C(!new), H>(digest: C -> H, u: iset<C>, d: Device<P, C, H>, r: map<P, C>,
                                             names: map<P, P>, d': Device<P, C, H>)
    requires Pulled(digest, d, r, names, d') && Within(d.files, u) && Within(r, u)
    ensures Within(d'.files, u) && d.files.Keys + r.Keys <= d'.files.Keys
  {
    MergeWithin(d.files, r, PlansOf(digest, d, r), names, d'.files, u);
  }

  lemma PullPathsWithin<P(!new), C(!new), H>(digest: C -> H, u: iset<P>, d: Device<P, C, H>, r: map<P, C>,
                                             names: map<P, P>, d': Device<P, C, H>)
    requires Pulled(digest, d, r, names, d')
    requires forall p :: p in d.files || p in r ==> p in u
    requires forall p :: Aside(PlansOf(digest, d, r), p) && p in names ==> names[p] in u
    ensures forall q :: q in d'.files ==> q in u
  {
    MergePathsWithin(d.files, r, PlansOf(digest, d, r), names, d'.files, u);
  }

  /** One path through a pull. */
  lemma PullAt<P(!new), C(!new), H>(digest: C -> H, u: iset<C>, d: Device<P, C, H>, r: map<P, C>, names: map<P, P>,
                                    d': Device<P, C, H>, p: P)
    requires Injective(digest, u) && Within(d.files, u) && Within(r, u)
    requires Pulled(digest, d, r, names, d') && (p in d.files || p in r)
    ensures p in d'.files
    ensures d'.files[p] == if p !in r then d.files[p]
                           else if p !in d.files || Lookup(d.base, p) == Some(digest(d.files[p])) then r[p]
                           else d.files[p]
    ensures Aside(PlansOf(digest, d, r), p) <==>
              p in d.files && p in r && d.files[p] != r[p]
              && Lookup(d.base, p) !in {Some(digest(d.files[p])), Some(digest(r[p]))}
  {
  }

  lemma OnlyKnownPaths<P(!new), C(!new), H>(digest: C -> H, d: Device<P, C, H>, r: map<P, C>, names: map<P, P>,
                                            d': Device<P, C, H>)
    requires Pulled(digest, d, r, names, d') && forall p :: p in r ==> !Aside(PlansOf(digest, d, r), p)
    ensures d'.files.Keys == d.files.Keys + r.Keys
  {
    var plans := PlansOf(digest, d, r);
    forall q | q in d'.files
      ensures q in d.files || q in r
    {
      assert !IsCopy(names, plans, r.Keys, q);
    }
  }

  /** A local content is replaced only where it is the recorded baseline. */
  lemma PullKeeps<P(!new), C(!new), H>(digest: C -> H, d: Device<P, C, H>, r: map<P, C>, names: map<P, P>,
                                       d': Device<P, C, H>, p: P)
    requires Pulled(digest, d, r, names, d') && p in d.files
    ensures p in d'.files
    ensures d'.files[p] == d.files[p] || Lookup(d.base, p) == Some(digest(d.files[p]))
  {
  }

  /** A remote content arrives, under its own path or a conflict name, unless it is
      the recorded baseline. */
  lemma PullBrings<P(!new), C(!new), H>(digest: C -> H, u: iset<C>, d: Device<P, C, H>, r: map<P, C>,
                                        names: map<P, P>, d': Device<P, C, H>, p: P) returns (q: P)
    requires Injective(digest, u) && Within(d.files, u) && Within(r, u)
    requires Pulled(digest, d, r, names, d') && p in r && Lookup(d.base, p) != Some(digest(r[p]))
    ensures q in d'.files && d'.files[q] == r[p]
  {
    var plans := PlansOf(digest, d, r);
    q := if plans[p] == FetchAside then names[p] else p;
    assert plans[p] == FetchAside ==> Aside(plans, p);
  }

  /** A device whose baseline is its own folder takes everything the peer has: a second
      pull in a row overwrites whatever the first one kept or set aside. */
  lemma SecondPullTakesRemote<P(!new), C(!new), H>(digest: C -> H, u: iset<C>, d: Device<P, C, H>, r: map<P, C>,
                                                   names: map<P, P>, d': Device<P, C, H>)
    requires Injective(digest, u) && Within(d.files, u) && Within(r, u)
    requires d.base == Digests(digest, d.files) && Pulled(digest, d, r, names, d')
    ensures d'.files == d.files + r
  {
    forall p | p in d.files || p in r
      ensures p in d'.files && d'.files[p] == (d.files + r)[p] && !Aside(PlansOf(digest, d, r), p)
    {
      PullAt(digest, u, d, r, names, d', p);
    }
    OnlyKnownPaths(digest, d, r, names, d');
  }

  /** With its own folder as baseline a device sets nothing aside. */
  lemma OwnBaselineSetsNothingAside<P(!new), C, H>(digest: C -> H, d: Device<P, C, H>, r: map<P, C>)
    requires d.base == Digests(digest, d.files)
    ensures forall p :: !Aside(PlansOf(digest, d, r), p)
  {
  }

  lemma OverrideAll<P, C>(f: map<P, C>, g: map<P, C>)
    requires f.Keys <= g.Keys
    ensures f + g == g
  {
  }

  /** A device without a content of its own becomes a copy of the peer. */
  lemma FastForward<P(!new), C(!new), H>(digest: C -> H, u: iset<C>, d: Device<P, C, H>, r: map<P, C>,
                                         names: map<P, P>, d': Device<P, C, H>)
    requires Injective(digest, u) && Within(d.files, u) && Within(r, u) && Pulled(digest, d, r, names, d')
    requires forall p :: p in d.files ==>
               p in r && (r[p] == d.files[p] || Lookup(d.base, p) == Some(digest(d.files[p])))
    ensures d'.files == r
    ensures forall p :: !Aside(PlansOf(digest, d, r), p)
  {
    forall p | p in r
      ensures p in d'.files && d'.files[p] == r[p] && !Aside(PlansOf(digest, d, r), p)
    {
      PullAt(digest, u, d, r, names, d', p);
    }
    OnlyKnownPaths(digest, d, r, names, d');
  }

  // ----- alternating pulls ----------------------------------------------------

  /** From any two folders and any two baselines, A, B, A, B pulling in turn ends with
      both folders and both baselines equal. */
  lemma AlternatingPullsConverge<P(!new), C(!new), H>(
    digest: C -> H, u: iset<C>, a0: Device<P, C, H>, b0: Device<P, C, H>,
    n1: map<P, P>, a1: Device<P, C, H>, n2: map<P, P>, b1: Device<P, C, H>,
    n3: map<P, P>, a2: Device<P, C, H>, n4: map<P, P>, b2: Device<P, C, H>)
    requires Injective(digest, u) && Within(a0.files, u) && Within(b0.files, u)
    requires Pulled(digest, a0, b0.files, n1, a1) && Pulled(digest, b0, a1.files, n2, b1)
    requires Pulled(digest, a1, b1.files, n3, a2) && Pulled(digest, b1, a2.files, n4, b2)
    ensures Synced(digest, a2, b2) && a2.files == b1.files
  {
    PullStaysWithin(digest, u, a0, b0.files, n1, a1);
    PullStaysWithin(digest, u, b0, a1.files, n2, b1);
    SecondPullTakesRemote(digest, u, a1, b1.files, n3, a2);
    OverrideAll(a1.files, b1.files);
    OverrideAll(b1.files, a2.files);
    SecondPullTakesRemote(digest, u, b1, a2.files, n4, b2);
  }

  /** After the four pulls a content that was on B is still there unless it was B's
      baseline, and one that was on A unless it was A's or B's. */
  lemma AlternatingPullsKeepEdits<P(!new), C(!new), H>(
    digest: C -> H, u: iset<C>, a0: Device<P, C, H>, b0: Device<P, C, H>,
    n1: map<P, P>, a1: Device<P, C, H>, n2: map<P, P>, b1: Device<P, C, H>, p: P)
    requires Injective(digest, u) && Within(a0.files, u) && Within(b0.files, u)
    requires Pulled(digest, a0, b0.files, n1, a1) && Pulled(digest, b0, a1.files, n2, b1)
    ensures p in b0.files && Lookup(b0.base, p) != Some(digest(b0.files[p])) ==> Holds(b1.files, b0.files[p])
    ensures p in a0.files && Some(digest(a0.files[p])) !in {Lookup(a0.base, p), Lookup(b0.base, p)} ==>
              Holds(b1.files, a0.files[p])
  {
    PullStaysWithin(digest, u, a0, b0.files, n1, a1);
    if p in b0.files && Lookup(b0.base, p) != Some(digest(b0.files[p])) {
      PullKeeps(digest, b0, a1.files, n2, b1, p);
    }
    if p in a0.files && Some(digest(a0.files[p])) !in {Lookup(a0.base, p), Lookup(b0.base, p)} {
      PullKeeps(digest, a0, b0.files, n1, a1, p);
      var q := PullBrings(digest, u, b0, a1.files, n2, b1, p);
    }
  }

  /** Some path of `f` has the content `x`. */
  ghost predicate Holds<P(!new), C>(f: map<P, C>, x: C) {
    exists p :: p in f && f[p] == x
  }

  /** Everything that `edited` has and `f` does not have at the same path. */
  ghost predicate EditsSurvive<P(!new), C>(f: map<P, C>, edited: map<P, C>, result: map<P, C>) {
    forall p :: p in edited && (p !in f || f[p] != edited[p]) ==> Holds(result, edited[p])
  }

  /** Arbitrary edits on both sides, then two alternating rounds. */
  datatype Epoch<P, C, H> = Epoch(
    aEdit: map<P, C>, bEdit: map<P, C>,
    n1: map<P, P>, a1: Device<P, C, H>, n2: map<P, P>, b1: Device<P, C, H>,
    n3: map<P, P>, a2: Device<P, C, H>, n4: map<P, P>, b2: Device<P, C, H>)

  ghost predicate IsEpoch<P(!new), C(!new), H>(digest: C -> H, u: iset<C>, a: Device<P, C, H>, b: Device<P, C, H>,
                                               e: Epoch<P, C, H>)
  {
    && Within(e.aEdit, u) && Within(e.bEdit, u)
    && Pulled(digest, a.(files := e.aEdit), e.bEdit, e.n1, e.a1)
    && Pulled(digest, b.(files := e.bEdit), e.a1.files, e.n2, e.b1)
    && Pulled(digest, e.a1, e.b1.files, e.n3, e.a2)
    && Pulled(digest, e.b1, e.a2.files, e.n4, e.b2)
  }

  ghost predicate IsEpochRun<P(!new), C(!new), H>(digest: C -> H, u: iset<C>, a: Device<P, C, H>, b: Device<P, C, H>,
                                                  run: seq<Epoch<P, C, H>>)
    decreases |run|
  {
    run == [] || (IsEpoch(digest, u, a, b, run[0]) && IsEpochRun(digest, u, run[0].a2, run[0].b2, run[1..]))
  }

  lemma EpochSyncsAndKeepsEdits<P(!new), C(!new), H>(digest: C -> H, u: iset<C>, a: Device<P, C, H>, b: Device<P, C, H>,
                                                     e: Epoch<P, C, H>)
    requires Injective(digest, u) && Within(a.files, u) && Synced(digest, a, b) && IsEpoch(digest, u, a, b, e)
    ensures Synced(digest, e.a2, e.b2) && Within(e.a2.files, u)
    ensures EditsSurvive(a.files, e.aEdit, e.a2.files) && EditsSurvive(a.files, e.bEdit, e.a2.files)
  {
    var a0, b0 := a.(files := e.aEdit), b.(files := e.bEdit);
    AlternatingPullsConverge(digest, u, a0, b0, e.n1, e.a1, e.n2, e.b1, e.n3, e.a2, e.n4, e.b2);
    PullStaysWithin(digest, u, a0, e.bEdit, e.n1, e.a1);
    PullStaysWithin(digest, u, b0, e.a1.files, e.n2, e.b1);
    forall p | p in e.aEdit && (p !in a.files || a.files[p] != e.aEdit[p])
      ensures Holds(e.a2.files, e.aEdit[p])
    {
      AlternatingPullsKeepEdits(digest, u, a0, b0, e.n1, e.a1, e.n2, e.b1, p);
    }
    forall p | p in e.bEdit && (p !in a.files || a.files[p] != e.bEdit[p])
      ensures Holds(e.a2.files, e.bEdit[p])
    {
      AlternatingPullsKeepEdits(digest, u, a0, b0, e.n1, e.a1, e.n2, e.b1, p);
    }
  }

  /** Over any number of epochs with any edits, conflicting ones included, both devices
      are in sync after each epoch and hold every edit made in it. */
  lemma {:induction false} EpochRunsConverge<P(!new), C(!new), H>(digest: C -> H, u: iset<C>, a: Device<P, C, H>,
                                                                  b: Device<P, C, H>, run: seq<Epoch<P, C, H>>, i: nat)
    requires Injective(digest, u) && Within(a.files, u) && Synced(digest, a, b)
    requires IsEpochRun(digest, u, a, b, run) && i < |run|
    ensures var before := if i == 0 then a.files else run[i - 1].a2.files;
            && Synced(digest, run[i].a2, run[i].b2)
            && EditsSurvive(before, run[i].aEdit, run[i].a2.files)
            && EditsSurvive(before, run[i].bEdit, run[i].a2.files)
    decreases i
  {
    EpochSyncsAndKeepsEdits(digest, u, a, b, run[0]);
    if i > 0 {
      EpochRunsConverge(digest, u, run[0].a2, run[0].b2, run[1..], i - 1);
    }
  }

  // ----- one round without conflicting edits -----------------------------------

  /** No path was changed differently on both sides. */
  ghost predicate NoClash<P(!new), C>(f: map<P, C>, a: map<P, C>, b: map<P, C>) {
    forall p :: p in a && p in b && a[p] != b[p] ==> p in f && (a[p] == f[p] || b[p] == f[p])
  }

  /** The union of the paths, with the edited content where one side edited. */
  function Join<P, C(==)>(f: map<P, C>, a: map<P, C>, b: map<P, C>): map<P, C> {
    map p | p in a.Keys + b.Keys ::
      if p !in a then b[p]
      else if p in b && p in f && a[p] == f[p] then b[p]
      else a[p]
  }

  lemma JoinContainsEdits<P(!new), C>(f: map<P, C>, a: map<P, C>, b: map<P, C>)
    requires NoClash(f, a, b)
    ensures var j := Join(f, a, b);
            && j.Keys == a.Keys + b.Keys
            && (forall p :: p in a && (p !in f || a[p] != f[p]) ==> j[p] == a[p])
            && (forall p :: p in b && (p !in f || b[p] != f[p]) ==> j[p] == b[p])
            && (forall p :: p in j ==> (p in a && j[p] == a[p]) || (p in b && j[p] == b[p]))
  {
  }

  datatype Round<P, C, H> = Round(
    aEdit: map<P, C>, bEdit: map<P, C>,
    n1: map<P, P>, a1: Device<P, C, H>, n2: map<P, P>, b1: Device<P, C, H>)

  ghost predicate IsRound<P(!new), C(!new), H>(digest: C -> H, u: iset<C>, a: Device<P, C, H>, b: Device<P, C, H>,
                                               r: Round<P, C, H>)
  {
    && Within(r.aEdit, u) && Within(r.bEdit, u) && NoClash(a.files, r.aEdit, r.bEdit)
    && Pulled(digest, a.(files := r.aEdit), r.bEdit, r.n1, r.a1)
    && Pulled(digest, b.(files := r.bEdit), r.a1.files, r.n2, r.b1)
  }

  ghost predicate IsRoundRun<P(!new), C(!new), H>(digest: C -> H, u: iset<C>, a: Device<P, C, H>, b: Device<P, C, H>,
                                                  run: seq<Round<P, C, H>>)
    decreases |run|
  {
    run == [] || (IsRound(digest, u, a, b, run[0]) && IsRoundRun(digest, u, run[0].a1, run[0].b1, run[1..]))
  }

  /** Without a clash nothing is set aside. */
  lemma NoClashSetsNothingAside<P(!new), C, H>(digest: C -> H, f: map<P, C>, d: Device<P, C, H>, r: map<P, C>)
    requires d.base == Digests(digest, f) && NoClash(f, d.files, r)
    ensures forall p :: !Aside(PlansOf(digest, d, r), p)
  {
  }

  /** The first pull of the round makes no conflict copy and joins the two folders. */
  lemma FirstPullJoins<P(!new), C(!new), H>(digest: C -> H, u: iset<C>, f: map<P, C>, a: Device<P, C, H>, b: map<P, C>,
                                            n1: map<P, P>, a1: Device<P, C, H>)
    requires Injective(digest, u) && Within(f, u) && Within(a.files, u) && Within(b, u)
    requires a.base == Digests(digest, f) && NoClash(f, a.files, b) && Pulled(digest, a, b, n1, a1)
    ensures a1.files == Join(f, a.files, b)
    ensures forall p :: !Aside(PlansOf(digest, a, b), p)
  {
    var j := Join(f, a.files, b);
    forall p: P
      ensures p in j ==> p in a1.files && a1.files[p] == j[p]
      ensures !Aside(PlansOf(digest, a, b), p)
    {
      if p in j {
        PullAt(digest, u, a, b, n1, a1, p);
      }
    }
    OnlyKnownPaths(digest, a, b, n1, a1);
  }

  /** Where the join differs from B's side, B still has the old content. */
  lemma JoinDiffers<P(!new), C>(f: map<P, C>, a: map<P, C>, b: map<P, C>, p: P)
    requires NoClash(f, a, b) && p in b && Join(f, a, b)[p] != b[p]
    ensures p in f && b[p] == f[p]
  {
  }

  lemma JoinDoesNotClash<P(!new), C>(f: map<P, C>, a: map<P, C>, b: map<P, C>)
    requires NoClash(f, a, b)
    ensures NoClash(f, b, Join(f, a, b))
  {
    forall p | p in b && Join(f, a, b)[p] != b[p]
      ensures p in f && b[p] == f[p]
    {
      JoinDiffers(f, a, b, p);
    }
  }

  lemma SecondPullCopiesJoin<P(!new), C(!new), H>(digest: C -> H, u: iset<C>, f: map<P, C>, a: map<P, C>,
                                                  b: Device<P, C, H>, j: map<P, C>, n2: map<P, P>, b1: Device<P, C, H>)
    requires Injective(digest, u) && Within(f, u) && Within(a, u) && Within(b.files, u)
    requires b.base == Digests(digest, f) && NoClash(f, a, b.files) && j == Join(f, a, b.files)
    requires Pulled(digest, b, j, n2, b1)
    ensures b1.files == j
    ensures forall p :: !Aside(PlansOf(digest, b, j), p)
  {
    forall p | p in b.files
      ensures p in j && (j[p] == b.files[p] || Lookup(b.base, p) == Some(digest(b.files[p])))
    {
      if j[p] != b.files[p] {
        JoinDiffers(f, a, b.files, p);
      }
    }
    FastForward(digest, u, b, j, n2, b1);
  }

  /** From a synced pair, edits that do not clash and one round (A pulls, B pulls)
      restore sync on the union of the paths with every edit and no conflict copy. */
  lemma RoundJoins<P(!new), C(!new), H>(digest: C -> H, u: iset<C>, a: Device<P, C, H>, b: Device<P, C, H>, r: Round<P, C, H>)
    requires Injective(digest, u) && Within(a.files, u) && Synced(digest, a, b) && IsRound(digest, u, a, b, r)
    ensures Synced(digest, r.a1, r.b1) && r.a1.files == Join(a.files, r.aEdit, r.bEdit) && Within(r.a1.files, u)
    ensures forall p :: !Aside(PlansOf(digest, a.(files := r.aEdit), r.bEdit), p)
                        && !Aside(PlansOf(digest, b.(files := r.bEdit), r.a1.files), p)
  {
    FirstPullJoins(digest, u, a.files, a.(files := r.aEdit), r.bEdit, r.n1, r.a1);
    SecondPullCopiesJoin(digest, u, a.files, r.aEdit, b.(files := r.bEdit), r.a1.files, r.n2, r.b1);
  }

  /** The same after any number of edit-and-round steps. */
  lemma {:induction false} RoundRunsJoin<P(!new), C(!new), H>(digest: C -> H, u: iset<C>, a: Device<P, C, H>,
                                                              b: Device<P, C, H>, run: seq<Round<P, C, H>>, i: nat)
    requires Injective(digest, u) && Within(a.files, u) && Synced(digest, a, b)
    requires IsRoundRun(digest, u, a, b, run) && i < |run|
    ensures var before := if i == 0 then a.files else run[i - 1].a1.files;
            && Synced(digest, run[i].a1, run[i].b1)
            && NoClash(before, run[i].aEdit, run[i].bEdit)
            && run[i].a1.files == Join(before, run[i].aEdit, run[i].bEdit)
    decreases i
  {
    RoundJoins(digest, u, a, b, run[0]);
    if i > 0 {
      RoundRunsJoin(digest, u, run[0].a1, run[0].b1, run[1..], i - 1);
    }
  }

  // ----- two pulls in a row are not safe ----------------------------------------

  /** Whether a second pull from an unchanged peer leaves a path alone: exactly when
      the peer does not have the path or has the same content there. */
  lemma SecondPullKeepsExactly<P(!new), C(!new), H>(digest: C -> H, u: iset<C>, a0: Device<P, C, H>, r: map<P, C>,
                                                    n1: map<P, P>, a1: Device<P, C, H>, n2: map<P, P>, a2: Device<P, C, H>, p: P)
    requires Injective(digest, u) && Within(a0.files, u) && Within(r, u)
    requires Pulled(digest, a0, r, n1, a1) && Pulled(digest, a1, r, n2, a2) && p in a1.files
    ensures p in a2.files && (a2.files[p] == a1.files[p] <==> (p in r ==> r[p] == a1.files[p]))
  {
    PullStaysWithin(digest, u, a0, r, n1, a1);
    SecondPullTakesRemote(digest, u, a1, r, n2, a2);
  }

  /** An index that does not arrive is as bad: A pulls, B pulls nothing, A pulls, B pulls.
      The stale file is on both sides and the edit gone. */
  lemma UndeliveredIndexLosesAnEdit<P(!new), C(!new), H>(digest: C -> H, p: P, stale: C, edit: C,
                                                         a0: Device<P, C, H>, b0: Device<P, C, H>,
                                                         n1: map<P, P>, a1: Device<P, C, H>, n2: map<P, P>, b1: Device<P, C, H>,
                                                         n3: map<P, P>, a2: Device<P, C, H>, n4: map<P, P>, b2: Device<P, C, H>)
    requires digest(stale) != digest(edit)
    requires a0 == Device(map[p := edit], map[p := digest(stale)])
    requires b0 == Device(map[p := stale], map[p := digest(stale)])
    requires Pulled(digest, a0, b0.files, n1, a1) && Pulled(digest, b0, map[], n2, b1)
    requires Pulled(digest, a1, b1.files, n3, a2) && Pulled(digest, b1, a2.files, n4, b2)
    ensures a2.files == b2.files == map[p := stale]
  {
    PullOfNothing(digest, b0, n2, b1);
    TwoPullsInARowLoseAnEdit(digest, p, stale, edit, a0, b0.files, n1, a1, n3, a2);
    PullOfTheSame(digest, b1, n4, b2);
  }

  lemma PullOfTheSame<P(!new), C(!new), H>(digest: C -> H, d: Device<P, C, H>, names: map<P, P>, d': Device<P, C, H>)
    requires Pulled(digest, d, d.files, names, d')
    ensures d'.files == d.files
  {
    OnlyKnownPaths(digest, d, d.files, names, d');
  }

  lemma PullOfNothing<P(!new), C(!new), H>(digest: C -> H, d: Device<P, C, H>, names: map<P, P>, d': Device<P, C, H>)
    requires Pulled(digest, d, map[], names, d')
    ensures d'.files == d.files && d'.base == Digests(digest, d.files)
  {
    OnlyKnownPaths(digest, d, map[], names, d');
  }

  lemma SameSingleton<P, C>(m: map<P, C>, p: P, x: C)
    requires m.Keys == {p} && m[p] == x
    ensures m == map[p := x]
  {
  }

  /** The stale file wins: A edits `p`, B does not, A pulls twice. The edit is gone from
      A although B never saw it. */
  lemma TwoPullsInARowLoseAnEdit<P(!new), C(!new), H>(digest: C -> H, p: P, stale: C, edit: C,
                                                      a0: Device<P, C, H>, r: map<P, C>, n1: map<P, P>,
                                                      a1: Device<P, C, H>, n2: map<P, P>, a2: Device<P, C, H>)
    requires digest(stale) != digest(edit)
    requires a0 == Device(map[p := edit], map[p := digest(stale)]) && r == map[p := stale]
    requires Pulled(digest, a0, r, n1, a1) && Pulled(digest, a1, r, n2, a2)
    ensures a1.files == map[p := edit] && a2.files == map[p := stale]
  {
    var u := iset{stale, edit};
    PullAt(digest, u, a0, r, n1, a1, p);
    OnlyKnownPaths(digest, a0, r, n1, a1);
    SameSingleton(a1.files, p, edit);
    SecondPullTakesRemote(digest, u, a1, r, n2, a2);
    SameSingleton(a2.files, p, stale);
  }
}
