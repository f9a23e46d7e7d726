/** What one pull does to a whole folder, and where alternating pulls lead
    (`engine/internal/session/session.go`, `engine/internal/syncengine/syncengine.go`). */
module Reconcile {
  import opened Basics

  // Nothing here depends on what paths and contents are, so the proofs are generic in
  // the path type P and the content type C.

  datatype Resolution = TakeRemote | KeepLocal | ConflictCopy

  /** `baseline` is None where the Go map yields the zero hash. */
  function Classify<H(==)>(local: H, remote: H, baseline: Option<H>): Resolution {
    if baseline == Some(local) then TakeRemote
    else if baseline == Some(remote) then KeepLocal
    else ConflictCopy
  }

  /** What a pull does with one remote file. */
  datatype Plan = Skip | Fetch | FetchAside

  /** `local` is the digest of the file here and `baseline` what the last sync recorded
      for the path, if there is any; `tracked` says that there is a baseline map at all. */
  function PlanFor<H(==)>(local: Option<H>, remote: H, tracked: bool, baseline: Option<H>): Plan {
    if local == None then Fetch
    else if local.value == remote then Skip
    else if !tracked then Fetch
    else
      match Classify(local.value, remote, baseline)
      case TakeRemote => Fetch
      case KeepLocal => Skip
      case ConflictCopy => FetchAside
  }

  /** The decisions of a pull for every file of the peer: the index scanned at its
      start, the peer's index and the baseline settle them. */
  function PlansFor<P, H(==)>(local: map<P, H>, remote: map<P, H>, base: map<P, H>): map<P, Plan> {
    map p | p in remote :: PlanFor(Lookup(local, p), remote[p], true, Lookup(base, p))
  }

  /** One turn of the loop of `Pull`. */
  function Step<P, C>(files: map<P, C>, plan: Plan, p: P, copy: P, content: C): map<P, C> {
    match plan
    case Skip => files
    case Fetch => files[p := content]
    case FetchAside => files[copy := content]
  }

  // ----- the result of one pull, without an order ---------------------------

  ghost predicate Aside<P>(plans: map<P, Plan>, p: P) {
    p in plans && plans[p] == FetchAside
  }

  /** Conflict names collide neither with a path of either side nor with each other. */
  ghost predicate Fresh<P(!new), C>(names: map<P, P>, plans: map<P, Plan>, f: map<P, C>, r: map<P, C>) {
    && (forall p :: Aside(plans, p) ==> p in names && names[p] !in f && names[p] !in r)
    && (forall p, q :: Aside(plans, p) && Aside(plans, q) && p != q ==> names[p] != names[q])
  }

  ghost predicate IsCopy<P(!new)>(names: map<P, P>, plans: map<P, Plan>, seen: set<P>, q: P) {
    exists p :: p in seen && Aside(plans, p) && p in names && names[p] == q
  }

  /** `m` is the folder `f` after pulling the paths `seen` of the peer's folder `r`. */
  ghost predicate IsMergeOf<P(!new), C>(f: map<P, C>, r: map<P, C>, plans: map<P, Plan>, names: map<P, P>,
                                        seen: set<P>, m: map<P, C>)
    requires seen <= plans.Keys == r.Keys
  {
    && (forall q :: q in m <==> q in f || q in seen || IsCopy(names, plans, seen, q))
    && (forall q :: q in f && q !in seen ==> m[q] == f[q])
    && (forall q :: q in seen && plans[q] == Fetch ==> m[q] == r[q])
    && (forall q :: q in seen && plans[q] != Fetch ==> q in f && m[q] == f[q])
    && (forall q :: q in seen && Aside(plans, q) ==> q in names && names[q] in m && m[names[q]] == r[q])
  }

  /** `m` is the folder after a whole pull into `f` from `r`, path by path. */
  ghost predicate IsMerge<P(!new), C>(f: map<P, C>, r: map<P, C>, plans: map<P, Plan>, names: map<P, P>, m: map<P, C>)
    requires plans.Keys == r.Keys
  {
    IsMergeOf(f, r, plans, names, r.Keys, m)
  }

  lemma MergeIsUnique<P(!new), C>(f: map<P, C>, r: map<P, C>, plans: map<P, Plan>, names: map<P, P>, m: map<P, C>, m': map<P, C>)
    requires plans.Keys == r.Keys && IsMerge(f, r, plans, names, m) && IsMerge(f, r, plans, names, m')
    ensures m == m'
  {
    forall q | q in m
      ensures m[q] == m'[q]
    {
      if q !in f && q !in r {
        var p :| Aside(plans, p) && p in names && names[p] == q;
      }
    }
  }

  /** A merge has no contents but those of the two sides. */
  lemma MergeWithin<P(!new), C(!new)>(f: map<P, C>, r: map<P, C>, plans: map<P, Plan>, names: map<P, P>, m: map<P, C>,
                                      u: iset<C>)
    requires plans.Keys == r.Keys && IsMerge(f, r, plans, names, m)
    requires (forall p :: p in f ==> f[p] in u) && (forall p :: p in r ==> r[p] in u)
    ensures forall q :: q in m ==> m[q] in u
  {
    forall q | q in m
      ensures m[q] in u
    {
      if q !in f && q !in r {
        var p :| p in r && Aside(plans, p) && p in names && names[p] == q;
      }
    }
  }

  /** Nor paths, but for the conflict names. */
  lemma MergePathsWithin<P(!new), C(!new)>(f: map<P, C>, r: map<P, C>, plans: map<P, Plan>, names: map<P, P>, m: map<P, C>,
                                           u: iset<P>)
    requires plans.Keys == r.Keys && IsMerge(f, r, plans, names, m)
    requires (forall p :: p in f || p in r ==> p in u) && forall p :: Aside(plans, p) && p in names ==> names[p] in u
    ensures forall q :: q in m ==> q in u
  {
    forall q | q in m
      ensures q in u
    {
      if q !in f && q !in r {
        var p :| p in r && Aside(plans, p) && p in names && names[p] == q;
      }
    }
  }

  // ----- any order of the remote list gives the same folder -----------------

  function CopyName<P>(names: map<P, P>, p: P): P {
    if p in names then names[p] else p
  }

  /** The folder after the first `k` files of the peer's list. */
  ghost function After<P(!new), C>(f: map<P, C>, r: map<P, C>, plans: map<P, Plan>, names: map<P, P>, order: seq<P>,
                                   k: nat): map<P, C>
    requires plans.Keys == r.Keys && k <= |order| && forall p :: p in order ==> p in r
  {
    if k == 0 then f
    else
      var p := order[k - 1];
      Step(After(f, r, plans, names, order, k - 1), plans[p], p, CopyName(names, p), r[p])
  }

  ghost predicate Lists<P(!new), C>(order: seq<P>, r: map<P, C>) {
    && (forall p :: p in order <==> p in r)
    && (forall i, j :: 0 <= i < j < |order| ==> order[i] != order[j])
  }

  ghost function Prefix<P(!new)>(order: seq<P>, k: nat): (s: set<P>)
    requires k <= |order|
    ensures forall p :: p in s <==> p in order[..k]
  {
    if k == 0 then {} else Prefix(order, k - 1) + {order[k - 1]}
  }

  lemma MergeOneMore<P(!new), C>(f: map<P, C>, r: map<P, C>, plans: map<P, Plan>, names: map<P, P>,
                                 seen: set<P>, m: map<P, C>, p: P)
    requires seen <= plans.Keys == r.Keys && Fresh(names, plans, f, r)
    requires p in r && p !in seen && (plans[p] != Fetch ==> p in f)
    requires IsMergeOf(f, r, plans, names, seen, m)
    ensures IsMergeOf(f, r, plans, names, seen + {p}, Step(m, plans[p], p, CopyName(names, p), r[p]))
  {
    assert Aside(plans, p) ==> IsCopy(names, plans, seen + {p}, names[p]);
    forall q
      ensures IsCopy(names, plans, seen + {p}, q)
              <==> IsCopy(names, plans, seen, q) || (Aside(plans, p) && q == names[p])
    {
    }
  }

  lemma MergeNext<P(!new), C>(f: map<P, C>, r: map<P, C>, plans: map<P, Plan>, names: map<P, P>, order: seq<P>, k: nat,
                              m: map<P, C>)
    requires plans.Keys == r.Keys && Fresh(names, plans, f, r) && 0 < k <= |order| && Lists(order, r)
    requires forall p :: p in r && plans[p] != Fetch ==> p in f
    requires Prefix(order, k - 1) <= r.Keys && IsMergeOf(f, r, plans, names, Prefix(order, k - 1), m)
    ensures Prefix(order, k) <= r.Keys
    ensures var p := order[k - 1];
            IsMergeOf(f, r, plans, names, Prefix(order, k), Step(m, plans[p], p, CopyName(names, p), r[p]))
  {
    assert order[k - 1] in order && order[k - 1] !in order[..k - 1];
    MergeOneMore(f, r, plans, names, Prefix(order, k - 1), m, order[k - 1]);
  }

  lemma NothingMerged<P(!new), C>(f: map<P, C>, r: map<P, C>, plans: map<P, Plan>, names: map<P, P>)
    requires plans.Keys == r.Keys
    ensures IsMergeOf(f, r, plans, names, {}, f)
  {
  }

  /** Along the peer's list the folder is always the merge with what was listed so far. */
  lemma {:induction false} AfterMergesPrefix<P(!new), C>(f: map<P, C>, r: map<P, C>, plans: map<P, Plan>,
                                                         names: map<P, P>, order: seq<P>, k: nat)
    requires plans.Keys == r.Keys && Fresh(names, plans, f, r) && k <= |order| && Lists(order, r)
    requires forall p :: p in r && plans[p] != Fetch ==> p in f
    ensures Prefix(order, k) <= r.Keys
    ensures IsMergeOf(f, r, plans, names, Prefix(order, k), After(f, r, plans, names, order, k))
  {
    if k == 0 {
      NothingMerged(f, r, plans, names);
    } else {
      AfterMergesPrefix(f, r, plans, names, order, k - 1);
      MergeNext(f, r, plans, names, order, k, After(f, r, plans, names, order, k - 1));
    }
  }

  /** A local file stays as it is until the list reaches it with the decision to fetch. */
  lemma {:induction false} AfterUnchanged<P(!new), C>(f: map<P, C>, r: map<P, C>, plans: map<P, Plan>, names: map<P, P>,
                                                      order: seq<P>, k: nat, q: P)
    requires plans.Keys == r.Keys && Fresh(names, plans, f, r) && k <= |order| && forall p :: p in order ==> p in r
    requires q in f && forall i :: 0 <= i < k && order[i] == q ==> plans[q] != Fetch
    ensures var m := After(f, r, plans, names, order, k); q in m && m[q] == f[q]
  {
    if k > 0 {
      AfterUnchanged(f, r, plans, names, order, k - 1, q);
      assert Aside(plans, order[k - 1]) <==> plans[order[k - 1]] == FetchAside;
    }
  }

  /** Pulling invents no contents. */
  lemma {:induction false} AfterWithin<P(!new), C(!new)>(f: map<P, C>, r: map<P, C>, plans: map<P, Plan>, names: map<P, P>,
                                                         order: seq<P>, k: nat, u: iset<C>)
    requires plans.Keys == r.Keys && k <= |order| && forall p :: p in order ==> p in r
    requires (forall p :: p in f ==> f[p] in u) && (forall p :: p in r ==> r[p] in u)
    ensures forall p :: p in After(f, r, plans, names, order, k) ==> After(f, r, plans, names, order, k)[p] in u
  {
    if k > 0 {
      AfterWithin(f, r, plans, names, order, k - 1, u);
      var before, last := After(f, r, plans, names, order, k - 1), order[k - 1];
      forall p | p in Step(before, plans[last], last, CopyName(names, last), r[last])
        ensures Step(before, plans[last], last, CopyName(names, last), r[last])[p] in u
      {
        assert p in before ==> before[p] in u;
        assert last in order && r[last] in u;
      }
    }
  }

  /** With fresh conflict names the folder after a pull is the merge, whatever the
      order in which the peer lists its files. */
  lemma PullIgnoresOrder<P(!new), C>(f: map<P, C>, r: map<P, C>, plans: map<P, Plan>, names: map<P, P>, order: seq<P>)
    requires plans.Keys == r.Keys && Fresh(names, plans, f, r) && Lists(order, r)
    requires forall p :: p in r && plans[p] != Fetch ==> p in f
    ensures IsMerge(f, r, plans, names, After(f, r, plans, names, order, |order|))
  {
    AfterMergesPrefix(f, r, plans, names, order, |order|);
    assert order[..|order|] == order;
    assert Prefix(order, |order|) == r.Keys;
  }

  // ----- what one pull protects ----------------------------------------------

  /** A local path changes only if its digest is the recorded baseline; where both
      sides moved away from it, both contents are there afterwards. */
  lemma PullProtectsEdits<P(!new), C, H>(f: map<P, C>, local: map<P, H>, r: map<P, C>, remote: map<P, H>,
                                         base: map<P, H>, names: map<P, P>, m: map<P, C>, p: P)
    requires f.Keys == local.Keys && r.Keys == remote.Keys && p in f
    requires IsMerge(f, r, PlansFor(local, remote, base), names, m)
    ensures p in m
    ensures m[p] != f[p] ==> p in r && m[p] == r[p] && p in base && base[p] == local[p]
    ensures p in r && local[p] != remote[p] && Lookup(base, p) !in {Some(local[p]), Some(remote[p])} ==>
              m[p] == f[p] && p in names && names[p] in m && m[names[p]] == r[p]
  {
    var plans := PlansFor(local, remote, base);
    if p in r && local[p] != remote[p] && Lookup(base, p) !in {Some(local[p]), Some(remote[p])} {
      assert Aside(plans, p);
    }
  }
}
