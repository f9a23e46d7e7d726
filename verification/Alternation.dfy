/** Two devices that take turns in pulling, with edits on both sides between any two pulls
    (`engine/internal/syncengine/syncengine.go`). */
module Alternation {
  import opened Basics
  import opened Rounds

  /** One turn: what the users make of the two folders, and both devices after one of them
      has pulled from the other. */
  datatype Turn<P, C, H> = Turn(aEdit: map<P, C>, bEdit: map<P, C>, names: map<P, P>,
                                a: Device<P, C, H>, b: Device<P, C, H>)
  {
    function Edit(isA: bool): map<P, C> {
      if isA then aEdit else bEdit
    }

    function Device(isA: bool): Device<P, C, H> {
      if isA then a else b
    }
  }

  /** `t` follows the state of `s`, with A or B pulling. */
  ghost predicate Follows<P(!new), C(!new), H>(digest: C -> H, u: iset<C>, s: Turn<P, C, H>, t: Turn<P, C, H>, isA: bool) {
    && Within(t.aEdit, u) && Within(t.bEdit, u)
    && Pulled(digest, s.Device(isA).(files := t.Edit(isA)), t.Edit(!isA), t.names, t.Device(isA))
    && t.Device(!isA) == s.Device(!isA).(files := t.Edit(!isA))
  }

  /** A pulls in the turns with even numbers. */
  predicate IsTurnOfA(k: nat) {
    k % 2 == 0
  }

  /** `run[0]` is any state. */
  ghost predicate IsTurnRun<P(!new), C(!new), H>(digest: C -> H, u: iset<C>, run: seq<Turn<P, C, H>>) {
    forall k :: 0 < k < |run| ==> Follows(digest, u, run[k - 1], run[k], IsTurnOfA(k))
  }

  /** Three pulls: `d` is a device after its own, `e1` the other after pulling from it with
      the folder `mid`, `d1` the first after pulling again with the folder `end`. */
  lemma ReplacedByOneWhoKnew<P(!new), C(!new), H>(digest: C -> H, u: iset<C>, d: Device<P, C, H>, mid: map<P, C>,
                                                  e: Device<P, C, H>, n: map<P, P>, e1: Device<P, C, H>, end: map<P, C>,
                                                  r: map<P, C>, n': map<P, P>, d1: Device<P, C, H>, p: P)
    requires Injective(digest, u) && Within(d.files, u) && Within(mid, u) && Within(e.files, u) && Within(end, u)
    requires d.base == Digests(digest, d.files)
    requires Pulled(digest, e, mid, n, e1) && Pulled(digest, d.(files := end), r, n', d1)
    requires p in end && p in d1.files && d1.files[p] != end[p]
    ensures p in d.files && d.files[p] == end[p]
    ensures p in mid && mid[p] == end[p] ==> Holds(e1.files, end[p]) || Lookup(e.base, p) == Some(digest(end[p]))
  {
    PullKeeps(digest, d.(files := end), r, n', d1, p);
    if p in mid && mid[p] == end[p] && Lookup(e.base, p) != Some(digest(end[p])) {
      var q := PullBrings(digest, u, e, mid, n, e1, p);
    }
  }

  lemma AfterOwnPull<P(!new), C(!new), H>(digest: C -> H, u: iset<C>, s: Turn<P, C, H>, t: Turn<P, C, H>, isA: bool)
    requires Follows(digest, u, s, t, isA)
    ensures t.Device(isA).base == Digests(digest, t.Device(isA).files) && Within(t.Device(isA).files, u)
  {
    PullStaysWithin(digest, u, s.Device(isA).(files := t.Edit(isA)), t.Edit(!isA), t.names, t.Device(isA));
  }

  lemma TwoTurnsOn<P(!new), C(!new), H>(digest: C -> H, u: iset<C>, s: Turn<P, C, H>, t: Turn<P, C, H>, v: Turn<P, C, H>,
                                        isA: bool, p: P)
    requires Injective(digest, u) && Follows(digest, u, s, t, !isA) && Follows(digest, u, t, v, isA)
    requires s.Device(isA).base == Digests(digest, s.Device(isA).files) && Within(s.Device(isA).files, u)
    requires p in v.Edit(isA) && p in v.Device(isA).files && v.Device(isA).files[p] != v.Edit(isA)[p]
    ensures var x := v.Edit(isA)[p];
            && p in s.Device(isA).files && s.Device(isA).files[p] == x
            && (p in t.Edit(isA) && t.Edit(isA)[p] == x ==>
                  Holds(t.Device(!isA).files, x) || Lookup(s.Device(!isA).base, p) == Some(digest(x)))
  {
    ReplacedByOneWhoKnew(digest, u, s.Device(isA), t.Edit(isA), s.Device(!isA).(files := t.Edit(!isA)), t.names,
                         t.Device(!isA), v.Edit(isA), v.Edit(!isA), v.names, v.Device(isA), p);
  }

  /** A pull replaces a content only if the device has had it there since its last pull. If
      it was also there when the peer pulled in between, the peer then held it, or had had it
      there itself after its own last pull. So an edit is replaced only by one who knew it. */
  lemma ReplacedWasKnown<P(!new), C(!new), H>(digest: C -> H, u: iset<C>, run: seq<Turn<P, C, H>>, k: nat, p: P)
    requires Injective(digest, u) && IsTurnRun(digest, u, run) && 3 <= k < |run|
    requires var isA := IsTurnOfA(k);
             p in run[k].Edit(isA) && p in run[k].Device(isA).files && run[k].Device(isA).files[p] != run[k].Edit(isA)[p]
    ensures var isA, x := IsTurnOfA(k), run[k].Edit(IsTurnOfA(k))[p];
            && p in run[k - 2].Device(isA).files && run[k - 2].Device(isA).files[p] == x
            && (p in run[k - 1].Edit(isA) && run[k - 1].Edit(isA)[p] == x ==>
                  Holds(run[k - 1].Device(!isA).files, x) || Lookup(run[k - 2].Device(!isA).base, p) == Some(digest(x)))
  {
    var isA := IsTurnOfA(k);
    assert IsTurnOfA(k - 2) == isA && IsTurnOfA(k - 1) == !isA;
    AfterOwnPull(digest, u, run[k - 3], run[k - 2], isA);
    TwoTurnsOn(digest, u, run[k - 2], run[k - 1], run[k], isA, p);
  }

  /** Once the edits stop, three more turns bring both devices in sync. */
  lemma QuietTurnsSync<P(!new), C(!new), H>(digest: C -> H, u: iset<C>, run: seq<Turn<P, C, H>>, k: nat)
    requires Injective(digest, u) && IsTurnRun(digest, u, run) && 0 < k && k + 3 < |run|
    requires forall i :: k < i <= k + 3 ==> run[i].aEdit == run[i - 1].a.files && run[i].bEdit == run[i - 1].b.files
    ensures Synced(digest, run[k + 3].a, run[k + 3].b)
  {
    var isA := IsTurnOfA(k);
    assert IsTurnOfA(k + 1) == !isA && IsTurnOfA(k + 2) == isA && IsTurnOfA(k + 3) == !isA;
    AlternatingPullsConverge(digest, u, run[k - 1].Device(isA).(files := run[k].Edit(isA)), run[k].Device(!isA),
                             run[k].names, run[k].Device(isA), run[k + 1].names, run[k + 1].Device(!isA),
                             run[k + 2].names, run[k + 2].Device(isA), run[k + 3].names, run[k + 3].Device(!isA));
  }
}
