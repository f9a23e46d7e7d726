/** Tries to pull that may fail at any moment, from peers that may be anything, with edits in
    between (`engine/internal/syncengine/syncengine.go`). */
module Tries {
  import opened Basics
  import opened Rounds

  /** What the user made of the folder before, whether the pull succeeded, and the device after
      it; `copies` are the conflict names of the files that the pull set aside. */
  datatype Try<P, C, H> = Try(edit: map<P, C>, copies: set<P>, ok: bool, after: Device<P, C, H>)

  /** A content is replaced only where it is the recorded baseline or was in the place of a
      conflict copy; and only a success records a new baseline, that of the folder then. */
  ghost predicate IsTry<P(!new), C, H>(digest: C -> H, was: Device<P, C, H>, t: Try<P, C, H>) {
    && (forall p :: p in t.edit && p !in t.copies && Lookup(was.base, p) != Some(digest(t.edit[p])) ==>
          p in t.after.files && t.after.files[p] == t.edit[p])
    && (t.ok ==> forall p :: p in t.after.base ==> p in t.after.files && t.after.base[p] == digest(t.after.files[p]))
    && (!t.ok ==> t.after.base == was.base)
  }

  function Before<P, C, H>(d: Device<P, C, H>, run: seq<Try<P, C, H>>, k: nat): Device<P, C, H>
    requires k <= |run|
  {
    if k == 0 then d else run[k - 1].after
  }

  ghost predicate IsTryAt<P(!new), C, H>(digest: C -> H, d: Device<P, C, H>, run: seq<Try<P, C, H>>, k: nat)
    requires k < |run|
  {
    IsTry(digest, Before(d, run, k), run[k])
  }

  ghost predicate IsTryRun<P(!new), C, H>(digest: C -> H, d: Device<P, C, H>, run: seq<Try<P, C, H>>) {
    forall k :: 0 <= k < |run| ==> IsTryAt(digest, d, run, k)
  }

  /** The last success before the k-th try. */
  function LastSuccess<P, C, H>(run: seq<Try<P, C, H>>, k: nat): (m: Option<nat>)
    requires k <= |run|
    ensures m.Some? ==> m.value < k && run[m.value].ok && forall i :: m.value < i < k ==> !run[i].ok
    ensures m == None ==> forall i :: 0 <= i < k ==> !run[i].ok
  {
    if k == 0 then None else if run[k - 1].ok then Some(k - 1) else LastSuccess(run, k - 1)
  }

  /** The baseline is that of the last success, or still the first one. */
  lemma {:induction false} BaselineIsLastSuccess<P(!new), C, H>(digest: C -> H, d: Device<P, C, H>, run: seq<Try<P, C, H>>,
                                                                k: nat)
    requires IsTryRun(digest, d, run) && k <= |run|
    ensures var m := LastSuccess(run, k);
            Before(d, run, k).base == if m.Some? then run[m.value].after.base else d.base
  {
    if k > 0 {
      assert IsTryAt(digest, d, run, k - 1);
      BaselineIsLastSuccess(digest, d, run, k - 1);
    }
  }

  /** The k-th try replaced the content at `p`, which was not in the place of a conflict copy. */
  predicate Replaced<P, C(==), H>(run: seq<Try<P, C, H>>, k: nat, p: P) {
    && k < |run| && p in run[k].edit && p !in run[k].copies
    && (p !in run[k].after.files || run[k].after.files[p] != run[k].edit[p])
  }

  /** Whatever tries fail, and whatever they leave behind: a content that is replaced was there
      after the last success, or was in the baseline of the start if there has been none. */
  lemma ReplacedWasRecorded<P(!new), C, H>(digest: C -> H, d: Device<P, C, H>, run: seq<Try<P, C, H>>, k: nat, p: P)
    requires IsTryRun(digest, d, run) && Replaced(run, k, p)
    ensures match LastSuccess(run, k)
            case None => Lookup(d.base, p) == Some(digest(run[k].edit[p]))
            case Some(m) => p in run[m].after.files && digest(run[m].after.files[p]) == digest(run[k].edit[p])
  {
    assert IsTryAt(digest, d, run, k);
    BaselineIsLastSuccess(digest, d, run, k);
    var last := LastSuccess(run, k);
    if last.Some? {
      assert IsTryAt(digest, d, run, last.value);
    }
  }
}
