/** Version vectors (`engine/internal/conflict/conflict.go`). */
module VersionVector {
  import opened Basics

  type Count = n: int | 0 <= n < WORD

  type Entries<D> = map<D, Count>

  /** Go map lookup: an absent entry counts as zero. */
  function Get<D>(v: Entries<D>, d: D): Count {
    if d in v then v[d] else 0
  }

  /** The pointwise order. */
  ghost predicate Leq<D(!new)>(v: Entries<D>, w: Entries<D>) {
    forall d :: Get(v, d) <= Get(w, d)
  }

  datatype Ordering = Equal | Greater | Less | Concurrent

  /** What the four answers of `Compare` mean. */
  ghost predicate Describes<D(!new)>(o: Ordering, v: Entries<D>, w: Entries<D>) {
    match o
    case Equal => Leq(v, w) && Leq(w, v)
    case Greater => !Leq(v, w) && Leq(w, v)
    case Less => Leq(v, w) && !Leq(w, v)
    case Concurrent => !Leq(v, w) && !Leq(w, v)
  }

  /** One `v[id]++`, wrapping like the Go `uint64`. */
  function Incremented<D>(v: Entries<D>, d: D): Entries<D> {
    v[d := (Get(v, d) + 1) % WORD]
  }

  ghost predicate IsMax<D(!new)>(v: Entries<D>, w: Entries<D>, m: Entries<D>) {
    forall d :: Get(m, d) == if Get(w, d) > Get(v, d) then Get(w, d) else Get(v, d)
  }

  class Vector<D(==,!new)> {
    var entries: Entries<D>

    constructor ()
      ensures entries == map[]
    {
      entries := map[];
    }

    method Clone() returns (out: Vector<D>)
      ensures fresh(out) && out.entries == entries
    {
      out := new Vector();
      var rest := entries.Keys;
      while rest != {}
        invariant out.entries.Keys + rest == entries.Keys && fresh(out)
        invariant forall k :: k in out.entries ==> out.entries[k] == entries[k]
        decreases rest
      {
        var k :| k in rest;
        out.entries := out.entries[k := entries[k]];
        rest := rest - {k};
      }
    }

    method Increment(id: D)
      modifies this
      ensures entries == Incremented(old(entries), id)
    {
      entries := entries[id := (Get(entries, id) + 1) % WORD];
    }

    /** Takes the larger count of every device. */
    method Merge(other: Vector<D>)
      modifies this
      ensures IsMax(old(entries), old(other.entries), entries)
      ensures forall k :: k in entries ==> k in old(entries) || k in old(other.entries)
    {
      var theirs := other.entries;
      var rest := theirs.Keys;
      while rest != {}
        invariant rest <= theirs.Keys
        invariant forall d :: d in rest ==> Get(entries, d) == Get(old(entries), d)
        invariant forall d :: d !in rest ==>
                    Get(entries, d) == if Get(theirs, d) > Get(old(entries), d) then Get(theirs, d) else Get(old(entries), d)
        invariant forall k :: k in entries ==> k in old(entries) || k in theirs
        decreases rest
      {
        var k :| k in rest;
        var n := theirs[k];
        if n > Get(entries, k) {
          entries := entries[k := n];
        }
        rest := rest - {k};
      }
    }

    method Compare(other: Vector<D>) returns (o: Ordering)
      ensures Describes(o, entries, other.entries)
    {
      var greater, less := false, false;
      var rest := entries.Keys;
      while rest != {}
        invariant rest <= entries.Keys
        invariant greater ==> !Leq(entries, other.entries)
        invariant less ==> !Leq(other.entries, entries)
        invariant !greater ==> forall d :: d in entries && d !in rest ==> Get(entries, d) <= Get(other.entries, d)
        invariant !less ==> forall d :: d in entries && d !in rest ==> Get(other.entries, d) <= Get(entries, d)
        decreases rest
      {
        var k :| k in rest;
        if entries[k] > Get(other.entries, k) {
          greater := true;
        } else if entries[k] < Get(other.entries, k) {
          less := true;
        }
        rest := rest - {k};
      }
      rest := other.entries.Keys;
      while rest != {}
        invariant rest <= other.entries.Keys
        invariant less ==> !Leq(other.entries, entries)
        invariant !less ==> forall d :: d in entries ==> Get(other.entries, d) <= Get(entries, d)
        invariant !less ==> forall d :: d in other.entries && d !in rest ==> Get(other.entries, d) <= Get(entries, d)
        decreases rest
      {
        var k :| k in rest;
        if k !in entries && other.entries[k] > 0 {
          assert Get(other.entries, k) > Get(entries, k);
          less := true;
        }
        rest := rest - {k};
      }
      return if greater && less then Concurrent else if greater then Greater else if less then Less else Equal;
    }
  }

  /** `Merge` is the least upper bound. */
  lemma MergeIsLeastUpperBound<D(!new)>(v: Entries<D>, w: Entries<D>, m: Entries<D>)
    requires IsMax(v, w, m)
    ensures Leq(v, m) && Leq(w, m)
    ensures forall x: Entries<D> :: Leq(v, x) && Leq(w, x) ==> Leq(m, x)
  {
  }

  // ----- vectors and histories ------------------------------------------------

  /** A version: its vector, and the edits that went into it, numbered in the order
      in which they were made anywhere. */
  datatype Version<D> = Version(vector: Entries<D>, history: set<nat>)

  /** `log[i]` made edit `i`; `held` is the current version of each device and `saved`
      are the copies lying around, such as those on their way to a peer. */
  datatype State<!D> = State(log: seq<D>, held: map<D, Version<D>>, saved: set<Version<D>>)

  ghost predicate Init<D(!new)>(s: State<D>) {
    && s.log == [] && s.saved == {}
    && forall d :: d in s.held ==> s.held[d] == Version(map[], {})
  }

  /** A device edits, copies its version somewhere, or merges a copy into its own. */
  ghost predicate Next<D(!new)>(s: State<D>, s': State<D>) {
    || (exists d :: d in s.held && s' == Edit(s, d))
    || (exists d :: d in s.held && s' == s.(saved := s.saved + {s.held[d]}))
    || (exists d, c, m :: d in s.held && c in s.saved && IsMax(s.held[d].vector, c.vector, m)
                          && s' == s.(held := s.held[d := Version(m, s.held[d].history + c.history)]))
  }

  ghost function Edit<D>(s: State<D>, d: D): State<D>
    requires d in s.held
  {
    var v := s.held[d];
    s.(log := s.log + [d], held := s.held[d := Version(Incremented(v.vector, d), v.history + {|s.log|})])
  }

  /** How many of the first `n` edits are by `d`. */
  ghost function By<D>(log: seq<D>, d: D, n: nat): nat
    requires n <= |log|
  {
    if n == 0 then 0 else By(log, d, n - 1) + if log[n - 1] == d then 1 else 0
  }

  lemma {:induction false} ByExtends<D>(log: seq<D>, e: D, d: D, n: nat)
    requires n <= |log|
    ensures By(log + [e], d, n) == By(log, d, n)
  {
    if n > 0 {
      ByExtends(log, e, d, n - 1);
    }
  }

  lemma {:induction false} ByGrows<D>(log: seq<D>, d: D, m: nat, n: nat)
    requires m <= n <= |log|
    ensures By(log, d, m) <= By(log, d, n) <= n
  {
    if m < n {
      ByGrows(log, d, m, n - 1);
    } else if n > 0 {
      ByGrows(log, d, n - 1, n - 1);
    }
  }

  /** A version holds exactly the first Get(vector, d) edits of every device d. */
  ghost predicate Sound<D(!new)>(log: seq<D>, v: Version<D>) {
    && (forall i :: i in v.history ==> i < |log|)
    && (forall i :: 0 <= i < |log| ==> (i in v.history <==> By(log, log[i], i + 1) <= Get(v.vector, log[i])))
    && (forall d :: Get(v.vector, d) <= By(log, d, |log|))
  }

  ghost predicate Invariant<D(!new)>(s: State<D>) {
    && (forall d :: d in s.held ==> Sound(s.log, s.held[d]) && Get(s.held[d].vector, d) == By(s.log, d, |s.log|))
    && (forall c :: c in s.saved ==> Sound(s.log, c))
  }

  lemma SoundAfterForeignEdit<D(!new)>(log: seq<D>, e: D, v: Version<D>)
    requires Sound(log, v)
    ensures Sound(log + [e], v)
  {
    var log' := log + [e];
    forall i | 0 <= i < |log'|
      ensures i in v.history <==> By(log', log'[i], i + 1) <= Get(v.vector, log'[i])
    {
      ByExtends(log, e, log'[i], if i < |log| then i + 1 else |log|);
    }
    forall d
      ensures Get(v.vector, d) <= By(log', d, |log'|)
    {
      ByExtends(log, e, d, |log|);
    }
  }

  lemma SoundAfterOwnEdit<D(!new)>(log: seq<D>, e: D, v: Version<D>)
    requires Sound(log, v) && Get(v.vector, e) == By(log, e, |log|) < WORD - 1
    ensures var v' := Version(Incremented(v.vector, e), v.history + {|log|});
            Sound(log + [e], v') && Get(v'.vector, e) == By(log + [e], e, |log| + 1)
  {
    var log', v' := log + [e], Version(Incremented(v.vector, e), v.history + {|log|});
    ByExtends(log, e, e, |log|);
    NoWrap(v.vector, e);
    forall i | 0 <= i < |log'|
      ensures i in v'.history <==> By(log', log'[i], i + 1) <= Get(v'.vector, log'[i])
    {
      OwnEditAt(log, e, v, v', i);
    }
    forall d
      ensures Get(v'.vector, d) <= By(log', d, |log'|)
    {
      ByExtends(log, e, d, |log|);
    }
  }

  lemma NoWrap<D(!new)>(v: Entries<D>, e: D)
    requires Get(v, e) < WORD - 1
    ensures forall d :: Get(Incremented(v, e), d) == Get(v, d) + if d == e then 1 else 0
  {
    assert (Get(v, e) + 1) % WORD == Get(v, e) + 1;
  }

  lemma OwnEditAt<D(!new)>(log: seq<D>, e: D, v: Version<D>, v': Version<D>, i: nat)
    requires Sound(log, v) && i <= |log| && Get(v.vector, e) == By(log, e, |log|)
    requires forall d :: Get(v'.vector, d) == Get(v.vector, d) + if d == e then 1 else 0
    requires v'.history == v.history + {|log|}
    ensures var log' := log + [e]; i in v'.history <==> By(log', log'[i], i + 1) <= Get(v'.vector, log'[i])
  {
    if i < |log| {
      ByExtends(log, e, log[i], i + 1);
      ByGrows(log, log[i], i + 1, |log|);
    } else {
      ByExtends(log, e, e, |log|);
    }
  }

  lemma EditKeepsInvariant<D(!new)>(s: State<D>, d: D)
    requires Invariant(s) && d in s.held && By(s.log, d, |s.log|) < WORD - 1
    ensures Invariant(Edit(s, d))
  {
    var s' := Edit(s, d);
    SoundAfterOwnEdit(s.log, d, s.held[d]);
    forall e | e in s.held && e != d
      ensures Sound(s'.log, s'.held[e]) && Get(s'.held[e].vector, e) == By(s'.log, e, |s'.log|)
    {
      SoundAfterForeignEdit(s.log, d, s.held[e]);
      ByExtends(s.log, d, e, |s.log|);
    }
    forall c | c in s.saved
      ensures Sound(s'.log, c)
    {
      SoundAfterForeignEdit(s.log, d, c);
    }
  }

  lemma MergeIsSound<D(!new)>(log: seq<D>, v: Version<D>, c: Version<D>, m: Entries<D>)
    requires Sound(log, v) && Sound(log, c) && IsMax(v.vector, c.vector, m)
    ensures Sound(log, Version(m, v.history + c.history))
  {
  }

  lemma ReceiveKeepsInvariant<D(!new)>(s: State<D>, d: D, c: Version<D>, m: Entries<D>)
    requires Invariant(s) && d in s.held && c in s.saved && IsMax(s.held[d].vector, c.vector, m)
    ensures Invariant(s.(held := s.held[d := Version(m, s.held[d].history + c.history)]))
  {
    MergeIsSound(s.log, s.held[d], c, m);
  }

  /** Each device has made fewer than 2^64 edits. */
  ghost predicate NoCounterWraps<D(!new)>(s: State<D>) {
    forall d :: By(s.log, d, |s.log|) < WORD
  }

  lemma StepKeepsInvariant<D(!new)>(s: State<D>, s': State<D>)
    requires Invariant(s) && Next(s, s') && NoCounterWraps(s')
    ensures Invariant(s')
  {
    if d :| d in s.held && s' == Edit(s, d) {
      ByExtends(s.log, d, d, |s.log|);
      assert By(s'.log, d, |s'.log|) == By(s.log, d, |s.log|) + 1;
      EditKeepsInvariant(s, d);
    } else if d :| d in s.held && s' == s.(saved := s.saved + {s.held[d]}) {
    } else {
      var d, c, m :| d in s.held && c in s.saved && IsMax(s.held[d].vector, c.vector, m)
                     && s' == s.(held := s.held[d := Version(m, s.held[d].history + c.history)]);
      ReceiveKeepsInvariant(s, d, c, m);
    }
  }

  ghost predicate IsRun<D(!new)>(run: seq<State<D>>) {
    && run != [] && Init(run[0])
    && forall i :: 0 <= i < |run| - 1 ==> Next(run[i], run[i + 1])
  }

  lemma {:induction false} RunKeepsInvariant<D(!new)>(run: seq<State<D>>, n: nat)
    requires IsRun(run) && n < |run| && forall i :: 0 <= i <= n ==> NoCounterWraps(run[i])
    ensures Invariant(run[n])
  {
    if n > 0 {
      RunKeepsInvariant(run, n - 1);
      StepKeepsInvariant(run[n - 1], run[n]);
    }
  }

  /** Some edit is the k-th of `d`. */
  lemma {:induction false} FindEdit<D>(log: seq<D>, d: D, k: nat, n: nat) returns (i: nat)
    requires n <= |log| && 0 < k <= By(log, d, n)
    ensures i < n && log[i] == d && By(log, d, i + 1) == k
  {
    if By(log, d, n - 1) >= k {
      i := FindEdit(log, d, k, n - 1);
    } else {
      i := n - 1;
    }
  }

  lemma OrderIsInclusion<D(!new)>(log: seq<D>, v: Version<D>, w: Version<D>)
    requires Sound(log, v) && Sound(log, w)
    ensures Leq(v.vector, w.vector) <==> v.history <= w.history
  {
    if v.history <= w.history {
      forall d
        ensures Get(v.vector, d) <= Get(w.vector, d)
      {
        if Get(v.vector, d) > 0 {
          var i := FindEdit(log, d, Get(v.vector, d), |log|);
        }
      }
    }
  }

  /** In every run, for any two versions that exist in it, the vectors decide how the
      edit histories are related. */
  lemma CompareDecidesHistories<D(!new)>(run: seq<State<D>>, n: nat, v: Version<D>, w: Version<D>, o: Ordering)
    requires IsRun(run) && n < |run| && forall i :: 0 <= i <= n ==> NoCounterWraps(run[i])
    requires v in run[n].held.Values + run[n].saved && w in run[n].held.Values + run[n].saved
    requires Describes(o, v.vector, w.vector)
    ensures match o
            case Equal => v.history == w.history
            case Greater => w.history < v.history
            case Less => v.history < w.history
            case Concurrent => !(v.history <= w.history) && !(w.history <= v.history)
  {
    RunKeepsInvariant(run, n);
    OrderIsInclusion(run[n].log, v, w);
    OrderIsInclusion(run[n].log, w, v);
  }

  /** An edit makes a version newer exactly if the counter of its device does not wrap. */
  lemma IncrementIsNewerExactly<D(!new)>(v: Entries<D>, d: D)
    ensures Leq(v, Incremented(v, d)) && !Leq(Incremented(v, d), v) <==> Get(v, d) != WORD - 1
    ensures forall e :: e != d ==> Get(Incremented(v, d), e) == Get(v, e)
  {
    if Get(v, d) != WORD - 1 {
      NoWrap(v, d);
      assert Get(Incremented(v, d), d) > Get(v, d);
    } else {
      assert Get(Incremented(v, d), d) < Get(v, d);
    }
  }

  /** Why the edits of one device are bounded: a counter that wraps makes the later version
      look older. */
  lemma WrappedCounterLooksOlder<D(!new)>(d: D)
    ensures var v := map[d := WORD - 1];
            Leq(Incremented(v, d), v) && !Leq(v, Incremented(v, d))
  {
    var v := map[d := WORD - 1];
    assert Get(v, d) > Get(Incremented(v, d), d);
  }
}
