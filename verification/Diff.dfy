/** Differences between two scans, with renames (`engine/internal/scanner/diff.go`). */
module Diff {
  import opened Basics
  import opened Order
  import opened Scanner

  datatype ChangeKind = Added | Modified | Deleted | Renamed

  datatype Change = Change(kind: ChangeKind, path: string, oldPath: string, file: FileInfo)

  // ----- ranks in a finite set of paths -----------------------------------------

  function Below(s: set<string>, x: string): set<string> {
    set y | y in s && Less(y, x)
  }

  function Rank(s: set<string>, x: string): nat {
    |Below(s, x)|
  }

  lemma ProperSubsetIsSmaller<T>(a: set<T>, b: set<T>)
    requires a < b
    ensures |a| < |b|
  {
    assert b - a != {};
    var x :| x in b && x !in a;
    assert a <= b - {x};
    SubsetSize(a, b - {x});
  }

  lemma RankGrows(s: set<string>, x: string, y: string)
    requires x in s && Less(x, y)
    ensures Rank(s, x) < Rank(s, y)
  {
    forall z | z in Below(s, x)
      ensures z in Below(s, y)
    {
      LessIsTransitive(z, x, y);
    }
    LessIsTotal(x, x);
    assert x in Below(s, y) && x !in Below(s, x);
    ProperSubsetIsSmaller(Below(s, x), Below(s, y));
  }

  lemma RankOrders(s: set<string>, x: string, y: string)
    requires x in s && y in s
    ensures Rank(s, x) < Rank(s, y) <==> Less(x, y)
    ensures Rank(s, x) == Rank(s, y) <==> x == y
  {
    LessIsTotal(x, y);
    if Less(x, y) {
      RankGrows(s, x, y);
    } else if Less(y, x) {
      RankGrows(s, y, x);
    }
  }

  lemma {:induction false} Maximum(s: set<string>) returns (m: string)
    requires s != {}
    ensures m in s && forall y :: y in s && y != m ==> Less(y, m)
  {
    var x :| x in s;
    if s == {x} {
      m := x;
    } else {
      assert s - {x} != {};
      var n := Maximum(s - {x});
      LessIsTotal(x, n);
      m := if Less(n, x) then x else n;
      forall y | y in s && y != m
        ensures Less(y, m)
      {
        if m == x && y != n {
          LessIsTransitive(y, n, x);
        }
      }
    }
  }

  /** Every rank below that of a member is taken. */
  lemma {:induction false} RanksAreContiguous(s: set<string>, x: string, k: nat) returns (y: string)
    requires x in s && k < Rank(s, x)
    ensures y in s && Less(y, x) && Rank(s, y) == k
    decreases Rank(s, x)
  {
    var m := Maximum(Below(s, x));
    assert Below(s, m) == Below(s, x) - {m} by {
      forall z | z in Below(s, m)
        ensures z in Below(s, x) && z != m
      {
        LessIsTransitive(z, m, x);
        LessIsTotal(m, m);
      }
    }
    if k == Rank(s, m) {
      y := m;
    } else {
      y := RanksAreContiguous(s, m, k);
      LessIsTransitive(y, m, x);
    }
  }

  // ----- what the diff is -------------------------------------------------------

  /** Rename candidates share a digest and a size; empty files never pair. */
  predicate SameClass(f: FileInfo, g: FileInfo) {
    f.size > 0 && f.hash == g.hash && f.size == g.size
  }

  /** The files of `idx` that are gone in `other`, in the class of `f`. */
  function Gone(idx: Index, other: Index, f: FileInfo): set<string> {
    set p | p in idx && p !in other && SameClass(f, idx[p])
  }

  /** Within its class, the i-th smallest deleted path goes with the i-th smallest added. */
  predicate Paired(before: Index, after: Index, d: string, a: string) {
    && d in before && d !in after && a in after && a !in before
    && SameClass(before[d], after[a])
    && Rank(Gone(before, after, before[d]), d) == Rank(Gone(after, before, before[d]), a)
  }

  ghost predicate InDiff(before: Index, after: Index, c: Change) {
    match c.kind
    case Added =>
      && c.path in after && c.path !in before && c.oldPath == "" && c.file == after[c.path]
      && forall d :: !Paired(before, after, d, c.path)
    case Deleted =>
      && c.path in before && c.path !in after && c.oldPath == "" && c.file == before[c.path]
      && forall a :: !Paired(before, after, c.path, a)
    case Modified =>
      && c.path in before && c.path in after && c.oldPath == "" && c.file == after[c.path]
      && before[c.path].hash != after[c.path].hash
    case Renamed =>
      Paired(before, after, c.oldPath, c.path) && c.file == after[c.path]
  }

  /** Sorted by path, and exactly the changes above. */
  ghost predicate IsDiff(before: Index, after: Index, cs: seq<Change>) {
    && (forall i, j :: 0 <= i < j < |cs| ==> Less(cs[i].path, cs[j].path))
    && (forall c :: c in cs <==> InDiff(before, after, c))
  }

  lemma PairingIsOneToOne(before: Index, after: Index, d: string, a: string, d': string, a': string)
    requires Paired(before, after, d, a) && Paired(before, after, d', a')
    ensures d == d' <==> a == a'
  {
    if d == d' {
      RankOrders(Gone(after, before, before[d]), a, a');
    }
    if a == a' {
      assert Gone(before, after, before[d]) == Gone(before, after, before[d']);
      assert Gone(after, before, before[d]) == Gone(after, before, before[d']);
      RankOrders(Gone(before, after, before[d]), d, d');
    }
  }

  /** The pairing is as large as it can be: of a deleted and an added path in the same
      class, at least one has a partner. */
  lemma PairingIsMaximal(before: Index, after: Index, d: string, a: string)
    requires d in before && d !in after && a in after && a !in before && SameClass(before[d], after[a])
    ensures (exists a' :: Paired(before, after, d, a')) || (exists d' :: Paired(before, after, d', a))
  {
    var gone, arrived := Gone(before, after, before[d]), Gone(after, before, before[d]);
    if Rank(gone, d) < Rank(arrived, a) {
      var a' := RanksAreContiguous(arrived, a, Rank(gone, d));
      assert Paired(before, after, d, a');
    } else if Rank(arrived, a) < Rank(gone, d) {
      var d' := RanksAreContiguous(gone, d, Rank(arrived, a));
      assert Gone(before, after, before[d']) == gone && Gone(after, before, before[d']) == arrived;
      assert Paired(before, after, d', a);
    } else {
      assert Paired(before, after, d, a);
    }
  }

  /** Of the deleted files of a class the smaller paths are paired first, and with the smaller of
      the added ones. */
  lemma EarlierAreEarlierPaired(before: Index, after: Index, d: string, a: string, e: string) returns (b: string)
    requires Paired(before, after, d, a) && e in before && e !in after && Less(e, d)
    requires before[e].hash == before[d].hash && before[e].size == before[d].size
    ensures Paired(before, after, e, b) && Less(b, a)
  {
    var gone, arrived := Gone(before, after, before[d]), Gone(after, before, before[d]);
    RankOrders(gone, e, d);
    b := RanksAreContiguous(arrived, a, Rank(gone, e));
    assert Gone(before, after, before[e]) == gone && Gone(after, before, before[e]) == arrived;
  }

  /** And the other way round: the smaller added paths are taken first. */
  lemma EarlierAreEarlierTaken(before: Index, after: Index, d: string, a: string, b: string) returns (e: string)
    requires Paired(before, after, d, a) && b in after && b !in before && Less(b, a)
    requires after[b].hash == after[a].hash && after[b].size == after[a].size
    ensures Paired(before, after, e, b) && Less(e, d)
  {
    var gone, arrived := Gone(before, after, before[d]), Gone(after, before, before[d]);
    RankOrders(arrived, b, a);
    e := RanksAreContiguous(gone, d, Rank(arrived, b));
    assert Gone(before, after, before[e]) == gone && Gone(after, before, before[e]) == arrived;
  }

  /** What a change says of the two indexes, kind by kind. */
  ghost predicate Tells(before: Index, after: Index, c: Change) {
    && (c.kind != Renamed ==> c.oldPath == "")
    && (c.kind != Deleted ==> c.path in after && c.file == after[c.path])
    && (c.kind == Deleted ==> c.path !in after && c.path in before && c.file == before[c.path])
    && (c.kind == Added ==> c.path !in before)
    && (c.kind == Modified ==> c.path in before && before[c.path].hash != after[c.path].hash)
    && (c.kind == Renamed ==>
          && c.path !in before && c.oldPath in before && c.oldPath !in after
          && before[c.oldPath].hash == after[c.path].hash && before[c.oldPath].size == after[c.path].size > 0)
  }

  /** The list is sorted and says this of every change; every path that is modified, added or
      deleted is told once; and no deletion and addition are left that could be a rename. */
  lemma ChangesTellExactly(before: Index, after: Index, cs: seq<Change>)
    requires IsDiff(before, after, cs)
    ensures forall i, j :: 0 <= i < j < |cs| ==> Less(cs[i].path, cs[j].path)
    ensures forall c :: c in cs ==> Tells(before, after, c)
    ensures forall p :: p in before && p in after && before[p].hash != after[p].hash ==> Change(Modified, p, "", after[p]) in cs
    ensures forall p :: p in after && p !in before ==> exists c :: c in cs && c.path == p && c.kind in {Added, Renamed}
    ensures forall p :: p in before && p !in after ==>
              Change(Deleted, p, "", before[p]) in cs || exists c :: c in cs && c.kind == Renamed && c.oldPath == p
    ensures forall c, e :: c in cs && e in cs && c.kind == Deleted && e.kind == Added && c.file.size > 0 ==>
              c.file.hash != e.file.hash || c.file.size != e.file.size
  {
    forall c | c in cs
      ensures Tells(before, after, c)
    {
      assert InDiff(before, after, c);
    }
    forall p | p in before && p in after && before[p].hash != after[p].hash
      ensures Change(Modified, p, "", after[p]) in cs
    {
      assert InDiff(before, after, Change(Modified, p, "", after[p]));
    }
    forall p | p in after && p !in before
      ensures exists c :: c in cs && c.path == p && c.kind in {Added, Renamed}
    {
      var c := if d :| Paired(before, after, d, p) then Change(Renamed, p, d, after[p]) else Change(Added, p, "", after[p]);
      assert InDiff(before, after, c);
    }
    forall p | p in before && p !in after
      ensures Change(Deleted, p, "", before[p]) in cs || exists c :: c in cs && c.kind == Renamed && c.oldPath == p
    {
      DeletedIsTold(before, after, cs, p);
    }
    forall c, e | c in cs && e in cs && c.kind == Deleted && e.kind == Added && c.file.size > 0
      ensures c.file.hash != e.file.hash || c.file.size != e.file.size
    {
      assert InDiff(before, after, c) && InDiff(before, after, e);
      if c.file.hash == e.file.hash && c.file.size == e.file.size {
        PairingIsMaximal(before, after, c.path, e.path);
      }
    }
  }

  lemma DeletedIsTold(before: Index, after: Index, cs: seq<Change>, p: string)
    requires IsDiff(before, after, cs) && p in before && p !in after
    ensures Change(Deleted, p, "", before[p]) in cs || exists c :: c in cs && c.kind == Renamed && c.oldPath == p
  {
    if a :| Paired(before, after, p, a) {
      var c := Change(Renamed, a, p, after[a]);
      assert InDiff(before, after, c) && c in cs;
    } else {
      assert InDiff(before, after, Change(Deleted, p, "", before[p]));
    }
  }

  /** Any way of pairing deleted with added paths of the same class, one to one. */
  ghost predicate IsMatching(before: Index, after: Index, m: map<string, string>) {
    && (forall d :: d in m ==>
          d in before && d !in after && m[d] in after && m[d] !in before && SameClass(before[d], after[m[d]]))
    && (forall d, e :: d in m && e in m && m[d] == m[e] ==> d == e)
  }

  /** The deleted paths that the diff reports as renamed. */
  ghost function Renames(before: Index, after: Index): set<string> {
    set d | d in before && HasPartner(before, after, d)
  }

  ghost predicate HasPartner(before: Index, after: Index, d: string) {
    exists a :: Paired(before, after, d, a)
  }

  /** All deleted paths in the class of `d` have a partner. */
  ghost predicate ClassRenamed(before: Index, after: Index, d: string)
    requires d in before
  {
    forall e :: e in Gone(before, after, before[d]) ==> HasPartner(before, after, e)
  }

  /** `x` stands for `d` when a matching is compared with the diff: `d` itself if its whole
      class is renamed, else the path that the diff pairs with the partner of `d`. */
  ghost predicate StandsFor(before: Index, after: Index, m: map<string, string>, x: string, d: string)
    requires d in m && d in before
  {
    if ClassRenamed(before, after, d) then x == d else Paired(before, after, x, m[d])
  }

  lemma StandInExists(before: Index, after: Index, m: map<string, string>, d: string) returns (x: string)
    requires IsMatching(before, after, m) && d in m
    ensures x in Renames(before, after) && StandsFor(before, after, m, x, d)
  {
    if ClassRenamed(before, after, d) {
      assert d in Gone(before, after, before[d]);
      x := d;
    } else {
      var e :| e in Gone(before, after, before[d]) && !HasPartner(before, after, e);
      PairingIsMaximal(before, after, e, m[d]);
      x :| Paired(before, after, x, m[d]);
    }
  }

  lemma OneClassForOneTarget(before: Index, after: Index, d: string, e: string, a: string)
    requires d in before && e in before && a in after
    requires SameClass(before[d], after[a]) && SameClass(before[e], after[a])
    ensures ClassRenamed(before, after, d) == ClassRenamed(before, after, e)
  {
    assert Gone(before, after, before[d]) == Gone(before, after, before[e]);
  }

  lemma StandInsDiffer(before: Index, after: Index, m: map<string, string>, x: string, d: string, e: string)
    requires IsMatching(before, after, m) && d in m && e in m
    requires StandsFor(before, after, m, x, d) && StandsFor(before, after, m, x, e)
    ensures d == e
  {
    if Paired(before, after, d, m[e]) {
      OneClassForOneTarget(before, after, d, e, m[e]);
    }
    if Paired(before, after, e, m[d]) {
      OneClassForOneTarget(before, after, d, e, m[d]);
    }
    if Paired(before, after, x, m[d]) && Paired(before, after, x, m[e]) {
      PairingIsOneToOne(before, after, x, m[d], x, m[e]);
    }
  }

  ghost predicate StandsForOne(before: Index, after: Index, m: map<string, string>, x: string, part: set<string>) {
    exists d :: d in part && d in m && d in before && StandsFor(before, after, m, x, d)
  }

  lemma StandInIsNew(before: Index, after: Index, m: map<string, string>, d: string, x: string, part: set<string>)
    requires IsMatching(before, after, m) && d in m && StandsFor(before, after, m, x, d) && d !in part
    ensures !StandsForOne(before, after, m, x, part)
  {
    if StandsForOne(before, after, m, x, part) {
      var e :| e in part && e in m && e in before && StandsFor(before, after, m, x, e);
      StandInsDiffer(before, after, m, x, d, e);
    }
  }

  lemma SameSizes(found: set<string>, x: string, part: set<string>, d: string)
    requires x !in found && d in part && |found| == |part - {d}|
    ensures |found + {x}| == |part|
  {
    assert part == part - {d} + {d};
  }

  lemma OneMoreStandIn(before: Index, after: Index, m: map<string, string>, d: string, x: string, part: set<string>,
                       others: set<string>)
    requires IsMatching(before, after, m) && d in part && d in m && StandsFor(before, after, m, x, d)
    requires forall z :: z in others ==> StandsForOne(before, after, m, z, part - {d})
    ensures x !in others && forall z :: z in others + {x} ==> StandsForOne(before, after, m, z, part)
  {
    StandInIsNew(before, after, m, d, x, part - {d});
    forall z | z in others
      ensures StandsForOne(before, after, m, z, part)
    {
      var e :| e in part - {d} && e in m && e in before && StandsFor(before, after, m, z, e);
    }
  }

  lemma {:induction false} StandIns(before: Index, after: Index, m: map<string, string>, part: set<string>)
    returns (found: set<string>)
    requires IsMatching(before, after, m) && part <= m.Keys
    ensures found <= Renames(before, after) && |found| == |part|
    ensures forall x :: x in found ==> StandsForOne(before, after, m, x, part)
    decreases part
  {
    found := {};
    if part != {} {
      var d :| d in part;
      var others := StandIns(before, after, m, part - {d});
      var x := StandInExists(before, after, m, d);
      OneMoreStandIn(before, after, m, d, x, part, others);
      SameSizes(others, x, part, d);
      found := others + {x};
    }
  }

  /** No one-to-one pairing within the classes finds more renames than the diff does. */
  lemma PairingIsMaximum(before: Index, after: Index, m: map<string, string>)
    requires IsMatching(before, after, m)
    ensures |m| <= |Renames(before, after)|
  {
    var found := StandIns(before, after, m, m.Keys);
    SubsetSize(found, Renames(before, after));
  }

  /** No two changes concern the same path. */
  lemma ChangesHaveDistinctPaths(before: Index, after: Index, c: Change, e: Change)
    requires InDiff(before, after, c) && InDiff(before, after, e) && c.path == e.path
    ensures c == e
  {
    if c.kind == Renamed && e.kind == Renamed {
      PairingIsOneToOne(before, after, c.oldPath, c.path, e.oldPath, e.path);
    }
  }

  /** The output is determined by the two indexes alone. */
  lemma DiffIsUnique(before: Index, after: Index, cs: seq<Change>, ds: seq<Change>)
    requires IsDiff(before, after, cs) && IsDiff(before, after, ds)
    ensures cs == ds
  {
    SameElementsSameList(cs, ds);
  }

  lemma {:induction false} SameElementsSameList(cs: seq<Change>, ds: seq<Change>)
    requires forall i, j :: 0 <= i < j < |cs| ==> Less(cs[i].path, cs[j].path)
    requires forall i, j :: 0 <= i < j < |ds| ==> Less(ds[i].path, ds[j].path)
    requires forall c :: c in cs <==> c in ds
    ensures cs == ds
  {
    HeadIsMember(cs);
    HeadIsMember(ds);
    if cs != [] {
      FirstChangeAgrees(cs, ds);
      TailElements(cs);
      TailElements(ds);
      SameElementsSameList(cs[1..], ds[1..]);
      assert cs == [cs[0]] + cs[1..] && ds == [ds[0]] + ds[1..];
    }
  }

  lemma HeadIsMember<T>(s: seq<T>)
    ensures s != [] ==> s[0] in s
  {
  }

  lemma TailElements(cs: seq<Change>)
    requires cs != [] && forall i, j :: 0 <= i < j < |cs| ==> Less(cs[i].path, cs[j].path)
    ensures forall c :: c in cs[1..] <==> c in cs && c != cs[0]
  {
    LessIsTotal(cs[0].path, cs[0].path);
    forall c | c in cs && c != cs[0]
      ensures c in cs[1..]
    {
      var i :| 0 <= i < |cs| && cs[i] == c;
      assert cs[1..][i - 1] == c;
    }
  }

  lemma FirstChangeAgrees(cs: seq<Change>, ds: seq<Change>)
    requires forall i, j :: 0 <= i < j < |cs| ==> Less(cs[i].path, cs[j].path)
    requires forall i, j :: 0 <= i < j < |ds| ==> Less(ds[i].path, ds[j].path)
    requires (forall c :: c in cs <==> c in ds) && cs != [] && ds != []
    ensures cs[0] == ds[0]
  {
    assert cs[0] in ds && ds[0] in cs;
    var i :| 0 <= i < |ds| && ds[i] == cs[0];
    var j :| 0 <= j < |cs| && cs[j] == ds[0];
    LessIsTotal(cs[0].path, ds[0].path);
  }

  // ----- applying the changes ------------------------------------------------------

  type View = map<string, Hash>

  function ViewOf(idx: Index): View {
    map p | p in idx :: idx[p].hash
  }

  /** A rename moves what is at the old path. */
  function Apply(v: View, c: Change): View {
    match c.kind
    case Added => v[c.path := c.file.hash]
    case Modified => v[c.path := c.file.hash]
    case Deleted => v - {c.path}
    case Renamed => if c.oldPath in v then (v - {c.oldPath})[c.path := v[c.oldPath]] else v
  }

  function ApplyAll(v: View, cs: seq<Change>): View {
    if cs == [] then v else Apply(ApplyAll(v, cs[..|cs| - 1]), cs[|cs| - 1])
  }

  predicate Touches(c: Change, p: string) {
    c.path == p || (c.kind == Renamed && c.oldPath == p)
  }

  lemma TouchedOnce(before: Index, after: Index, c: Change, e: Change, p: string)
    requires InDiff(before, after, c) && InDiff(before, after, e) && Touches(c, p) && Touches(e, p)
    ensures c == e
  {
    if c.path == e.path {
      ChangesHaveDistinctPaths(before, after, c, e);
    } else if c.kind == Renamed && e.kind == Renamed && c.oldPath == e.oldPath {
      PairingIsOneToOne(before, after, c.oldPath, c.path, e.oldPath, e.path);
    }
  }

  /** Every path whose view differs is touched by some change. */
  lemma DifferencesAreTouched(before: Index, after: Index, p: string) returns (c: Change)
    requires Lookup(ViewOf(before), p) != Lookup(ViewOf(after), p)
    ensures InDiff(before, after, c) && Touches(c, p)
  {
    if p in before && p in after {
      c := Change(Modified, p, "", after[p]);
    } else if p in after {
      if d :| Paired(before, after, d, p) {
        c := Change(Renamed, p, d, after[p]);
      } else {
        c := Change(Added, p, "", after[p]);
      }
    } else if a :| Paired(before, after, p, a) {
      c := Change(Renamed, a, p, after[a]);
    } else {
      c := Change(Deleted, p, "", before[p]);
    }
  }

  lemma ApplyAt(before: Index, after: Index, v: View, c: Change, p: string)
    requires InDiff(before, after, c)
    requires forall q :: Touches(c, q) ==> Lookup(v, q) == Lookup(ViewOf(before), q)
    ensures Lookup(Apply(v, c), p) == if Touches(c, p) then Lookup(ViewOf(after), p) else Lookup(v, p)
  {
    assert Touches(c, c.path);
    if c.kind == Renamed {
      assert Touches(c, c.oldPath) && c.oldPath in v;
    }
  }

  /** After some of the changes, touched paths look as in the new index and all
      others as in the old one. */
  lemma {:induction false} ApplySome(before: Index, after: Index, cs: seq<Change>, p: string)
    requires forall c :: c in cs ==> InDiff(before, after, c)
    requires forall i, j :: 0 <= i < j < |cs| ==> cs[i] != cs[j]
    ensures Lookup(ApplyAll(ViewOf(before), cs), p)
            == if exists c :: c in cs && Touches(c, p) then Lookup(ViewOf(after), p) else Lookup(ViewOf(before), p)
    decreases |cs|
  {
    if cs != [] {
      var n := |cs| - 1;
      var first, c := cs[..n], cs[n];
      var v := ApplyAll(ViewOf(before), first);
      forall q | Touches(c, q)
        ensures Lookup(v, q) == Lookup(ViewOf(before), q)
      {
        ApplySome(before, after, first, q);
        forall e | e in first && Touches(e, q)
          ensures false
        {
          TouchedOnce(before, after, c, e, q);
        }
      }
      ApplyAt(before, after, v, c, p);
      ApplySome(before, after, first, p);
      assert cs == first + [c];
    }
  }

  /** The changes of a diff, one by one and in any order, turn the old view into the new. */
  lemma AnyOrderReachesNewIndex(before: Index, after: Index, cs: seq<Change>)
    requires forall c :: c in cs <==> InDiff(before, after, c)
    requires forall i, j :: 0 <= i < j < |cs| ==> cs[i] != cs[j]
    ensures ApplyAll(ViewOf(before), cs) == ViewOf(after)
  {
    var v := ApplyAll(ViewOf(before), cs);
    forall p
      ensures Lookup(v, p) == Lookup(ViewOf(after), p)
    {
      ApplySome(before, after, cs, p);
      if Lookup(ViewOf(before), p) != Lookup(ViewOf(after), p) {
        var c := DifferencesAreTouched(before, after, p);
        assert c in cs && Touches(c, p);
      }
    }
    SameLookupsSameView(v, ViewOf(after));
  }

  lemma SameLookupsSameView(v: View, w: View)
    requires forall p :: Lookup(v, p) == Lookup(w, p)
    ensures v == w
  {
    forall p
      ensures p in v <==> p in w
      ensures p in v && p in w ==> v[p] == w[p]
    {
      assert Lookup(v, p) == Lookup(w, p);
    }
  }

  lemma DiffReachesNewIndex(before: Index, after: Index, cs: seq<Change>)
    requires IsDiff(before, after, cs)
    ensures ApplyAll(ViewOf(before), cs) == ViewOf(after)
  {
    forall i, j | 0 <= i < j < |cs|
      ensures cs[i] != cs[j]
    {
      LessIsTotal(cs[i].path, cs[j].path);
    }
    AnyOrderReachesNewIndex(before, after, cs);
  }

  // ----- the imperative diff ----------------------------------------------------------

  type Paths = seq<(string, FileInfo)>

  ghost predicate DistinctPaths(cs: seq<Change>) {
    forall i, j :: 0 <= i < j < |cs| ==> cs[i].path != cs[j].path
  }

  /** The list so far has, of the changes of the diff, those that pass `stage`. */
  ghost predicate Partial(before: Index, after: Index, cs: seq<Change>) {
    DistinctPaths(cs) && forall c :: c in cs ==> InDiff(before, after, c)
  }

  lemma AppendChange(before: Index, after: Index, cs: seq<Change>, c: Change)
    requires Partial(before, after, cs) && InDiff(before, after, c) && c !in cs
    ensures Partial(before, after, cs + [c])
  {
    forall i | 0 <= i < |cs|
      ensures cs[i].path != c.path
    {
      if cs[i].path == c.path {
        ChangesHaveDistinctPaths(before, after, cs[i], c);
      }
    }
  }

  /** `ps` lists the files of `idx` that are not in `other`. */
  ghost predicate ListsOnly(ps: Paths, idx: Index, other: Index, rest: set<string>) {
    && DistinctKeys(ps)
    && (forall i :: 0 <= i < |ps| ==> ps[i].0 in idx && ps[i].0 !in other && ps[i].0 !in rest && ps[i].1 == idx[ps[i].0])
    && (forall p :: p in idx && p !in other && p !in rest ==> (p, idx[p]) in ps)
  }

  lemma ListOneMore(ps: Paths, idx: Index, other: Index, rest: set<string>, p: string)
    requires ListsOnly(ps, idx, other, rest) && p in rest && p in idx
    ensures p !in other ==> ListsOnly(ps + [(p, idx[p])], idx, other, rest - {p})
    ensures p in other ==> ListsOnly(ps, idx, other, rest - {p})
  {
  }

  /** The first two loops: new paths, changed files and vanished paths. */
  method Compare(before: Index, after: Index) returns (changes: seq<Change>, added: Paths, deleted: Paths)
    ensures Partial(before, after, changes)
    ensures forall c :: InDiff(before, after, c) ==> (c in changes <==> c.kind == Modified)
    ensures ListsOnly(added, after, before, {}) && ListsOnly(deleted, before, after, {})
  {
    changes, added, deleted := [], [], [];
    var rest := after.Keys;
    while rest != {}
      invariant rest <= after.Keys && Partial(before, after, changes)
      invariant forall c :: InDiff(before, after, c) ==> (c in changes <==> c.kind == Modified && c.path !in rest)
      invariant ListsOnly(added, after, before, rest)
      decreases rest
    {
      var p :| p in rest;
      ListOneMore(added, after, before, rest, p);
      if p !in before {
        added := added + [(p, after[p])];
      } else if before[p].hash != after[p].hash {
        var c := Change(Modified, p, "", after[p]);
        AppendChange(before, after, changes, c);
        changes := changes + [c];
      }
      rest := rest - {p};
    }
    rest := before.Keys;
    while rest != {}
      invariant rest <= before.Keys && ListsOnly(deleted, before, after, rest)
      decreases rest
    {
      var p :| p in rest;
      ListOneMore(deleted, before, after, rest, p);
      if p !in after {
        deleted := deleted + [(p, before[p])];
      }
      rest := rest - {p};
    }
  }

  lemma SortedStillLists(ps: Paths, sorted: Paths, idx: Index, other: Index)
    requires ListsOnly(ps, idx, other, {}) && Ascending(sorted) && multiset(sorted) == multiset(ps)
    ensures ListsOnly(sorted, idx, other, {})
  {
    AscendingKeysDiffer(sorted);
    forall i | 0 <= i < |sorted|
      ensures sorted[i] in ps
    {
      assert sorted[i] in multiset(sorted);
    }
    forall x | x in ps
      ensures x in sorted
    {
      assert x in multiset(ps);
    }
  }

  function GroupOf(byHash: map<Hash, Paths>, h: Hash): Paths {
    if h in byHash then byHash[h] else []
  }

  /** The non-empty files of `ps` with digest `h`, ascending. */
  ghost predicate IsGroup(group: Paths, ps: Paths, h: Hash) {
    Ascending(group) && forall x :: x in group <==> x in ps && x.1.hash == h && x.1.size > 0
  }

  lemma GroupOneMore(group: Paths, added: Paths, i: nat, h: Hash)
    requires Ascending(added) && i < |added| && IsGroup(group, added[..i], h)
    ensures var x := added[i];
            if x.1.size > 0 && x.1.hash == h then IsGroup(group + [x], added[..i + 1], h)
            else IsGroup(group, added[..i + 1], h)
  {
    assert added[..i + 1] == added[..i] + [added[i]];
    forall k | 0 <= k < |group|
      ensures Less(group[k].0, added[i].0)
    {
      assert group[k] in added[..i];
    }
  }

  /** `addedByHash`. */
  method GroupByHash(added: Paths) returns (byHash: map<Hash, Paths>)
    requires Ascending(added)
    ensures forall h :: IsGroup(GroupOf(byHash, h), added, h)
  {
    byHash := map[];
    for i := 0 to |added|
      invariant forall h :: IsGroup(GroupOf(byHash, h), added[..i], h)
    {
      var x := added[i];
      forall h
        ensures if x.1.size > 0 && x.1.hash == h then IsGroup(GroupOf(byHash, h) + [x], added[..i + 1], h)
                else IsGroup(GroupOf(byHash, h), added[..i + 1], h)
      {
        GroupOneMore(GroupOf(byHash, h), added, i, h);
      }
      ghost var was := byHash;
      if x.1.size != 0 {
        byHash := byHash[x.1.hash := GroupOf(byHash, x.1.hash) + [x]];
      }
      assert forall h :: GroupOf(byHash, h) ==
                         if x.1.size > 0 && x.1.hash == h then GroupOf(was, h) + [x] else GroupOf(was, h);
    }
    assert added[..|added|] == added;
  }

  /** The added paths that the first `n` deleted paths have taken. */
  ghost predicate Taken(before: Index, after: Index, deleted: Paths, n: nat, a: string)
    requires n <= |deleted|
  {
    exists j :: 0 <= j < n && Paired(before, after, deleted[j].0, a)
  }

  /** Within the class of the next deleted path, the added paths already taken are
      those of smaller rank. */
  lemma TakenAreSmaller(before: Index, after: Index, deleted: Paths, n: nat, a: string)
    requires n < |deleted| && Ascending(deleted) && ListsOnly(deleted, before, after, {})
    requires a in after && a !in before && SameClass(deleted[n].1, after[a])
    ensures Taken(before, after, deleted, n, a)
            <==> Rank(Gone(after, before, deleted[n].1), a) < Rank(Gone(before, after, deleted[n].1), deleted[n].0)
  {
    var d, f := deleted[n].0, deleted[n].1;
    var gone, arrived := Gone(before, after, f), Gone(after, before, f);
    if j :| 0 <= j < n && Paired(before, after, deleted[j].0, a) {
      assert Gone(before, after, deleted[j].1) == gone && Gone(after, before, deleted[j].1) == arrived;
      RankOrders(gone, deleted[j].0, d);
    }
    if Rank(arrived, a) < Rank(gone, d) {
      var d' := RanksAreContiguous(gone, d, Rank(arrived, a));
      assert Gone(before, after, before[d']) == gone && Gone(after, before, before[d']) == arrived;
      assert Paired(before, after, d', a);
      assert (d', before[d']) in deleted;
      var j :| 0 <= j < |deleted| && deleted[j] == (d', before[d']);
      LessIsTotal(d', d);
      assert j < n;
    }
  }

  /** All of `group` before the k-th are taken or of another size. */
  ghost predicate NoneFree(group: Paths, matched: set<string>, f: FileInfo, k: nat)
    requires k <= |group|
  {
    forall i :: 0 <= i < k ==> group[i].0 in matched || group[i].1.size != f.size
  }

  /** The inner loop: the first path of the group that is in the class and not taken. */
  method FirstFree(group: Paths, matched: set<string>, f: FileInfo) returns (k: nat)
    ensures k <= |group|
    ensures k < |group| ==> group[k].0 !in matched && group[k].1.size == f.size
    ensures NoneFree(group, matched, f, k)
  {
    k := 0;
    while k < |group| && (group[k].0 in matched || group[k].1.size != f.size)
      invariant k <= |group|
      invariant forall i :: 0 <= i < k ==> group[i].0 in matched || group[i].1.size != f.size
    {
      k := k + 1;
    }
  }

  /** So no path of smaller rank is still free. */
  lemma FreeIsNotAbove(before: Index, after: Index, added: Paths, deleted: Paths, n: nat, group: Paths,
                       matched: set<string>, k: nat)
    requires n < |deleted| && Ascending(deleted) && ListsOnly(deleted, before, after, {}) && ListsOnly(added, after, before, {})
    requires deleted[n].1.size > 0 && IsGroup(group, added, deleted[n].1.hash)
    requires forall a :: a in matched <==> Taken(before, after, deleted, n, a)
    requires k < |group| && NoneFree(group, matched, deleted[n].1, k) && group[k].1.size == deleted[n].1.size
    ensures Rank(Gone(after, before, deleted[n].1), group[k].0) <= Rank(Gone(before, after, deleted[n].1), deleted[n].0)
  {
    var d, f, a := deleted[n].0, deleted[n].1, group[k].0;
    var gone, arrived := Gone(before, after, f), Gone(after, before, f);
    assert group[k] in added;
    if Rank(arrived, a) > Rank(gone, d) {
      var b := RanksAreContiguous(arrived, a, Rank(gone, d));
      TakenAreSmaller(before, after, deleted, n, b);
      assert (b, after[b]) in added && (b, after[b]) in group;
      var i :| 0 <= i < |group| && group[i] == (b, after[b]);
      LessIsTotal(b, a);
      assert false;
    }
  }

  /** So the first free path is the partner, and without one there is none. */
  lemma FirstFreeIsPartner(before: Index, after: Index, added: Paths, deleted: Paths, n: nat,
                           group: Paths, matched: set<string>, k: nat)
    requires n < |deleted| && Ascending(deleted) && ListsOnly(deleted, before, after, {}) && ListsOnly(added, after, before, {})
    requires deleted[n].1.size > 0 && IsGroup(group, added, deleted[n].1.hash)
    requires forall a :: a in matched <==> Taken(before, after, deleted, n, a)
    requires k <= |group| && NoneFree(group, matched, deleted[n].1, k)
    requires k < |group| ==> group[k].0 !in matched && group[k].1.size == deleted[n].1.size
    ensures k < |group| ==> Paired(before, after, deleted[n].0, group[k].0)
    ensures k == |group| ==> forall a :: !Paired(before, after, deleted[n].0, a)
  {
    if k < |group| {
      assert group[k] in added;
      TakenAreSmaller(before, after, deleted, n, group[k].0);
      FreeIsNotAbove(before, after, added, deleted, n, group, matched, k);
    } else {
      forall a
        ensures !Paired(before, after, deleted[n].0, a)
      {
        if Paired(before, after, deleted[n].0, a) {
          PartnerIsFree(before, after, added, deleted, n, group, matched, a);
        }
      }
    }
  }

  lemma PartnerIsFree(before: Index, after: Index, added: Paths, deleted: Paths, n: nat, group: Paths,
                      matched: set<string>, a: string)
    requires n < |deleted| && Ascending(deleted) && ListsOnly(deleted, before, after, {}) && ListsOnly(added, after, before, {})
    requires deleted[n].1.size > 0 && IsGroup(group, added, deleted[n].1.hash)
    requires forall b :: b in matched <==> Taken(before, after, deleted, n, b)
    requires Paired(before, after, deleted[n].0, a)
    ensures !NoneFree(group, matched, deleted[n].1, |group|)
  {
    TakenAreSmaller(before, after, deleted, n, a);
    assert (a, after[a]) in added && (a, after[a]) in group;
    var i :| 0 <= i < |group| && group[i] == (a, after[a]);
  }

  /** The pairing loop after `n` deleted paths. */
  ghost predicate PairedSoFar(before: Index, after: Index, deleted: Paths, n: nat, changes: seq<Change>,
                              matchedAdded: set<string>, matchedDeleted: set<string>)
    requires n <= |deleted|
  {
    && Partial(before, after, changes)
    && (forall c :: InDiff(before, after, c) ==>
          (c in changes <==> c.kind == Modified || (c.kind == Renamed && Visited(deleted, n, c.oldPath))))
    && (forall a :: a in matchedAdded <==> Taken(before, after, deleted, n, a))
    && (forall d :: d in matchedDeleted <==> Visited(deleted, n, d) && exists a :: Paired(before, after, d, a))
  }

  ghost predicate Visited(ps: Paths, n: nat, p: string)
    requires n <= |ps|
  {
    exists j :: 0 <= j < n && ps[j].0 == p
  }

  lemma VisitOneMore(before: Index, after: Index, deleted: Paths, n: nat)
    requires n < |deleted|
    ensures forall p :: Visited(deleted, n + 1, p) <==> Visited(deleted, n, p) || p == deleted[n].0
    ensures forall a :: Taken(before, after, deleted, n + 1, a)
                        <==> Taken(before, after, deleted, n, a) || Paired(before, after, deleted[n].0, a)
  {
    forall p
      ensures Visited(deleted, n + 1, p) <==> Visited(deleted, n, p) || p == deleted[n].0
    {
      if Visited(deleted, n, p) {
        var j :| 0 <= j < n && deleted[j].0 == p;
        assert 0 <= j < n + 1 && deleted[j].0 == p;
      }
    }
    forall a
      ensures Taken(before, after, deleted, n + 1, a)
              <==> Taken(before, after, deleted, n, a) || Paired(before, after, deleted[n].0, a)
    {
      if Taken(before, after, deleted, n, a) {
        var j :| 0 <= j < n && Paired(before, after, deleted[j].0, a);
        assert 0 <= j < n + 1 && Paired(before, after, deleted[j].0, a);
      }
    }
  }

  lemma SkipDeleted(before: Index, after: Index, deleted: Paths, n: nat, changes: seq<Change>,
                    matchedAdded: set<string>, matchedDeleted: set<string>)
    requires n < |deleted| && PairedSoFar(before, after, deleted, n, changes, matchedAdded, matchedDeleted)
    requires forall a :: !Paired(before, after, deleted[n].0, a)
    ensures PairedSoFar(before, after, deleted, n + 1, changes, matchedAdded, matchedDeleted)
  {
    VisitOneMore(before, after, deleted, n);
  }

  lemma PairDeleted(before: Index, after: Index, deleted: Paths, n: nat, changes: seq<Change>,
                    matchedAdded: set<string>, matchedDeleted: set<string>, c: Change)
    requires n < |deleted| && DistinctKeys(deleted)
    requires PairedSoFar(before, after, deleted, n, changes, matchedAdded, matchedDeleted)
    requires InDiff(before, after, c) && c.kind == Renamed && c.oldPath == deleted[n].0
    ensures PairedSoFar(before, after, deleted, n + 1, changes + [c], matchedAdded + {c.path}, matchedDeleted + {c.oldPath})
  {
    var d := c.oldPath;
    VisitOneMore(before, after, deleted, n);
    assert !Visited(deleted, n, d);
    AppendChange(before, after, changes, c);
    forall e | InDiff(before, after, e) && e.kind == Renamed && e.oldPath == d
      ensures e == c
    {
      PairingIsOneToOne(before, after, d, c.path, d, e.path);
    }
    forall a | Paired(before, after, d, a)
      ensures a == c.path
    {
      PairingIsOneToOne(before, after, d, c.path, d, a);
    }
  }

  /** The pairing loop. */
  method PairRenames(before: Index, after: Index, added: Paths, deleted: Paths, modified: seq<Change>)
    returns (changes: seq<Change>, matchedAdded: set<string>, matchedDeleted: set<string>)
    requires Ascending(added) && ListsOnly(added, after, before, {})
    requires Ascending(deleted) && ListsOnly(deleted, before, after, {})
    requires Partial(before, after, modified)
    requires forall c :: InDiff(before, after, c) ==> (c in modified <==> c.kind == Modified)
    ensures PairedSoFar(before, after, deleted, |deleted|, changes, matchedAdded, matchedDeleted)
  {
    var byHash := GroupByHash(added);
    changes, matchedAdded, matchedDeleted := modified, {}, {};
    for n := 0 to |deleted|
      invariant PairedSoFar(before, after, deleted, n, changes, matchedAdded, matchedDeleted)
    {
      var d, f := deleted[n].0, deleted[n].1;
      var group := GroupOf(byHash, f.hash);
      var k := |group|;
      if f.size != 0 {
        k := FirstFree(group, matchedAdded, f);
        FirstFreeIsPartner(before, after, added, deleted, n, group, matchedAdded, k);
      }
      if k < |group| {
        var c := Change(Renamed, group[k].0, d, after[group[k].0]);
        PairDeleted(before, after, deleted, n, changes, matchedAdded, matchedDeleted, c);
        changes := changes + [c];
        matchedAdded, matchedDeleted := matchedAdded + {c.path}, matchedDeleted + {d};
      } else {
        SkipDeleted(before, after, deleted, n, changes, matchedAdded, matchedDeleted);
      }
    }
  }

  lemma AllDeletedVisited(before: Index, after: Index, deleted: Paths)
    requires ListsOnly(deleted, before, after, {})
    ensures forall p :: Visited(deleted, |deleted|, p) <==> p in before && p !in after
  {
    forall p | p in before && p !in after
      ensures Visited(deleted, |deleted|, p)
    {
      assert (p, before[p]) in deleted;
      var j :| 0 <= j < |deleted| && deleted[j] == (p, before[p]);
    }
  }

  /** The last loops: what has no partner is an addition or a deletion. */
  method AppendUnmatched(before: Index, after: Index, ps: Paths, matched: set<string>, kind: ChangeKind, sofar: seq<Change>)
    returns (changes: seq<Change>)
    requires kind == Added || kind == Deleted
    requires if kind == Added then ListsOnly(ps, after, before, {}) else ListsOnly(ps, before, after, {})
    requires kind == Added ==> forall a :: a in matched <==> exists d :: Paired(before, after, d, a)
    requires kind == Deleted ==> forall d :: d in matched <==> exists a :: Paired(before, after, d, a)
    requires Partial(before, after, sofar)
    requires forall c :: c in sofar ==> c.kind != kind
    ensures Partial(before, after, changes)
    ensures forall c :: InDiff(before, after, c) ==> (c in changes <==> c in sofar || c.kind == kind)
  {
    changes := sofar;
    for i := 0 to |ps|
      invariant Partial(before, after, changes)
      invariant forall c :: InDiff(before, after, c) ==>
                  (c in changes <==> c in sofar || (c.kind == kind && Visited(ps, i, c.path)))
    {
      var p := ps[i].0;
      if p !in matched {
        var c := Change(kind, p, "", ps[i].1);
        assert !Visited(ps, i, p);
        AppendChange(before, after, changes, c);
        changes := changes + [c];
      }
    }
    forall c | InDiff(before, after, c) && c.kind == kind
      ensures Visited(ps, |ps|, c.path)
    {
      assert (c.path, c.file) in ps;
      var j :| 0 <= j < |ps| && ps[j] == (c.path, c.file);
    }
  }

  method Diff(before: Index, after: Index) returns (changes: seq<Change>)
    ensures IsDiff(before, after, changes)
  {
    var added, deleted;
    changes, added, deleted := Compare(before, after);
    var addedPaths := Sort(added);
    var deletedPaths := Sort(deleted);
    SortedStillLists(added, addedPaths, after, before);
    SortedStillLists(deleted, deletedPaths, before, after);
    var matchedAdded, matchedDeleted;
    changes, matchedAdded, matchedDeleted := PairRenames(before, after, addedPaths, deletedPaths, changes);
    AllDeletedVisited(before, after, deletedPaths);
    changes := AppendUnmatched(before, after, addedPaths, matchedAdded, Added, changes);
    changes := AppendUnmatched(before, after, deletedPaths, matchedDeleted, Deleted, changes);
    changes := SortChanges(before, after, changes);
  }

  /** `sort.Slice` by path and kind; as all paths differ, the kind never decides. */
  method SortChanges(before: Index, after: Index, cs: seq<Change>) returns (sorted: seq<Change>)
    requires Partial(before, after, cs) && forall c :: InDiff(before, after, c) ==> c in cs
    ensures IsDiff(before, after, sorted)
  {
    var items := seq(|cs|, i requires 0 <= i < |cs| => (cs[i].path, cs[i]));
    var r := Sort(items);
    sorted := seq(|r|, i requires 0 <= i < |r| => r[i].1);
    forall i | 0 <= i < |r|
      ensures r[i].0 == r[i].1.path && r[i].1 in cs
    {
      assert r[i] in multiset(r);
      var k :| 0 <= k < |items| && items[k] == r[i];
    }
    forall c | c in cs
      ensures c in sorted
    {
      var k :| 0 <= k < |cs| && cs[k] == c;
      assert items[k] in multiset(items);
      var i :| 0 <= i < |r| && r[i] == items[k];
      assert sorted[i] == c;
    }
  }
}
