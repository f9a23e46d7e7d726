/** Two engines that pull a folder from each other in turn
    (`engine/internal/syncengine/syncengine.go`). */
module Convergence {
  import opened Basics
  import opened Names
  import opened Reconcile
  import opened Session
  import opened Turn
  import opened HonestPeer
  import opened SyncEngine
  import Chunker
  import Protocol
  import Rounds

  // ----- what a caller knows before the pulls ----------------------------------------------------

  /** The states of the two devices before the first pull, where they are, how they cut files
      into blocks, and the clocks of the pulls to come. The device in state `sA` pulls first,
      and then the two take turns. */
  datatype Duo = Duo(sA: State, sB: State, siteA: Site, siteB: Site, chA: Chunker.Chunker, chB: Chunker.Chunker,
                     clocks: seq<Clock>)
  {
    /** Where the i-th pull happens. */
    function At(i: nat): Site {
      if i % 2 == 0 then siteA else siteB
    }

    /** The chunker of the device that pulls. */
    function Cuts(i: nat): Chunker.Chunker {
      if i % 2 == 0 then chA else chB
    }

    predicate Ordinary(path: string) {
      HonestPeer.Ordinary(siteA, path) && HonestPeer.Ordinary(siteB, path)
    }

    /** The contents of both folders. */
    function Contents(): set<Bytes> {
      sA.files.Values + sB.files.Values
    }
  }

  ghost predicate GoodDigests(d: Duo) {
    && d.siteA.hash == d.siteB.hash
    && CollisionFree(d.siteA.hash, d.sA.files, d.sB.files)
    && NoZeroDigest(d.siteA.hash, d.sA.files) && NoZeroDigest(d.siteA.hash, d.sB.files)
  }

  /** The paths of both folders are local, clean and not those of temporary files on both
      devices; clocks and digests are as they should be. */
  ghost predicate Fair(d: Duo) {
    && (forall p :: p in d.sA.files || p in d.sB.files ==> d.Ordinary(p))
    && (forall i :: 0 <= i < |d.clocks| ==> GoodClock(d.At(i).deviceId, d.clocks[i]))
    && GoodDigests(d) && d.siteA.folder == d.siteB.folder
  }

  /** In the n-th pull, by a device in state `own` from one with the folder `r`, the files that
      are set aside get names that are free and ordinary. */
  ghost predicate NewCopies(d: Duo, n: nat, own: State, r: Folder)
    requires n < |d.clocks|
  {
    forall p, t :: Aside(Rounds.PlansOf(d.siteA.hash, own, r), p) && t in Stamps(d.clocks[n]) ==>
      IsNewCopy(d, own.files, r, ConflictName(p, d.At(n).deviceId, t))
  }

  ghost predicate IsNewCopy(d: Duo, f: Folder, r: Folder, q: string) {
    q !in f && q !in r && d.Ordinary(q)
  }

  /** The same for both devices and the folders before the first pull, and the two cannot choose
      the same name: their short ids differ, or the first two pulls read different times. */
  ghost predicate CopiesKeptApart(d: Duo) {
    && |d.clocks| >= 2
    && NewCopies(d, 0, d.sA, d.sB.files) && NewCopies(d, 1, d.sB, d.sA.files)
    && (Short(d.siteA.deviceId) != Short(d.siteB.deviceId) || Stamps(d.clocks[0]) !! Stamps(d.clocks[1]))
  }

  // ----- what stays so along the pulls ---------------------------------------------------------------

  /** A folder with ordinary paths and no contents but those of the two folders. */
  ghost predicate Tame(d: Duo, g: Folder) {
    forall q :: q in g ==> d.Ordinary(q) && g[q] in d.Contents()
  }

  lemma PieceOfTame(d: Duo, g: Folder, x: Bytes)
    requires Tame(d, g) && IsPiece(x, g)
    ensures IsPiece(x, d.sA.files) || IsPiece(x, d.sB.files)
  {
    var q, o, l :| q in g && ReadAt(g[q], o, l) == Some(x);
    if g[q] in d.sA.files.Values {
      var p :| p in d.sA.files && d.sA.files[p] == g[q];
      assert ReadAt(d.sA.files[p], o, l) == Some(x);
    } else {
      var p :| p in d.sB.files && d.sB.files[p] == g[q];
      assert ReadAt(d.sB.files[p], o, l) == Some(x);
    }
  }

  lemma PieceOfEither(d: Duo, g: Folder, r: Folder, x: Bytes)
    requires Tame(d, g) && Tame(d, r) && (IsPiece(x, g) || IsPiece(x, r))
    ensures IsPiece(x, d.sA.files) || IsPiece(x, d.sB.files)
  {
    if IsPiece(x, g) {
      PieceOfTame(d, g, x);
    } else {
      PieceOfTame(d, r, x);
    }
  }

  lemma NoZeroInTame(d: Duo, g: Folder)
    requires Tame(d, g) && GoodDigests(d)
    ensures NoZeroDigest(d.siteA.hash, g)
  {
    forall q | q in g
      ensures d.siteA.hash(g[q]) != ZERO_HASH
    {
      if g[q] in d.sA.files.Values {
        var p :| p in d.sA.files && d.sA.files[p] == g[q];
      } else {
        var p :| p in d.sB.files && d.sB.files[p] == g[q];
      }
    }
  }

  lemma TameDigests(d: Duo, g: Folder, r: Folder)
    requires Tame(d, g) && Tame(d, r) && GoodDigests(d)
    ensures CollisionFree(d.siteA.hash, g, r) && NoZeroDigest(d.siteA.hash, g) && NoZeroDigest(d.siteA.hash, r)
  {
    forall x, y | (IsPiece(x, g) || IsPiece(x, r)) && (IsPiece(y, g) || IsPiece(y, r)) && d.siteA.hash(x) == d.siteA.hash(y)
      ensures x == y
    {
      PieceOfEither(d, g, r, x);
      PieceOfEither(d, g, r, y);
    }
    NoZeroInTame(d, g);
    NoZeroInTame(d, r);
  }

  /** The names that a pull can choose are conflict names of its peer's paths. */
  ghost predicate NamesOf(names: map<string, string>, id: string, clock: Clock, r: Folder) {
    forall p :: p in names ==> p in r && exists t :: t in Stamps(clock) && names[p] == ConflictName(p, id, t)
  }

  lemma {:induction false} CopyNamesAreNames(index: seq<FileMeta>, id: string, clock: Clock, r: Folder)
    requires forall i :: 0 <= i < |index| ==> index[i].path in r
    ensures NamesOf(CopyNames(index, id, clock), id, clock, r)
  {
    if index != [] {
      CopyNamesAreNames(index[..|index| - 1], id, clock, r);
    }
  }

  /** The n-th pull can lead from `own` to `now`, for all that is known of its clock. */
  ghost predicate CanStep(d: Duo, n: nat, own: State, r: Folder, names: map<string, string>, now: State)
    requires n < |d.clocks|
  {
    NamesOf(names, d.At(n).deviceId, d.clocks[n], r) && Rounds.Pulled(d.siteA.hash, own, r, names, now)
  }

  lemma CopyIsOrdinary(d: Duo, n: nat, own: State, r: Folder, names: map<string, string>, p: string)
    requires n < |d.clocks| && NewCopies(d, n, own, r) && NamesOf(names, d.At(n).deviceId, d.clocks[n], r)
    requires Aside(Rounds.PlansOf(d.siteA.hash, own, r), p) && p in names
    ensures IsNewCopy(d, own.files, r, names[p])
  {
    var t :| t in Stamps(d.clocks[n]) && names[p] == ConflictName(p, d.At(n).deviceId, t);
  }

  /** Pulling invents no contents, and no paths but ordinary conflict names. */
  lemma PullStaysTame(d: Duo, n: nat, own: State, r: Folder, names: map<string, string>, now: State)
    requires n < |d.clocks| && Tame(d, own.files) && Tame(d, r) && NewCopies(d, n, own, r)
    requires CanStep(d, n, own, r, names, now)
    ensures Tame(d, now.files)
  {
    forall p | Aside(Rounds.PlansOf(d.siteA.hash, own, r), p) && p in names
      ensures d.Ordinary(names[p])
    {
      CopyIsOrdinary(d, n, own, r, names, p);
    }
    var paths, contents := iset q | d.Ordinary(q), iset x | x in d.Contents();
    Rounds.PullPathsWithin(d.siteA.hash, paths, own, r, names, now);
    Rounds.PullStaysWithin(d.siteA.hash, contents, own, r, names, now);
  }

  // ----- the names that the second pull chooses -------------------------------------------------------

  /** What B would set aside from A after A has pulled, it would have set aside before. */
  lemma AsideBefore(hash: HashFn, a: State, b: State, names: map<string, string>, a1: State, p: string)
    requires Rounds.Pulled(hash, a, b.files, names, a1) && Aside(Rounds.PlansOf(hash, b, a1.files), p)
    ensures Aside(Rounds.PlansOf(hash, b, a.files), p)
  {
    assert p in b.files && p in a1.files && hash(a1.files[p]) != hash(b.files[p]);
    assert p in a.files && a1.files[p] == a.files[p];
  }

  lemma CopiesOfBothDiffer(d: Duo, names: map<string, string>, p: string, t: string, q: string)
    requires Fair(d) && CopiesKeptApart(d) && NamesOf(names, d.siteA.deviceId, d.clocks[0], d.sB.files)
    requires t in Stamps(d.clocks[1]) && q in names
    ensures ConflictName(p, d.siteB.deviceId, t) != names[q]
  {
    var s :| s in Stamps(d.clocks[0]) && names[q] == ConflictName(q, d.siteA.deviceId, s);
    assert GoodClock(d.At(0).deviceId, d.clocks[0]) && GoodClock(d.At(1).deviceId, d.clocks[1]);
    if ConflictName(p, d.siteB.deviceId, t) == names[q] {
      ConflictNamesTellOrigin(p, d.siteB.deviceId, t, q, d.siteA.deviceId, s);
    }
  }

  lemma SecondCopyIsNew(d: Duo, names: map<string, string>, a1: State, p: string, t: string)
    requires Fair(d) && CopiesKeptApart(d) && CanStep(d, 0, d.sA, d.sB.files, names, a1)
    requires Aside(Rounds.PlansOf(d.siteA.hash, d.sB, a1.files), p) && t in Stamps(d.clocks[1])
    ensures IsNewCopy(d, d.sB.files, a1.files, ConflictName(p, d.siteB.deviceId, t))
  {
    var q := ConflictName(p, d.At(1).deviceId, t);
    AsideBefore(d.siteA.hash, d.sA, d.sB, names, a1, p);
    assert IsNewCopy(d, d.sB.files, d.sA.files, q);
    if q in a1.files {
      var plans := Rounds.PlansOf(d.siteA.hash, d.sA, d.sB.files);
      assert IsCopy(names, plans, d.sB.files.Keys, q);
      var p' :| Aside(plans, p') && p' in names && names[p'] == q;
      CopiesOfBothDiffer(d, names, p, t, p');
    }
  }

  /** Whatever the first pull has made of A, the names that B chooses in the second are free. */
  lemma SecondNamesAreNew(d: Duo, names: map<string, string>, a1: State)
    requires Fair(d) && CopiesKeptApart(d) && CanStep(d, 0, d.sA, d.sB.files, names, a1)
    ensures NewCopies(d, 1, d.sB, a1.files)
  {
    forall p, t | Aside(Rounds.PlansOf(d.siteA.hash, d.sB, a1.files), p) && t in Stamps(d.clocks[1])
      ensures IsNewCopy(d, d.sB.files, a1.files, ConflictName(p, d.At(1).deviceId, t))
    {
      SecondCopyIsNew(d, names, a1, p, t);
    }
  }

  // ----- one pull from an engine ---------------------------------------------------------------------

  /** Every list of the folder's files fits a frame, and so does every chunk. */
  ghost predicate FitsFrames(there: Chunker.Chunker, size: IndexSize, folder: string, r: Folder) {
    && HASH_SIZE + there.cfg.max <= Protocol.MAX_FRAME_SIZE
    && forall index :: ListsExactly(there, index, r) ==> Fits(size(folder, index))
  }

  /** What one pull needs: `was` is the state here and `r` the peer's folder. The conflict names
      of the files that are set aside are free and clean. */
  ghost predicate Clear(site: Site, was: State, r: Folder, clock: Clock) {
    && (forall p :: p in r ==> Ordinary(site, p))
    && CollisionFree(site.hash, was.files, r) && NoZeroDigest(site.hash, was.files) && NoZeroDigest(site.hash, r)
    && GoodClock(site.deviceId, clock)
    && forall p, t :: Aside(Rounds.PlansOf(site.hash, was, r), p) && t in Stamps(clock) ==>
         NewName(site, was.files, r, ConflictName(p, site.deviceId, t))
  }

  ghost predicate NewName(site: Site, f: Folder, r: Folder, q: string) {
    q !in f && q !in r && site.resolve(q) == q
  }

  lemma ServedListIsReady(site: Site, s: Server, j: Job, base: Baseline, names: map<string, string>)
    requires j.site == site && j.remote == s.index && ListsTruthfully(site, s) && j.baseline == Some(base)
    requires Indexes(site.hash, j.local, Visible(j.before)) && Clear(site, StateOf(j.before, base), s.files, j.clock)
    requires names == NamesIn(j, s) && NamesOf(names, site.deviceId, j.clock, s.files)
    ensures Ready(j, s)
  {
    PlansAreThoseOfARound(site.hash, Visible(j.before), j.local, base, s.files);
    forall q | Aside(PlansIn(j, s), q) && q in names
      ensures NewName(site, Visible(j.before), s.files, names[q])
    {
      var t :| t in Stamps(j.clock) && names[q] == ConflictName(q, site.deviceId, t);
    }
  }

  /** One engine's snapshot meets all that the other's pull asks of an honest peer. */
  lemma ServedFolderIsReady(here: Chunker.Chunker, site: Site, there: Chunker.Chunker, s: Server, before: Folder,
                            base: Baseline, clock: Clock)
    requires site.hash == here.hash == there.hash && Serves(there, s, s.files)
    requires HASH_SIZE + there.cfg.max <= Protocol.MAX_FRAME_SIZE
    requires Clear(site, StateOf(before, base), s.files, clock)
    ensures Ready(JobOf(here, site, before, base, clock, s.index), s)
  {
    var j := JobOf(here, site, before, base, clock, s.index);
    ServesTruthfully(there, s, s.files, site);
    IndexedIsIndexed(here, Visible(before));
    CopyNamesAreNames(s.index, site.deviceId, clock, s.files);
    ServedListIsReady(site, s, j, base, NamesIn(j, s));
  }

  /** A try to pull what `s` announces. */
  datatype Attempt = Attempt(j: Job, s: Server, locals: BlockIndex)
  {
    ghost predicate Works()
      requires Ready(j, s)
    {
      AllWork(j, s, locals, |s.index|)
    }

    function Names(): map<string, string> {
      NamesIn(j, s)
    }
  }

  /** `t` is a pull by the device in state `was`, cut by `here`, of the folder `r`, served
      as `there` cuts it. */
  ghost predicate IsAttempt(t: Attempt, here: Chunker.Chunker, site: Site, was: State, clock: Clock, there: Chunker.Chunker,
                            r: Folder)
  {
    && Serves(there, t.s, r) && IsBlockIndex(t.locals, t.j.local) && t.j.baseline.Some?
    && StateOf(t.j.before, t.j.baseline.value) == was
    && t.j == JobOf(here, site, t.j.before, t.j.baseline.value, clock, t.s.index)
    && Ready(t.j, t.s)
  }

  /** The try `t` succeeded exactly if it works out, and led to the state `now`. */
  ghost predicate Exact(t: Attempt, ok: bool, here: Chunker.Chunker, site: Site, was: State, clock: Clock,
                        there: Chunker.Chunker, r: Folder, now: State)
  {
    && IsAttempt(t, here, site, was, clock, there, r) && (ok <==> t.Works())
    && (ok ==> Rounds.Pulled(here.hash, was, r, t.Names(), now))
  }

  lemma ServedPullIsExact(here: Chunker.Chunker, site: Site, there: Chunker.Chunker, s: Server, locals: BlockIndex,
                          env: Surroundings, before: Folder, base: Baseline, err: Option<EngineError>, after: Folder,
                          base': Baseline)
    requires site.hash == here.hash == there.hash && Serves(there, s, s.files)
    requires HASH_SIZE + there.cfg.max <= Protocol.MAX_FRAME_SIZE
    requires Clear(site, StateOf(before, base), s.files, env.clock)
    requires var j := JobOf(here, site, before, base, env.clock, s.index);
             HonestPull(j, s, locals, env, base, err, after, base') && IsBlockIndex(locals, j.local)
    requires err == None || Steady(env)
    ensures var t := Attempt(JobOf(here, site, before, base, env.clock, s.index), s, locals);
            Exact(t, err == None, here, site, StateOf(before, base), env.clock, there, s.files, StateOf(after, base'))
  {
    ServedFolderIsReady(here, site, there, s, before, base, env.clock);
  }

  lemma UndeliveredPullBringsNothing(here: Chunker.Chunker, site: Site, peer: Peer, locals: BlockIndex, env: Surroundings,
                                     before: Folder, base: Baseline, r: Folder, after: Folder, base': Baseline)
    requires site.hash == here.hash && peer.Honest? && !Announced(peer, site.folder)
    requires Clear(site, StateOf(before, base), r, env.clock)
    requires HonestPull(JobOf(here, site, before, base, env.clock, []), ServerFor(peer, site.folder), locals, env, base, None,
                        after, base')
    ensures Rounds.Pulled(site.hash, StateOf(before, base), map[], map[], StateOf(after, base'))
  {
    UndeliveredPullIsPullOfNothing(here, site, peer, locals, env, before, base, after, base');
  }

  /** Both share the folder and have nothing of it in common. */
  ghost predicate Apart(a: Engine, b: Engine, folderId: string) {
    && folderId in a.folders && folderId in b.folders
    && a.Footprint(folderId) !! b.Footprint(folderId) && a.chunker.hash == b.chunker.hash
  }

  /** One engine pulls a folder from another. A folder that the other cannot scan is not
      served, and an index that does not fit a frame does not arrive; either way a success is
      a pull of nothing. Otherwise the pull succeeds exactly if every turn works out. */
  method PullFromEngine(a: Engine, b: Engine, folderId: string, input: map<string, Reads>, env: Surroundings)
    returns (ok: bool, ghost t: Attempt)
    requires Apart(a, b, folderId)
    modifies a.Footprint(folderId)
    ensures (folderId in input ==> Unbroken(input[folderId]))
            && FitsFrames(b.chunker, b.indexSize, folderId, b.Contents(folderId))
            && Clear(a.SiteOf(folderId), old(a.State(folderId)), b.Contents(folderId), env.clock)
            && (ok || Steady(env)) ==>
              Exact(t, ok, a.chunker, a.SiteOf(folderId), old(a.State(folderId)), env.clock, b.chunker, b.Contents(folderId),
                    a.State(folderId))
    ensures ok && HASH_SIZE + b.chunker.cfg.max <= Protocol.MAX_FRAME_SIZE
            && Clear(a.SiteOf(folderId), old(a.State(folderId)), b.Contents(folderId), env.clock) ==>
              || Rounds.Pulled(a.chunker.hash, old(a.State(folderId)), b.Contents(folderId), t.Names(), a.State(folderId))
              || Rounds.Pulled(a.chunker.hash, old(a.State(folderId)), map[], map[], a.State(folderId))
  {
    ghost var la := a.folders[folderId];
    ghost var before, base, theirs := la.disk.files, la.baseline, b.Contents(folderId);
    var snapshot := b.FolderSnapshot(input);
    var conn := new Conn(Honest(snapshot));
    ghost var s := ServerFor(conn.peer, folderId);
    var err, stats, j, locals, tr := a.PullFolder(folderId, conn, env);
    ok, t := err == None, Attempt(JobOf(a.chunker, a.SiteOf(folderId), before, base, env.clock, s.index), s, locals);
    if HASH_SIZE + b.chunker.cfg.max <= Protocol.MAX_FRAME_SIZE && Clear(a.SiteOf(folderId), StateOf(before, base), theirs, env.clock)
       && (ok || Steady(env))
    {
      if Announced(conn.peer, folderId) {
        ServedPullIsExact(a.chunker, a.SiteOf(folderId), b.chunker, s, locals, env, before, base, err, la.disk.files, la.baseline);
      } else if ok {
        UndeliveredPullBringsNothing(a.chunker, a.SiteOf(folderId), conn.peer, locals, env, before, base, theirs, la.disk.files,
                                     la.baseline);
      }
    }
  }

  // ----- two engines in turn -------------------------------------------------------------------------

  /** After `n` pulls that succeed the devices can be in these states; the one in `own` pulls
      next, from the one in `other`. */
  ghost predicate CanReach(d: Duo, n: nat, own: State, other: State)
    requires n <= |d.clocks|
    decreases n, 0
  {
    if n == 0 then own == d.sA && other == d.sB else CanFollow(d, n - 1, own, other)
  }

  /** The n-th pull can have led to `other`, from a peer in state `own`. */
  ghost predicate CanFollow(d: Duo, n: nat, own: State, other: State)
    requires n < |d.clocks|
    decreases n, 1
  {
    exists was, names :: CanReach(d, n, was, own) && CanStep(d, n, was, own.files, names, other)
  }

  /** Whatever folder the n-th pull can find, its index fits a frame. */
  ghost predicate IndexFits(d: Duo, n: nat, there: Chunker.Chunker, size: IndexSize)
    requires n < |d.clocks|
  {
    && HASH_SIZE + there.cfg.max <= Protocol.MAX_FRAME_SIZE
    && forall own, other :: CanReach(d, n, own, other) ==> FitsFrames(there, size, d.siteA.folder, other.files)
  }

  lemma TameIsClear(d: Duo, n: nat, own: State, r: Folder)
    requires n < |d.clocks| && Fair(d) && Tame(d, own.files) && Tame(d, r) && NewCopies(d, n, own, r)
    ensures Clear(d.At(n), own, r, d.clocks[n])
  {
    TameDigests(d, own.files, r);
    forall p, t | Aside(Rounds.PlansOf(d.siteA.hash, own, r), p) && t in Stamps(d.clocks[n])
      ensures NewName(d.At(n), own.files, r, ConflictName(p, d.At(n).deviceId, t))
    {
      assert IsNewCopy(d, own.files, r, ConflictName(p, d.At(n).deviceId, t));
    }
  }

  /** What has to be known before the pulls for the n-th of them, which `a` makes from `b`;
      `input` is what `b` scans for serving. */
  ghost predicate Comes(a: Engine, b: Engine, folderId: string, input: map<string, Reads>, env: Surroundings, d: Duo, n: nat) {
    && Apart(a, b, folderId) && n < |d.clocks| && d.clocks[n] == env.clock
    && d.At(n) == a.SiteOf(folderId) && d.siteA.hash == a.chunker.hash && d.siteA.folder == folderId
    && d.Cuts(n) == a.chunker && d.Cuts(n + 1) == b.chunker
    && IndexFits(d, n, b.chunker, b.indexSize) && (folderId in input ==> Unbroken(input[folderId]))
  }

  /** The same for two pulls, by `a` from `b` and then by `b` from `a`. */
  ghost predicate RoundComes(a: Engine, b: Engine, folderId: string, input: seq<map<string, Reads>>, env: seq<Surroundings>,
                             d: Duo, n: nat)
  {
    && n + 2 <= |input| == |env| == |d.clocks|
    && Comes(a, b, folderId, input[n], env[n], d, n) && Comes(b, a, folderId, input[n + 1], env[n + 1], d, n + 1)
  }

  /** The n-th of the pulls, by a device in state `was` from one with the folder `r`. */
  ghost predicate IsTurn(d: Duo, n: nat, t: Attempt, was: State, r: Folder)
    requires n < |d.clocks|
  {
    IsAttempt(t, d.Cuts(n), d.At(n), was, d.clocks[n], d.Cuts(n + 1), r)
  }

  lemma ExactIsTurn(d: Duo, n: nat, t: Attempt, ok: bool, was: State, r: Folder, now: State)
    requires n < |d.clocks| && d.siteA.hash == d.Cuts(n).hash
    requires Exact(t, ok, d.Cuts(n), d.At(n), was, d.clocks[n], d.Cuts(n + 1), r, now)
    ensures if ok then Leads(d, n, t, was, r, now) else Fails(d, n, t, was, r)
  {
    CopyNamesAreNames(t.s.index, d.At(n).deviceId, d.clocks[n], r);
  }

  /** It succeeds and leads to the state `now`. */
  ghost predicate Leads(d: Duo, n: nat, t: Attempt, was: State, r: Folder, now: State)
    requires n < |d.clocks|
  {
    IsTurn(d, n, t, was, r) && t.Works() && CanStep(d, n, was, r, t.Names(), now)
  }

  /** It cannot succeed. */
  ghost predicate Fails(d: Duo, n: nat, t: Attempt, was: State, r: Folder)
    requires n < |d.clocks|
  {
    IsTurn(d, n, t, was, r) && !t.Works()
  }

  /** The n-th pull of the two, by the engine `a` from `b`. */
  method TakeTurn(a: Engine, b: Engine, folderId: string, input: map<string, Reads>, env: Surroundings,
                  ghost d: Duo, ghost n: nat)
    returns (ok: bool, ghost t: Attempt)
    requires Fair(d) && Comes(a, b, folderId, input, env, d, n) && CanReach(d, n, a.State(folderId), b.State(folderId))
    requires Tame(d, a.Contents(folderId)) && Tame(d, b.Contents(folderId))
    requires NewCopies(d, n, a.State(folderId), b.Contents(folderId))
    modifies a.Footprint(folderId)
    ensures ok ==>
              && Leads(d, n, t, old(a.State(folderId)), b.Contents(folderId), a.State(folderId))
              && Tame(d, a.Contents(folderId))
    ensures !ok && Steady(env) ==> Fails(d, n, t, old(a.State(folderId)), b.Contents(folderId))
  {
    ghost var was, r := a.State(folderId), b.Contents(folderId);
    TameIsClear(d, n, was, r);
    assert FitsFrames(b.chunker, b.indexSize, folderId, b.State(folderId).files);
    ok, t := PullFromEngine(a, b, folderId, input, env);
    if ok || Steady(env) {
      ExactIsTurn(d, n, t, ok, was, r, a.State(folderId));
    }
    if ok {
      PullStaysTame(d, n, was, r, t.Names(), a.State(folderId));
    }
  }

  /** Pulls in turn: `states[i]` is where the i-th pull starts, `states[i + 1]` is that of
      the peer it pulls from, and `states[i + 2]` is where it leads. */
  datatype Run = Run(states: seq<State>, turns: seq<Attempt>)

  ghost predicate GoesAt(d: Duo, run: Run, i: nat)
    requires i < |run.turns| <= |d.clocks| && |run.states| == |run.turns| + 2
  {
    Leads(d, i, run.turns[i], run.states[i], run.states[i + 1].files, run.states[i + 2])
  }

  /** Every pull of the run succeeded. */
  ghost predicate Goes(d: Duo, run: Run) {
    |run.states| == |run.turns| + 2 && |run.turns| <= |d.clocks| && forall i :: 0 <= i < |run.turns| ==> GoesAt(d, run, i)
  }

  ghost predicate Starts(d: Duo, run: Run) {
    |run.states| >= 2 && run.states[0] == d.sA && run.states[1] == d.sB
  }

  /** The run has led to a pull that failed. With steady scans it is one that cannot succeed. */
  ghost predicate Stuck(d: Duo, env: seq<Surroundings>, run: Run, t: Attempt) {
    && Goes(d, run) && Starts(d, run) && |run.turns| < |env| == |d.clocks|
    && (Steady(env[|run.turns|]) ==> Fails(d, |run.turns|, t, run.states[|run.turns|], run.states[|run.turns| + 1].files))
  }

  /** The run has led here: the device in `own` pulls next, from the one in `other`. */
  ghost predicate Reaches(d: Duo, run: Run, own: State, other: State) {
    && Goes(d, run) && Starts(d, run) && CanReach(d, |run.turns|, own, other)
    && run.states[|run.turns|] == own && run.states[|run.turns| + 1] == other
    && Tame(d, own.files) && Tame(d, other.files)
  }

  function Longer(run: Run, t: Attempt, now: State): Run {
    Run(run.states + [now], run.turns + [t])
  }

  lemma GoesStill(d: Duo, run: Run, t: Attempt, now: State, i: nat)
    requires Goes(d, run) && i < |run.turns| < |d.clocks|
    ensures GoesAt(d, Longer(run, t, now), i)
  {
    assert GoesAt(d, run, i);
  }

  lemma RunGoesOn(d: Duo, run: Run, t: Attempt, now: State)
    requires Goes(d, run) && |run.turns| < |d.clocks|
    requires Leads(d, |run.turns|, t, run.states[|run.turns|], run.states[|run.turns| + 1].files, now)
    ensures Goes(d, Longer(run, t, now))
  {
    forall i | 0 <= i < |run.turns| + 1
      ensures GoesAt(d, Longer(run, t, now), i)
    {
      if i < |run.turns| {
        GoesStill(d, run, t, now, i);
      }
    }
  }

  lemma FailedIsStuck(d: Duo, env: seq<Surroundings>, run: Run, own: State, other: State, t: Attempt)
    requires Reaches(d, run, own, other) && |run.turns| < |env| == |d.clocks|
    requires Steady(env[|run.turns|]) ==> Fails(d, |run.turns|, t, own, other.files)
    ensures Stuck(d, env, run, t)
  {
  }

  lemma StepReaches(d: Duo, n: nat, own: State, other: State, names: map<string, string>, now: State)
    requires n < |d.clocks| && CanReach(d, n, own, other) && CanStep(d, n, own, other.files, names, now)
    ensures CanReach(d, n + 1, other, now)
  {
    assert CanFollow(d, n, other, now);
  }

  /** One more pull of a run, by `a` from `b`. */
  method NextTurn(a: Engine, b: Engine, folderId: string, input: map<string, Reads>, env: Surroundings, ghost d: Duo,
                  ghost run: Run)
    returns (ok: bool, ghost run': Run, ghost t: Attempt)
    requires Fair(d) && Comes(a, b, folderId, input, env, d, |run.turns|)
    requires Reaches(d, run, a.State(folderId), b.State(folderId))
    requires NewCopies(d, |run.turns|, a.State(folderId), b.Contents(folderId))
    modifies a.Footprint(folderId)
    ensures ok ==>
              && |run'.turns| == |run.turns| + 1 && Reaches(d, run', b.State(folderId), a.State(folderId))
              && CanStep(d, |run.turns|, old(a.State(folderId)), b.Contents(folderId), t.Names(), a.State(folderId))
    ensures !ok ==> run' == run
    ensures !ok && Steady(env) ==> Fails(d, |run.turns|, t, old(a.State(folderId)), old(b.Contents(folderId)))
  {
    ghost var own, other := a.State(folderId), b.State(folderId);
    run' := run;
    ok, t := TakeTurn(a, b, folderId, input, env, d, |run.turns|);
    if ok {
      RunGoesOn(d, run, t, a.State(folderId));
      StepReaches(d, |run.turns|, own, other, t.Names(), a.State(folderId));
      run' := Longer(run, t, a.State(folderId));
    }
  }

  lemma StartReaches(d: Duo)
    requires Fair(d)
    ensures Reaches(d, Run([d.sA, d.sB], []), d.sA, d.sB)
  {
  }

  /** In two pulls from here on conflict names are free and ordinary. */
  ghost predicate RoundIsNew(d: Duo, n: nat, own: State, other: State)
    requires n + 2 <= |d.clocks|
  {
    && NewCopies(d, n, own, other.files)
    && forall names, now :: CanStep(d, n, own, other.files, names, now) ==> NewCopies(d, n + 1, other, now.files)
  }

  /** Two more pulls of a run, by `a` from `b` and then by `b` from `a`. */
  method NextRound(a: Engine, b: Engine, folderId: string, input: seq<map<string, Reads>>, env: seq<Surroundings>, ghost d: Duo,
                   ghost run: Run, n: nat)
    returns (ok: bool, ghost run': Run, ghost stuck: Attempt)
    requires Fair(d) && n == |run.turns| && RoundComes(a, b, folderId, input, env, d, n)
    requires Reaches(d, run, a.State(folderId), b.State(folderId))
    requires RoundIsNew(d, n, a.State(folderId), b.State(folderId))
    modifies a.Footprint(folderId), b.Footprint(folderId)
    ensures ok ==> |run'.turns| == n + 2 && Reaches(d, run', a.State(folderId), b.State(folderId))
    ensures !ok ==> Stuck(d, env, run', stuck)
  {
    ghost var sa, sb := a.State(folderId), b.State(folderId);
    ok, run', stuck := NextTurn(a, b, folderId, input[n], env[n], d, run);
    if !ok {
      FailedIsStuck(d, env, run, sa, sb, stuck);
      return;
    }
    sa := a.State(folderId);
    ok, run', stuck := NextTurn(b, a, folderId, input[n + 1], env[n + 1], d, run');
    if !ok {
      FailedIsStuck(d, env, run', sb, sa, stuck);
    }
  }

  /** In the first round names are free because the two devices choose them apart. */
  lemma FirstRoundIsNew(d: Duo)
    requires Fair(d) && CopiesKeptApart(d)
    ensures RoundIsNew(d, 0, d.sA, d.sB)
  {
    forall names, now | CanStep(d, 0, d.sA, d.sB.files, names, now)
      ensures NewCopies(d, 1, d.sB, now.files)
    {
      SecondNamesAreNew(d, names, now);
    }
  }

  lemma ReachedBaseline(d: Duo, n: nat, own: State, other: State) returns (was: State)
    requires 0 < n <= |d.clocks| && CanReach(d, n, own, other)
    ensures other.base == Rounds.Digests(d.siteA.hash, other.files) && CanReach(d, n - 1, was, own)
  {
    assert CanFollow(d, n - 1, own, other);
    var names;
    was, names :| CanReach(d, n - 1, was, own) && CanStep(d, n - 1, was, own.files, names, other);
  }

  /** In later rounds nothing is set aside. */
  lemma LaterRoundIsNew(d: Duo, run: Run, own: State, other: State)
    requires Reaches(d, run, own, other) && 2 <= |run.turns| && |run.turns| + 2 <= |d.clocks|
    ensures RoundIsNew(d, |run.turns|, own, other)
  {
    var n := |run.turns|;
    var was := ReachedBaseline(d, n, own, other);
    var before := ReachedBaseline(d, n - 1, was, own);
    OwnBaselines(d, n, own, other);
  }

  lemma OwnBaselines(d: Duo, n: nat, own: State, other: State)
    requires n + 2 <= |d.clocks|
    requires own.base == Rounds.Digests(d.siteA.hash, own.files) && other.base == Rounds.Digests(d.siteA.hash, other.files)
    ensures RoundIsNew(d, n, own, other)
  {
    Rounds.OwnBaselineSetsNothingAside(d.siteA.hash, own, other.files);
    forall names, now | CanStep(d, n, own, other.files, names, now)
      ensures NewCopies(d, n + 1, other, now.files)
    {
      Rounds.OwnBaselineSetsNothingAside(d.siteA.hash, other, now.files);
    }
  }

  /** Contents that are not just the recorded baseline are in `result`. */
  ghost predicate KeepsEdits(hash: HashFn, a: State, b: State, result: Folder) {
    && (forall p :: p in b.files && Lookup(b.base, p) != Some(hash(b.files[p])) ==> Rounds.Holds(result, b.files[p]))
    && (forall p :: p in a.files && Some(hash(a.files[p])) !in {Lookup(a.base, p), Lookup(b.base, p)} ==>
          Rounds.Holds(result, a.files[p]))
  }

  lemma CollisionFreeIsInjective(hash: HashFn, f: Folder, r: Folder, u: iset<Bytes>)
    requires CollisionFree(hash, f, r) && forall x :: x in u ==> x in f.Values + r.Values
    ensures Rounds.Injective(hash, u)
  {
    forall x | x in u
      ensures IsPiece(x, f) || IsPiece(x, r)
    {
      assert x[0..|x|] == x;
      if x in f.Values {
        var p :| p in f && f[p] == x;
        assert ReadAt(f[p], 0, |x|) == Some(x);
      } else {
        var p :| p in r && r[p] == x;
        assert ReadAt(r[p], 0, |x|) == Some(x);
      }
    }
  }

  lemma FourPullsSync(hash: HashFn, a0: State, b0: State, n1: map<string, string>, a1: State, n2: map<string, string>,
                      b1: State, n3: map<string, string>, a2: State, n4: map<string, string>, b2: State)
    requires CollisionFree(hash, a0.files, b0.files)
    requires Rounds.Pulled(hash, a0, b0.files, n1, a1) && Rounds.Pulled(hash, b0, a1.files, n2, b1)
    requires Rounds.Pulled(hash, a1, b1.files, n3, a2) && Rounds.Pulled(hash, b1, a2.files, n4, b2)
    ensures Rounds.Synced(hash, a2, b2) && KeepsEdits(hash, a0, b0, a2.files)
  {
    var u := iset x | x in a0.files.Values + b0.files.Values;
    CollisionFreeIsInjective(hash, a0.files, b0.files, u);
    Rounds.AlternatingPullsConverge(hash, u, a0, b0, n1, a1, n2, b1, n3, a2, n4, b2);
    forall p
      ensures p in b0.files && Lookup(b0.base, p) != Some(hash(b0.files[p])) ==> Rounds.Holds(a2.files, b0.files[p])
      ensures p in a0.files && Some(hash(a0.files[p])) !in {Lookup(a0.base, p), Lookup(b0.base, p)} ==>
                Rounds.Holds(a2.files, a0.files[p])
    {
      Rounds.AlternatingPullsKeepEdits(hash, u, a0, b0, n1, a1, n2, b1, p);
    }
  }

  lemma FourTurnsSync(d: Duo, run: Run, a: State, b: State)
    requires Reaches(d, run, a, b) && |run.turns| == 4 && CollisionFree(d.siteA.hash, d.sA.files, d.sB.files)
    ensures Rounds.Synced(d.siteA.hash, a, b) && KeepsEdits(d.siteA.hash, d.sA, d.sB, a.files)
  {
    assert GoesAt(d, run, 0) && GoesAt(d, run, 1) && GoesAt(d, run, 2) && GoesAt(d, run, 3);
    FourPullsSync(d.siteA.hash, run.states[0], run.states[1], run.turns[0].Names(), run.states[2], run.turns[1].Names(),
                  run.states[3], run.turns[2].Names(), run.states[4], run.turns[3].Names(), run.states[5]);
  }

  /** From any state of the two folders and baselines, A, B, A, B pulling in turn: if all
      four pulls succeed, both folders and both baselines are equal and hold every edit. With
      steady scans a pull fails only where some turn of it cannot work out. All that is asked
      is known before the first pull. */
  method TwoRounds(a: Engine, b: Engine, folderId: string, input: seq<map<string, Reads>>, env: seq<Surroundings>,
                   ghost d: Duo) returns (ok: bool, ghost run: Run, ghost stuck: Attempt)
    requires Fair(d) && CopiesKeptApart(d) && |env| == 4
    requires RoundComes(a, b, folderId, input, env, d, 0) && RoundComes(a, b, folderId, input, env, d, 2)
    requires d.sA == a.State(folderId) && d.sB == b.State(folderId)
    modifies a.Footprint(folderId), b.Footprint(folderId)
    ensures ok ==>
              && Rounds.Synced(a.chunker.hash, a.State(folderId), b.State(folderId))
              && KeepsEdits(a.chunker.hash, d.sA, d.sB, a.Contents(folderId))
    ensures !ok ==> Stuck(d, env, run, stuck)
  {
    StartReaches(d);
    FirstRoundIsNew(d);
    ok, run, stuck := NextRound(a, b, folderId, input, env, d, Run([d.sA, d.sB], []), 0);
    if !ok {
      return;
    }
    LaterRoundIsNew(d, run, a.State(folderId), b.State(folderId));
    ok, run, stuck := NextRound(a, b, folderId, input, env, d, run, 2);
    if ok {
      FourTurnsSync(d, run, a.State(folderId), b.State(folderId));
    }
  }

  ghost function ContentsOf(f: Folder, g: Folder, h: Folder): iset<Bytes> {
    iset x | x in f.Values + g.Values + h.Values
  }

  lemma TwoPullsJoin(hash: HashFn, f: Folder, a: State, b: State, n1: map<string, string>, a1: State,
                     n2: map<string, string>, b1: State)
    requires Rounds.Injective(hash, ContentsOf(f, a.files, b.files))
    requires a.base == b.base == Rounds.Digests(hash, f) && Rounds.NoClash(f, a.files, b.files)
    requires Rounds.Pulled(hash, a, b.files, n1, a1) && Rounds.Pulled(hash, b, a1.files, n2, b1)
    ensures Rounds.Synced(hash, a1, b1) && a1.files == Rounds.Join(f, a.files, b.files)
    ensures forall p :: !Aside(Rounds.PlansOf(hash, a, b.files), p) && !Aside(Rounds.PlansOf(hash, b, a1.files), p)
  {
    var u := ContentsOf(f, a.files, b.files);
    Rounds.FirstPullJoins(hash, u, f, a, b.files, n1, a1);
    Rounds.SecondPullCopiesJoin(hash, u, f, a.files, b, a1.files, n2, b1);
  }

  lemma TwoTurnsJoin(d: Duo, run: Run, a: State, b: State, f: Folder)
    requires Reaches(d, run, a, b) && |run.turns| == 2
    requires Rounds.Injective(d.siteA.hash, ContentsOf(f, d.sA.files, d.sB.files))
    requires d.sA.base == d.sB.base == Rounds.Digests(d.siteA.hash, f) && Rounds.NoClash(f, d.sA.files, d.sB.files)
    ensures Rounds.Synced(d.siteA.hash, a, b) && a.files == Rounds.Join(f, d.sA.files, d.sB.files)
  {
    assert GoesAt(d, run, 0) && GoesAt(d, run, 1);
    TwoPullsJoin(d.siteA.hash, f, run.states[0], run.states[1], run.turns[0].Names(), run.states[2],
                 run.turns[1].Names(), run.states[3]);
  }

  /** In a round without a clash nothing is set aside. */
  lemma RoundWithoutClashIsNew(d: Duo, f: Folder)
    requires |d.clocks| >= 2
    requires Rounds.Injective(d.siteA.hash, ContentsOf(f, d.sA.files, d.sB.files))
    requires d.sA.base == d.sB.base == Rounds.Digests(d.siteA.hash, f) && Rounds.NoClash(f, d.sA.files, d.sB.files)
    ensures RoundIsNew(d, 0, d.sA, d.sB)
  {
    var u := ContentsOf(f, d.sA.files, d.sB.files);
    Rounds.NoClashSetsNothingAside(d.siteA.hash, f, d.sA, d.sB.files);
    forall names, now | CanStep(d, 0, d.sA, d.sB.files, names, now)
      ensures NewCopies(d, 1, d.sB, now.files)
    {
      Rounds.FirstPullJoins(d.siteA.hash, u, f, d.sA, d.sB.files, names, now);
      Rounds.JoinDoesNotClash(f, d.sA.files, d.sB.files);
      Rounds.NoClashSetsNothingAside(d.siteA.hash, f, d.sB, now.files);
    }
  }

  /** From two engines in sync at `f`, edits on both sides that do not clash, and A and B
      pulling once each: if both pulls succeed, the engines are in sync again at the join of
      the two folders. */
  method OneRound(a: Engine, b: Engine, folderId: string, input: seq<map<string, Reads>>, env: seq<Surroundings>,
                  ghost d: Duo, ghost f: Folder) returns (ok: bool, ghost run: Run, ghost stuck: Attempt)
    requires Fair(d) && |env| == 2 && RoundComes(a, b, folderId, input, env, d, 0)
    requires d.sA == a.State(folderId) && d.sB == b.State(folderId)
    requires d.sA.base == d.sB.base == Rounds.Digests(a.chunker.hash, f) && Rounds.NoClash(f, d.sA.files, d.sB.files)
    requires Rounds.Injective(a.chunker.hash, ContentsOf(f, d.sA.files, d.sB.files))
    modifies a.Footprint(folderId), b.Footprint(folderId)
    ensures ok ==>
              && Rounds.Synced(a.chunker.hash, a.State(folderId), b.State(folderId))
              && a.Contents(folderId) == Rounds.Join(f, d.sA.files, d.sB.files)
    ensures !ok ==> Stuck(d, env, run, stuck)
  {
    StartReaches(d);
    RoundWithoutClashIsNew(d, f);
    ok, run, stuck := NextRound(a, b, folderId, input, env, d, Run([d.sA, d.sB], []), 0);
    if ok {
      TwoTurnsJoin(d, run, a.State(folderId), b.State(folderId), f);
    }
  }
}
