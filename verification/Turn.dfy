/** One turn of the loop of `Pull`: what it decides for a remote file, and what it may do
    to the folder whatever the peer sends (`engine/internal/session/session.go`). */
module Turn {
  import opened Basics
  import opened Names
  import opened Scanner
  import opened Reconcile
  import opened Session
  import Chunker
  import Versioning

  type Baseline = map<string, Hash>

  // ----- decisions --------------------------------------------------------------------

  /** Go map lookup: a missing entry reads as the zero hash. */
  function Entry(b: Baseline, p: string): Hash {
    if p in b then b[p] else ZERO_HASH
  }

  function NonZero(h: Hash): Option<Hash> {
    if h == ZERO_HASH then None else Some(h)
  }

  /** `classify`, with the zero hash standing for "no baseline". */
  function ClassifyHashes(local: Hash, remote: Hash, baseline: Hash): Resolution {
    if baseline != ZERO_HASH && local == baseline then TakeRemote
    else if baseline != ZERO_HASH && remote == baseline then KeepLocal
    else ConflictCopy
  }

  function LocalHash(local: Index, p: string): Option<Hash> {
    if p in local then Some(local[p].hash) else None
  }

  /** What a pull does with a remote file, given the local index and the baseline. */
  function Decide(local: Index, baseline: Option<Baseline>, p: string, remote: Hash): Plan {
    PlanFor(LocalHash(local, p), remote, baseline.Some?,
            if baseline.Some? then NonZero(Entry(baseline.value, p)) else None)
  }

  /** The time stamps that a pull reads, one after the other; then the clock stands still. */
  datatype Clock = Clock(readings: seq<string>, last: string)

  function Stamps(c: Clock): set<string> {
    (set x | x in c.readings) + {c.last}
  }

  function Reading(c: Clock, i: nat): (t: string)
    ensures t in Stamps(c)
  {
    if i < |c.readings| then c.readings[i] else c.last
  }

  /** The loop body of `Pull` leaves the file alone. */
  predicate Passes(site: Site, rf: FileMeta, local: Index, baseline: Option<Baseline>) {
    rf.deleted || !site.isLocal(rf.path) || Decide(local, baseline, rf.path, rf.hash) == Skip
  }

  function TargetOf(site: Site, rf: FileMeta, local: Index, baseline: Option<Baseline>, now: string): string {
    if Decide(local, baseline, rf.path, rf.hash) == FetchAside then ConflictName(rf.path, site.deviceId, now)
    else rf.path
  }

  /** What a turn decides, told by the entries of the index and the baseline: a file passes if
      it is deleted, unsafe or the same here, or if only the other side still has what was
      recorded. It goes to its own path if there is nothing here, if there is no baseline at
      all, or if what is here is what was recorded, and else to a conflict name. */
  lemma DecidesExactly(site: Site, rf: FileMeta, local: Index, baseline: Option<Baseline>, now: string)
    ensures var here := rf.path in local;
            var recorded := baseline.Some? && rf.path in baseline.value && baseline.value[rf.path] != ZERO_HASH;
            && (Passes(site, rf, local, baseline)
                <==> || rf.deleted || !site.isLocal(rf.path) || (here && local[rf.path].hash == rf.hash)
                     || (here && recorded && baseline.value[rf.path] == rf.hash))
            && (!Passes(site, rf, local, baseline) ==>
                  TargetOf(site, rf, local, baseline, now)
                  == if !here || baseline == None || (recorded && baseline.value[rf.path] == local[rf.path].hash) then rf.path
                     else ConflictName(rf.path, site.deviceId, now))
  {
  }

  /** The decision of one turn: where to put the file, if anywhere. */
  method Choose(p: Puller, rf: FileMeta, local: Index, baseline: Option<Baseline>, now: string)
    returns (target: Option<string>)
    modifies p`conflicts
    ensures target == if Passes(p.site, rf, local, baseline) then None
                      else Some(TargetOf(p.site, rf, local, baseline, now))
    ensures p.conflicts == old(p.conflicts)
                           + if target.Some? && Decide(local, baseline, rf.path, rf.hash) == FetchAside then 1 else 0
  {
    if rf.deleted || !p.site.isLocal(rf.path) {
      return None;
    }
    var hasLocal := rf.path in local;
    if hasLocal && local[rf.path].hash == rf.hash {
      return None;
    }
    target := Some(rf.path);
    if hasLocal && baseline.Some? {
      match ClassifyHashes(local[rf.path].hash, rf.hash, Entry(baseline.value, rf.path)) {
        case KeepLocal => return None;
        case ConflictCopy =>
          target := Some(ConflictName(rf.path, p.site.deviceId, now));
          p.conflicts := p.conflicts + 1;
        case TakeRemote =>
      }
    }
  }

  // ----- one turn ------------------------------------------------------------------------

  /** Every state after `before` is `f` or `g`, but for the temporary file. */
  ghost predicate Passed(before: seq<Folder>, after: seq<Folder>, f: Folder, g: Folder, tmp: string) {
    before <= after
    && forall k :: |before| <= k < |after| ==> after[k] - {tmp} == f - {tmp} || after[k] - {tmp} == g - {tmp}
  }

  lemma LastIsNew(before: seq<Folder>, after: seq<Folder>, f: Folder, g: Folder, tmp: string)
    requires after != [] && after[|after| - 1] == g && OnlyTmpWritten(before, after[..|after| - 1], f, tmp)
    ensures Passed(before, after, f, g, tmp)
  {
    assert before <= after[..|after| - 1] <= after;
    forall k | |before| <= k < |after| - 1
      ensures after[k] - {tmp} == f - {tmp}
    {
      assert after[k] == after[..|after| - 1][k];
    }
  }

  /** What pulling a file into the file `dest` does to the folder (from `f` to `g`), to its
      history and to the kept versions. */
  ghost predicate Outcome(hash: HashFn, keep: int, rf: FileMeta, dest: string, mtime: string,
                          err: Option<PullError>, content: Bytes, f: Folder, g: Folder,
                          h: seq<Folder>, h': seq<Folder>, v: Versioning.Files, v': Versioning.Files)
  {
    && Passed(h, h', f, g, TmpOf(dest))
    && (err == None ==>
          && hash(content) == rf.hash
          && g == (f - {TmpOf(dest)})[dest := content]
          && |h| < |h'| && h'[|h'| - 1] == g
          && Kept(ContentAt(f, dest), dest, mtime, keep, v, v'))
    && (err != None ==> (g == f || g == f - {TmpOf(dest)}) && v' == v)
  }

  /** With an honest peer a file is pulled exactly if its target is local, the request fits
      a frame and the reused blocks are intact; and then it is the peer's. */
  ghost predicate HonestOutcome(site: Site, peer: Peer, rf: FileMeta, target: string, locals: BlockIndex, f: Folder,
                                err: Option<PullError>, content: Bytes)
  {
    FromHonest(site, peer, rf) && NoTmpSources(locals)
    && Unambiguous(site.hash, f, locals, rf.blocks, PeerFile(site, peer, rf)) ==>
      && (err == None <==>
            site.isLocal(target) && RequestFits(site, rf, locals) && Reusable(site.hash, f, locals, rf.blocks))
      && (err == None ==> content == PeerFile(site, peer, rf))
  }

  method PullInto(p: Puller, rf: FileMeta, target: string, locals: BlockIndex, mtime: string)
    returns (err: Option<PullError>, ghost content: Bytes)
    modifies p`filesUpdated, p`blocksReused, p`blocksFetched, p.disk, p.conn, p.versions
    ensures old(p.conn.peer).Honest? ==> p.conn.peer == old(p.conn.peer)
    ensures Outcome(p.site.hash, p.versions.keep, rf, p.site.resolve(target), mtime, err, content, old(p.disk.files),
                    p.disk.files, old(p.disk.history), p.disk.history, old(p.versions.files), p.versions.files)
    ensures HonestOutcome(p.site, old(p.conn.peer), rf, target, locals, old(p.disk.files), err, content)
    ensures err == None ==>
              && p.filesUpdated == old(p.filesUpdated) + 1
              && p.blocksReused == old(p.blocksReused) + CountReused(rf.blocks, locals)
              && p.blocksReused + p.blocksFetched == old(p.blocksReused) + old(p.blocksFetched) + |rf.blocks|
  {
    ghost var blocks;
    err, blocks := p.PullFile(rf, target, locals, mtime);
    content := Concat(blocks);
    if err == None {
      LastIsNew(old(p.disk.history), p.disk.history, old(p.disk.files), p.disk.files, TmpOf(p.site.resolve(target)));
      assert old(p.disk.history) <= p.disk.history[..|p.disk.history| - 1];
      p.filesUpdated := p.filesUpdated + 1;
    }
  }

  /** What the statistics count: files, conflicts and blocks. */
  datatype Counts = Counts(files: nat, conflicts: nat, blocks: nat)
  {
    function Plus(c: Counts): Counts {
      Counts(files + c.files, conflicts + c.conflicts, blocks + c.blocks)
    }
  }

  function CountsOf(p: Puller): Counts
    reads p
  {
    Counts(p.filesUpdated, p.conflicts, p.blocksReused + p.blocksFetched)
  }

  function CountsFor(site: Site, rf: FileMeta, local: Index, baseline: Option<Baseline>): Counts {
    if Passes(site, rf, local, baseline) then Counts(0, 0, 0)
    else Counts(1, if Decide(local, baseline, rf.path, rf.hash) == FetchAside then 1 else 0, |rf.blocks|)
  }

  /** One turn of the loop of `Pull`. */
  method PullOne(p: Puller, rf: FileMeta, local: Index, locals: BlockIndex, baseline: Option<Baseline>,
                 now: string, mtime: string) returns (err: Option<PullError>, ghost content: Bytes)
    modifies p, p.disk, p.conn, p.versions
    ensures old(p.conn.peer).Honest? ==> p.conn.peer == old(p.conn.peer)
    ensures Passes(p.site, rf, local, baseline) ==>
              && err == None && p.disk.files == old(p.disk.files) && p.disk.history == old(p.disk.history)
              && p.versions.files == old(p.versions.files) && p.conn.peer == old(p.conn.peer)
    ensures !Passes(p.site, rf, local, baseline) ==>
              var target := TargetOf(p.site, rf, local, baseline, now);
              && Outcome(p.site.hash, p.versions.keep, rf, p.site.resolve(target), mtime, err, content,
                         old(p.disk.files), p.disk.files, old(p.disk.history), p.disk.history,
                         old(p.versions.files), p.versions.files)
              && HonestOutcome(p.site, old(p.conn.peer), rf, target, locals, old(p.disk.files), err, content)
    ensures p.conflicts == old(p.conflicts) + CountsFor(p.site, rf, local, baseline).conflicts
    ensures err == None ==> CountsOf(p) == old(CountsOf(p)).Plus(CountsFor(p.site, rf, local, baseline))
    ensures err == None && !Passes(p.site, rf, local, baseline) ==>
              p.blocksReused == old(p.blocksReused) + CountReused(rf.blocks, locals)
  {
    var target := Choose(p, rf, local, baseline, now);
    if target == None {
      return None, [];
    }
    err, content := PullInto(p, rf, target.value, locals, mtime);
  }

  // ----- what any peer can do -----------------------------------------------------------

  /** A pull under way: where it happens, the folder it started from with its index and the
      baseline, the clock, and what the peer lists. */
  datatype Job = Job(site: Site, before: Folder, local: Index, baseline: Option<Baseline>, clock: Clock,
                     remote: seq<FileMeta>)

  predicate PassesAt(j: Job, k: nat)
    requires k < |j.remote|
  {
    Passes(j.site, j.remote[k], j.local, j.baseline)
  }

  function TargetAt(j: Job, k: nat): string
    requires k < |j.remote|
  {
    TargetOf(j.site, j.remote[k], j.local, j.baseline, Reading(j.clock, k))
  }

  /** The file that the k-th turn writes to. */
  function DestAt(j: Job, k: nat): string
    requires k < |j.remote|
  {
    j.site.resolve(TargetAt(j, k))
  }

  /** The k-th file is set aside. */
  predicate AsideAt(j: Job, k: nat)
    requires k < |j.remote|
  {
    !PassesAt(j, k) && Decide(j.local, j.baseline, j.remote[k].path, j.remote[k].hash) == FetchAside
  }

  /** `q` is the conflict name of a file that this pull sets aside. */
  ghost predicate IsCopyName(j: Job, q: string) {
    exists i :: 0 <= i < |j.remote| && AsideAt(j, i)
                && q == ConflictName(j.remote[i].path, j.site.deviceId, Reading(j.clock, i))
  }

  /** Only these local files are meant to be overwritten. */
  predicate MayOverwrite(local: Index, baseline: Option<Baseline>, q: string) {
    baseline == None || (q in local && NonZero(Entry(baseline.value, q)) == Some(local[q].hash))
  }

  /** An indexed file that moved away from the baseline. */
  ghost predicate Protected(j: Job, q: string) {
    q in j.before && q in j.local && !IsTmp(q) && !IsCopyName(j, q) && !MayOverwrite(j.local, j.baseline, q)
  }

  /** All of them are as they were. */
  ghost predicate Guarded(j: Job, files: Folder) {
    forall q :: Protected(j, q) ==> q in files && files[q] == j.before[q]
  }

  ghost predicate AlwaysGuarded(j: Job, h: seq<Folder>, h': seq<Folder>) {
    h <= h' && forall i :: |h| <= i < |h'| ==> Guarded(j, h'[i])
  }

  ghost predicate IsAnnounced(j: Job, x: Bytes) {
    exists i :: 0 <= i < |j.remote| && j.remote[i].hash == j.site.hash(x)
  }

  /** Whatever is new in the folder has a digest from the peer's list. */
  ghost predicate OnlyAnnounced(j: Job, files: Folder) {
    forall q :: q in files && !IsTmp(q) ==> (q in j.before && files[q] == j.before[q]) || IsAnnounced(j, files[q])
  }

  ghost predicate AlwaysAnnounced(j: Job, h: seq<Folder>, h': seq<Folder>) {
    h <= h' && forall i :: |h| <= i < |h'| ==> OnlyAnnounced(j, h'[i])
  }

  /** No turn before the n-th writes other bytes to a protected file. */
  ghost predicate Spares(j: Job, n: nat)
    requires n <= |j.remote|
  {
    forall k :: 0 <= k < n && !PassesAt(j, k) && Protected(j, DestAt(j, k)) ==>
      j.remote[k].hash == j.site.hash(j.before[DestAt(j, k)])
  }

  /** The content that the k-th turn writes is not another one with the digest of the protected
      file that it writes to. */
  ghost predicate NotForged(j: Job, k: nat, content: Bytes)
    requires k < |j.remote|
  {
    !PassesAt(j, k) && Protected(j, DestAt(j, k)) && j.site.hash(content) == j.site.hash(j.before[DestAt(j, k)]) ==>
      content == j.before[DestAt(j, k)]
  }

  /** So it is for all turns that have written something. */
  ghost predicate Unforged(j: Job, contents: seq<Bytes>) {
    forall k :: 0 <= k < |contents| && k < |j.remote| ==> NotForged(j, k, contents[k])
  }

  /** Every path that is pulled to means the file of that name. */
  ghost predicate Direct(j: Job) {
    forall k :: 0 <= k < |j.remote| && !PassesAt(j, k) ==> DestAt(j, k) == TargetAt(j, k)
  }

  /** So it is for a list of clean paths, as the conflict name of a clean path is clean. */
  lemma CleanPathsAreDirect(j: Job)
    requires forall k :: 0 <= k < |j.remote| && !PassesAt(j, k) ==> j.site.resolve(j.remote[k].path) == j.remote[k].path
    requires forall p, t :: j.site.resolve(p) == p ==>
               j.site.resolve(ConflictName(p, j.site.deviceId, t)) == ConflictName(p, j.site.deviceId, t)
    ensures Direct(j)
  {
  }

  /** Then no turn writes to a protected file at all. */
  lemma DirectSparesAll(j: Job)
    requires Direct(j)
    ensures Spares(j, |j.remote|) && forall contents :: Unforged(j, contents)
  {
    forall k | 0 <= k < |j.remote| && !PassesAt(j, k)
      ensures !Protected(j, DestAt(j, k))
    {
      if AsideAt(j, k) {
        assert IsCopyName(j, TargetAt(j, k));
      }
    }
  }

  /** The folder is `files` before the turn or `files` with the new content, but for the
      temporary file. */
  ghost predicate DuringTurn(files: Folder, dest: string, content: Bytes, g: Folder) {
    g - {TmpOf(dest)} == files - {TmpOf(dest)} || g - {TmpOf(dest)} == files[dest := content] - {TmpOf(dest)}
  }

  lemma TurnGuards(j: Job, files: Folder, dest: string, content: Bytes, g: Folder)
    requires Guarded(j, files) && DuringTurn(files, dest, content, g)
    requires Protected(j, dest) ==> content == j.before[dest]
    ensures Guarded(j, g)
  {
    forall q | Protected(j, q)
      ensures q in g && g[q] == j.before[q]
    {
      assert q in files - {TmpOf(dest)} && q in files[dest := content] - {TmpOf(dest)};
    }
  }

  lemma TurnAnnounces(j: Job, files: Folder, k: nat, dest: string, content: Bytes, g: Folder)
    requires OnlyAnnounced(j, files) && k < |j.remote| && DuringTurn(files, dest, content, g)
    requires g - {TmpOf(dest)} == files - {TmpOf(dest)} || j.remote[k].hash == j.site.hash(content)
    ensures OnlyAnnounced(j, g)
  {
    forall q | q in g && !IsTmp(q)
      ensures (q in j.before && g[q] == j.before[q]) || IsAnnounced(j, g[q])
    {
      assert q in g - {TmpOf(dest)};
      if g - {TmpOf(dest)} == files - {TmpOf(dest)} {
        assert q in files - {TmpOf(dest)};
      } else {
        assert q in files[dest := content] - {TmpOf(dest)};
      }
    }
  }

  lemma OutcomeIsDuring(j: Job, keep: int, k: nat, mtime: string, err: Option<PullError>, content: Bytes,
                        f: Folder, g: Folder, h: seq<Folder>, h': seq<Folder>, v: Versioning.Files, v': Versioning.Files)
    requires k < |j.remote|
    requires Outcome(j.site.hash, keep, j.remote[k], DestAt(j, k), mtime, err, content, f, g, h, h', v, v')
    ensures DuringTurn(f, DestAt(j, k), content, g)
    ensures err != None ==> g - {TmpOf(DestAt(j, k))} == f - {TmpOf(DestAt(j, k))}
    ensures forall i :: |h| <= i < |h'| ==>
              && DuringTurn(f, DestAt(j, k), content, h'[i])
              && (err != None ==> h'[i] - {TmpOf(DestAt(j, k))} == f - {TmpOf(DestAt(j, k))})
  {
    var dest := DestAt(j, k);
    assert err == None ==> g - {TmpOf(dest)} == f[dest := content] - {TmpOf(dest)};
  }

  /** Nothing but announced contents appears, at the end of a turn and at every moment of it. */
  lemma TurnStaysAnnounced(j: Job, keep: int, k: nat, mtime: string, err: Option<PullError>, content: Bytes,
                           h0: seq<Folder>, f: Folder, g: Folder, h: seq<Folder>, h': seq<Folder>,
                           v: Versioning.Files, v': Versioning.Files)
    requires k < |j.remote| && OnlyAnnounced(j, f) && AlwaysAnnounced(j, h0, h)
    requires Outcome(j.site.hash, keep, j.remote[k], DestAt(j, k), mtime, err, content, f, g, h, h', v, v')
    ensures OnlyAnnounced(j, g) && AlwaysAnnounced(j, h0, h')
  {
    OutcomeIsDuring(j, keep, k, mtime, err, content, f, g, h, h', v, v');
    TurnAnnounces(j, f, k, DestAt(j, k), content, g);
    forall i | |h| <= i < |h'|
      ensures OnlyAnnounced(j, h'[i])
    {
      TurnAnnounces(j, f, k, DestAt(j, k), content, h'[i]);
    }
  }

  /** Protected files are untouched, at the end of a turn and at every moment of it, unless
      the turn writes other bytes to one of them. */
  lemma TurnStaysGuarded(j: Job, keep: int, k: nat, mtime: string, err: Option<PullError>, content: Bytes,
                         h0: seq<Folder>, f: Folder, g: Folder, h: seq<Folder>, h': seq<Folder>,
                         v: Versioning.Files, v': Versioning.Files)
    requires k < |j.remote| && !PassesAt(j, k) && Guarded(j, f) && AlwaysGuarded(j, h0, h)
    requires Spares(j, |j.remote|) && (err == None ==> NotForged(j, k, content))
    requires Outcome(j.site.hash, keep, j.remote[k], DestAt(j, k), mtime, err, content, f, g, h, h', v, v')
    ensures Guarded(j, g) && AlwaysGuarded(j, h0, h')
  {
    var dest := DestAt(j, k);
    var x := if err == None || dest !in j.before then content else j.before[dest];
    OutcomeIsDuring(j, keep, k, mtime, err, content, f, g, h, h', v, v');
    TurnGuards(j, f, dest, x, g);
    forall i | |h| <= i < |h'|
      ensures Guarded(j, h'[i])
    {
      TurnGuards(j, f, dest, x, h'[i]);
    }
  }

  /** Conversely, a successful turn after which protected files are untouched spared them. */
  lemma GuardedTurnSpared(j: Job, keep: int, k: nat, mtime: string, content: Bytes, h0: seq<Folder>,
                          f: Folder, g: Folder, h: seq<Folder>, h': seq<Folder>, v: Versioning.Files, v': Versioning.Files)
    requires k < |j.remote| && !PassesAt(j, k) && h0 <= h && AlwaysGuarded(j, h0, h') && Spares(j, k)
    requires Outcome(j.site.hash, keep, j.remote[k], DestAt(j, k), mtime, None, content, f, g, h, h', v, v')
    ensures Spares(j, k + 1)
  {
    assert Guarded(j, h'[|h'| - 1]);
  }

  /** What a turn that succeeds does to the folder and to the kept versions. */
  ghost predicate TurnDone(j: Job, keep: int, k: nat, mtime: string, content: Bytes, f: Folder, g: Folder,
                           v: Versioning.Files, v': Versioning.Files)
    requires k < |j.remote|
  {
    if PassesAt(j, k) then g == f && v' == v
    else
      && j.site.hash(content) == j.remote[k].hash
      && g == (f - {TmpOf(DestAt(j, k))})[DestAt(j, k) := content]
      && Kept(ContentAt(f, DestAt(j, k)), DestAt(j, k), mtime, keep, v, v')
  }

  /** What a turn that fails leaves. */
  predicate TurnUndone(j: Job, k: nat, f: Folder, g: Folder, v: Versioning.Files, v': Versioning.Files)
    requires k < |j.remote|
  {
    (g == f || g == f - {TmpOf(DestAt(j, k))}) && v' == v
  }

  function CountsAt(j: Job, k: nat): Counts
    requires k < |j.remote|
  {
    CountsFor(j.site, j.remote[k], j.local, j.baseline)
  }

  /** What the first `k` turns count. */
  function CountsTo(j: Job, k: nat): Counts
    requires k <= |j.remote|
  {
    if k == 0 then Counts(0, 0, 0) else CountsTo(j, k - 1).Plus(CountsAt(j, k - 1))
  }

  lemma CountsGoOn(j: Job, k: nat, start: Counts)
    requires k < |j.remote|
    ensures start.Plus(CountsTo(j, k)).Plus(CountsAt(j, k)) == start.Plus(CountsTo(j, k + 1))
  {
  }

  /** The file is here, and both sides differ from each other and from what was recorded. */
  predicate ClashesAt(j: Job, k: nat)
    requires k < |j.remote|
  {
    var rf := j.remote[k];
    && !rf.deleted && j.site.isLocal(rf.path) && rf.path in j.local && j.local[rf.path].hash != rf.hash && j.baseline.Some?
    && (rf.path in j.baseline.value && j.baseline.value[rf.path] != ZERO_HASH ==>
          j.baseline.value[rf.path] != j.local[rf.path].hash && j.baseline.value[rf.path] != rf.hash)
  }

  function PulledTurns(j: Job, n: nat): set<nat>
    requires n <= |j.remote|
  {
    set k: nat | k < n && !PassesAt(j, k)
  }

  function ClashingTurns(j: Job, n: nat): set<nat>
    requires n <= |j.remote|
  {
    set k: nat | k < n && ClashesAt(j, k)
  }

  lemma NothingPulledYet(j: Job)
    ensures |PulledTurns(j, 0)| == 0 && |ClashingTurns(j, 0)| == 0
  {
    assert PulledTurns(j, 0) == {} && ClashingTurns(j, 0) == {};
  }

  lemma OnePulledMore(j: Job, n: nat)
    requires n < |j.remote|
    ensures |PulledTurns(j, n + 1)| == |PulledTurns(j, n)| + if PassesAt(j, n) then 0 else 1
  {
    assert PulledTurns(j, n + 1) == PulledTurns(j, n) + if PassesAt(j, n) then {} else {n};
  }

  lemma OneClashMore(j: Job, n: nat)
    requires n < |j.remote|
    ensures |ClashingTurns(j, n + 1)| == |ClashingTurns(j, n)| + if ClashesAt(j, n) then 1 else 0
  {
    assert ClashingTurns(j, n + 1) == ClashingTurns(j, n) + if ClashesAt(j, n) then {n} else {};
  }

  lemma TurnIsCounted(j: Job, n: nat)
    requires n < |j.remote|
    ensures var c := CountsTo(j, n);
            CountsTo(j, n + 1)
            == if PassesAt(j, n) then c
               else Counts(c.files + 1, c.conflicts + if ClashesAt(j, n) then 1 else 0, c.blocks + |j.remote[n].blocks|)
    ensures ClashesAt(j, n) ==> !PassesAt(j, n)
  {
  }

  /** The statistics count the files that are pulled, those among them that clash, and all blocks
      of pulled files. */
  lemma {:induction false} CountsExactly(j: Job, n: nat)
    requires n <= |j.remote|
    ensures CountsTo(j, n).files == |PulledTurns(j, n)| && CountsTo(j, n).conflicts == |ClashingTurns(j, n)|
    ensures n > 0 ==>
              CountsTo(j, n).blocks == CountsTo(j, n - 1).blocks + if PassesAt(j, n - 1) then 0 else |j.remote[n - 1].blocks|
  {
    if n == 0 {
      NothingPulledYet(j);
    } else {
      var k := n - 1;
      CountsExactly(j, k);
      OnePulledMore(j, k);
      OneClashMore(j, k);
      TurnIsCounted(j, k);
    }
  }

  // ----- a peer that names a file in another way -----------------------------------------------

  /** A folder with one file, edited since the last sync, and a peer that lists other bytes
      under a longer spelling of its name. */
  function AliasJob(site: Site, edit: Bytes, blocks: seq<Chunker.Chunk>, synced: Hash, clock: Clock, announced: Hash): Job {
    Job(site, map["notes.txt" := edit], map["notes.txt" := FileInfo("notes.txt", |edit|, site.hash(edit), blocks)],
        Some(map["notes.txt" := synced]), clock, [FileMeta("./notes.txt", announced, false, blocks)])
  }

  /** Joining cleans the path, but the index knows only the clean name, so no comparison
      with the baseline takes place: a pull that succeeds overwrites the edit. */
  lemma AliasOverwritesEdit(site: Site, edit: Bytes, blocks: seq<Chunker.Chunk>, synced: Hash, clock: Clock, announced: Hash,
                            keep: int, mtime: string, content: Bytes, g: Folder, h: seq<Folder>, h': seq<Folder>,
                            v: Versioning.Files, v': Versioning.Files)
    requires site.isLocal("./notes.txt") && site.resolve("./notes.txt") == "notes.txt"
    requires synced != site.hash(edit) && announced != site.hash(edit)
    ensures var j := AliasJob(site, edit, blocks, synced, clock, announced);
            && !PassesAt(j, 0) && Protected(j, "notes.txt") && !Spares(j, 1)
            && (Outcome(site.hash, keep, j.remote[0], DestAt(j, 0), mtime, None, content, j.before, g, h, h', v, v') ==>
                  !Guarded(j, g))
  {
    var j := AliasJob(site, edit, blocks, synced, clock, announced);
    var name := ConflictName("./notes.txt", site.deviceId, Reading(clock, 0));
    StemAndExt("./notes.txt");
    assert |name| > |"notes.txt"|;
    assert "./notes.txt" != "notes.txt" by {
      assert |"./notes.txt"| != |"notes.txt"|;
    }
    assert DestAt(j, 0) == "notes.txt";
    assert !IsTmp("notes.txt") by {
      assert |"notes.txt"| < |TMP_SUFFIX|;
    }
  }
}
