/** Pulling from an honest peer: when every turn succeeds, and what the folder becomes
    (`engine/internal/session/session.go`). */
module HonestPeer {
  import opened Basics
  import opened Names
  import opened Scanner
  import opened Reconcile
  import opened Session
  import opened Turn
  import Chunker
  import ChunkerLemmas
  import Rounds
  import Versioning

  /** The files a scan sees. */
  function Visible(f: Folder): Folder {
    map q | q in f && !IsTmp(q) :: f[q]
  }

  function PathsOf(index: seq<FileMeta>): (order: seq<string>)
    ensures |order| == |index| && forall i :: 0 <= i < |index| ==> order[i] == index[i].path
  {
    seq(|index|, i requires 0 <= i < |index| => index[i].path)
  }

  /** The conflict name each listed path would get when its turn comes. */
  function CopyNames(index: seq<FileMeta>, id: string, clock: Clock): map<string, string> {
    if index == [] then map[]
    else
      var n := |index| - 1;
      CopyNames(index[..n], id, clock)[index[n].path := ConflictName(index[n].path, id, Reading(clock, n))]
  }

  lemma {:induction false} CopyNameAt(index: seq<FileMeta>, id: string, clock: Clock, i: nat)
    requires i < |index| && forall j :: i < j < |index| ==> index[j].path != index[i].path
    ensures index[i].path in CopyNames(index, id, clock)
    ensures CopyNames(index, id, clock)[index[i].path] == ConflictName(index[i].path, id, Reading(clock, i))
  {
    if i < |index| - 1 {
      CopyNameAt(index[..|index| - 1], id, clock, i);
    }
  }

  /** `x` was read from some file of the folder. */
  ghost predicate IsPiece(x: Bytes, f: Folder) {
    exists p, o, n :: p in f && ReadAt(f[p], o, n) == Some(x)
  }

  /** No two different stretches of the files of both sides share a digest. */
  ghost predicate CollisionFree(hash: HashFn, f: Folder, r: Folder) {
    forall x, y :: (IsPiece(x, f) || IsPiece(x, r)) && (IsPiece(y, f) || IsPiece(y, r)) && hash(x) == hash(y) ==> x == y
  }

  /** The index is right about the folder. */
  ghost predicate Indexes(hash: HashFn, local: Index, f: Folder) {
    && local.Keys == f.Keys
    && forall q :: q in f ==> !IsTmp(q) && local[q].hash == hash(f[q]) && ChunkerLemmas.Tiles(hash, local[q].blocks, f[q], 0)
  }

  /** The peer lists each of its files once, truthfully, and under a clean path it may use. */
  ghost predicate ListsTruthfully(site: Site, s: Server) {
    && Lists(PathsOf(s.index), s.files)
    && forall i :: 0 <= i < |s.index| ==>
         && s.index[i].path in s.files && Faithful(site.hash, s.index[i], s.files[s.index[i].path])
         && !s.index[i].deleted && Ordinary(site, s.index[i].path)
  }

  /** A path that is local, clean and not that of a temporary file. */
  predicate Ordinary(site: Site, path: string) {
    site.isLocal(path) && site.resolve(path) == path && !IsTmp(path)
  }

  predicate ShareBlock(a: seq<Chunker.Chunk>, b: seq<Chunker.Chunk>) {
    exists i, j :: 0 <= i < |a| && 0 <= j < |b| && a[i].hash == b[j].hash
  }

  /** No file needs a block from a local file that was overwritten before its turn. */
  ghost predicate SourcesSurvive(local: Index, index: seq<FileMeta>, plans: map<string, Plan>)
    requires forall i :: 0 <= i < |index| ==> index[i].path in plans
  {
    forall i, j :: 0 <= i < j < |index| ==>
      plans[index[i].path] == Fetch && plans[index[j].path] != Skip && index[i].path in local ==>
        !ShareBlock(local[index[i].path].blocks, index[j].blocks)
  }

  /** The decisions of a pull for every file of the peer's folder. */
  function Plans(hash: HashFn, local: Index, baseline: Option<Baseline>, r: Folder): map<string, Plan> {
    map p | p in r :: Decide(local, baseline, p, hash(r[p]))
  }

  function NonZeroEntries(base: Baseline): Baseline {
    map q | q in base && base[q] != ZERO_HASH :: base[q]
  }

  /** With a correct index they are the decisions of a round. */
  lemma PlansAreThoseOfARound(hash: HashFn, f: Folder, local: Index, base: Baseline, r: Folder)
    requires Indexes(hash, local, f)
    ensures Plans(hash, local, Some(base), r) == Rounds.PlansOf(hash, Rounds.Device(f, NonZeroEntries(base)), r)
  {
  }

  lemma BlockIsPiece(hash: HashFn, blocks: seq<Chunker.Chunk>, f: Folder, p: string, i: nat) returns (x: Bytes)
    requires p in f && ChunkerLemmas.Tiles(hash, blocks, f[p], 0) && i < |blocks|
    ensures ReadAt(f[p], blocks[i].offset, blocks[i].length) == Some(x) && hash(x) == blocks[i].hash && IsPiece(x, f)
  {
    TileAt(hash, blocks, f[p], 0, i);
    x := ReadAt(f[p], blocks[i].offset, blocks[i].length).value;
  }

  /** A reused block whose source file is untouched is intact, and is the block meant. */
  lemma IntactSource(hash: HashFn, f: Folder, files: Folder, r: Folder, local: Index, loc: BlockLoc,
                     rf: FileMeta, i: nat)
    requires Indexes(hash, local, f) && CollisionFree(hash, f, r)
    requires rf.path in r && Faithful(hash, rf, r[rf.path]) && i < |rf.blocks| && HasBlock(local, rf.blocks[i].hash, loc)
    requires loc.path in files && files[loc.path] == f[loc.path]
    ensures var x := LocalBlock(files, loc);
            x.Some? && hash(x.value) == rf.blocks[i].hash && x == ReadAt(r[rf.path], rf.blocks[i].offset, rf.blocks[i].length)
  {
    var b :| 0 <= b < |local[loc.path].blocks| && LocOf(loc.path, local[loc.path].blocks[b]) == loc
             && local[loc.path].blocks[b].hash == rf.blocks[i].hash;
    var x := BlockIsPiece(hash, local[loc.path].blocks, f, loc.path, b);
    var y := BlockIsPiece(hash, rf.blocks, r, rf.path, i);
  }

  lemma SameDigestSameBlock(hash: HashFn, f: Folder, r: Folder, rf: FileMeta, i: nat, j: nat)
    requires CollisionFree(hash, f, r) && rf.path in r && Faithful(hash, rf, r[rf.path])
    requires i < |rf.blocks| && j < |rf.blocks| && rf.blocks[i].hash == rf.blocks[j].hash
    ensures ReadAt(r[rf.path], rf.blocks[i].offset, rf.blocks[i].length)
            == ReadAt(r[rf.path], rf.blocks[j].offset, rf.blocks[j].length)
  {
    var x := BlockIsPiece(hash, rf.blocks, r, rf.path, i);
    var y := BlockIsPiece(hash, rf.blocks, r, rf.path, j);
  }

  /** If the sources of the reused blocks are untouched, the file can be assembled. */
  lemma IntactSourcesSuffice(hash: HashFn, f: Folder, files: Folder, r: Folder, local: Index, locals: BlockIndex, rf: FileMeta)
    requires Indexes(hash, local, f) && CollisionFree(hash, f, r) && IndexesBlocks(locals, local)
    requires rf.path in r && Faithful(hash, rf, r[rf.path])
    requires forall i :: 0 <= i < |rf.blocks| && rf.blocks[i].hash in locals ==> SameAt(f, files, locals[rf.blocks[i].hash].path)
    ensures Reusable(hash, files, locals, rf.blocks)
  {
    forall i | 0 <= i < |rf.blocks| && rf.blocks[i].hash in locals
      ensures var x := LocalBlock(files, locals[rf.blocks[i].hash]); x.Some? && hash(x.value) == rf.blocks[i].hash
    {
      assert SameAt(f, files, locals[rf.blocks[i].hash].path);
      IntactSource(hash, f, files, r, local, locals[rf.blocks[i].hash], rf, i);
    }
  }

  /** `files` has no contents but those of `f` and `r`. */
  ghost predicate Blends(files: Folder, f: Folder, r: Folder) {
    forall q :: q in files ==> files[q] in f.Values + r.Values
  }

  lemma AfterBlends(f: Folder, r: Folder, plans: map<string, Plan>, names: map<string, string>, order: seq<string>, k: nat)
    requires plans.Keys == r.Keys && k <= |order| && forall q :: q in order ==> q in r
    ensures Blends(After(f, r, plans, names, order, k), f, r)
  {
    AfterWithin(f, r, plans, names, order, k, iset x | x in f.Values + r.Values);
  }

  lemma PieceOfBlend(files: Folder, f: Folder, r: Folder, loc: BlockLoc)
    requires Blends(Visible(files), f, r) && !IsTmp(loc.path) && LocalBlock(files, loc).Some?
    ensures var x := LocalBlock(files, loc).value; IsPiece(x, f) || IsPiece(x, r)
  {
    var whole := Visible(files)[loc.path];
    var x := LocalBlock(files, loc);
    assert x == ReadAt(whole, loc.offset, loc.length);
    if whole in f.Values {
      var p :| p in f && f[p] == whole;
      assert ReadAt(f[p], loc.offset, loc.length) == x;
    } else {
      var p :| p in r && r[p] == whole;
      assert ReadAt(r[p], loc.offset, loc.length) == x;
    }
  }

  /** A block with the right digest is the right block, wherever it was found. */
  lemma RightDigestRightBlock(hash: HashFn, f: Folder, files: Folder, r: Folder, locals: BlockIndex, rf: FileMeta)
    requires CollisionFree(hash, f, r) && Blends(Visible(files), f, r) && NoTmpSources(locals)
    requires rf.path in r && Faithful(hash, rf, r[rf.path])
    ensures Unambiguous(hash, files, locals, rf.blocks, r[rf.path])
  {
    forall i | 0 <= i < |rf.blocks| && rf.blocks[i].hash in locals
      ensures var x := LocalBlock(files, locals[rf.blocks[i].hash]);
              x.Some? && hash(x.value) == rf.blocks[i].hash ==> x == ReadAt(r[rf.path], rf.blocks[i].offset, rf.blocks[i].length)
    {
      var loc := locals[rf.blocks[i].hash];
      if LocalBlock(files, loc).Some? {
        PieceOfBlend(files, f, r, loc);
        var y := BlockIsPiece(hash, rf.blocks, r, rf.path, i);
      }
    }
    forall i, j | 0 <= i < |rf.blocks| && 0 <= j < |rf.blocks| && rf.blocks[i].hash == rf.blocks[j].hash
      ensures ReadAt(r[rf.path], rf.blocks[i].offset, rf.blocks[i].length)
              == ReadAt(r[rf.path], rf.blocks[j].offset, rf.blocks[j].length)
    {
      SameDigestSameBlock(hash, f, r, rf, i, j);
    }
  }

  ghost predicate SameAt(f: Folder, g: Folder, q: string) {
    q in f && q in g && f[q] == g[q]
  }

  /** The clock gives well-formed time stamps, and the device id has neither dot nor slash. */
  predicate GoodClock(id: string, clock: Clock) {
    Plain(Short(id), 0) && forall t :: t in Stamps(clock) ==> |t| == STAMP_LENGTH && Plain(t, 0)
  }

  predicate DistinctPaths(index: seq<FileMeta>) {
    forall i, j :: 0 <= i < j < |index| ==> index[i].path != index[j].path
  }

  /** Every listed path has its conflict name, and no two share one. */
  lemma CopyNamesAreDistinct(index: seq<FileMeta>, id: string, clock: Clock)
    requires DistinctPaths(index) && GoodClock(id, clock)
    ensures var names := CopyNames(index, id, clock);
            && (forall i :: 0 <= i < |index| ==>
                  index[i].path in names && names[index[i].path] == ConflictName(index[i].path, id, Reading(clock, i)))
            && (forall i, j :: 0 <= i < j < |index| ==> names[index[i].path] != names[index[j].path])
  {
    var names := CopyNames(index, id, clock);
    forall i | 0 <= i < |index|
      ensures index[i].path in names && names[index[i].path] == ConflictName(index[i].path, id, Reading(clock, i))
    {
      CopyNameAt(index, id, clock, i);
    }
    forall i, j | 0 <= i < j < |index|
      ensures names[index[i].path] != names[index[j].path]
    {
      if names[index[i].path] == names[index[j].path] {
        ConflictNameIsInjective(index[i].path, Reading(clock, i), index[j].path, Reading(clock, j), id);
      }
    }
  }

  lemma ListedOnce(index: seq<FileMeta>, r: Folder)
    requires Lists(PathsOf(index), r)
    ensures DistinctPaths(index) && forall q :: q in r <==> exists i :: 0 <= i < |index| && index[i].path == q
  {
    var order := PathsOf(index);
    forall i, j | 0 <= i < j < |index|
      ensures index[i].path != index[j].path
    {
      assert order[i] != order[j];
    }
    forall q
      ensures q in r <==> exists i :: 0 <= i < |index| && index[i].path == q
    {
      assert q in order <==> q in r;
      if i :| 0 <= i < |index| && index[i].path == q {
        assert order[i] == q;
      }
    }
  }

  lemma CopyNamesAreFresh(index: seq<FileMeta>, id: string, clock: Clock, plans: map<string, Plan>, f: Folder, r: Folder)
    requires Lists(PathsOf(index), r) && plans.Keys == r.Keys && GoodClock(id, clock)
    requires var names := CopyNames(index, id, clock);
             forall q :: Aside(plans, q) && q in names ==> names[q] !in f && names[q] !in r
    ensures Fresh(CopyNames(index, id, clock), plans, f, r)
  {
    ListedOnce(index, r);
    CopyNamesAreDistinct(index, id, clock);
  }

  /** A finished turn is one step of the folder as a scan sees it. */
  lemma VisibleStep(files: Folder, tmp: string, target: string, x: Bytes)
    requires IsTmp(tmp) && !IsTmp(target)
    ensures Visible((files - {tmp})[target := x]) == Visible(files)[target := x]
  {
  }

  lemma NoTmpIndexed(hash: HashFn, local: Index, locals: BlockIndex, f: Folder)
    requires Indexes(hash, local, f) && IndexesBlocks(locals, local)
    ensures NoTmpSources(locals)
  {
    forall h | h in locals
      ensures !IsTmp(locals[h].path)
    {
      assert HasBlock(local, h, locals[h]);
    }
  }

  // ----- what a pull from an honest peer needs -------------------------------------------------

  function PlansIn(j: Job, s: Server): map<string, Plan> {
    Plans(j.site.hash, j.local, j.baseline, s.files)
  }

  function NamesIn(j: Job, s: Server): map<string, string> {
    CopyNames(s.index, j.site.deviceId, j.clock)
  }

  /** Both sides describe themselves truthfully, no digests collide and the conflict
      names are clean and new to both. */
  ghost predicate Ready(j: Job, s: Server) {
    && j.remote == s.index
    && ListsTruthfully(j.site, s)
    && Indexes(j.site.hash, j.local, Visible(j.before))
    && CollisionFree(j.site.hash, Visible(j.before), s.files)
    && GoodClock(j.site.deviceId, j.clock)
    && NewNames(j.site, NamesIn(j, s), PlansIn(j, s), Visible(j.before), s.files)
  }

  ghost predicate NewNames(site: Site, names: map<string, string>, plans: map<string, Plan>, f: Folder, r: Folder) {
    forall q :: Aside(plans, q) && q in names ==>
      names[q] !in f && names[q] !in r && site.resolve(names[q]) == names[q]
  }

  /** What a scan sees after `k` turns that succeed. */
  ghost function StateAt(j: Job, s: Server, k: nat): Folder
    requires Ready(j, s) && k <= |s.index|
  {
    After(Visible(j.before), s.files, PlansIn(j, s), NamesIn(j, s), PathsOf(s.index), k)
  }

  /** The k-th turn has nothing to do, or its target is local, its request fits a frame and
      the blocks it reuses are where the index says. */
  ghost predicate Works(j: Job, s: Server, locals: BlockIndex, k: nat)
    requires Ready(j, s) && k < |s.index|
  {
    PlansIn(j, s)[s.index[k].path] == Skip
    || (j.site.isLocal(TargetAt(j, k)) && RequestFits(j.site, s.index[k], locals)
        && Reusable(j.site.hash, StateAt(j, s, k), locals, s.index[k].blocks))
  }

  ghost predicate AllWork(j: Job, s: Server, locals: BlockIndex, n: nat)
    requires Ready(j, s) && n <= |s.index|
  {
    forall k :: 0 <= k < n ==> Works(j, s, locals, k)
  }

  /** The folder is where the first `k` files of the peer's list lead. */
  ghost predicate Along(j: Job, s: Server, k: nat, files: Folder)
    requires Ready(j, s) && k <= |s.index|
  {
    Visible(files) == StateAt(j, s, k)
  }

  /** What a scan sees is the folder of the start merged with the peer's. */
  ghost predicate Merged(j: Job, s: Server, files: Folder) {
    IsMerge(Visible(j.before), s.files, PlansIn(j, s), NamesIn(j, s), Visible(files))
  }

  // ----- one turn --------------------------------------------------------------------------------

  /** Where a turn puts its file. */
  lemma TurnTarget(j: Job, s: Server, k: nat)
    requires Ready(j, s) && k < |s.index|
    ensures var path, plan := s.index[k].path, PlansIn(j, s)[s.index[k].path];
            && Decide(j.local, j.baseline, path, s.index[k].hash) == plan
            && (PassesAt(j, k) <==> plan == Skip)
            && TargetAt(j, k) == (if plan == FetchAside then CopyName(NamesIn(j, s), path) else path)
            && !IsTmp(TargetAt(j, k)) && DestAt(j, k) == TargetAt(j, k)
  {
    var rf, plans := s.index[k], PlansIn(j, s);
    ListedOnce(s.index, s.files);
    CopyNamesAreDistinct(s.index, j.site.deviceId, j.clock);
    ConflictNameIsTmp(rf.path, j.site.deviceId, Reading(j.clock, k));
    if plans[rf.path] == FetchAside {
      assert Aside(plans, rf.path);
    }
  }

  lemma TurnIsFromHonest(j: Job, s: Server, peer: Peer, k: nat)
    requires Ready(j, s) && k < |s.index| && s == ServerFor(peer, j.site.folder)
    ensures FromHonest(j.site, peer, s.index[k]) && PeerFile(j.site, peer, s.index[k]) == s.files[s.index[k].path]
  {
  }

  lemma TurnIsUnambiguous(j: Job, s: Server, locals: BlockIndex, files: Folder, k: nat)
    requires Ready(j, s) && IndexesBlocks(locals, j.local) && k < |s.index| && Along(j, s, k, files)
    ensures NoTmpSources(locals)
    ensures Unambiguous(j.site.hash, files, locals, s.index[k].blocks, s.files[s.index[k].path])
  {
    var f := Visible(j.before);
    NoTmpIndexed(j.site.hash, j.local, locals, f);
    AfterBlends(f, s.files, PlansIn(j, s), NamesIn(j, s), PathsOf(s.index), k);
    RightDigestRightBlock(j.site.hash, f, files, s.files, locals, s.index[k]);
  }

  lemma ReusableIfVisible(hash: HashFn, files: Folder, locals: BlockIndex, chunks: seq<Chunker.Chunk>)
    requires NoTmpSources(locals)
    ensures Reusable(hash, files, locals, chunks) <==> Reusable(hash, Visible(files), locals, chunks)
  {
    assert forall h :: h in locals ==> LocalBlock(files, locals[h]) == LocalBlock(Visible(files), locals[h]);
  }

  lemma TurnIsDone(j: Job, s: Server, k: nat, files: Folder, files': Folder)
    requires Ready(j, s) && k < |s.index| && Along(j, s, k, files)
    requires if PassesAt(j, k) then files' == files
             else files' == (files - {TmpOf(DestAt(j, k))})[DestAt(j, k) := s.files[s.index[k].path]]
    ensures Along(j, s, k + 1, files')
  {
    TurnTarget(j, s, k);
    VisibleStep(files, TmpOf(TargetAt(j, k)), TargetAt(j, k), s.files[s.index[k].path]);
  }

  /** A turn succeeds exactly if it works out, and then leads one step on. */
  lemma TurnLeadsOn(j: Job, s: Server, peer: Peer, locals: BlockIndex, k: nat, keep: int, mtime: string,
                    err: Option<PullError>, content: Bytes, files: Folder, files': Folder,
                    h: seq<Folder>, h': seq<Folder>, v: Versioning.Files, v': Versioning.Files)
    requires Ready(j, s) && s == ServerFor(peer, j.site.folder) && IndexesBlocks(locals, j.local)
    requires k < |s.index| && Along(j, s, k, files)
    requires if PassesAt(j, k) then err == None && files' == files
             else
               && Outcome(j.site.hash, keep, s.index[k], DestAt(j, k), mtime, err, content, files, files', h, h', v, v')
               && HonestOutcome(j.site, peer, s.index[k], TargetAt(j, k), locals, files, err, content)
    ensures err == None <==> Works(j, s, locals, k)
    ensures err == None ==> Along(j, s, k + 1, files')
  {
    TurnTarget(j, s, k);
    if !PassesAt(j, k) {
      TurnIsFromHonest(j, s, peer, k);
      TurnIsUnambiguous(j, s, locals, files, k);
      ReusableIfVisible(j.site.hash, files, locals, s.index[k].blocks);
    }
    if err == None {
      TurnIsDone(j, s, k, files, files');
    }
  }

  lemma ReadyNamesAreFresh(j: Job, s: Server)
    requires Ready(j, s)
    ensures Fresh(NamesIn(j, s), PlansIn(j, s), Visible(j.before), s.files)
  {
    CopyNamesAreFresh(s.index, j.site.deviceId, j.clock, PlansIn(j, s), Visible(j.before), s.files);
  }

  lemma PullIsMerge(j: Job, s: Server, files: Folder)
    requires Ready(j, s) && Along(j, s, |s.index|, files)
    ensures Merged(j, s, files)
  {
    ReadyNamesAreFresh(j, s);
    PullIgnoresOrder(Visible(j.before), s.files, PlansIn(j, s), NamesIn(j, s), PathsOf(s.index));
  }

  // ----- what is enough for all turns to work out -----------------------------------------------

  /** Whatever the block index is, conflict names are local, requests fit a frame, and no
      block source is overwritten before its turn. */
  ghost predicate Assured(j: Job, s: Server)
    requires Ready(j, s)
  {
    && (forall q :: Aside(PlansIn(j, s), q) && q in NamesIn(j, s) ==> j.site.isLocal(NamesIn(j, s)[q]))
    && (forall k, locals :: 0 <= k < |s.index| && IndexesBlocks(locals, j.local) ==> RequestFits(j.site, s.index[k], locals))
    && SourcesSurvive(j.local, s.index, PlansIn(j, s))
  }

  lemma AssuredTarget(j: Job, s: Server, k: nat)
    requires Ready(j, s) && Assured(j, s) && k < |s.index|
    ensures j.site.isLocal(TargetAt(j, k))
  {
    TurnTarget(j, s, k);
    ListedOnce(s.index, s.files);
    CopyNamesAreDistinct(s.index, j.site.deviceId, j.clock);
    if PlansIn(j, s)[s.index[k].path] == FetchAside {
      assert Aside(PlansIn(j, s), s.index[k].path);
    }
  }

  lemma UnfetchedIsIntact(f: Folder, r: Folder, plans: map<string, Plan>, names: map<string, string>,
                          index: seq<FileMeta>, k: nat, q: string)
    requires plans.Keys == r.Keys && Fresh(names, plans, f, r) && Lists(PathsOf(index), r) && k <= |index| && q in f
    requires forall i :: 0 <= i < k && index[i].path == q ==> q in plans && plans[q] != Fetch
    ensures SameAt(f, After(f, r, plans, names, PathsOf(index), k), q)
  {
    AfterUnchanged(f, r, plans, names, PathsOf(index), k, q);
  }

  /** A file that is not fetched before the k-th turn still has its scanned content. */
  lemma SourceIsIntact(j: Job, s: Server, k: nat, q: string)
    requires Ready(j, s) && k <= |s.index| && q in Visible(j.before)
    requires forall i :: 0 <= i < k && s.index[i].path == q ==> PlansIn(j, s)[q] != Fetch
    ensures SameAt(Visible(j.before), StateAt(j, s, k), q)
  {
    ReadyNamesAreFresh(j, s);
    UnfetchedIsIntact(Visible(j.before), s.files, PlansIn(j, s), NamesIn(j, s), s.index, k, q);
  }

  lemma SourceSurvives(j: Job, s: Server, locals: BlockIndex, k: nat, i: nat)
    requires Ready(j, s) && SourcesSurvive(j.local, s.index, PlansIn(j, s)) && IndexesBlocks(locals, j.local)
    requires k < |s.index| && PlansIn(j, s)[s.index[k].path] != Skip
    requires i < |s.index[k].blocks| && s.index[k].blocks[i].hash in locals
    ensures SameAt(Visible(j.before), StateAt(j, s, k), locals[s.index[k].blocks[i].hash].path)
  {
    var h := s.index[k].blocks[i].hash;
    var q := locals[h].path;
    assert HasBlock(j.local, h, locals[h]);
    assert ShareBlock(j.local[q].blocks, s.index[k].blocks);
    SourceIsIntact(j, s, k, q);
  }

  lemma AssuredSources(j: Job, s: Server, locals: BlockIndex, k: nat)
    requires Ready(j, s) && SourcesSurvive(j.local, s.index, PlansIn(j, s)) && IndexesBlocks(locals, j.local)
    requires k < |s.index| && PlansIn(j, s)[s.index[k].path] != Skip
    ensures Reusable(j.site.hash, StateAt(j, s, k), locals, s.index[k].blocks)
  {
    forall i | 0 <= i < |s.index[k].blocks| && s.index[k].blocks[i].hash in locals
      ensures SameAt(Visible(j.before), StateAt(j, s, k), locals[s.index[k].blocks[i].hash].path)
    {
      SourceSurvives(j, s, locals, k, i);
    }
    IntactSourcesSuffice(j.site.hash, Visible(j.before), StateAt(j, s, k), s.files, j.local, locals, s.index[k]);
  }

  /** Then every turn works out. */
  lemma AssuredWorks(j: Job, s: Server, locals: BlockIndex)
    requires Ready(j, s) && Assured(j, s) && IndexesBlocks(locals, j.local)
    ensures AllWork(j, s, locals, |s.index|)
  {
    forall k | 0 <= k < |s.index|
      ensures Works(j, s, locals, k)
    {
      AssuredTarget(j, s, k);
      if PlansIn(j, s)[s.index[k].path] != Skip {
        AssuredSources(j, s, locals, k);
      }
    }
  }

  // ----- an index that does not arrive ----------------------------------------------------------

  /** Pulling from an empty list leaves the folder as it is. */
  lemma MergeWithNothing(f: Folder, m: Folder)
    requires IsMerge(f, map[], map[], map[], m)
    ensures m == f
  {
    forall q
      ensures q in m <==> q in f
    {
      assert !IsCopy(map[], map[], {}, q);
    }
  }

  /** The unchanged folder is the merge with the peer's exactly if nothing was to be pulled. */
  lemma UnchangedIsMergeExactly(hash: HashFn, f: Folder, local: Index, baseline: Option<Baseline>, r: Folder,
                                names: map<string, string>)
    requires Indexes(hash, local, f) && Fresh(names, Plans(hash, local, baseline, r), f, r)
    ensures IsMerge(f, r, Plans(hash, local, baseline, r), names, f)
            <==> forall p :: p in r ==> Plans(hash, local, baseline, r)[p] == Skip
  {
    var plans := Plans(hash, local, baseline, r);
    if IsMerge(f, r, plans, names, f) {
      forall p | p in r
        ensures plans[p] == Skip
      {
        assert Aside(plans, p) <==> plans[p] == FetchAside;
      }
    }
    if forall p :: p in r ==> plans[p] == Skip {
      forall p | p in r
        ensures p in f
      {
        assert plans[p] == Skip;
      }
      assert forall q :: !IsCopy(names, plans, r.Keys, q);
    }
  }

  /** When a successful pull from an honest peer is the merge with the peer's folder `s`:
      exactly if that is served and its index fits a frame, or nothing was to be pulled. */
  lemma HonestSuccessIsMergeExactly(j: Job, peer: Peer, s: Server, files: Folder)
    requires peer.Honest? && (j.site.folder in peer.snapshot ==> s == peer.snapshot[j.site.folder])
    requires j.remote == ServerFor(peer, j.site.folder).index && Merged(j, ServerFor(peer, j.site.folder), files)
    requires Ready(j.(remote := s.index), s)
    ensures Merged(j, s, files)
            <==> Announced(peer, j.site.folder) || forall p :: p in s.files ==> PlansIn(j, s)[p] == Skip
  {
    var f := Visible(j.before);
    if !Announced(peer, j.site.folder) {
      assert PlansIn(j, Server(map[], map[], [], 0)) == map[];
      MergeWithNothing(f, Visible(files));
      CopyNamesAreFresh(s.index, j.site.deviceId, j.clock, PlansIn(j, s), f, s.files);
      UnchangedIsMergeExactly(j.site.hash, f, j.local, j.baseline, s.files, NamesIn(j, s));
    }
  }
}
