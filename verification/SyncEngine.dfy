/** The engine around the pull: scanning, serving, and the baseline that turns pulls
    into rounds (`engine/internal/syncengine/syncengine.go`). */
module SyncEngine {
  import opened Basics
  import opened Names
  import opened Scanner
  import opened Reconcile
  import opened Session
  import opened Turn
  import opened HonestPeer
  import opened Pull
  import Chunker
  import ChunkerLemmas
  import Protocol
  import Rounds
  import Tries
  import Versioning

  const MAX_VERSIONS := 10

  /** How the files are delivered to a scan, by path. */
  type Reads = map<string, seq<Chunker.ReadStep>>

  predicate Unbroken(input: Reads) {
    forall p, s :: p in input && s in input[p] ==> !s.broken
  }

  // ----- indexes ------------------------------------------------------------------------

  ghost function InfoOf(ch: Chunker.Chunker, p: string, x: Bytes): FileInfo {
    FileInfo(p, |x|, ch.hash(x), Chunker.Chunks(ch.cfg, ch.gear, ch.hash, x))
  }

  /** The index of a folder. */
  ghost function Indexed(ch: Chunker.Chunker, f: Folder): Index {
    map p | p in f :: InfoOf(ch, p, f[p])
  }

  lemma IndexedIsIndexed(ch: Chunker.Chunker, f: Folder)
    requires forall q :: q in f ==> !IsTmp(q)
    ensures Indexes(ch.hash, Indexed(ch, f), f)
  {
    forall q | q in f
      ensures ChunkerLemmas.Tiles(ch.hash, Indexed(ch, f)[q].blocks, f[q], 0)
    {
      ChunkerLemmas.ChunksTile(ch.cfg, ch.gear, ch.hash, f[q], 0);
    }
  }

  /** `scan`: everything but temporary files. */
  method ScanFolder(ch: Chunker.Chunker, files: Folder, input: Reads) returns (r: Option<Index>)
    ensures r.Some? ==> r.value == Indexed(ch, Visible(files))
    ensures r.Some? ==> forall q :: q in r.value <==> q in files && !(|q| >= 10 && q[|q| - 10..] == ".syncy-tmp")
    ensures r.Some? ==>
              forall q :: q in r.value ==>
                && r.value[q].path == q && r.value[q].size == |files[q]| && r.value[q].hash == ch.hash(files[q])
                && r.value[q].blocks == Chunker.Chunks(ch.cfg, ch.gear, ch.hash, files[q])
    ensures Unbroken(input) ==> r.Some?
  {
    var skip := set q | q in files && IsTmp(q);
    assert files - skip == Visible(files);
    r := Scan(ch, files, skip, input);
  }

  /** `indexHashes`. */
  method IndexHashes(ch: Chunker.Chunker, idx: Index, ghost f: Folder) returns (out: Baseline)
    requires idx == Indexed(ch, f)
    ensures out == Rounds.Digests(ch.hash, f)
    ensures out.Keys == idx.Keys && forall p :: p in out ==> out[p] == idx[p].hash
  {
    out := map[];
    var rest := idx.Keys;
    while rest != {}
      invariant rest <= idx.Keys && out.Keys == idx.Keys - rest
      invariant forall p :: p in out ==> out[p] == idx[p].hash
      decreases rest
    {
      var p :| p in rest;
      out := out[p := idx[p].hash];
      rest := rest - {p};
    }
  }

  function MetaOf(fi: FileInfo): FileMeta {
    FileMeta(fi.path, fi.hash, false, fi.blocks)
  }

  /** `indexToFileMeta`: every file once, in the arbitrary order of a Go map. */
  method IndexToFileMeta(idx: Index) returns (files: seq<FileMeta>)
    requires forall p :: p in idx ==> idx[p].path == p
    ensures DistinctPaths(files)
    ensures forall i :: 0 <= i < |files| ==> files[i].path in idx && files[i] == MetaOf(idx[files[i].path])
    ensures forall f :: f in files ==> f.hash == idx[f.path].hash && f.blocks == idx[f.path].blocks && !f.deleted
    ensures forall p :: p in idx ==> exists i :: 0 <= i < |files| && files[i].path == p
  {
    files := [];
    var rest := idx.Keys;
    while rest != {}
      invariant rest <= idx.Keys && DistinctPaths(files)
      invariant forall i :: 0 <= i < |files| ==>
                  files[i].path in idx && files[i].path !in rest && files[i] == MetaOf(idx[files[i].path])
      invariant forall p :: p in idx && p !in rest ==> exists i :: 0 <= i < |files| && files[i].path == p
      decreases rest
    {
      var p :| p in rest;
      ghost var was := files;
      files := files + [MetaOf(idx[p])];
      rest := rest - {p};
      forall q | q in idx && q !in rest
        ensures exists i :: 0 <= i < |files| && files[i].path == q
      {
        if q == p {
          assert files[|was|].path == q;
        } else {
          var i :| 0 <= i < |was| && was[i].path == q;
          assert files[i].path == q;
        }
      }
    }
  }

  // ----- serving --------------------------------------------------------------------------

  /** `index` lists every file of `f` once, as a scan describes it. */
  ghost predicate ListsExactly(ch: Chunker.Chunker, index: seq<FileMeta>, f: Folder) {
    && DistinctPaths(index)
    && (forall i :: 0 <= i < |index| ==> index[i].path in f && index[i] == MetaOf(InfoOf(ch, index[i].path, f[index[i].path])))
    && (forall p :: p in f ==> exists i :: 0 <= i < |index| && index[i].path == p)
  }

  /** `s` serves the folder `f` as a scan sees it. */
  ghost predicate Serves(ch: Chunker.Chunker, s: Server, f: Folder) {
    s.files == f && ListsExactly(ch, s.index, f)
  }

  lemma ExactListsAllPaths(ch: Chunker.Chunker, index: seq<FileMeta>, f: Folder)
    requires ListsExactly(ch, index, f)
    ensures Lists(PathsOf(index), f)
  {
    var order := PathsOf(index);
    forall p
      ensures p in order <==> p in f
    {
      if p in f {
        var i :| 0 <= i < |index| && index[i].path == p;
        assert order[i] == p;
      }
    }
  }

  /** What the engine serves is what an honest peer is taken to serve. */
  lemma ServesTruthfully(ch: Chunker.Chunker, s: Server, f: Folder, site: Site)
    requires Serves(ch, s, f) && site.hash == ch.hash
    requires HASH_SIZE + ch.cfg.max <= Protocol.MAX_FRAME_SIZE
    requires forall p :: p in f ==> Ordinary(site, p)
    ensures ListsTruthfully(site, s)
  {
    ExactListsAllPaths(ch, s.index, f);
    IndexedIsIndexed(ch, f);
    forall i | 0 <= i < |s.index|
      ensures Faithful(ch.hash, s.index[i], f[s.index[i].path])
    {
      var x := f[s.index[i].path];
      forall j | 0 <= j < |s.index[i].blocks|
        ensures HASH_SIZE + s.index[i].blocks[j].length <= Protocol.MAX_FRAME_SIZE
      {
        ChunkerLemmas.ChunkSizes(ch.cfg, ch.gear, ch.hash, x, 0, j);
      }
    }
  }

  /** The length of the encoded index message for a folder and a list of files. */
  type IndexSize = (string, seq<FileMeta>) -> nat

  method ServeFolder(ch: Chunker.Chunker, size: IndexSize, folder: string, files: Folder, input: Reads)
    returns (s: Option<Server>)
    ensures s.Some? ==> Serves(ch, s.value, Visible(files)) && s.value.indexSize == size(folder, s.value.index)
    ensures Unbroken(input) ==> s.Some?
  {
    var idx := ScanFolder(ch, files, input);
    if idx == None {
      return None;
    }
    var metas := IndexToFileMeta(idx.value);
    assert forall p :: p in Visible(files) ==> p in idx.value;
    return Some(Server(Visible(files), files - Visible(files).Keys, metas, size(folder, metas)));
  }

  // ----- the engine ------------------------------------------------------------------------

  datatype EngineError = UnknownFolder | ScanFailed | PullFailed(error: PullError)

  /** All that a pull meets from outside: two scans, the clock, modification times. */
  datatype Surroundings = Surroundings(first: Reads, second: Reads, clock: Clock, mtimes: Clock)

  /** Neither scan breaks. */
  predicate Steady(env: Surroundings) {
    Unbroken(env.first) && Unbroken(env.second)
  }

  /** No content has the digest that stands for a missing entry. */
  ghost predicate NoZeroDigest(hash: HashFn, f: Folder) {
    forall p :: p in f ==> hash(f[p]) != ZERO_HASH
  }

  type State = Rounds.Device<string, Bytes, Hash>

  /** A folder and its baseline as rounds of pulls see them. */
  function StateOf(files: Folder, baseline: Baseline): State {
    Rounds.Device(Visible(files), NonZeroEntries(baseline))
  }

  lemma FreshBaseline(hash: HashFn, f: Folder)
    requires NoZeroDigest(hash, f)
    ensures NonZeroEntries(Rounds.Digests(hash, f)) == Rounds.Digests(hash, f)
  {
  }

  lemma NoZeroAfterMerge(hash: HashFn, f: Folder, r: Folder, plans: map<string, Plan>, names: map<string, string>, m: Folder)
    requires plans.Keys == r.Keys && IsMerge(f, r, plans, names, m) && NoZeroDigest(hash, f) && NoZeroDigest(hash, r)
    ensures NoZeroDigest(hash, m)
  {
    MergeWithin(f, r, plans, names, m, iset x | hash(x) != ZERO_HASH);
  }

  lemma MergeIsRound(hash: HashFn, f: Folder, local: Index, base: Baseline, r: Folder, names: map<string, string>,
                     f': Folder, base': Baseline)
    requires Indexes(hash, local, f) && Fresh(names, Plans(hash, local, Some(base), r), f, r)
    requires IsMerge(f, r, Plans(hash, local, Some(base), r), names, f')
    requires NonZeroEntries(base') == Rounds.Digests(hash, f')
    ensures Rounds.Pulled(hash, Rounds.Device(f, NonZeroEntries(base)), r, names, Rounds.Device(f', NonZeroEntries(base')))
  {
    PlansAreThoseOfARound(hash, f, local, base, r);
  }

  /** A merge with a fresh baseline is a pull in the sense of rounds. */
  lemma MergedIsPulled(j: Job, s: Server, base: Baseline, after: Folder)
    requires Ready(j, s) && Merged(j, s, after) && j.baseline == Some(base)
    requires NoZeroDigest(j.site.hash, Visible(j.before)) && NoZeroDigest(j.site.hash, s.files)
    ensures Rounds.Pulled(j.site.hash, StateOf(j.before, base), s.files, NamesIn(j, s),
                          StateOf(after, Rounds.Digests(j.site.hash, Visible(after))))
  {
    var hash, f := j.site.hash, Visible(j.before);
    ReadyNamesAreFresh(j, s);
    NoZeroAfterMerge(hash, f, s.files, PlansIn(j, s), NamesIn(j, s), Visible(after));
    FreshBaseline(hash, Visible(after));
    MergeIsRound(hash, f, j.local, base, s.files, NamesIn(j, s), Visible(after), Rounds.Digests(hash, Visible(after)));
  }

  /** The job that a folder pull carries out, up to what the peer lists. */
  ghost function JobOf(ch: Chunker.Chunker, site: Site, before: Folder, base: Baseline, clock: Clock, remote: seq<FileMeta>): Job {
    Job(site, before, Indexed(ch, Visible(before)), Some(base), clock, remote)
  }

  /** What a folder pull from an honest peer promises; `s` is what its index announces. */
  ghost predicate HonestPull(j: Job, s: Server, locals: BlockIndex, env: Surroundings, base: Baseline,
                             err: Option<EngineError>, after: Folder, base': Baseline)
  {
    j.remote == s.index && Ready(j, s) ==>
      && (err == None ==> AllWork(j, s, locals, |s.index|) && Merged(j, s, after))
      && (Steady(env) && AllWork(j, s, locals, |s.index|) ==> err == None)
      && (err == None && NoZeroDigest(j.site.hash, Visible(j.before)) && NoZeroDigest(j.site.hash, s.files) ==>
            Rounds.Pulled(j.site.hash, StateOf(j.before, base), s.files, NamesIn(j, s), StateOf(after, base')))
  }

  /** A pull from an honest peer whose index does not arrive counts as a pull of an empty
      folder: it succeeds, brings nothing and still sets the baseline. */
  lemma UndeliveredPullIsPullOfNothing(ch: Chunker.Chunker, site: Site, peer: Peer, locals: BlockIndex, env: Surroundings,
                                       before: Folder, base: Baseline, after: Folder, base': Baseline)
    requires site.hash == ch.hash && peer.Honest? && !Announced(peer, site.folder)
    requires GoodClock(site.deviceId, env.clock) && CollisionFree(site.hash, Visible(before), map[])
    requires NoZeroDigest(site.hash, Visible(before))
    requires HonestPull(JobOf(ch, site, before, base, env.clock, []), ServerFor(peer, site.folder), locals, env, base, None,
                        after, base')
    ensures Rounds.Pulled(site.hash, StateOf(before, base), map[], map[], StateOf(after, base'))
    ensures Visible(after) == Visible(before)
  {
    var j, s := JobOf(ch, site, before, base, env.clock, []), ServerFor(peer, site.folder);
    IndexedIsIndexed(ch, Visible(before));
    assert Lists(PathsOf(s.index), s.files);
    assert Ready(j, s);
    assert PlansIn(j, s) == map[];
    MergeWithNothing(Visible(before), Visible(after));
  }

  /** A pull succeeded exactly if every turn works out, and merged the folders. */
  ghost predicate ExactPull(j: Job, s: Server, locals: BlockIndex, ok: bool, after: Folder) {
    j.remote == s.index && Ready(j, s) ==> (ok <==> AllWork(j, s, locals, |s.index|)) && (ok ==> Merged(j, s, after))
  }

  /** What it promises is known from the pull itself and the second scan. */
  lemma HonestPullHolds(j: Job, s: Server, locals: BlockIndex, env: Surroundings, base: Baseline, pullErr: Option<EngineError>,
                        err: Option<EngineError>, after: Folder, base': Baseline)
    requires j.baseline == Some(base)
    requires ExactPull(j, s, locals, pullErr == None, after)
    requires err == None ==> pullErr == None && base' == Rounds.Digests(j.site.hash, Visible(after))
    requires Steady(env) && pullErr == None ==> err == None
    ensures HonestPull(j, s, locals, env, base, err, after, base')
  {
    if j.remote == s.index && Ready(j, s) && err == None && NoZeroDigest(j.site.hash, Visible(j.before))
       && NoZeroDigest(j.site.hash, s.files)
    {
      MergedIsPulled(j, s, base, after);
    }
  }

  /** The conflict names of the files that a pull sets aside. */
  function CopiesOf(j: Job): set<string> {
    set i | 0 <= i < |j.remote| && AsideAt(j, i) :: ConflictName(j.remote[i].path, j.site.deviceId, Reading(j.clock, i))
  }

  /** A pull from any peer, whether it succeeds or not, is a try, if the paths that it pulls to
      mean the files of those names. */
  lemma SoundPullIsTry(j: Job, contents: seq<Bytes>, base: Baseline, h0: seq<Folder>, after: Folder, h: seq<Folder>, ok: bool,
                       base': Baseline)
    requires Sound(j, contents, h0, after, h, ok) && Direct(j)
    requires Indexes(j.site.hash, j.local, Visible(j.before)) && j.baseline == Some(base)
    requires base' == if ok then Rounds.Digests(j.site.hash, Visible(after)) else base
    ensures Tries.IsTry(j.site.hash, StateOf(j.before, base), Tries.Try(Visible(j.before), CopiesOf(j), ok, StateOf(after, base')))
  {
    var was, now := StateOf(j.before, base), StateOf(after, base');
    forall q | q in was.files && q !in CopiesOf(j) && Lookup(was.base, q) != Some(j.site.hash(was.files[q]))
      ensures q in now.files && now.files[q] == was.files[q]
    {
      assert Protected(j, q);
    }
  }

  /** A shared folder with its version store and the baseline of its last good pull. */
  class LocalFolder {
    const disk: Disk
    const versions: Versioning.Store
    var baseline: Baseline

    constructor (d: Disk, v: Versioning.Store, b: Baseline)
      ensures disk == d && versions == v && baseline == b
    {
      disk, versions, baseline := d, v, b;
    }

    /** The first two steps: scan and pull. */
    method ScanAndPull(ch: Chunker.Chunker, site: Site, conn: Conn, env: Surroundings)
      returns (err: Option<EngineError>, stats: Puller, ghost j: Job, ghost locals: BlockIndex, ghost tr: Trace)
      requires site.hash == ch.hash
      modifies disk, versions, conn
      ensures old(conn.peer).Honest? ==> conn.peer == old(conn.peer)
      ensures j == JobOf(ch, site, old(disk.files), baseline, env.clock, j.remote)
      ensures Unbroken(env.first) ==> err != Some(ScanFailed)
      ensures err != Some(ScanFailed) ==> IsBlockIndex(locals, j.local)
      ensures Sound(j, tr.contents, old(disk.history), disk.files, disk.history, err == None)
      ensures Recorded(j, versions.keep, env.mtimes, tr, disk.files, versions.files) && tr.stores[0] == old(versions.files)
      ensures err == None ==> CountsOf(stats) == CountsTo(j, |j.remote|)
      ensures old(conn.peer).Honest? && err != Some(ScanFailed) ==> j.remote == ServerFor(conn.peer, site.folder).index
      ensures old(conn.peer).Honest? && err != Some(ScanFailed) ==>
                ExactPull(j, ServerFor(conn.peer, site.folder), locals, err == None, disk.files)
    {
      locals := map[];
      j := JobOf(ch, site, disk.files, baseline, env.clock, []);
      tr := Trace([disk.files], [versions.files], []);
      stats := new Puller(site, disk, conn, versions);
      var idx := ScanFolder(ch, disk.files, env.first);
      if idx == None {
        return Some(ScanFailed), stats, j, locals, tr;
      }
      var pullErr;
      pullErr, j, locals, tr := Pull.Pull(stats, idx.value, Some(baseline), env.clock, env.mtimes);
      err := if pullErr == None then None else Some(PullFailed(pullErr.value));
    }

    /** Scan, pull, scan again, and only then a new baseline; also when the peer's index did
        not arrive and nothing was pulled. */
    method PullFrom(ch: Chunker.Chunker, site: Site, conn: Conn, env: Surroundings)
      returns (err: Option<EngineError>, stats: Puller, ghost j: Job, ghost locals: BlockIndex, ghost tr: Trace)
      requires site.hash == ch.hash
      modifies this, disk, versions, conn
      ensures old(conn.peer).Honest? ==> conn.peer == old(conn.peer)
      ensures baseline == if err == None then Rounds.Digests(ch.hash, Visible(disk.files)) else old(baseline)
      ensures j == JobOf(ch, site, old(disk.files), old(baseline), env.clock, j.remote)
      ensures Steady(env) ==> err != Some(ScanFailed)
      ensures err != Some(ScanFailed) ==> IsBlockIndex(locals, j.local)
      ensures Sound(j, tr.contents, old(disk.history), disk.files, disk.history, err == None)
      ensures Recorded(j, versions.keep, env.mtimes, tr, disk.files, versions.files) && tr.stores[0] == old(versions.files)
      ensures err == None ==> CountsOf(stats) == CountsTo(j, |j.remote|)
      ensures old(conn.peer).Honest? && err == None ==> j.remote == ServerFor(conn.peer, site.folder).index
      ensures old(conn.peer).Honest? ==>
                HonestPull(JobOf(ch, site, old(disk.files), old(baseline), env.clock, ServerFor(conn.peer, site.folder).index),
                           ServerFor(conn.peer, site.folder), locals, env, old(baseline), err, disk.files, baseline)
    {
      ghost var base, honest := baseline, conn.peer.Honest?;
      err, stats, j, locals, tr := ScanAndPull(ch, site, conn, env);
      ghost var pullErr := err;
      if err == None {
        var after := ScanFolder(ch, disk.files, env.second);
        if after == None {
          err := Some(ScanFailed);
        } else {
          baseline := IndexHashes(ch, after.value, Visible(disk.files));
        }
      }
      if honest && pullErr != Some(ScanFailed) {
        HonestPullHolds(j, ServerFor(conn.peer, site.folder), locals, env, base, pullErr, err, disk.files, baseline);
      }
    }
  }

  class Engine {
    const id: string
    const chunker: Chunker.Chunker
    const isLocal: string -> bool
    const resolve: string -> string
    const requestSize: (string, string, seq<BlockRef>) -> nat
    const indexSize: IndexSize
    const folders: map<string, LocalFolder>

    constructor (site: Site, ch: Chunker.Chunker, indexSize: IndexSize, folders: map<string, LocalFolder>)
      ensures id == site.deviceId && chunker == ch && isLocal == site.isLocal && resolve == site.resolve
      ensures requestSize == site.requestSize && this.indexSize == indexSize && this.folders == folders
    {
      id, chunker, isLocal, resolve := site.deviceId, ch, site.isLocal, site.resolve;
      requestSize, this.indexSize, this.folders := site.requestSize, indexSize, folders;
    }

    function SiteOf(folderId: string): Site {
      Site(chunker.hash, isLocal, resolve, requestSize, folderId, id)
    }

    /** `FolderSnapshot`: every folder that can be scanned; the others are left out. */
    method FolderSnapshot(input: map<string, Reads>) returns (out: Snapshot)
      ensures out.Keys <= folders.Keys
      ensures forall k :: k in out ==>
                Serves(chunker, out[k], Visible(folders[k].disk.files)) && out[k].indexSize == indexSize(k, out[k].index)
      ensures forall k :: k in folders && (k in input ==> Unbroken(input[k])) ==> k in out
    {
      out := map[];
      var rest := folders.Keys;
      while rest != {}
        invariant rest <= folders.Keys && out.Keys <= folders.Keys - rest
        invariant forall k :: k in out ==>
                    Serves(chunker, out[k], Visible(folders[k].disk.files)) && out[k].indexSize == indexSize(k, out[k].index)
        invariant forall k :: k in folders && k !in rest && (k in input ==> Unbroken(input[k])) ==> k in out
        decreases rest
      {
        var k :| k in rest;
        rest := rest - {k};
        var s := ServeFolder(chunker, indexSize, k, folders[k].disk.files, if k in input then input[k] else map[]);
        if s.Some? {
          out := out[k := s.value];
        }
      }
    }

    /** A shared folder as a scan sees it. */
    ghost function Contents(folderId: string): Folder
      requires folderId in folders
      reads folders[folderId].disk
    {
      Visible(folders[folderId].disk.files)
    }

    ghost function State(folderId: string): State
      requires folderId in folders
      reads folders[folderId], folders[folderId].disk
    {
      StateOf(folders[folderId].disk.files, folders[folderId].baseline)
    }

    /** Everything here that a pull of the folder may change. */
    function Footprint(folderId: string): set<object> {
      if folderId in folders then {folders[folderId], folders[folderId].disk, folders[folderId].versions} else {}
    }

    /** `PullFolder`: a folder that is not shared is an error and changes nothing. */
    method PullFolder(folderId: string, conn: Conn, env: Surroundings)
      returns (err: Option<EngineError>, stats: Puller, ghost j: Job, ghost locals: BlockIndex, ghost tr: Trace)
      modifies conn, Footprint(folderId)
      ensures folderId !in folders ==> err == Some(UnknownFolder) && conn.peer == old(conn.peer)
      ensures old(conn.peer).Honest? ==> conn.peer == old(conn.peer)
      ensures folderId in folders ==>
                var lf := folders[folderId];
                && lf.baseline == (if err == None then Rounds.Digests(chunker.hash, Visible(lf.disk.files)) else old(lf.baseline))
                && j == JobOf(chunker, SiteOf(folderId), old(lf.disk.files), old(lf.baseline), env.clock, j.remote)
                && (Steady(env) ==> err != Some(ScanFailed))
                && (err != Some(ScanFailed) ==> IsBlockIndex(locals, j.local))
                && Sound(j, tr.contents, old(lf.disk.history), lf.disk.files, lf.disk.history, err == None)
                && Recorded(j, lf.versions.keep, env.mtimes, tr, lf.disk.files, lf.versions.files)
                && tr.stores[0] == old(lf.versions.files)
      ensures folderId in folders && old(conn.peer).Honest? ==>
                var lf, s := folders[folderId], ServerFor(conn.peer, folderId);
                HonestPull(JobOf(chunker, SiteOf(folderId), old(lf.disk.files), old(lf.baseline), env.clock, s.index), s, locals,
                           env, old(lf.baseline), err, lf.disk.files, lf.baseline)
    {
      locals, tr := map[], Trace([], [], []);
      j := Job(SiteOf(folderId), map[], map[], None, env.clock, []);
      if folderId !in folders {
        var none := new Versioning.Store(MAX_VERSIONS);
        var nowhere := new Disk(map[]);
        stats := new Puller(SiteOf(folderId), nowhere, conn, none);
        return Some(UnknownFolder), stats, j, locals, tr;
      }
      err, stats, j, locals, tr := folders[folderId].PullFrom(chunker, SiteOf(folderId), conn, env);
    }
  }
}
