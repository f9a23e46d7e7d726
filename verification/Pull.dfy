/** The loop of `Pull`: a whole pull, from any peer and from an honest one
    (`engine/internal/session/session.go`). */
module Pull {
  import opened Basics
  import opened Scanner
  import opened Session
  import opened Turn
  import opened HonestPeer
  import Versioning

  // ----- the states a pull goes through -----------------------------------------------------

  /** After each turn that succeeded: the folder and the kept versions, with those of the start
      first; and what each turn wrote. */
  datatype Trace = Trace(folders: seq<Folder>, stores: seq<Versioning.Files>, contents: seq<Bytes>)
  {
    function Turns(): nat {
      |contents|
    }

    predicate Fits(j: Job) {
      |folders| == |stores| == |contents| + 1 && |contents| <= |j.remote|
    }
  }

  ghost predicate TracedAt(j: Job, keep: int, mtimes: Clock, tr: Trace, k: nat)
    requires tr.Fits(j) && k < tr.Turns()
  {
    TurnDone(j, keep, k, Reading(mtimes, k), tr.contents[k], tr.folders[k], tr.folders[k + 1], tr.stores[k], tr.stores[k + 1])
  }

  /** Every turn did what a turn that succeeds does. */
  ghost predicate Traced(j: Job, keep: int, mtimes: Clock, tr: Trace) {
    tr.Fits(j) && tr.folders[0] == j.before && forall k :: 0 <= k < tr.Turns() ==> TracedAt(j, keep, mtimes, tr, k)
  }

  /** Where the turns have led. */
  predicate EndsIn(tr: Trace, files: Folder, v: Versioning.Files) {
    |tr.folders| == |tr.stores| == |tr.contents| + 1
    && tr.folders[|tr.contents|] == files && tr.stores[|tr.contents|] == v
  }

  function Longer(tr: Trace, content: Bytes, g: Folder, v: Versioning.Files): Trace {
    Trace(tr.folders + [g], tr.stores + [v], tr.contents + [content])
  }

  lemma TraceGoesOn(j: Job, keep: int, mtimes: Clock, tr: Trace, content: Bytes, f: Folder, g: Folder,
                    v: Versioning.Files, v': Versioning.Files)
    requires Traced(j, keep, mtimes, tr) && EndsIn(tr, f, v) && tr.Turns() < |j.remote|
    requires TurnDone(j, keep, tr.Turns(), Reading(mtimes, tr.Turns()), content, f, g, v, v')
    ensures Traced(j, keep, mtimes, Longer(tr, content, g, v')) && EndsIn(Longer(tr, content, g, v'), g, v')
  {
    var tr' := Longer(tr, content, g, v');
    forall k | 0 <= k < tr'.Turns()
      ensures TracedAt(j, keep, mtimes, tr', k)
    {
      if k < tr.Turns() {
        assert TracedAt(j, keep, mtimes, tr, k);
      }
    }
  }

  // ----- any peer ------------------------------------------------------------------------------

  /** What holds of the folder and its history after turns that wrote `contents`, whatever the
      peer sends: only announced contents are new; and if the turns spare protected files and
      forge none, these are untouched at every moment. */
  ghost predicate Safe(j: Job, contents: seq<Bytes>, h0: seq<Folder>, files: Folder, h: seq<Folder>) {
    && OnlyAnnounced(j, files) && AlwaysAnnounced(j, h0, h)
    && (Spares(j, |j.remote|) && Unforged(j, contents) ==> Guarded(j, files) && AlwaysGuarded(j, h0, h))
  }

  /** And if they were untouched, the turns have spared them. */
  ghost predicate SparedSoFar(j: Job, h0: seq<Folder>, h: seq<Folder>, n: nat)
    requires n <= |j.remote|
  {
    AlwaysGuarded(j, h0, h) ==> Spares(j, n)
  }

  lemma UnforgedBefore(j: Job, contents: seq<Bytes>, content: Bytes)
    requires |contents| < |j.remote| && Unforged(j, contents + [content])
    ensures Unforged(j, contents) && NotForged(j, |contents|, content)
  {
    forall k | 0 <= k < |contents|
      ensures NotForged(j, k, contents[k])
    {
      assert NotForged(j, k, (contents + [content])[k]);
    }
    assert NotForged(j, |contents|, (contents + [content])[|contents|]);
  }

  lemma TurnStaysSafe(j: Job, keep: int, k: nat, mtime: string, err: Option<PullError>, content: Bytes, contents: seq<Bytes>,
                      h0: seq<Folder>, f: Folder, g: Folder, h: seq<Folder>, h': seq<Folder>,
                      v: Versioning.Files, v': Versioning.Files)
    requires k == |contents| < |j.remote| && Safe(j, contents, h0, f, h)
    requires if PassesAt(j, k) then err == None && g == f && h' == h
             else Outcome(j.site.hash, keep, j.remote[k], DestAt(j, k), mtime, err, content, f, g, h, h', v, v')
    ensures Safe(j, if err == None then contents + [content] else contents, h0, g, h')
  {
    var contents' := if err == None then contents + [content] else contents;
    if Unforged(j, contents') && err == None {
      UnforgedBefore(j, contents, content);
    }
    if !PassesAt(j, k) {
      TurnStaysAnnounced(j, keep, k, mtime, err, content, h0, f, g, h, h', v, v');
      if Spares(j, |j.remote|) && Unforged(j, contents') {
        TurnStaysGuarded(j, keep, k, mtime, err, content, h0, f, g, h, h', v, v');
      }
    }
  }

  lemma TurnStaysSpared(j: Job, keep: int, k: nat, mtime: string, content: Bytes, h0: seq<Folder>, f: Folder, g: Folder,
                        h: seq<Folder>, h': seq<Folder>, v: Versioning.Files, v': Versioning.Files)
    requires k < |j.remote| && SparedSoFar(j, h0, h, k) && h0 <= h
    requires if PassesAt(j, k) then g == f && h' == h
             else Outcome(j.site.hash, keep, j.remote[k], DestAt(j, k), mtime, None, content, f, g, h, h', v, v')
    ensures SparedSoFar(j, h0, h', k + 1)
  {
    if !PassesAt(j, k) && AlwaysGuarded(j, h0, h') {
      assert AlwaysGuarded(j, h0, h);
      GuardedTurnSpared(j, keep, k, mtime, content, h0, f, g, h, h', v, v');
    }
  }

  // ----- an honest peer ------------------------------------------------------------------------

  /** The peer is honest and what it announces is ready to be pulled. */
  ghost predicate ReadyFrom(j: Job, peer: Peer) {
    peer.Honest? && Ready(j, ServerFor(peer, j.site.folder))
  }

  /** After `k` turns from a peer that is ready all of them have worked out, and the folder
      is where they lead. */
  ghost predicate OnTrack(j: Job, peer: Peer, locals: BlockIndex, k: nat, files: Folder)
    requires k <= |j.remote|
  {
    ReadyFrom(j, peer) ==>
      var s := ServerFor(peer, j.site.folder);
      AllWork(j, s, locals, k) && Along(j, s, k, files)
  }

  /** The k-th turn succeeds exactly if it works out, and then leads one step on. */
  ghost predicate ExactTurn(j: Job, peer: Peer, locals: BlockIndex, k: nat, f: Folder, g: Folder, ok: bool)
    requires k < |j.remote|
  {
    ReadyFrom(j, peer) && Along(j, ServerFor(peer, j.site.folder), k, f) ==>
      var s := ServerFor(peer, j.site.folder);
      (ok <==> Works(j, s, locals, k)) && (ok ==> Along(j, s, k + 1, g))
  }

  lemma TurnStaysOnTrack(j: Job, peer: Peer, locals: BlockIndex, k: nat, files: Folder, files': Folder, ok: bool)
    requires k < |j.remote| && OnTrack(j, peer, locals, k, files) && ExactTurn(j, peer, locals, k, files, files', ok)
    ensures ok ==> OnTrack(j, peer, locals, k + 1, files')
    ensures !ok ==> Fails(j, peer, locals)
  {
  }

  lemma TurnIsExact(j: Job, peer: Peer, locals: BlockIndex, k: nat, keep: int, mtime: string, err: Option<PullError>,
                    content: Bytes, f: Folder, g: Folder, h: seq<Folder>, h': seq<Folder>,
                    v: Versioning.Files, v': Versioning.Files)
    requires k < |j.remote| && IndexesBlocks(locals, j.local)
    requires if PassesAt(j, k) then err == None && g == f
             else
               && Outcome(j.site.hash, keep, j.remote[k], DestAt(j, k), mtime, err, content, f, g, h, h', v, v')
               && HonestOutcome(j.site, peer, j.remote[k], TargetAt(j, k), locals, f, err, content)
    ensures ExactTurn(j, peer, locals, k, f, g, err == None)
  {
    if ReadyFrom(j, peer) && Along(j, ServerFor(peer, j.site.folder), k, f) {
      TurnLeadsOn(j, ServerFor(peer, j.site.folder), peer, locals, k, keep, mtime, err, content, f, g, h, h', v, v');
    }
  }

  /** Some turn cannot work out. */
  ghost predicate Fails(j: Job, peer: Peer, locals: BlockIndex) {
    ReadyFrom(j, peer) ==> !AllWork(j, ServerFor(peer, j.site.folder), locals, |j.remote|)
  }

  // ----- the loop ------------------------------------------------------------------------------

  /** The k-th turn, for what is to be shown of the whole pull; `contents` is what the turns
      before it have written. */
  method PullTurn(p: Puller, k: nat, locals: BlockIndex, local: Index, baseline: Option<Baseline>, clock: Clock,
                  mtimes: Clock, index: seq<FileMeta>, ghost j: Job, ghost h0: seq<Folder>, ghost contents: seq<Bytes>)
    returns (err: Option<PullError>, ghost content: Bytes)
    requires j == Job(p.site, j.before, local, baseline, clock, index) && k == |contents| < |index|
    requires IndexesBlocks(locals, local) && Safe(j, contents, h0, p.disk.files, p.disk.history)
    requires SparedSoFar(j, h0, p.disk.history, k)
    modifies p, p.disk, p.conn, p.versions
    ensures old(p.conn.peer).Honest? ==> p.conn.peer == old(p.conn.peer)
    ensures Safe(j, if err == None then contents + [content] else contents, h0, p.disk.files, p.disk.history)
    ensures err == None ==>
              && SparedSoFar(j, h0, p.disk.history, k + 1)
              && TurnDone(j, p.versions.keep, k, Reading(mtimes, k), content, old(p.disk.files), p.disk.files,
                          old(p.versions.files), p.versions.files)
              && CountsOf(p) == old(CountsOf(p)).Plus(CountsAt(j, k))
    ensures err != None ==> TurnUndone(j, k, old(p.disk.files), p.disk.files, old(p.versions.files), p.versions.files)
    ensures ExactTurn(j, old(p.conn.peer), locals, k, old(p.disk.files), p.disk.files, err == None)
  {
    ghost var files, h, v, peer := p.disk.files, p.disk.history, p.versions.files, p.conn.peer;
    err, content := PullOne(p, index[k], local, locals, baseline, Reading(clock, k), Reading(mtimes, k));
    ghost var keep, mtime := p.versions.keep, Reading(mtimes, k);
    TurnStaysSafe(j, keep, k, mtime, err, content, contents, h0, files, p.disk.files, h, p.disk.history, v, p.versions.files);
    if err == None {
      TurnStaysSpared(j, keep, k, mtime, content, h0, files, p.disk.files, h, p.disk.history, v, p.versions.files);
    }
    TurnIsExact(j, peer, locals, k, keep, mtime, err, content, files, p.disk.files, h, p.disk.history, v, p.versions.files);
  }

  /** All that holds after the turns of `tr`, which have succeeded. */
  ghost predicate Going(j: Job, keep: int, mtimes: Clock, tr: Trace, peer: Peer, locals: BlockIndex, h0: seq<Folder>,
                        files: Folder, h: seq<Folder>, v: Versioning.Files)
  {
    && Traced(j, keep, mtimes, tr) && EndsIn(tr, files, v)
    && Safe(j, tr.contents, h0, files, h) && SparedSoFar(j, h0, h, tr.Turns()) && OnTrack(j, peer, locals, tr.Turns(), files)
  }

  lemma StartIsGoing(j: Job, keep: int, mtimes: Clock, peer: Peer, locals: BlockIndex, h0: seq<Folder>, v: Versioning.Files)
    ensures Going(j, keep, mtimes, Trace([j.before], [v], []), peer, locals, h0, j.before, h0, v)
  {
    StartIsSafe(j, h0);
    StartIsOnTrack(j, peer, locals);
  }

  lemma StartIsOnTrack(j: Job, peer: Peer, locals: BlockIndex)
    ensures OnTrack(j, peer, locals, 0, j.before)
  {
  }

  lemma StartIsSafe(j: Job, h0: seq<Folder>)
    ensures Safe(j, [], h0, j.before, h0) && SparedSoFar(j, h0, h0, 0)
  {
  }

  /** What a pull that failed leaves behind the turns of `tr`. */
  ghost predicate Stopped(j: Job, keep: int, mtimes: Clock, tr: Trace, h0: seq<Folder>, files: Folder, h: seq<Folder>,
                          v: Versioning.Files)
  {
    && Traced(j, keep, mtimes, tr) && tr.Turns() < |j.remote| && Safe(j, tr.contents, h0, files, h)
    && TurnUndone(j, tr.Turns(), tr.folders[tr.Turns()], files, tr.stores[tr.Turns()], v)
  }

  /** One more turn of a trace. */
  method PullNext(p: Puller, k: nat, locals: BlockIndex, local: Index, baseline: Option<Baseline>, clock: Clock,
                  mtimes: Clock, index: seq<FileMeta>, ghost j: Job, ghost h0: seq<Folder>, ghost peer: Peer, ghost tr: Trace)
    returns (err: Option<PullError>, ghost tr': Trace)
    requires j == Job(p.site, j.before, local, baseline, clock, index) && IndexesBlocks(locals, local)
    requires k == tr.Turns() < |index| && (peer.Honest? ==> p.conn.peer == peer)
    requires Going(j, p.versions.keep, mtimes, tr, peer, locals, h0, p.disk.files, p.disk.history, p.versions.files)
    modifies p, p.disk, p.conn, p.versions
    ensures old(p.conn.peer).Honest? ==> p.conn.peer == old(p.conn.peer)
    ensures err == None ==>
              && Going(j, p.versions.keep, mtimes, tr', peer, locals, h0, p.disk.files, p.disk.history, p.versions.files)
              && tr'.Turns() == k + 1 && tr'.stores[0] == tr.stores[0]
              && CountsOf(p) == old(CountsOf(p)).Plus(CountsAt(j, k))
    ensures err != None ==>
              && tr' == tr && Fails(j, peer, locals)
              && Stopped(j, p.versions.keep, mtimes, tr, h0, p.disk.files, p.disk.history, p.versions.files)
  {
    ghost var files, v, content := p.disk.files, p.versions.files, [];
    tr' := tr;
    err, content := PullTurn(p, k, locals, local, baseline, clock, mtimes, index, j, h0, tr.contents);
    TurnStaysOnTrack(j, peer, locals, k, files, p.disk.files, err == None);
    if err == None {
      TraceGoesOn(j, p.versions.keep, mtimes, tr, content, files, p.disk.files, v, p.versions.files);
      tr' := Longer(tr, content, p.disk.files, p.versions.files);
    }
  }

  /** The loop of `Pull`. */
  method PullAll(p: Puller, index: seq<FileMeta>, local: Index, locals: BlockIndex, baseline: Option<Baseline>,
                 clock: Clock, mtimes: Clock, ghost j: Job) returns (err: Option<PullError>, ghost tr: Trace)
    requires IndexesBlocks(locals, local) && j == Job(p.site, p.disk.files, local, baseline, clock, index)
    modifies p, p.disk, p.conn, p.versions
    ensures old(p.conn.peer).Honest? ==> p.conn.peer == old(p.conn.peer)
    ensures |tr.stores| > 0 && tr.stores[0] == old(p.versions.files)
    ensures err == None ==>
              && Going(j, p.versions.keep, mtimes, tr, old(p.conn.peer), locals, old(p.disk.history), p.disk.files,
                       p.disk.history, p.versions.files)
              && tr.Turns() == |index| && CountsOf(p) == old(CountsOf(p)).Plus(CountsTo(j, |index|))
    ensures err != None ==>
              && Fails(j, old(p.conn.peer), locals)
              && Stopped(j, p.versions.keep, mtimes, tr, old(p.disk.history), p.disk.files, p.disk.history, p.versions.files)
  {
    err := None;
    ghost var peer, h0, files, h, v := p.conn.peer, p.disk.history, p.disk.files, p.disk.history, p.versions.files;
    ghost var start, counts := CountsOf(p), CountsOf(p);
    tr := Trace([p.disk.files], [p.versions.files], []);
    StartIsGoing(j, p.versions.keep, mtimes, peer, locals, h0, v);
    for k := 0 to |index|
      invariant err == None && (peer.Honest? ==> p.conn.peer == peer)
      invariant files == p.disk.files && h == p.disk.history && v == p.versions.files
      invariant Going(j, p.versions.keep, mtimes, tr, peer, locals, h0, files, h, v)
      invariant tr.Turns() == k && tr.stores[0] == old(p.versions.files)
      invariant counts == CountsOf(p) == start.Plus(CountsTo(j, k))
    {
      err, tr := PullNext(p, k, locals, local, baseline, clock, mtimes, index, j, h0, peer, tr);
      CountsGoOn(j, k, start);
      files, h, v, counts := p.disk.files, p.disk.history, p.versions.files, CountsOf(p);
      if err != None {
        return;
      }
    }
  }

  /** What a pull does to the folder and its history from `h0` to `h`, whatever the peer
      sends; `contents` is what its turns have written. Nothing unannounced appears, and if
      every path that is pulled to means the file of that name, edited local files are
      untouched at every moment. If some paths mean other files, and no turn forged the digest
      of an edited file, a successful pull left edited files untouched all the time exactly if
      no turn wrote other bytes to one of them. */
  ghost predicate Sound(j: Job, contents: seq<Bytes>, h0: seq<Folder>, files: Folder, h: seq<Folder>, ok: bool) {
    && OnlyAnnounced(j, files) && AlwaysAnnounced(j, h0, h)
    && (Direct(j) ==> Guarded(j, files) && AlwaysGuarded(j, h0, h))
    && (Unforged(j, contents) && Spares(j, |j.remote|) ==> Guarded(j, files) && AlwaysGuarded(j, h0, h))
    && (ok && AlwaysGuarded(j, h0, h) ==> Spares(j, |j.remote|))
  }

  /** Every turn that succeeded is traced; the one behind them, if any, was undone. */
  ghost predicate Recorded(j: Job, keep: int, mtimes: Clock, tr: Trace, files: Folder, v: Versioning.Files) {
    && Traced(j, keep, mtimes, tr)
    && (|| EndsIn(tr, files, v)
        || (tr.Turns() < |j.remote| && TurnUndone(j, tr.Turns(), tr.folders[tr.Turns()], files, tr.stores[tr.Turns()], v)))
  }

  /** `Pull`. What it does is told in terms of the job `j`, whose list is what the peer sent,
      of the block index `locals` and of the trace `tr` of its turns. From an honest peer the
      pull succeeds exactly if every turn works out, and then the folder is the merge with what
      the peer announced. */
  method Pull(p: Puller, local: Index, baseline: Option<Baseline>, clock: Clock, mtimes: Clock)
    returns (err: Option<PullError>, ghost j: Job, ghost locals: BlockIndex, ghost tr: Trace)
    modifies p, p.disk, p.conn, p.versions
    ensures j == Job(p.site, old(p.disk.files), local, baseline, clock, j.remote)
    ensures IsBlockIndex(locals, local)
    ensures old(p.conn.peer).Honest? ==> p.conn.peer == old(p.conn.peer)
    ensures Sound(j, tr.contents, old(p.disk.history), p.disk.files, p.disk.history, err == None)
    ensures Recorded(j, p.versions.keep, mtimes, tr, p.disk.files, p.versions.files)
    ensures tr.stores[0] == old(p.versions.files)
    ensures err == None ==> tr.Turns() == |j.remote| && CountsOf(p) == old(CountsOf(p)).Plus(CountsTo(j, |j.remote|))
    ensures old(p.conn.peer).Honest? ==> j.remote == ServerFor(old(p.conn.peer), p.site.folder).index
    ensures ReadyFrom(j, old(p.conn.peer)) ==>
              var s := ServerFor(old(p.conn.peer), p.site.folder);
              && (err == None <==> AllWork(j, s, locals, |s.index|))
              && (err == None ==> Merged(j, s, p.disk.files))
  {
    ghost var peer := p.conn.peer;
    locals, tr := map[], Trace([p.disk.files], [p.versions.files], []);
    var listed := RequestIndex(p.conn, p.site.folder);
    var index := if listed.Some? then listed.value else [];
    j := Job(p.site, p.disk.files, local, baseline, clock, index);
    var blocks := BuildBlockIndex(local);
    locals := blocks;
    if Direct(j) {
      DirectSparesAll(j);
    }
    if listed == None {
      return Some(PeerFailed), j, locals, tr;
    }
    err, tr := PullAll(p, index, local, blocks, baseline, clock, mtimes, j);
    if err == None && ReadyFrom(j, peer) {
      PullIsMerge(j, ServerFor(peer, p.site.folder), p.disk.files);
    }
  }
}
