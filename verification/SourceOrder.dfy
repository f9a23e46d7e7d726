/** The order in which a peer lists its files can make a pull fail
    (`engine/internal/session/session.go`). */
module SourceOrder {
  import opened Basics
  import opened Scanner
  import opened Reconcile
  import opened Session
  import opened Turn
  import opened HonestPeer
  import Chunker
  import ChunkerLemmas
  import Protocol
  import Pull

  function OneBlock(hash: HashFn, x: Bytes): seq<Chunker.Chunk> {
    [Chunker.Chunk(0, |x|, hash(x))]
  }

  function Meta(hash: HashFn, path: string, x: Bytes): FileMeta {
    FileMeta(path, hash(x), false, OneBlock(hash, x))
  }

  /** Here `a` holds `x`, unedited since the last sync. The peer has `y` there and `x` in a
      new file `b`, and lists them in this or the other order. */
  datatype Case = Case(site: Site, a: string, b: string, x: Bytes, y: Bytes, clock: Clock)
  {
    function List(aFirst: bool): seq<FileMeta> {
      if aFirst then [Meta(site.hash, a, y), Meta(site.hash, b, x)] else [Meta(site.hash, b, x), Meta(site.hash, a, y)]
    }

    function Local(): Index {
      map[a := FileInfo(a, |x|, site.hash(x), OneBlock(site.hash, x))]
    }

    function Here(aFirst: bool): Job {
      Job(site, map[a := x], Local(), Some(map[a := site.hash(x)]), clock, List(aFirst))
    }

    function There(aFirst: bool): Server {
      Server(map[a := y, b := x], map[], List(aFirst), 0)
    }

    ghost predicate Proper() {
      && a != b && Ordinary(site, a) && Ordinary(site, b)
      && x != [] && y != [] && HASH_SIZE + |x| <= Protocol.MAX_FRAME_SIZE && HASH_SIZE + |y| <= Protocol.MAX_FRAME_SIZE
      && site.hash(x) != site.hash(y) && site.hash(x) != ZERO_HASH
      && GoodClock(site.deviceId, clock) && CollisionFree(site.hash, map[a := x], map[a := y, b := x])
    }
  }

  lemma OneBlockTiles(hash: HashFn, x: Bytes)
    requires x != []
    ensures ChunkerLemmas.Tiles(hash, OneBlock(hash, x), x, 0)
  {
    assert x[0..|x|] == x && OneBlock(hash, x)[1..] == [];
    assert ChunkerLemmas.Tiles(hash, [], x, |x|);
  }

  lemma PathsOfTwo(m: FileMeta, n: FileMeta)
    ensures PathsOf([m, n]) == [m.path, n.path]
  {
    var order := PathsOf([m, n]);
    assert order == [order[0], order[1]];
  }

  lemma ListsTwo<C>(p: string, q: string, r: map<string, C>)
    requires p != q && r.Keys == {p, q}
    ensures Lists([p, q], r)
  {
    assert [p, q][0] == p && [p, q][1] == q;
  }

  lemma Order(c: Case, aFirst: bool)
    requires c.Proper()
    ensures PathsOf(c.List(aFirst)) == if aFirst then [c.a, c.b] else [c.b, c.a]
    ensures Lists(PathsOf(c.List(aFirst)), map[c.a := c.y, c.b := c.x])
  {
    PathsOfTwo(c.List(aFirst)[0], c.List(aFirst)[1]);
    if aFirst {
      ListsTwo(c.a, c.b, map[c.a := c.y, c.b := c.x]);
    } else {
      ListsTwo(c.b, c.a, map[c.a := c.y, c.b := c.x]);
    }
  }

  lemma MetaIsFaithful(hash: HashFn, path: string, x: Bytes)
    requires x != [] && HASH_SIZE + |x| <= Protocol.MAX_FRAME_SIZE
    ensures Faithful(hash, Meta(hash, path, x), x)
  {
    OneBlockTiles(hash, x);
  }

  lemma Listed(c: Case, aFirst: bool)
    requires c.Proper()
    ensures ListsTruthfully(c.site, c.There(aFirst))
  {
    Order(c, aFirst);
    MetaIsFaithful(c.site.hash, c.a, c.y);
    MetaIsFaithful(c.site.hash, c.b, c.x);
  }

  lemma Indexed(c: Case)
    requires c.Proper()
    ensures Visible(map[c.a := c.x]) == map[c.a := c.x]
    ensures Indexes(c.site.hash, c.Local(), map[c.a := c.x])
  {
    OneBlockTiles(c.site.hash, c.x);
  }

  lemma Planned(c: Case, aFirst: bool)
    requires c.Proper()
    ensures PlansIn(c.Here(aFirst), c.There(aFirst)) == map[c.a := Fetch, c.b := Fetch]
  {
  }

  lemma IsReady(c: Case, aFirst: bool)
    requires c.Proper()
    ensures Ready(c.Here(aFirst), c.There(aFirst))
  {
    Listed(c, aFirst);
    Indexed(c);
    Planned(c, aFirst);
    assert forall q :: !Aside(map[c.a := Fetch, c.b := Fetch], q);
  }

  /** The only indexed block is that of `a`. */
  lemma IndexedBlocks(c: Case, locals: BlockIndex)
    requires c.Proper() && IsBlockIndex(locals, c.Local())
    ensures locals == map[c.site.hash(c.x) := BlockLoc(c.a, 0, |c.x|)]
  {
    var h := c.site.hash(c.x);
    assert c.Local()[c.a].blocks[0].hash in locals;
    forall g | g in locals
      ensures g == h && locals[g] == BlockLoc(c.a, 0, |c.x|)
    {
      assert HasBlock(c.Local(), g, locals[g]);
    }
  }

  /** Whether the block of `b` can be reused, before and after `a` is overwritten. */
  lemma BlockOfB(c: Case)
    requires c.Proper()
    ensures var locals := map[c.site.hash(c.x) := BlockLoc(c.a, 0, |c.x|)];
            && Reusable(c.site.hash, map[c.a := c.x], locals, OneBlock(c.site.hash, c.x))
            && (Reusable(c.site.hash, map[c.a := c.y], locals, OneBlock(c.site.hash, c.x)) <==> c.x <= c.y)
  {
    var h := c.site.hash(c.x);
    var loc := BlockLoc(c.a, 0, |c.x|);
    var locals, blocks := map[h := loc], OneBlock(c.site.hash, c.x);
    assert c.x[0..|c.x|] == c.x;
    assert LocalBlock(map[c.a := c.x], loc) == Some(c.x);
    assert blocks[0].hash == h;
    if |c.x| <= |c.y| {
      var z := c.y[0..|c.x|];
      assert LocalBlock(map[c.a := c.y], loc) == Some(z);
      SamePiece(c, z);
      assert c.x <= c.y <==> z == c.x;
    } else {
      assert LocalBlock(map[c.a := c.y], loc) == None;
    }
  }

  lemma SamePiece(c: Case, z: Bytes)
    requires c.Proper() && |c.x| <= |c.y| && z == c.y[0..|c.x|]
    ensures c.site.hash(z) == c.site.hash(c.x) <==> z == c.x
  {
    var f, r := map[c.a := c.x], map[c.a := c.y, c.b := c.x];
    assert ReadAt(r[c.a], 0, |c.x|) == Some(z) && IsPiece(z, r);
    assert c.x[0..|c.x|] == c.x;
    assert ReadAt(f[c.a], 0, |c.x|) == Some(c.x) && IsPiece(c.x, f);
  }

  lemma AfterOneFetch(f: Folder, r: Folder, plans: map<string, Plan>, names: map<string, string>, p: string, q: string)
    requires plans.Keys == r.Keys == {p, q} && plans[p] == Fetch
    ensures forall x :: x in [p, q] ==> x in r
    ensures After(f, r, plans, names, [p, q], 1) == f[p := r[p]]
  {
    assert After(f, r, plans, names, [p, q], 0) == f;
    assert [p, q][0] == p;
  }

  lemma FirstState(c: Case, aFirst: bool)
    requires c.Proper() && Ready(c.Here(aFirst), c.There(aFirst))
    ensures StateAt(c.Here(aFirst), c.There(aFirst), 0) == map[c.a := c.x]
  {
    Indexed(c);
  }

  lemma StateAfterFetch(j: Job, s: Server, p: string, q: string)
    requires Ready(j, s) && PathsOf(s.index) == [p, q] && s.files.Keys == {p, q} && PlansIn(j, s)[p] == Fetch
    ensures StateAt(j, s, 1) == Visible(j.before)[p := s.files[p]]
  {
    AfterOneFetch(Visible(j.before), s.files, PlansIn(j, s), NamesIn(j, s), p, q);
  }

  lemma OverwriteOnly<P, C>(p: P, x: C, y: C)
    ensures map[p := x][p := y] == map[p := y]
  {
  }

  lemma StateAfterA(c: Case)
    requires c.Proper() && Ready(c.Here(true), c.There(true))
    ensures StateAt(c.Here(true), c.There(true), 1) == map[c.a := c.y]
  {
    StartIsA(c);
    StateAfterFetch(c.Here(true), c.There(true), c.a, c.b);
  }

  lemma StartIsA(c: Case)
    requires c.Proper()
    ensures var j, s := c.Here(true), c.There(true);
            && PathsOf(s.index) == [c.a, c.b] && s.files.Keys == {c.a, c.b} && PlansIn(j, s)[c.a] == Fetch
            && Visible(j.before)[c.a := s.files[c.a]] == map[c.a := c.y]
  {
    Order(c, true);
    Planned(c, true);
    Indexed(c);
    OverwriteOnly(c.a, c.x, c.y);
  }

  lemma FetchWorks(j: Job, s: Server, locals: BlockIndex, k: nat)
    requires Ready(j, s) && k < |s.index| && PlansIn(j, s)[s.index[k].path] == Fetch
    requires RequestFits(j.site, s.index[k], locals)
    requires Reusable(j.site.hash, StateAt(j, s, k), locals, s.index[k].blocks)
    ensures Works(j, s, locals, k)
  {
    TurnTarget(j, s, k);
  }

  /** With `a` first the turns work out only if `y` begins with `x`: the block of `b` is
      looked for in `a`, which has just been overwritten. */
  lemma OverwrittenSourceFails(c: Case, locals: BlockIndex)
    requires c.Proper() && IsBlockIndex(locals, c.Local())
    ensures Ready(c.Here(true), c.There(true))
    ensures AllWork(c.Here(true), c.There(true), locals, 2) ==> c.x <= c.y
  {
    IsReady(c, true);
    IndexedBlocks(c, locals);
    BlockOfB(c);
    StateAfterA(c);
    Planned(c, true);
    if AllWork(c.Here(true), c.There(true), locals, 2) {
      assert Works(c.Here(true), c.There(true), locals, 1);
    }
  }

  /** So there the pull itself fails, although the peer is honest. */
  method PullFails(p: Puller, c: Case, mtimes: Clock) returns (err: Option<PullError>)
    requires c.Proper() && !(c.x <= c.y) && p.site == c.site && p.disk.files == map[c.a := c.x]
    requires p.conn.peer.Honest? && c.site.folder in p.conn.peer.snapshot
    requires p.conn.peer.snapshot[c.site.folder] == c.There(true)
    modifies p, p.disk, p.conn, p.versions
    ensures err != None
  {
    ghost var j, locals, tr;
    err, j, locals, tr := Pull.Pull(p, c.Local(), Some(map[c.a := c.site.hash(c.x)]), c.clock, mtimes);
    assert j == c.Here(true);
    OverwrittenSourceFails(c, locals);
  }

  lemma BWorksFirst(c: Case, locals: BlockIndex)
    requires c.Proper() && Ready(c.Here(false), c.There(false))
    requires locals == map[c.site.hash(c.x) := BlockLoc(c.a, 0, |c.x|)]
    ensures Works(c.Here(false), c.There(false), locals, 0)
  {
    BlockOfB(c);
    FirstState(c, false);
    Planned(c, false);
    assert OneBlock(c.site.hash, c.x)[..0] == [];
    assert NeededRefs(OneBlock(c.site.hash, c.x), locals) == [];
    FetchWorks(c.Here(false), c.There(false), locals, 0);
  }

  lemma NothingReused(hash: HashFn, files: Folder, locals: BlockIndex, y: Bytes)
    requires hash(y) !in locals
    ensures Reusable(hash, files, locals, OneBlock(hash, y))
  {
  }

  lemma AWorksSecond(c: Case, locals: BlockIndex)
    requires c.Proper() && Ready(c.Here(false), c.There(false))
    requires locals == map[c.site.hash(c.x) := BlockLoc(c.a, 0, |c.x|)]
    requires RequestFits(c.site, Meta(c.site.hash, c.a, c.y), locals)
    ensures Works(c.Here(false), c.There(false), locals, 1)
  {
    Planned(c, false);
    NothingReused(c.site.hash, StateAt(c.Here(false), c.There(false), 1), locals, c.y);
    FetchWorks(c.Here(false), c.There(false), locals, 1);
  }

  /** With `b` first it does whenever the request for the block of `a` fits a frame. */
  lemma OtherOrderSucceeds(c: Case, locals: BlockIndex)
    requires c.Proper() && IsBlockIndex(locals, c.Local()) && RequestFits(c.site, Meta(c.site.hash, c.a, c.y), locals)
    ensures Ready(c.Here(false), c.There(false))
    ensures AllWork(c.Here(false), c.There(false), locals, 2)
  {
    IsReady(c, false);
    IndexedBlocks(c, locals);
    BWorksFirst(c, locals);
    AWorksSecond(c, locals);
  }
}
