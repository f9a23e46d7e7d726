/** Pulling a folder from a peer (`engine/internal/session/session.go`). */
module Session {
  import opened Basics
  import opened Names
  import opened Scanner
  import Chunker
  import ChunkerLemmas
  import Protocol
  import Versioning

  // ----- messages ------------------------------------------------------------------

  datatype FileMeta = FileMeta(path: string, hash: Hash, deleted: bool, blocks: seq<Chunker.Chunk>)

  datatype BlockRef = BlockRef(offset: nat, length: nat, hash: Hash)

  /** A frame as the requester sees it; `Unexpected` is a frame of another type or one
      that does not decode. */
  datatype Incoming = IndexUpdate(files: seq<FileMeta>, last: bool) | BlockData(payload: Bytes) | Unexpected

  /** What comes back on a stream: it cannot be opened, or some frames arrive and then
      the stream ends cleanly or with an error. */
  datatype Reply = NoStream | Frames(frames: seq<Incoming>, clean: bool)

  /** `os.File.ReadAt` of a whole buffer. */
  function ReadAt(data: Bytes, offset: nat, length: nat): Option<Bytes> {
    if length == 0 then Some([])
    else if offset + length <= |data| then Some(data[offset..offset + length])
    else None
  }

  // ----- the serving side ------------------------------------------------------------

  /** One folder of an honest peer, which does not change while it is served. The index
      lists `files`; the `unlisted` ones, such as temporary files, can be read all the
      same. `indexSize` is the length of the encoded index message. */
  datatype Server = Server(files: Folder, unlisted: Folder, index: seq<FileMeta>, indexSize: nat)

  /** The folders that an honest peer serves, by their ids. */
  type Snapshot = map<string, Server>

  predicate Fits(size: nat) {
    size <= Protocol.MAX_FRAME_SIZE
  }

  /** Of a folder that is not served, and of an index that does not fit a frame, nothing
      is sent; the error of writing it is dropped. */
  function ServeIndex(snapshot: Snapshot, folder: string): Reply {
    Frames(if folder in snapshot && Fits(snapshot[folder].indexSize) then [IndexUpdate(snapshot[folder].index, true)] else [],
           true)
  }

  /** `serveBlocks`: stops silently at the first block that cannot be read or framed. */
  function BlockFrames(data: Bytes, refs: seq<BlockRef>): seq<Incoming> {
    if refs == [] then []
    else
      var block := ReadAt(data, refs[0].offset, refs[0].length);
      if block == None || HASH_SIZE + |block.value| > Protocol.MAX_FRAME_SIZE then []
      else [BlockData(Protocol.BlockPayload(refs[0].hash, block.value))] + BlockFrames(data, refs[1..])
  }

  function ServeBlocks(snapshot: Snapshot, folder: string, path: string, refs: seq<BlockRef>): Reply {
    Frames(if folder !in snapshot then []
           else if path in snapshot[folder].files then BlockFrames(snapshot[folder].files[path], refs)
           else if path in snapshot[folder].unlisted then BlockFrames(snapshot[folder].unlisted[path], refs)
           else [], true)
  }

  /** Any other peer answers with whatever it likes: the script is arbitrary. */
  datatype Peer = Honest(snapshot: Snapshot) | Scripted(replies: seq<Reply>)

  /** The peer's index of the folder reaches whoever asks for it. */
  predicate Announced(p: Peer, folder: string) {
    p.Honest? && folder in p.snapshot && Fits(p.snapshot[folder].indexSize)
  }

  /** The folder of an honest peer as its index presents it: without files when the index
      does not arrive. */
  function ServerFor(p: Peer, folder: string): Server {
    if Announced(p, folder) then p.snapshot[folder] else Server(map[], map[], [], 0)
  }

  /** A script that is used up opens no more streams. */
  function NextReply(replies: seq<Reply>): Reply {
    if replies == [] then NoStream else replies[0]
  }

  function AfterReply(p: Peer): Peer {
    if p.Honest? || p.replies == [] then p else Scripted(p.replies[1..])
  }

  function IndexReply(p: Peer, folder: string): Reply {
    match p
    case Honest(snapshot) => ServeIndex(snapshot, folder)
    case Scripted(replies) => NextReply(replies)
  }

  function BlocksReply(p: Peer, folder: string, path: string, refs: seq<BlockRef>): Reply {
    match p
    case Honest(snapshot) => ServeBlocks(snapshot, folder, path, refs)
    case Scripted(replies) => NextReply(replies)
  }

  class Conn {
    var peer: Peer

    constructor (p: Peer)
      ensures peer == p
    {
      peer := p;
    }

    method AskIndex(folder: string) returns (r: Reply)
      modifies this
      ensures r == IndexReply(old(peer), folder) && peer == AfterReply(old(peer))
    {
      match peer {
        case Honest(snapshot) => r := ServeIndex(snapshot, folder);
        case Scripted(_) => r := Next();
      }
    }

    method AskBlocks(folder: string, path: string, refs: seq<BlockRef>) returns (r: Reply)
      modifies this
      ensures r == BlocksReply(old(peer), folder, path, refs) && peer == AfterReply(old(peer))
    {
      match peer {
        case Honest(snapshot) => r := ServeBlocks(snapshot, folder, path, refs);
        case Scripted(_) => r := Next();
      }
    }

    method Next() returns (r: Reply)
      requires peer.Scripted?
      modifies this
      ensures r == NextReply(old(peer).replies) && peer == AfterReply(old(peer))
    {
      if peer.replies == [] {
        return NoStream;
      }
      r, peer := peer.replies[0], Scripted(peer.replies[1..]);
    }
  }

  // ----- the folder on disk ------------------------------------------------------------

  type Folder = map<string, Bytes>

  /** A folder that remembers every state it went through: what a crash could leave. */
  class Disk {
    var files: Folder
    ghost var history: seq<Folder>

    constructor (f: Folder)
      ensures files == f && history == []
    {
      files, history := f, [];
    }

    method Create(path: string)
      modifies this
      ensures files == old(files)[path := []] && history == old(history) + [files]
    {
      files := files[path := []];
      history := history + [files];
    }

    method Append(path: string, data: Bytes)
      requires path in files
      modifies this
      ensures files == old(files)[path := old(files[path]) + data] && history == old(history) + [files]
    {
      files := files[path := files[path] + data];
      history := history + [files];
    }

    method Remove(path: string)
      modifies this
      ensures files == old(files) - {path} && history == old(history) + [files]
    {
      files := files - {path};
      history := history + [files];
    }

    method Rename(from: string, to: string)
      requires from in files && from != to
      modifies this
      ensures files == (old(files) - {from})[to := old(files)[from]] && history == old(history) + [files]
    {
      files := (files - {from})[to := files[from]];
      history := history + [files];
    }
  }

  function TmpOf(path: string): (t: string)
    ensures IsTmp(t) && t != path
  {
    assert |path + TMP_SUFFIX| != |path|;
    path + TMP_SUFFIX
  }

  // ----- blocks --------------------------------------------------------------------------

  datatype BlockLoc = BlockLoc(path: string, offset: nat, length: nat)

  type BlockIndex = map<Hash, BlockLoc>

  function LocalBlock(files: Folder, loc: BlockLoc): Option<Bytes> {
    if loc.path in files then ReadAt(files[loc.path], loc.offset, loc.length) else None
  }

  /** `loc` is where some block of the local index with digest `h` lies. */
  ghost predicate HasBlock(local: Index, h: Hash, loc: BlockLoc) {
    && loc.path in local
    && exists i :: 0 <= i < |local[loc.path].blocks|
                   && LocOf(loc.path, local[loc.path].blocks[i]) == loc
                   && local[loc.path].blocks[i].hash == h
  }

  ghost predicate IndexesBlocks(m: BlockIndex, local: Index) {
    forall h :: h in m ==> HasBlock(local, h, m[h])
  }

  /** Every block of the index can be found, and every entry is where such a block lies. */
  ghost predicate IsBlockIndex(m: BlockIndex, local: Index) {
    && IndexesBlocks(m, local)
    && forall p, i :: p in local && 0 <= i < |local[p].blocks| ==> local[p].blocks[i].hash in m
  }

  function LocOf(path: string, b: Chunker.Chunk): BlockLoc {
    BlockLoc(path, b.offset, b.length)
  }

  /** `buildBlockIndex`: the first location found wins, in the arbitrary order of a Go map. */
  method BuildBlockIndex(local: Index) returns (m: BlockIndex)
    ensures IsBlockIndex(m, local)
  {
    m := map[];
    var rest := local.Keys;
    while rest != {}
      invariant rest <= local.Keys && IndexesBlocks(m, local)
      invariant forall p, i :: p in local && p !in rest && 0 <= i < |local[p].blocks| ==> local[p].blocks[i].hash in m
      decreases rest
    {
      var p :| p in rest;
      m := AddBlocks(m, local, p);
      rest := rest - {p};
    }
  }

  method AddBlocks(m: BlockIndex, local: Index, p: string) returns (m': BlockIndex)
    requires IndexesBlocks(m, local) && p in local
    ensures IndexesBlocks(m', local) && m.Keys <= m'.Keys
    ensures forall i :: 0 <= i < |local[p].blocks| ==> local[p].blocks[i].hash in m'
  {
    m' := m;
    var blocks := local[p].blocks;
    for i := 0 to |blocks|
      invariant IndexesBlocks(m', local) && m.Keys <= m'.Keys
      invariant forall j :: 0 <= j < i ==> blocks[j].hash in m'
    {
      if blocks[i].hash !in m' {
        assert HasBlock(local, blocks[i].hash, LocOf(p, blocks[i]));
        m' := m'[blocks[i].hash := LocOf(p, blocks[i])];
      }
    }
  }

  function Concat(blocks: seq<Bytes>): Bytes {
    if blocks == [] then [] else Concat(blocks[..|blocks| - 1]) + blocks[|blocks| - 1]
  }

  /** The bytes that are offered for a block: the local file wins over the peer. */
  function Offered(files: Folder, locals: BlockIndex, fetched: map<Hash, Bytes>, h: Hash): Option<Bytes> {
    if h in locals then LocalBlock(files, locals[h])
    else if h in fetched then Some(fetched[h])
    else None
  }

  datatype PullError =
    PeerFailed | UnsafePath | LocalReadFailed | MissingBlock | BlockMismatch | FileMismatch | ArchiveFailed

  function NeededRefs(blocks: seq<Chunker.Chunk>, locals: BlockIndex): seq<BlockRef> {
    if blocks == [] then []
    else
      var n := |blocks| - 1;
      NeededRefs(blocks[..n], locals)
      + if blocks[n].hash in locals then [] else [BlockRef(blocks[n].offset, blocks[n].length, blocks[n].hash)]
  }

  function CountReused(blocks: seq<Chunker.Chunk>, locals: BlockIndex): (n: nat)
    ensures n <= |blocks|
  {
    if blocks == [] then 0
    else CountReused(blocks[..|blocks| - 1], locals) + if blocks[|blocks| - 1].hash in locals then 1 else 0
  }

  /** `need` asks for the blocks at the places `at`, which are those of the digests that are not
      in the folder, in order. */
  ghost predicate AsksFor(blocks: seq<Chunker.Chunk>, locals: BlockIndex, need: seq<BlockRef>, at: seq<nat>) {
    && |at| == |need| && (forall k, l :: 0 <= k < l < |at| ==> at[k] < at[l])
    && (forall k :: 0 <= k < |at| ==>
          && at[k] < |blocks| && need[k].offset == blocks[at[k]].offset && need[k].length == blocks[at[k]].length
          && need[k].hash == blocks[at[k]].hash && need[k].hash !in locals)
    && (forall i: nat :: i < |blocks| && blocks[i].hash !in locals ==> i in at)
  }

  /** The places of the blocks whose digests are in the folder. */
  function ReusedPlaces(blocks: seq<Chunker.Chunk>, locals: BlockIndex): set<nat> {
    set i: nat | i < |blocks| && blocks[i].hash in locals
  }

  /** Exactly the blocks that are not in the folder are asked for, each once and in order; the
      others are reused. */
  lemma {:induction false} AsksForTheMissing(blocks: seq<Chunker.Chunk>, locals: BlockIndex) returns (at: seq<nat>)
    ensures AsksFor(blocks, locals, NeededRefs(blocks, locals), at)
    ensures |NeededRefs(blocks, locals)| + CountReused(blocks, locals) == |blocks|
    ensures CountReused(blocks, locals) == |ReusedPlaces(blocks, locals)|
    decreases |blocks|
  {
    at := [];
    if blocks == [] {
      assert ReusedPlaces(blocks, locals) == {};
    } else {
      var n := |blocks| - 1;
      var front := AsksForTheMissing(blocks[..n], locals);
      at := if blocks[n].hash in locals then front else front + [n];
      OneMoreAsked(blocks, locals, NeededRefs(blocks[..n], locals), front);
      ReusedOneMore(blocks, locals);
    }
  }

  lemma OneMoreAsked(blocks: seq<Chunker.Chunk>, locals: BlockIndex, need: seq<BlockRef>, at: seq<nat>)
    requires blocks != [] && AsksFor(blocks[..|blocks| - 1], locals, need, at)
    ensures var n := |blocks| - 1;
            if blocks[n].hash in locals then AsksFor(blocks, locals, need, at)
            else AsksFor(blocks, locals, need + [RefOf(blocks[n])], at + [n])
  {
    var n := |blocks| - 1;
    forall i: nat | i < n && blocks[i].hash !in locals
      ensures i in at && i in at + [n]
    {
      assert blocks[..n][i] == blocks[i];
    }
  }

  lemma ReusedOneMore(blocks: seq<Chunker.Chunk>, locals: BlockIndex)
    requires blocks != []
    ensures var n := |blocks| - 1;
            |ReusedPlaces(blocks, locals)|
            == |ReusedPlaces(blocks[..n], locals)| + if blocks[n].hash in locals then 1 else 0
  {
    var n := |blocks| - 1;
    assert ReusedPlaces(blocks, locals)
        == ReusedPlaces(blocks[..n], locals) + if blocks[n].hash in locals then {n} else {};
  }

  // ----- requesting blocks -------------------------------------------------------------

  /** Where a pull happens. `isLocal` tells the paths that stay inside the folder and
      `resolve` which file a path means; `requestSize` is the length of an encoded block
      request for a folder, a path and references. */
  datatype Site = Site(hash: HashFn, isLocal: string -> bool, resolve: string -> string,
                       requestSize: (string, string, seq<BlockRef>) -> nat, folder: string, deviceId: string)

  predicate Servable(data: Bytes, refs: seq<BlockRef>) {
    forall i :: 0 <= i < |refs| ==>
      refs[i].offset + refs[i].length <= |data| && HASH_SIZE + refs[i].length <= Protocol.MAX_FRAME_SIZE
  }

  lemma {:induction false} ServesEveryBlock(data: Bytes, refs: seq<BlockRef>)
    requires Servable(data, refs)
    ensures |BlockFrames(data, refs)| == |refs|
    ensures forall i :: 0 <= i < |refs| ==>
              && ReadAt(data, refs[i].offset, refs[i].length).Some?
              && BlockFrames(data, refs)[i]
                 == BlockData(Protocol.BlockPayload(refs[i].hash, ReadAt(data, refs[i].offset, refs[i].length).value))
  {
    if refs != [] {
      ServesEveryBlock(data, refs[1..]);
      assert ReadAt(data, refs[0].offset, refs[0].length).Some?;
      assert |BlockFrames(data, refs)| == 1 + |BlockFrames(data, refs[1..])|;
      forall i | 0 < i < |refs|
        ensures BlockFrames(data, refs)[i] == BlockFrames(data, refs[1..])[i - 1]
      {
      }
    }
  }

  /** The block that a ref asks for lies in the file and fits a frame. */
  predicate CanServe(data: Bytes, r: BlockRef) {
    (r.length == 0 || r.offset + r.length <= |data|) && HASH_SIZE + r.length <= Protocol.MAX_FRAME_SIZE
  }

  /** The frame has the digest asked for in front and then the bytes at the place asked for. */
  predicate IsBlockFor(data: Bytes, r: BlockRef, frame: Incoming) {
    && frame.BlockData? && |frame.payload| == HASH_SIZE + r.length && frame.payload[..HASH_SIZE] == r.hash
    && (r.length > 0 ==>
          r.offset + r.length <= |data| && frame.payload[HASH_SIZE..] == data[r.offset..r.offset + r.length])
  }

  /** Serving stops at the first ref that cannot be served; those before it are answered in
      order. */
  lemma {:induction false} ServesUpToFirstFailure(data: Bytes, refs: seq<BlockRef>, k: nat)
    requires k <= |refs| && (forall i :: 0 <= i < k ==> CanServe(data, refs[i]))
    requires k < |refs| ==> !CanServe(data, refs[k])
    ensures |BlockFrames(data, refs)| == k
    ensures forall i :: 0 <= i < k ==> IsBlockFor(data, refs[i], BlockFrames(data, refs)[i])
    decreases k
  {
    if k > 0 {
      ServesUpToFirstFailure(data, refs[1..], k - 1);
      forall i | 0 < i < k
        ensures BlockFrames(data, refs)[i] == BlockFrames(data, refs[1..])[i - 1]
      {
      }
    }
  }

  /** `data` was read at some of the refs with digest `h`. */
  ghost predicate ReadForRef(content: Bytes, refs: seq<BlockRef>, h: Hash, data: Bytes) {
    exists j :: 0 <= j < |refs| && refs[j].hash == h && ReadAt(content, refs[j].offset, refs[j].length) == Some(data)
  }

  /** Every ref has been answered with data read for it or for one with the same digest. */
  ghost predicate Answers(content: Bytes, refs: seq<BlockRef>, out: map<Hash, Bytes>) {
    forall i :: 0 <= i < |refs| ==>
      refs[i].hash in out && ReadForRef(content, refs, refs[i].hash, out[refs[i].hash])
  }

  /** The first `n` refs have been answered. */
  ghost predicate Collected(content: Bytes, refs: seq<BlockRef>, n: nat, out: map<Hash, Bytes>)
    requires n <= |refs|
  {
    && (forall j :: 0 <= j < n ==> refs[j].hash in out)
    && (forall h :: h in out ==> ReadForRef(content, refs, h, out[h]))
  }

  lemma CollectOne(content: Bytes, refs: seq<BlockRef>, n: nat, out: map<Hash, Bytes>, payload: Bytes)
    requires n < |refs| && Collected(content, refs, n, out) && ReadAt(content, refs[n].offset, refs[n].length).Some?
    requires payload == Protocol.BlockPayload(refs[n].hash, ReadAt(content, refs[n].offset, refs[n].length).value)
    ensures Protocol.ParseBlockData(payload).Some?
    ensures var (h, data) := Protocol.ParseBlockData(payload).value; Collected(content, refs, n + 1, out[h := data])
  {
    var data := ReadAt(content, refs[n].offset, refs[n].length).value;
    Protocol.BlockDataRoundTrip(refs[n].hash, data, payload);
    assert ReadForRef(content, refs, refs[n].hash, data);
  }

  /** What is made of the frames of a block stream when `out` has been collected already. */
  function BlocksFrom(frames: seq<Incoming>, clean: bool, n: nat, out: map<Hash, Bytes>): Option<map<Hash, Bytes>> {
    if frames == [] then if clean then Some(out) else None
    else if !frames[0].BlockData? then None
    else
      match Protocol.ParseBlockData(frames[0].payload)
      case None => None
      case Some((h, data)) =>
        if |out[h := data]| == n then Some(out[h := data]) else BlocksFrom(frames[1..], clean, n, out[h := data])
  }

  function BlocksIn(reply: Reply, n: nat): Option<map<Hash, Bytes>> {
    if reply == NoStream then None else BlocksFrom(reply.frames, reply.clean, n, map[])
  }

  /** The first `k` frames are blocks. */
  predicate AreBlocks(frames: seq<Incoming>, k: nat) {
    k <= |frames| && forall i :: 0 <= i < k ==> frames[i].BlockData? && Protocol.ParseBlockData(frames[i].payload).Some?
  }

  /** What they bring: of blocks with one digest the last. */
  function Brought(frames: seq<Incoming>, k: nat): map<Hash, Bytes>
    requires AreBlocks(frames, k)
  {
    if k == 0 then map[]
    else
      var (h, data) := Protocol.ParseBlockData(frames[k - 1].payload).value;
      Brought(frames, k - 1)[h := data]
  }

  /** While fewer or more than `n` digests have come, reading goes on. */
  lemma {:induction false} BlocksReadOn(frames: seq<Incoming>, clean: bool, n: nat, k: nat)
    requires AreBlocks(frames, k) && forall i :: 0 < i <= k ==> |Brought(frames, i)| != n
    ensures BlocksFrom(frames, clean, n, map[]) == BlocksFrom(frames[k..], clean, n, Brought(frames, k))
  {
    if k == 0 {
      assert frames[0..] == frames;
    } else {
      BlocksReadOn(frames, clean, n, k - 1);
      assert frames[k - 1..][0] == frames[k - 1] && frames[k - 1..][1..] == frames[k..];
    }
  }

  /** What is made of a block stream: the blocks up to the first moment when there are `n`
      digests, or of the whole stream if it ends cleanly before; any other frame on the
      way is an error. */
  lemma BlocksInExactly(frames: seq<Incoming>, clean: bool, n: nat, k: nat)
    requires AreBlocks(frames, k) && forall i :: 0 < i < k ==> |Brought(frames, i)| != n
    ensures var r, enough := BlocksIn(Frames(frames, clean), n), 0 < k && |Brought(frames, k)| == n;
            && (enough ==> r == Some(Brought(frames, k)))
            && (!enough && k == |frames| ==> r == if clean then Some(Brought(frames, k)) else None)
            && (!enough && k < |frames| && !AreBlocks(frames, k + 1) ==> r == None)
  {
    if 0 < k && |Brought(frames, k)| == n {
      BlocksReadOn(frames, clean, n, k - 1);
      assert frames[k - 1..][0] == frames[k - 1];
    } else {
      BlocksReadOn(frames, clean, n, k);
      if k < |frames| {
        assert frames[k..][0] == frames[k];
      }
    }
  }

  /** The loop of `requestBlocks`. It stops when there are as many digests as refs, or
      at the end of the stream when digests repeat. */
  method CollectBlocks(reply: Reply, refs: seq<BlockRef>, ghost content: Bytes) returns (r: Option<map<Hash, Bytes>>)
    ensures r == BlocksIn(reply, |refs|)
    ensures reply == Frames(BlockFrames(content, refs), true) && Servable(content, refs) ==>
              r.Some? && Answers(content, refs, r.value)
  {
    if reply == NoStream {
      return None;
    }
    ghost var honest := reply == Frames(BlockFrames(content, refs), true) && Servable(content, refs);
    if honest {
      ServesEveryBlock(content, refs);
    }
    var out: map<Hash, Bytes> := map[];
    var i := 0;
    assert reply.frames[0..] == reply.frames;
    while i < |reply.frames|
      invariant i <= |reply.frames| && |out| <= i
      invariant honest ==> |reply.frames| == |refs| && Collected(content, refs, i, out)
      invariant BlocksIn(reply, |refs|) == BlocksFrom(reply.frames[i..], reply.clean, |refs|, out)
    {
      var frame := reply.frames[i];
      assert reply.frames[i..][0] == frame && reply.frames[i..][1..] == reply.frames[i + 1..];
      if !frame.BlockData? {
        return None;
      }
      var parsed := Protocol.ParseBlockData(frame.payload);
      if honest {
        CollectOne(content, refs, i, out, frame.payload);
      }
      if parsed == None {
        return None;
      }
      out := out[parsed.value.0 := parsed.value.1];
      i := i + 1;
      if |out| == |refs| {
        return Some(out);
      }
    }
    return if reply.clean then Some(out) else None;
  }

  /** A request that does not fit a frame fails before it is sent. */
  method RequestBlocks(conn: Conn, site: Site, path: string, refs: seq<BlockRef>) returns (r: Option<map<Hash, Bytes>>)
    modifies conn
    ensures Fits(site.requestSize(site.folder, path, refs)) ==>
              && conn.peer == AfterReply(old(conn.peer))
              && r == BlocksIn(BlocksReply(old(conn.peer), site.folder, path, refs), |refs|)
    ensures !Fits(site.requestSize(site.folder, path, refs)) ==> r == None && conn.peer == old(conn.peer)
    ensures var p := old(conn.peer);
            p.Honest? && site.folder in p.snapshot && path in p.snapshot[site.folder].files
            && Servable(p.snapshot[site.folder].files[path], refs) && Fits(site.requestSize(site.folder, path, refs)) ==>
              r.Some? && Answers(p.snapshot[site.folder].files[path], refs, r.value)
  {
    if site.requestSize(site.folder, path, refs) > Protocol.MAX_FRAME_SIZE {
      return None;
    }
    ghost var p := conn.peer;
    ghost var content := if p.Honest? && site.folder in p.snapshot && path in p.snapshot[site.folder].files
                         then p.snapshot[site.folder].files[path] else [];
    var reply := conn.AskBlocks(site.folder, path, refs);
    r := CollectBlocks(reply, refs, content);
  }

  /** What is made of the frames of an index stream. */
  function IndexFrom(frames: seq<Incoming>, clean: bool): Option<seq<FileMeta>> {
    if frames == [] then if clean then Some([]) else None
    else if !frames[0].IndexUpdate? then None
    else if frames[0].last then Some(frames[0].files)
    else Prepend(frames[0].files, IndexFrom(frames[1..], clean))
  }

  function Prepend(files: seq<FileMeta>, rest: Option<seq<FileMeta>>): Option<seq<FileMeta>> {
    if rest.Some? then Some(files + rest.value) else None
  }

  lemma PrependTwice(a: seq<FileMeta>, b: seq<FileMeta>, rest: Option<seq<FileMeta>>)
    ensures Prepend(a, Prepend(b, rest)) == Prepend(a + b, rest)
  {
    if rest.Some? {
      assert a + (b + rest.value) == a + b + rest.value;
    }
  }

  function IndexIn(reply: Reply): Option<seq<FileMeta>> {
    if reply == NoStream then None else IndexFrom(reply.frames, reply.clean)
  }

  /** The files of all index frames among the first `k`, none of which is final. */
  function FilesOf(frames: seq<Incoming>, k: nat): seq<FileMeta>
    requires k <= |frames| && forall i :: 0 <= i < k ==> frames[i].IndexUpdate?
  {
    if k == 0 then [] else FilesOf(frames, k - 1) + frames[k - 1].files
  }

  predicate NoneFinal(frames: seq<Incoming>, k: nat) {
    k <= |frames| && forall i :: 0 <= i < k ==> frames[i].IndexUpdate? && !frames[i].last
  }

  lemma {:induction false} IndexReadsOn(frames: seq<Incoming>, clean: bool, k: nat)
    requires NoneFinal(frames, k)
    ensures IndexFrom(frames, clean) == Prepend(FilesOf(frames, k), IndexFrom(frames[k..], clean))
  {
    if k == 0 {
      assert frames[0..] == frames;
      assert IndexFrom(frames, clean).Some? ==> [] + IndexFrom(frames, clean).value == IndexFrom(frames, clean).value;
    } else {
      IndexReadsOn(frames, clean, k - 1);
      assert frames[k - 1..][0] == frames[k - 1] && frames[k - 1..][1..] == frames[k..];
      PrependTwice(FilesOf(frames, k - 1), frames[k - 1].files, IndexFrom(frames[k..], clean));
    }
  }

  /** What is made of an index stream: the files up to the first final frame, or of the whole
      stream if it ends cleanly without one; any other frame on the way is an error. */
  lemma IndexInExactly(frames: seq<Incoming>, clean: bool, k: nat)
    requires NoneFinal(frames, k)
    ensures var r := IndexIn(Frames(frames, clean));
            && (k == |frames| ==> r == if clean then Some(FilesOf(frames, k)) else None)
            && (k < |frames| && frames[k].IndexUpdate? && frames[k].last ==> r == Some(FilesOf(frames, k + 1)))
            && (k < |frames| && !frames[k].IndexUpdate? ==> r == None)
  {
    IndexReadsOn(frames, clean, k);
    if k < |frames| {
      assert frames[k..][0] == frames[k];
    } else {
      assert FilesOf(frames, k) + [] == FilesOf(frames, k);
    }
  }

  /** The index is that of the frames up to the final one; any other frame is an error. */
  method RequestIndex(conn: Conn, folder: string) returns (r: Option<seq<FileMeta>>)
    modifies conn
    ensures conn.peer == AfterReply(old(conn.peer))
    ensures r == IndexIn(IndexReply(old(conn.peer), folder))
    ensures old(conn.peer).Honest? ==> r == Some(ServerFor(old(conn.peer), folder).index)
  {
    var reply := conn.AskIndex(folder);
    if reply == NoStream {
      return None;
    }
    var files: seq<FileMeta> := [];
    assert reply.frames[0..] == reply.frames;
    assert IndexIn(reply) == Prepend([], IndexIn(reply)) by {
      assert IndexIn(reply).Some? ==> [] + IndexIn(reply).value == IndexIn(reply).value;
    }
    for i := 0 to |reply.frames|
      invariant conn.peer == AfterReply(old(conn.peer))
      invariant IndexIn(reply) == Prepend(files, IndexFrom(reply.frames[i..], reply.clean))
    {
      var frame := reply.frames[i];
      assert reply.frames[i..][0] == frame && reply.frames[i..][1..] == reply.frames[i + 1..];
      if !frame.IndexUpdate? {
        return None;
      }
      PrependTwice(files, frame.files, IndexFrom(reply.frames[i + 1..], reply.clean));
      files := files + frame.files;
      if frame.last {
        return Some(files);
      }
    }
    assert reply.frames[|reply.frames|..] == [] && files + [] == files;
    return if reply.clean then Some(files) else None;
  }

  // ----- one pull -----------------------------------------------------------------------

  /** `blocks` are the contents of a file described by `rf`: every block has its digest
      and all together have the announced one. */
  ghost predicate Verified(hash: HashFn, rf: FileMeta, blocks: seq<Bytes>) {
    BlocksMatch(hash, rf.blocks, blocks) && hash(Concat(blocks)) == rf.hash
  }

  ghost predicate BlocksMatch(hash: HashFn, chunks: seq<Chunker.Chunk>, blocks: seq<Bytes>) {
    |blocks| == |chunks| && forall i :: 0 <= i < |chunks| ==> hash(blocks[i]) == chunks[i].hash
  }

  /** What is offered for the i-th block has its digest. */
  ghost predicate Usable(hash: HashFn, files: Folder, locals: BlockIndex, fetched: map<Hash, Bytes>, h: Hash) {
    var x := Offered(files, locals, fetched, h);
    x.Some? && hash(x.value) == h
  }

  ghost predicate AllUsable(hash: HashFn, files: Folder, locals: BlockIndex, fetched: map<Hash, Bytes>,
                            chunks: seq<Chunker.Chunk>)
  {
    forall i :: 0 <= i < |chunks| ==> Usable(hash, files, locals, fetched, chunks[i].hash)
  }

  ghost predicate AreOffered(files: Folder, locals: BlockIndex, fetched: map<Hash, Bytes>,
                             chunks: seq<Chunker.Chunk>, blocks: seq<Bytes>)
  {
    |blocks| == |chunks| && forall i :: 0 <= i < |chunks| ==> Offered(files, locals, fetched, chunks[i].hash) == Some(blocks[i])
  }

  /** Since `before` the folder was `f` at every moment, but for the temporary file. */
  ghost predicate OnlyTmpWritten(before: seq<Folder>, after: seq<Folder>, f: Folder, tmp: string) {
    before <= after && forall k :: |before| <= k < |after| ==> after[k] - {tmp} == f - {tmp}
  }

  lemma WriteTmp(h: seq<Folder>, f: Folder, tmp: string, data: Bytes)
    ensures f[tmp := data] - {tmp} == f - {tmp}
    ensures OnlyTmpWritten(h, h + [f[tmp := data]], f, tmp) && OnlyTmpWritten(h, h + [f - {tmp}], f, tmp)
    ensures f[tmp := data][tmp := []] == f[tmp := []]
  {
  }

  lemma KeepWriting(h: seq<Folder>, h': seq<Folder>, h'': seq<Folder>, f: Folder, g: Folder, tmp: string)
    requires OnlyTmpWritten(h, h', f, tmp) && OnlyTmpWritten(h', h'', g, tmp) && f - {tmp} == g - {tmp}
    ensures OnlyTmpWritten(h, h'', f, tmp)
  {
  }

  /** No indexed block lies in a temporary file, as `scan` skips those. */
  ghost predicate NoTmpSources(locals: BlockIndex) {
    forall h :: h in locals ==> !IsTmp(locals[h].path)
  }

  // ----- what an honest peer's blocks are worth ---------------------------------------------

  function RefOf(c: Chunker.Chunk): BlockRef {
    BlockRef(c.offset, c.length, c.hash)
  }

  /** `rf` describes `content`: the blocks tile it and all digests are right. */
  ghost predicate Faithful(hash: HashFn, rf: FileMeta, content: Bytes) {
    && rf.hash == hash(content)
    && ChunkerLemmas.Tiles(hash, rf.blocks, content, 0)
    && forall i :: 0 <= i < |rf.blocks| ==> HASH_SIZE + rf.blocks[i].length <= Protocol.MAX_FRAME_SIZE
  }

  /** Every block that will be reused still has its digest. */
  ghost predicate Reusable(hash: HashFn, files: Folder, locals: BlockIndex, chunks: seq<Chunker.Chunk>) {
    forall i :: 0 <= i < |chunks| && chunks[i].hash in locals ==>
      var x := LocalBlock(files, locals[chunks[i].hash]);
      x.Some? && hash(x.value) == chunks[i].hash
  }

  /** Among the blocks at hand no two different ones share a digest. */
  ghost predicate Unambiguous(hash: HashFn, files: Folder, locals: BlockIndex, chunks: seq<Chunker.Chunk>, content: Bytes) {
    && (forall i, j :: 0 <= i < |chunks| && 0 <= j < |chunks| && chunks[i].hash == chunks[j].hash ==>
          ReadAt(content, chunks[i].offset, chunks[i].length) == ReadAt(content, chunks[j].offset, chunks[j].length))
    && (forall i :: 0 <= i < |chunks| && chunks[i].hash in locals ==>
          var x := LocalBlock(files, locals[chunks[i].hash]);
          x.Some? && hash(x.value) == chunks[i].hash ==> x == ReadAt(content, chunks[i].offset, chunks[i].length))
  }

  lemma {:induction false} TileAt(hash: HashFn, cs: seq<Chunker.Chunk>, s: Bytes, p: nat, i: nat)
    requires ChunkerLemmas.Tiles(hash, cs, s, p) && i < |cs|
    ensures cs[i].offset + cs[i].length <= |s|
    ensures ReadAt(s, cs[i].offset, cs[i].length).Some?
    ensures hash(ReadAt(s, cs[i].offset, cs[i].length).value) == cs[i].hash
    decreases i
  {
    if i > 0 {
      TileAt(hash, cs[1..], s, p + cs[0].length, i - 1);
    }
  }

  lemma {:induction false} ConcatFront(x: Bytes, blocks: seq<Bytes>)
    ensures Concat([x] + blocks) == x + Concat(blocks)
  {
    var all := [x] + blocks;
    if blocks == [] {
      assert all[..0] == [];
    } else {
      assert all[..|all| - 1] == [x] + blocks[..|blocks| - 1];
      ConcatFront(x, blocks[..|blocks| - 1]);
    }
  }

  /** The blocks that tile a file, put together, are the file. */
  lemma {:induction false} ConcatOfTiles(hash: HashFn, cs: seq<Chunker.Chunk>, s: Bytes, p: nat, blocks: seq<Bytes>)
    requires p <= |s| && ChunkerLemmas.Tiles(hash, cs, s, p) && |blocks| == |cs|
    requires forall i :: 0 <= i < |cs| ==> Some(blocks[i]) == ReadAt(s, cs[i].offset, cs[i].length)
    ensures Concat(blocks) == s[p..]
    decreases |cs|
  {
    if cs != [] {
      var n := cs[0].length;
      assert blocks[0] == s[p..p + n];
      ConcatOfTiles(hash, cs[1..], s, p + n, blocks[1..]);
      ConcatFront(blocks[0], blocks[1..]);
      assert blocks == [blocks[0]] + blocks[1..];
      assert s[p..] == s[p..p + n] + s[p + n..];
    }
  }

  lemma {:induction false} NeededRefsAreTheMissing(chunks: seq<Chunker.Chunk>, locals: BlockIndex)
    ensures forall i :: 0 <= i < |chunks| && chunks[i].hash !in locals ==> RefOf(chunks[i]) in NeededRefs(chunks, locals)
    ensures forall r :: r in NeededRefs(chunks, locals) ==> IsRefOf(chunks, r)
  {
    if chunks != [] {
      var n := |chunks| - 1;
      NeededRefsAreTheMissing(chunks[..n], locals);
      forall r | r in NeededRefs(chunks, locals)
        ensures IsRefOf(chunks, r)
      {
        if r in NeededRefs(chunks[..n], locals) {
          var i :| 0 <= i < n && RefOf(chunks[..n][i]) == r;
          assert RefOf(chunks[i]) == r;
        } else {
          assert RefOf(chunks[n]) == r;
        }
      }
      forall i | 0 <= i < |chunks| && chunks[i].hash !in locals
        ensures RefOf(chunks[i]) in NeededRefs(chunks, locals)
      {
        if i < n {
          assert chunks[..n][i] == chunks[i];
        }
      }
    }
  }

  ghost predicate IsRefOf(chunks: seq<Chunker.Chunk>, r: BlockRef) {
    exists i :: 0 <= i < |chunks| && RefOf(chunks[i]) == r
  }

  lemma HonestRefsAreServable(hash: HashFn, rf: FileMeta, content: Bytes, locals: BlockIndex)
    requires Faithful(hash, rf, content)
    ensures Servable(content, NeededRefs(rf.blocks, locals))
  {
    var refs := NeededRefs(rf.blocks, locals);
    NeededRefsAreTheMissing(rf.blocks, locals);
    forall k | 0 <= k < |refs|
      ensures refs[k].offset + refs[k].length <= |content| && HASH_SIZE + refs[k].length <= Protocol.MAX_FRAME_SIZE
    {
      assert IsRefOf(rf.blocks, refs[k]);
      var i :| 0 <= i < |rf.blocks| && RefOf(rf.blocks[i]) == refs[k];
      TileAt(hash, rf.blocks, content, 0, i);
    }
  }

  /** What an honest peer sent for a block is that block, or one with the same digest. */
  lemma FetchedIsABlock(hash: HashFn, rf: FileMeta, content: Bytes, locals: BlockIndex, fetched: map<Hash, Bytes>, i: nat)
    returns (j: nat)
    requires Faithful(hash, rf, content) && Answers(content, NeededRefs(rf.blocks, locals), fetched)
    requires i < |rf.blocks| && rf.blocks[i].hash !in locals
    ensures rf.blocks[i].hash in fetched && j < |rf.blocks| && rf.blocks[j].hash == rf.blocks[i].hash
    ensures ReadAt(content, rf.blocks[j].offset, rf.blocks[j].length) == Some(fetched[rf.blocks[i].hash])
    ensures hash(fetched[rf.blocks[i].hash]) == rf.blocks[i].hash
  {
    var refs, h := NeededRefs(rf.blocks, locals), rf.blocks[i].hash;
    NeededRefsAreTheMissing(rf.blocks, locals);
    var k :| 0 <= k < |refs| && refs[k] == RefOf(rf.blocks[i]);
    assert ReadForRef(content, refs, refs[k].hash, fetched[refs[k].hash]);
    var m :| 0 <= m < |refs| && refs[m].hash == h && ReadAt(content, refs[m].offset, refs[m].length) == Some(fetched[h]);
    assert refs[m] in refs && IsRefOf(rf.blocks, refs[m]);
    j :| 0 <= j < |rf.blocks| && RefOf(rf.blocks[j]) == refs[m];
    TileAt(hash, rf.blocks, content, 0, j);
  }

  /** With an honest peer the file can be assembled exactly if the reused blocks are intact. */
  lemma HonestPullSucceedsExactly(hash: HashFn, rf: FileMeta, content: Bytes, files: Folder, locals: BlockIndex,
                                  fetched: map<Hash, Bytes>)
    requires Faithful(hash, rf, content) && Answers(content, NeededRefs(rf.blocks, locals), fetched)
    ensures AllUsable(hash, files, locals, fetched, rf.blocks) <==> Reusable(hash, files, locals, rf.blocks)
  {
    forall i | 0 <= i < |rf.blocks| && rf.blocks[i].hash !in locals
      ensures Usable(hash, files, locals, fetched, rf.blocks[i].hash)
    {
      var j := FetchedIsABlock(hash, rf, content, locals, fetched, i);
    }
    if AllUsable(hash, files, locals, fetched, rf.blocks) {
      forall i | 0 <= i < |rf.blocks| && rf.blocks[i].hash in locals
        ensures Usable(hash, files, locals, fetched, rf.blocks[i].hash)
      {
      }
    }
  }

  /** And what is assembled is the peer's file: the delta refines plain copying. */
  lemma HonestPullCopies(hash: HashFn, rf: FileMeta, content: Bytes, files: Folder, locals: BlockIndex,
                         fetched: map<Hash, Bytes>, blocks: seq<Bytes>)
    requires Faithful(hash, rf, content) && Answers(content, NeededRefs(rf.blocks, locals), fetched)
    requires Unambiguous(hash, files, locals, rf.blocks, content)
    requires AreOffered(files, locals, fetched, rf.blocks, blocks) && BlocksMatch(hash, rf.blocks, blocks)
    ensures Concat(blocks) == content
  {
    forall i | 0 <= i < |rf.blocks|
      ensures Some(blocks[i]) == ReadAt(content, rf.blocks[i].offset, rf.blocks[i].length)
    {
      if rf.blocks[i].hash !in locals {
        var j := FetchedIsABlock(hash, rf, content, locals, fetched, i);
      }
    }
    ConcatOfTiles(hash, rf.blocks, content, 0, blocks);
    assert content[0..] == content;
  }

  lemma TmpOffersNothing(files: Folder, tmp: string, data: Bytes, locals: BlockIndex, fetched: map<Hash, Bytes>, h: Hash)
    requires NoTmpSources(locals) && IsTmp(tmp)
    ensures Offered(files[tmp := data], locals, fetched, h) == Offered(files, locals, fetched, h)
  {
  }

  lemma AppendToTmp(h: seq<Folder>, h': seq<Folder>, f: Folder, tmp: string, g: Folder, data: Bytes)
    requires OnlyTmpWritten(h, h', f, tmp) && tmp in g && g == f[tmp := g[tmp]]
    ensures g[tmp := g[tmp] + data] == f[tmp := g[tmp] + data]
    ensures OnlyTmpWritten(h, h' + [g[tmp := g[tmp] + data]], f, tmp)
  {
    assert g[tmp := g[tmp] + data] == f[tmp := g[tmp] + data];
    WriteTmp(h', f, tmp, g[tmp] + data);
    KeepWriting(h, h', h' + [f[tmp := g[tmp] + data]], f, f, tmp);
  }

  lemma OneBlockMore(hash: HashFn, chunks: seq<Chunker.Chunk>, i: nat, blocks: seq<Bytes>, x: Bytes, files: Folder,
                     locals: BlockIndex, fetched: map<Hash, Bytes>)
    requires i < |chunks| && BlocksMatch(hash, chunks[..i], blocks) && hash(x) == chunks[i].hash
    ensures BlocksMatch(hash, chunks[..i + 1], blocks + [x]) && Concat(blocks + [x]) == Concat(blocks) + x
    ensures CountReused(chunks[..i + 1], locals) == CountReused(chunks[..i], locals) + if chunks[i].hash in locals then 1 else 0
    ensures AreOffered(files, locals, fetched, chunks[..i], blocks) && Offered(files, locals, fetched, chunks[i].hash) == Some(x) ==>
              AreOffered(files, locals, fetched, chunks[..i + 1], blocks + [x])
  {
    assert chunks[..i + 1][..i] == chunks[..i] && (blocks + [x])[..i] == blocks;
  }

  /** The peer is honest and `rf` is what it says about one of its files. */
  ghost predicate FromHonest(site: Site, p: Peer, rf: FileMeta) {
    && p.Honest? && site.folder in p.snapshot
    && rf.path in p.snapshot[site.folder].files && Faithful(site.hash, rf, p.snapshot[site.folder].files[rf.path])
  }

  function PeerFile(site: Site, p: Peer, rf: FileMeta): Bytes
    requires p.Honest? && site.folder in p.snapshot && rf.path in p.snapshot[site.folder].files
  {
    p.snapshot[site.folder].files[rf.path]
  }

  /** The request for the blocks that are not in the folder fits a frame. */
  predicate RequestFits(site: Site, rf: FileMeta, locals: BlockIndex) {
    NeededRefs(rf.blocks, locals) == [] || Fits(site.requestSize(site.folder, rf.path, NeededRefs(rf.blocks, locals)))
  }

  class Puller {
    const site: Site
    const disk: Disk
    const conn: Conn
    const versions: Versioning.Store
    var filesUpdated: nat
    var blocksFetched: nat
    var blocksReused: nat
    var conflicts: nat

    constructor (site: Site, d: Disk, c: Conn, v: Versioning.Store)
      ensures this.site == site && disk == d && conn == c && versions == v
      ensures filesUpdated == blocksFetched == blocksReused == conflicts == 0
    {
      this.site, disk, conn, versions := site, d, c, v;
      filesUpdated, blocksFetched, blocksReused, conflicts := 0, 0, 0, 0;
    }

    /** Fetches the bytes for one block, from the folder or from what the peer sent. */
    method TakeBlock(h: Hash, locals: BlockIndex, fetched: map<Hash, Bytes>) returns (r: Result<Bytes, PullError>)
      modifies `blocksFetched, `blocksReused
      ensures r.Success? <==> Usable(site.hash, disk.files, locals, fetched, h)
      ensures r.Success? ==>
                && Offered(disk.files, locals, fetched, h) == Some(r.value)
                && blocksReused == old(blocksReused) + (if h in locals then 1 else 0)
                && blocksFetched == old(blocksFetched) + (if h in locals then 0 else 1)
      ensures h in locals ==>
                var loc := locals[h];
                if loc.path !in disk.files || (loc.length > 0 && loc.offset + loc.length > |disk.files[loc.path]|) then
                  r == Failure(LocalReadFailed)
                else
                  var x := if loc.length == 0 then [] else disk.files[loc.path][loc.offset..loc.offset + loc.length];
                  r == if site.hash(x) == h then Success(x) else Failure(BlockMismatch)
      ensures h !in locals ==>
                r == if h !in fetched then Failure(MissingBlock)
                     else if site.hash(fetched[h]) == h then Success(fetched[h])
                     else Failure(BlockMismatch)
    {
      var data: Bytes;
      if h in locals {
        var found := LocalBlock(disk.files, locals[h]);
        if found == None {
          return Failure(LocalReadFailed);
        }
        data := found.value;
        blocksReused := blocksReused + 1;
      } else {
        if h !in fetched {
          return Failure(MissingBlock);
        }
        data := fetched[h];
        blocksFetched := blocksFetched + 1;
      }
      r := if site.hash(data) != h then Failure(BlockMismatch) else Success(data);
    }

    /** The loop that writes the temporary file block by block, checking each one. */
    method Assemble(chunks: seq<Chunker.Chunk>, tmp: string, locals: BlockIndex, fetched: map<Hash, Bytes>)
      returns (err: Option<PullError>, ghost blocks: seq<Bytes>)
      requires tmp in disk.files && disk.files[tmp] == [] && IsTmp(tmp)
      modifies disk, `blocksFetched, `blocksReused
      ensures disk.files == old(disk.files)[tmp := Concat(blocks)]
      ensures OnlyTmpWritten(old(disk.history), disk.history, old(disk.files), tmp)
      ensures err == None ==>
                && BlocksMatch(site.hash, chunks, blocks)
                && blocksReused == old(blocksReused) + CountReused(chunks, locals)
                && blocksReused + blocksFetched == old(blocksReused) + old(blocksFetched) + |chunks|
      ensures NoTmpSources(locals) ==>
                (err == None <==> AllUsable(site.hash, old(disk.files), locals, fetched, chunks))
      ensures NoTmpSources(locals) && err == None ==> AreOffered(old(disk.files), locals, fetched, chunks, blocks)
    {
      blocks := [];
      for i := 0 to |chunks|
        invariant disk.files == old(disk.files)[tmp := Concat(blocks)]
        invariant OnlyTmpWritten(old(disk.history), disk.history, old(disk.files), tmp)
        invariant BlocksMatch(site.hash, chunks[..i], blocks)
        invariant blocksReused == old(blocksReused) + CountReused(chunks[..i], locals)
        invariant blocksReused + blocksFetched == old(blocksReused) + old(blocksFetched) + i
        invariant NoTmpSources(locals) ==> AreOffered(old(disk.files), locals, fetched, chunks[..i], blocks)
      {
        var h := chunks[i].hash;
        ghost var h0, f0 := disk.history, disk.files;
        if NoTmpSources(locals) {
          TmpOffersNothing(old(disk.files), tmp, Concat(blocks), locals, fetched, h);
        }
        var data := TakeBlock(h, locals, fetched);
        if data.Failure? {
          return Some(data.error), blocks;
        }
        disk.Append(tmp, data.value);
        OneBlockMore(site.hash, chunks, i, blocks, data.value, old(disk.files), locals, fetched);
        AppendToTmp(old(disk.history), h0, old(disk.files), tmp, f0, data.value);
        blocks := blocks + [data.value];
      }
      assert chunks[..|chunks|] == chunks;
      err := None;
    }

    /** The blocks that are not in the folder. */
    method MissingRefs(blocks: seq<Chunker.Chunk>, locals: BlockIndex) returns (need: seq<BlockRef>)
      ensures need == NeededRefs(blocks, locals)
    {
      need := [];
      for i := 0 to |blocks|
        invariant need == NeededRefs(blocks[..i], locals)
      {
        assert blocks[..i + 1][..i] == blocks[..i];
        var b := blocks[i];
        if b.hash !in locals {
          need := need + [BlockRef(b.offset, b.length, b.hash)];
        }
      }
      assert blocks[..|blocks|] == blocks;
    }

    /** Asks the peer for them, if there are any. */
    method FetchMissing(rf: FileMeta, locals: BlockIndex) returns (r: Option<map<Hash, Bytes>>)
      modifies conn
      ensures old(conn.peer).Honest? ==> conn.peer == old(conn.peer)
      ensures NeededRefs(rf.blocks, locals) == [] ==> r == Some(map[]) && conn.peer == old(conn.peer)
      ensures !RequestFits(site, rf, locals) ==> r == None
      ensures FromHonest(site, old(conn.peer), rf) && RequestFits(site, rf, locals) ==>
                r.Some? && Answers(PeerFile(site, old(conn.peer), rf), NeededRefs(rf.blocks, locals), r.value)
    {
      var need := MissingRefs(rf.blocks, locals);
      if FromHonest(site, conn.peer, rf) {
        HonestRefsAreServable(site.hash, rf, PeerFile(site, conn.peer, rf), locals);
      }
      if need == [] {
        return Some(map[]);
      }
      r := RequestBlocks(conn, site, rf.path, need);
    }

    /** Archives what is at the target, then moves the verified file over it. */
    method Install(tmp: string, target: string, stamp: string)
      requires tmp in disk.files && tmp == TmpOf(target)
      modifies disk, versions
      ensures disk.files == (old(disk.files) - {tmp})[target := old(disk.files)[tmp]]
      ensures disk.history == old(disk.history) + [disk.files]
      ensures Kept(ContentAt(old(disk.files), target), target, stamp, versions.keep, old(versions.files), versions.files)
    {
      if target in disk.files {
        var archived := versions.Archive(disk.files, target, true, stamp);
        ArchiveKeeps(disk.files[target], target, stamp, versions.keep, archived.value, old(versions.files), versions.files);
      }
      disk.Rename(tmp, target);
    }

    /** Writes the temporary file and checks it; on failure removes it again. */
    method Build(rf: FileMeta, tmp: string, locals: BlockIndex, fetched: map<Hash, Bytes>, ghost content: Bytes)
      returns (err: Option<PullError>, ghost blocks: seq<Bytes>)
      requires IsTmp(tmp)
      modifies disk, `blocksFetched, `blocksReused
      ensures OnlyTmpWritten(old(disk.history), disk.history, old(disk.files), tmp)
      ensures err != None ==> disk.files == old(disk.files) - {tmp}
      ensures err == None ==>
                && Verified(site.hash, rf, blocks)
                && disk.files == old(disk.files)[tmp := Concat(blocks)]
                && blocksReused == old(blocksReused) + CountReused(rf.blocks, locals)
                && blocksReused + blocksFetched == old(blocksReused) + old(blocksFetched) + |rf.blocks|
      ensures Faithful(site.hash, rf, content) && Answers(content, NeededRefs(rf.blocks, locals), fetched)
              && NoTmpSources(locals) && Unambiguous(site.hash, old(disk.files), locals, rf.blocks, content) ==>
                && (err == None <==> Reusable(site.hash, old(disk.files), locals, rf.blocks))
                && (err == None ==> Concat(blocks) == content)
    {
      ghost var f, h := disk.files, disk.history;
      WriteTmp(h, f, tmp, []);
      disk.Create(tmp);
      ghost var start, h' := disk.files, disk.history;
      err, blocks := Assemble(rf.blocks, tmp, locals, fetched);
      KeepWriting(h, h', disk.history, f, start, tmp);
      assert disk.files == f[tmp := Concat(blocks)];
      if NoTmpSources(locals) {
        SameOffers(site.hash, f, start, tmp, locals, rf.blocks, content);
        AssembledFromHonest(site.hash, rf, content, start, locals, fetched, err == None, blocks);
      }
      if err == None && site.hash(disk.files[tmp]) != rf.hash {
        err := Some(FileMismatch);
      }
      if err != None {
        ghost var h'' := disk.history;
        WriteTmp(h'', f, tmp, Concat(blocks));
        disk.Remove(tmp);
        assert disk.files == f - {tmp};
        KeepWriting(h, h'', disk.history, f, f, tmp);
      }
    }

    /** Pulls one file into the file that `target` means. Whatever the peer does, either
        nothing but the temporary file is touched, or that file holds verified blocks; and
        at every moment in between the folder is the old one, but for the temporary file.
        With an honest peer it succeeds exactly if the target is local, the request fits a
        frame and the reused blocks are intact, and copies the file. */
    method PullFile(rf: FileMeta, target: string, locals: BlockIndex, stamp: string)
      returns (err: Option<PullError>, ghost blocks: seq<Bytes>)
      modifies disk, conn, versions, `blocksFetched, `blocksReused
      ensures old(conn.peer).Honest? ==> conn.peer == old(conn.peer)
      ensures var dest := site.resolve(target);
              err != None ==>
                && (disk.files == old(disk.files) || disk.files == old(disk.files) - {TmpOf(dest)})
                && OnlyTmpWritten(old(disk.history), disk.history, old(disk.files), TmpOf(dest))
                && versions.files == old(versions.files)
      ensures var dest := site.resolve(target);
              err == None ==>
                && site.isLocal(target) && Verified(site.hash, rf, blocks)
                && disk.files == (old(disk.files) - {TmpOf(dest)})[dest := Concat(blocks)]
                && disk.history != [] && disk.history[|disk.history| - 1] == disk.files
                && OnlyTmpWritten(old(disk.history), disk.history[..|disk.history| - 1], old(disk.files), TmpOf(dest))
                && Kept(ContentAt(old(disk.files), dest), dest, stamp, versions.keep, old(versions.files), versions.files)
                && blocksReused == old(blocksReused) + CountReused(rf.blocks, locals)
                && blocksReused + blocksFetched == old(blocksReused) + old(blocksFetched) + |rf.blocks|
      ensures FromHonest(site, old(conn.peer), rf) && NoTmpSources(locals)
              && Unambiguous(site.hash, old(disk.files), locals, rf.blocks, PeerFile(site, old(conn.peer), rf)) ==>
                && (err == None <==>
                      && site.isLocal(target) && RequestFits(site, rf, locals)
                      && Reusable(site.hash, old(disk.files), locals, rf.blocks))
                && (err == None ==> Concat(blocks) == PeerFile(site, old(conn.peer), rf))
    {
      blocks := [];
      ghost var content := if FromHonest(site, conn.peer, rf) then PeerFile(site, conn.peer, rf) else [];
      var fetched := FetchMissing(rf, locals);
      if fetched == None {
        return Some(PeerFailed), blocks;
      }
      if !site.isLocal(target) {
        return Some(UnsafePath), blocks;
      }
      var dest := site.resolve(target);
      ghost var f := disk.files;
      err, blocks := Build(rf, TmpOf(dest), locals, fetched.value, content);
      if err == None {
        ghost var h := disk.history;
        Install(TmpOf(dest), dest, stamp);
        Installed(f, dest, Concat(blocks));
        assert disk.history[..|disk.history| - 1] == h;
      }
    }
  }

  function ContentAt(files: Folder, target: string): Option<Bytes> {
    if target in files then Some(files[target]) else None
  }

  lemma Installed(f: Folder, dest: string, x: Bytes)
    ensures var tmp := TmpOf(dest);
            && (f[tmp := x] - {tmp})[dest := x] == (f - {tmp})[dest := x]
            && ContentAt(f[tmp := x], dest) == ContentAt(f, dest)
  {
  }

  /** What the version store does when a pull replaces `content` at the target. */
  ghost predicate Kept(content: Option<Bytes>, target: string, stamp: string, keep: int,
                       before: Versioning.Files, after: Versioning.Files)
  {
    match content
    case None => after == before
    case Some(x) => exists tag ::
      Versioning.Archived(before, Versioning.DirOf(target), Versioning.BaseOf(target), x, stamp, keep, tag, after)
  }

  lemma ArchiveKeeps(x: Bytes, target: string, stamp: string, keep: int, tag: string,
                     before: Versioning.Files, after: Versioning.Files)
    requires Versioning.Archived(before, Versioning.DirOf(target), Versioning.BaseOf(target), x, stamp, keep, tag, after)
    ensures Kept(Some(x), target, stamp, keep, before, after)
  {
  }

  lemma AssembledFromHonest(hash: HashFn, rf: FileMeta, content: Bytes, files: Folder, locals: BlockIndex,
                            fetched: map<Hash, Bytes>, ok: bool, blocks: seq<Bytes>)
    requires ok <==> AllUsable(hash, files, locals, fetched, rf.blocks)
    requires ok ==> AreOffered(files, locals, fetched, rf.blocks, blocks) && BlocksMatch(hash, rf.blocks, blocks)
    ensures Faithful(hash, rf, content) && Answers(content, NeededRefs(rf.blocks, locals), fetched)
            && Unambiguous(hash, files, locals, rf.blocks, content) ==>
              && (ok <==> Reusable(hash, files, locals, rf.blocks))
              && (ok ==> Concat(blocks) == content && hash(Concat(blocks)) == rf.hash)
  {
    if Faithful(hash, rf, content) && Answers(content, NeededRefs(rf.blocks, locals), fetched)
       && Unambiguous(hash, files, locals, rf.blocks, content)
    {
      HonestPullSucceedsExactly(hash, rf, content, files, locals, fetched);
      if ok {
        HonestPullCopies(hash, rf, content, files, locals, fetched, blocks);
      }
    }
  }

  /** Creating a temporary file changes nothing about the blocks in the folder. */
  lemma SameOffers(hash: HashFn, f: Folder, g: Folder, tmp: string, locals: BlockIndex, chunks: seq<Chunker.Chunk>,
                   content: Bytes)
    requires NoTmpSources(locals) && IsTmp(tmp) && g == f[tmp := []]
    ensures Reusable(hash, f, locals, chunks) <==> Reusable(hash, g, locals, chunks)
    ensures Unambiguous(hash, f, locals, chunks, content) <==> Unambiguous(hash, g, locals, chunks, content)
  {
    assert forall h :: h in locals ==> LocalBlock(f, locals[h]) == LocalBlock(g, locals[h]);
  }
}
