/** Scanning a folder into an index (`engine/internal/scanner/scanner.go`). */
module Scanner {
  import opened Basics
  import opened Chunker

  /** Modification time and mode are not part of the model. */
  datatype FileInfo = FileInfo(path: string, size: nat, hash: Hash, blocks: seq<Chunk>)

  type Index = map<string, FileInfo>

  /** What a faithful scan records about a file. */
  ghost predicate Describes(c: ValidConfig, gear: Gear, hash: HashFn, fi: FileInfo, path: string, content: Bytes) {
    fi == FileInfo(path, |content|, hash(content), Chunks(c, gear, hash, content))
  }

  ghost predicate IndexOf(c: ValidConfig, gear: Gear, hash: HashFn, idx: Index, files: map<string, Bytes>) {
    idx.Keys == files.Keys && forall p :: p in files ==> Describes(c, gear, hash, idx[p], p, files[p])
  }

  /** `scanFile`: one pass over the file feeds the whole-file hasher and the chunker.
      The file may be delivered in any fragments; a read error aborts the scan. */
  method ScanFile(ch: Chunker, rel: string, content: Bytes, script: seq<ReadStep>) returns (r: Option<FileInfo>)
    ensures r.Some? ==> Describes(ch.cfg, ch.gear, ch.hash, r.value, rel, content)
    ensures (forall s :: s in script ==> !s.broken) ==> r.Some?
  {
    var reader := new Reader(content, script);
    var sink := new Sink(None);
    assert content[0..] == content;
    var res := ch.Split(reader, sink);
    if res != Done {
      return None;
    }
    // the tee has seen exactly the bytes the chunker has read
    assert content[..reader.pos] == content;
    return Some(FileInfo(rel, |content|, ch.hash(content[..reader.pos]), sink.got));
  }

  /** `Scan`: walks the files that are not skipped, in any order. */
  method Scan(ch: Chunker, files: map<string, Bytes>, skip: set<string>, scripts: map<string, seq<ReadStep>>)
    returns (r: Option<Index>)
    ensures r.Some? ==> IndexOf(ch.cfg, ch.gear, ch.hash, r.value, files - skip)
    ensures (forall p, s :: p in scripts && s in scripts[p] ==> !s.broken) ==> r.Some?
  {
    var idx: Index := map[];
    var rest := files.Keys - skip;
    while rest != {}
      invariant rest <= files.Keys - skip && idx.Keys == files.Keys - skip - rest
      invariant forall p :: p in idx ==> Describes(ch.cfg, ch.gear, ch.hash, idx[p], p, files[p])
      decreases rest
    {
      var p :| p in rest;
      var fi := ScanFile(ch, p, files[p], if p in scripts then scripts[p] else []);
      if fi == None {
        return None;
      }
      idx := idx[p := fi.value];
      rest := rest - {p};
    }
    return Some(idx);
  }
}
