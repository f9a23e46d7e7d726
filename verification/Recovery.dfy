/** What a pull overwrites can be restored (`engine/internal/session/session.go`,
    `engine/internal/versioning/versioning.go`). */
module Recovery {
  import opened Basics
  import opened Names
  import opened Session
  import opened Turn
  import opened Pull
  import Versioning

  // ----- one archived version in one turn -----------------------------------------------------

  /** The version at `l` is there with its content. */
  predicate IsKept(v: Versioning.Files, l: Versioning.Loc, x: Bytes) {
    l in v && v[l] == x
  }

  /** The version at `l` is listed for the file `base` in its directory, where `keep` newer
      ones are. */
  ghost predicate Outdated(v: Versioning.Files, l: Versioning.Loc, base: string, keep: int) {
    && 0 < keep && Versioning.Listed(base, l.name)
    && |Versioning.Newer(Versioning.Stamps(v, l.dir, base), Versioning.StampOf(base, l.name))| >= keep
  }

  lemma PrunedIsOutdated(all: set<string>, kept: set<string>, keep: nat, t: string)
    requires Versioning.NewestOf(all, kept, keep) && t in all && t !in kept
    ensures |Versioning.Newer(kept, t)| >= keep
  {
    assert Versioning.Newer(kept, t) == kept;
    if |all| <= keep {
      SubsetSize(kept + {t}, all);
    }
  }

  /** Archiving another version keeps this one, or prunes it where `keep` newer ones are. */
  lemma ArchivingKeeps(before: Versioning.Files, dir: string, base: string, content: Bytes, stamp: string, keep: int,
                       tag: string, after: Versioning.Files, l: Versioning.Loc, x: Bytes)
    requires Versioning.Archived(before, dir, base, content, stamp, keep, tag, after) && IsKept(before, l, x)
    ensures IsKept(after, l, x) || (l.dir == dir && Outdated(after, l, base, keep))
  {
    if l.dir == dir && Versioning.Listed(base, l.name) {
      var t := Versioning.StampOf(base, l.name);
      Versioning.NameOfStamp(base, l.name);
      assert t in Versioning.Stamps(before, dir, base);
      if t !in Versioning.Stamps(after, dir, base) {
        PrunedIsOutdated(Versioning.Stamps(before, dir, base) + {tag}, Versioning.Stamps(after, dir, base), keep, t);
      }
    }
  }

  /** And the version that is archived is there, or was pruned at once. */
  lemma ArchivedIsKept(before: Versioning.Files, dir: string, base: string, content: Bytes, stamp: string, keep: int,
                       tag: string, after: Versioning.Files)
    requires Versioning.Archived(before, dir, base, content, stamp, keep, tag, after)
    ensures var l := Versioning.Loc(dir, Versioning.VersionName(base, tag));
            IsKept(after, l, content) || Outdated(after, l, base, keep)
  {
    Versioning.StampOfName(base, tag);
    if tag !in Versioning.Stamps(after, dir, base) {
      PrunedIsOutdated(Versioning.Stamps(before, dir, base) + {tag}, Versioning.Stamps(after, dir, base), keep, tag);
    }
  }

  // ----- a whole pull --------------------------------------------------------------------------

  /** Where the version of the file `q` with this tag is kept. */
  function VersionOf(q: string, tag: string): Versioning.Loc {
    Versioning.Loc(Versioning.DirOf(q), Versioning.VersionName(Versioning.BaseOf(q), tag))
  }

  /** After the k-th turn the version at `l` was out of date. */
  ghost predicate OutdatedAt(j: Job, keep: int, tr: Trace, k: nat, l: Versioning.Loc)
    requires tr.Fits(j) && k < tr.Turns()
  {
    Outdated(tr.stores[k + 1], l, Versioning.BaseOf(DestAt(j, k)), keep)
  }

  /** It was so after some turn from the k-th on. */
  ghost predicate OutdatedSince(j: Job, keep: int, tr: Trace, k: nat, l: Versioning.Loc)
    requires tr.Fits(j)
  {
    exists m :: k <= m < tr.Turns() && OutdatedAt(j, keep, tr, m, l)
  }

  lemma TurnKeeps(j: Job, keep: int, mtimes: Clock, tr: Trace, k: nat, l: Versioning.Loc, x: Bytes)
    requires Traced(j, keep, mtimes, tr) && k < tr.Turns() && IsKept(tr.stores[k], l, x)
    ensures IsKept(tr.stores[k + 1], l, x) || OutdatedAt(j, keep, tr, k, l)
  {
    assert TracedAt(j, keep, mtimes, tr, k);
    var v, v', dest := tr.stores[k], tr.stores[k + 1], DestAt(j, k);
    if !PassesAt(j, k) && dest in tr.folders[k] {
      var y := tr.folders[k][dest];
      var tag :| Versioning.Archived(v, Versioning.DirOf(dest), Versioning.BaseOf(dest), y, Reading(mtimes, k), keep, tag, v');
      ArchivingKeeps(v, Versioning.DirOf(dest), Versioning.BaseOf(dest), y, Reading(mtimes, k), keep, tag, v', l, x);
    }
  }

  /** A version that is there before the k-th turn is there at the end, or was out of date. */
  lemma {:induction false} VersionIsKept(j: Job, keep: int, mtimes: Clock, tr: Trace, k: nat, l: Versioning.Loc, x: Bytes)
    requires Traced(j, keep, mtimes, tr) && k <= tr.Turns() && IsKept(tr.stores[k], l, x)
    ensures IsKept(tr.stores[tr.Turns()], l, x) || OutdatedSince(j, keep, tr, k, l)
    decreases tr.Turns() - k
  {
    if k < tr.Turns() {
      TurnKeeps(j, keep, mtimes, tr, k, l, x);
      if IsKept(tr.stores[k + 1], l, x) {
        VersionIsKept(j, keep, mtimes, tr, k + 1, l, x);
        if OutdatedSince(j, keep, tr, k + 1, l) {
          var m :| k + 1 <= m < tr.Turns() && OutdatedAt(j, keep, tr, m, l);
        }
      }
    }
  }

  /** The k-th turn wrote to `q` and archived its content `x` under `tag`. */
  ghost predicate ArchivedAt(j: Job, keep: int, mtimes: Clock, tr: Trace, k: nat, q: string, x: Bytes, tag: string)
    requires tr.Fits(j)
  {
    && k < tr.Turns() && !PassesAt(j, k) && DestAt(j, k) == q
    && Versioning.Archived(tr.stores[k], Versioning.DirOf(q), Versioning.BaseOf(q), x, Reading(mtimes, k), keep, tag,
                           tr.stores[k + 1])
  }

  /** And there it is at the end, unless it was out of date at some time since. */
  ghost predicate StaysKept(j: Job, keep: int, mtimes: Clock, tr: Trace, k: nat, q: string, x: Bytes, tag: string)
    requires tr.Fits(j)
  {
    && ArchivedAt(j, keep, mtimes, tr, k, q, x, tag)
    && (IsKept(tr.stores[tr.Turns()], VersionOf(q, tag), x) || OutdatedSince(j, keep, tr, k, VersionOf(q, tag)))
  }

  /** Some turn archived the content `x` of the file `q`. */
  ghost predicate Recoverable(j: Job, keep: int, mtimes: Clock, tr: Trace, q: string, x: Bytes)
    requires tr.Fits(j)
  {
    exists k, tag :: StaysKept(j, keep, mtimes, tr, k, q, x, tag)
  }

  lemma ArchivedStaysKept(j: Job, keep: int, mtimes: Clock, tr: Trace, k: nat, q: string, x: Bytes, tag: string)
    requires Traced(j, keep, mtimes, tr) && ArchivedAt(j, keep, mtimes, tr, k, q, x, tag)
    ensures StaysKept(j, keep, mtimes, tr, k, q, x, tag)
  {
    var l := VersionOf(q, tag);
    ArchivedIsKept(tr.stores[k], Versioning.DirOf(q), Versioning.BaseOf(q), x, Reading(mtimes, k), keep, tag, tr.stores[k + 1]);
    if IsKept(tr.stores[k + 1], l, x) {
      VersionIsKept(j, keep, mtimes, tr, k + 1, l, x);
      if OutdatedSince(j, keep, tr, k + 1, l) {
        var m :| k + 1 <= m < tr.Turns() && OutdatedAt(j, keep, tr, m, l);
      }
    } else {
      assert OutdatedAt(j, keep, tr, k, l);
    }
  }

  lemma ReplacingTurnArchives(j: Job, keep: int, mtimes: Clock, tr: Trace, k: nat, q: string) returns (tag: string)
    requires Traced(j, keep, mtimes, tr) && k < tr.Turns() && !PassesAt(j, k) && DestAt(j, k) == q && q in tr.folders[k]
    ensures ArchivedAt(j, keep, mtimes, tr, k, q, tr.folders[k][q], tag)
  {
    assert TracedAt(j, keep, mtimes, tr, k);
    tag :| Versioning.Archived(tr.stores[k], Versioning.DirOf(q), Versioning.BaseOf(q), tr.folders[k][q], Reading(mtimes, k),
                               keep, tag, tr.stores[k + 1]);
  }

  /** A file that is no longer what it was, was replaced in some turn. */
  lemma {:induction false} ReplacedInTurn(j: Job, keep: int, mtimes: Clock, tr: Trace, n: nat, q: string) returns (k: nat)
    requires Traced(j, keep, mtimes, tr) && n <= tr.Turns() && q in j.before && !IsTmp(q)
    requires q !in tr.folders[n] || tr.folders[n][q] != j.before[q]
    ensures k < n && !PassesAt(j, k) && DestAt(j, k) == q && q in tr.folders[k] && tr.folders[k][q] == j.before[q]
  {
    assert n > 0;
    if q in tr.folders[n - 1] && tr.folders[n - 1][q] == j.before[q] {
      assert TracedAt(j, keep, mtimes, tr, n - 1);
      k := n - 1;
    } else {
      k := ReplacedInTurn(j, keep, mtimes, tr, n - 1, q);
    }
  }

  /** Whether a pull succeeds or not and whatever the peer sends: of a file that it has replaced
      the old content is in the version store, unless `keep` newer versions were listed for a
      file of the directory at some time. */
  lemma ReplacedIsRecoverable(j: Job, keep: int, mtimes: Clock, tr: Trace, files: Folder, v: Versioning.Files, q: string)
    requires Recorded(j, keep, mtimes, tr, files, v) && q in j.before && !IsTmp(q)
    requires q !in files || files[q] != j.before[q]
    ensures Recoverable(j, keep, mtimes, tr, q, j.before[q]) && tr.stores[tr.Turns()] == v
  {
    var n := tr.Turns();
    var k := ReplacedInTurn(j, keep, mtimes, tr, n, q);
    var tag := ReplacingTurnArchives(j, keep, mtimes, tr, k, q);
    ArchivedStaysKept(j, keep, mtimes, tr, k, q, j.before[q], tag);
  }
}
