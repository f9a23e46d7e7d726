/** Recoverable copies of overwritten files (`engine/internal/versioning/versioning.go`). */
module Versioning {
  import opened Basics
  import opened Names
  import opened Order

  /** A file of the version store: its directory, relative to the store, and its name. */
  datatype Loc = Loc(dir: string, name: string)

  type Files = map<Loc, Bytes>

  // ----- names -----------------------------------------------------------------

  /** `prefix~tag.ext` */
  function VersionName(base: string, tag: string): string {
    Stem(base) + "~" + tag + Ext(base)
  }

  /** `Versions` takes every name with the right beginning and end. The Go code slices
      the stamp out of it, which needs the two parts not to overlap. */
  predicate Listed(base: string, name: string) {
    var n, e := |Stem(base)| + 1, |Ext(base)|;
    |name| >= n + e && name[..n] == Stem(base) + "~" && name[|name| - e..] == Ext(base)
  }

  function StampOf(base: string, name: string): string
    requires Listed(base, name)
  {
    name[|Stem(base)| + 1..|name| - |Ext(base)|]
  }

  /** The name of a version, written out. */
  lemma VersionNameExactly(base: string, stem: string, ext: string, tag: string)
    requires Splits(base, stem, ext)
    ensures VersionName(base, tag) == stem + "~" + tag + ext
    ensures forall name :: Listed(base, name) <==> exists t :: name == stem + "~" + t + ext
  {
    SplitsExactly(base, stem, ext);
    forall name
      ensures Listed(base, name) <==> exists t :: name == stem + "~" + t + ext
    {
      if Listed(base, name) {
        NameOfStamp(base, name);
        assert name == stem + "~" + StampOf(base, name) + ext;
      }
      if t :| name == stem + "~" + t + ext {
        StampOfName(base, t);
      }
    }
  }

  lemma NameOfStamp(base: string, name: string)
    requires Listed(base, name)
    ensures VersionName(base, StampOf(base, name)) == name
  {
  }

  lemma StampOfName(base: string, tag: string)
    ensures Listed(base, VersionName(base, tag)) && StampOf(base, VersionName(base, tag)) == tag
  {
  }

  lemma VersionNameIsInjective(base: string, s: string, t: string)
    ensures VersionName(base, s) == VersionName(base, t) ==> s == t
  {
    StampOfName(base, s);
    StampOfName(base, t);
  }

  /** The stamps that are listed for a file. */
  ghost predicate HasStamp(files: Files, dir: string, base: string, t: string) {
    Loc(dir, VersionName(base, t)) in files
  }

  ghost function Stamps(files: Files, dir: string, base: string): (r: set<string>)
    ensures forall t :: t in r <==> HasStamp(files, dir, base, t)
  {
    var r := set l | l in files && l.dir == dir && Listed(base, l.name) :: StampOf(base, l.name);
    forall t
      ensures t in r <==> HasStamp(files, dir, base, t)
    {
      StampOfName(base, t);
      if HasStamp(files, dir, base, t) {
        var l := Loc(dir, VersionName(base, t));
        assert l in files && Listed(base, l.name) && StampOf(base, l.name) == t;
      }
      if t in r {
        var l :| l in files && l.dir == dir && Listed(base, l.name) && StampOf(base, l.name) == t;
        NameOfStamp(base, l.name);
      }
    }
    r
  }

  // ----- decimal numbers ---------------------------------------------------------

  /** `strconv.Itoa` on the counter of `uniquePath`. */
  function Itoa(n: nat): string {
    if n < 10 then [Digit(n)] else Itoa(n / 10) + [Digit(n % 10)]
  }

  function Digit(n: nat): char
    requires n < 10
  {
    ('0' as int + n) as char
  }

  lemma {:induction false} ItoaIsInjective(m: nat, n: nat)
    requires Itoa(m) == Itoa(n)
    ensures m == n
  {
    assert Itoa(m)[|Itoa(m)| - 1] == Digit(m % 10) && Itoa(n)[|Itoa(n)| - 1] == Digit(n % 10);
    if m < 10 || n < 10 {
      assert |Itoa(m)| == 1 && |Itoa(n)| == 1;
    } else {
      assert Itoa(m / 10) == Itoa(m)[..|Itoa(m)| - 1] == Itoa(n)[..|Itoa(n)| - 1] == Itoa(n / 10);
      ItoaIsInjective(m / 10, n / 10);
    }
  }

  function TagFor(stamp: string, i: nat): string {
    if i == 0 then stamp else stamp + "-" + Itoa(i)
  }

  /** `Itoa` writes the number in decimal, without a zero in front. */
  lemma {:induction false} ItoaExactly(n: nat)
    ensures AllDigits(Itoa(n)) && DecimalValue(Itoa(n)) == n
    ensures Itoa(n) != [] && (|Itoa(n)| > 1 ==> Itoa(n)[0] != '0') && (n > 0 ==> Itoa(n)[0] != '0')
  {
    var s := Itoa(n);
    if n < 10 {
      assert s[..0] == [];
    } else {
      ItoaExactly(n / 10);
      assert s[..|s| - 1] == Itoa(n / 10);
    }
  }

  /** The series of tags that are tried: the stamp, and then the stamp with a number. */
  lemma TagsExactly(stamp: string, i: nat)
    ensures TagFor(stamp, 0) == stamp
    ensures i > 0 ==>
              exists s :: AllDigits(s) && s != [] && s[0] != '0' && DecimalValue(s) == i && TagFor(stamp, i) == stamp + "-" + s
  {
    ItoaExactly(i);
  }

  lemma TagForIsInjective(stamp: string, i: nat, j: nat)
    requires TagFor(stamp, i) == TagFor(stamp, j)
    ensures i == j
  {
    if i > 0 && j > 0 {
      EqualTails(stamp + "-", stamp + "-", Itoa(i), TagFor(stamp, j)[|stamp| + 1..]);
      ItoaIsInjective(i, j);
    }
  }

  // ----- what pruning keeps ---------------------------------------------------------

  /** `kept` are the `n` newest of `all`, or all of them. */
  ghost predicate NewestOf(all: set<string>, kept: set<string>, n: nat) {
    && kept <= all
    && |kept| == Min(n, |all|)
    && forall t, u :: t in kept && u in all && u !in kept ==> Less(u, t)
  }

  /** A stamp above all others survives, and is on top. */
  lemma NewestSurvives(all: set<string>, kept: set<string>, n: nat, t: string)
    requires NewestOf(all, kept, n) && n > 0 && t in all
    requires forall u :: u in all && u != t ==> Less(u, t)
    ensures t in kept
  {
    assert all - {t} + {t} == all;
    assert |kept| > 0;
    var u :| u in kept;
    LessIsTotal(u, t);
  }

  ghost predicate Descending(vs: seq<(string, Loc)>) {
    forall i, j :: 0 <= i < j < |vs| ==> Less(vs[j].0, vs[i].0)
  }

  ghost function StampsOf(vs: seq<(string, Loc)>): set<string> {
    set i | 0 <= i < |vs| :: vs[i].0
  }

  /** A sorted list read backwards. */
  lemma ReversedListing(items: seq<(string, Loc)>, sorted: seq<(string, Loc)>, vs: seq<(string, Loc)>)
    requires Ascending(sorted) && multiset(sorted) == multiset(items) && |vs| == |sorted|
    requires forall i :: 0 <= i < |vs| ==> vs[i] == sorted[|sorted| - 1 - i]
    ensures Descending(vs)
    ensures forall i :: 0 <= i < |vs| ==> vs[i] in items
    ensures forall k :: 0 <= k < |items| ==> items[k].0 in StampsOf(vs)
  {
    forall i | 0 <= i < |vs|
      ensures vs[i] in items
    {
      assert vs[i] in multiset(sorted);
    }
    forall k | 0 <= k < |items|
      ensures items[k].0 in StampsOf(vs)
    {
      assert items[k] in multiset(sorted);
      var j :| 0 <= j < |sorted| && sorted[j] == items[k];
      assert vs[|sorted| - 1 - j] == items[k];
    }
  }

  lemma {:induction false} DescendingSize(vs: seq<(string, Loc)>)
    requires Descending(vs)
    ensures |StampsOf(vs)| == |vs|
  {
    if vs != [] {
      var n := |vs| - 1;
      DescendingSize(vs[..n]);
      forall i | 0 <= i < n
        ensures vs[i].0 != vs[n].0
      {
        LessIsTotal(vs[i].0, vs[n].0);
      }
      assert StampsOf(vs) == StampsOf(vs[..n]) + {vs[n].0};
    }
  }

  lemma TopOfDescending(vs: seq<(string, Loc)>, n: nat)
    requires Descending(vs)
    ensures NewestOf(StampsOf(vs), StampsOf(vs[..Min(n, |vs|)]), n)
  {
    DescendingSize(vs);
    DescendingSize(vs[..Min(n, |vs|)]);
  }

  // ----- the store ------------------------------------------------------------------

  datatype Error = UnsafePath | NotFound

  /** Where the last path element starts. */
  function BaseStart(rel: string, i: nat): (k: nat)
    requires i <= |rel|
    ensures k <= i
  {
    if i == 0 || rel[i - 1] == '/' then i else BaseStart(rel, i - 1)
  }

  function DirOf(rel: string): string {
    rel[..BaseStart(rel, |rel|)]
  }

  function BaseOf(rel: string): string {
    rel[BaseStart(rel, |rel|)..]
  }

  /** A path is its directory, up to the last slash, and its name. */
  lemma PathParts(rel: string)
    ensures rel == DirOf(rel) + BaseOf(rel) && Free(BaseOf(rel), '/')
    ensures DirOf(rel) == [] || DirOf(rel)[|DirOf(rel)| - 1] == '/'
  {
    BaseStartIsBehindSlash(rel, |rel|);
  }

  lemma {:induction false} BaseStartIsBehindSlash(rel: string, i: nat)
    requires i <= |rel|
    ensures var k := BaseStart(rel, i); (k == 0 || rel[k - 1] == '/') && forall j :: k <= j < i ==> rel[j] != '/'
  {
    if i > 0 && rel[i - 1] != '/' {
      BaseStartIsBehindSlash(rel, i - 1);
    }
  }

  lemma HasKeyAfterAppend<T>(was: seq<(string, T)>, x: (string, T), t: string)
    requires x.0 == t || exists k :: 0 <= k < |was| && was[k].0 == t
    ensures exists k :: 0 <= k < |was + [x]| && (was + [x])[k].0 == t
  {
    if x.0 == t {
      assert (was + [x])[|was|].0 == t;
    } else {
      var k :| 0 <= k < |was| && was[k].0 == t;
      assert (was + [x])[k].0 == t;
    }
  }

  /** `tag` is the first of stamp, stamp-1, stamp-2, ... that is free. */
  ghost predicate IsFirstFree(files: Files, dir: string, base: string, stamp: string, tag: string) {
    && !HasStamp(files, dir, base, tag)
    && exists i: nat :: tag == TagFor(stamp, i) && forall j :: 0 <= j < i ==> HasStamp(files, dir, base, TagFor(stamp, j))
  }

  class Store {
    const keep: int
    var files: Files

    constructor (keep: int)
      ensures this.keep == keep && files == map[]
    {
      this.keep, files := keep, map[];
    }

    /** The listing of a file's versions, newest first. */
    method Versions(dir: string, base: string) returns (vs: seq<(string, Loc)>)
      ensures Descending(vs) && StampsOf(vs) == Stamps(files, dir, base)
      ensures forall i, j :: 0 <= i < j < |vs| ==> Less(vs[j].0, vs[i].0)
      ensures forall i :: 0 <= i < |vs| ==> vs[i].1 == Loc(dir, VersionName(base, vs[i].0))
    {
      var items := Collect(dir, base);
      var sorted := Sort(items);
      vs := seq(|sorted|, i requires 0 <= i < |sorted| => sorted[|sorted| - 1 - i]);
      ReversedListing(items, sorted, vs);
    }

    /** The loop over the directory. */
    method Collect(dir: string, base: string) returns (items: seq<(string, Loc)>)
      ensures DistinctKeys(items)
      ensures forall i :: 0 <= i < |items| ==>
                items[i].0 in Stamps(files, dir, base) && items[i].1 == Loc(dir, VersionName(base, items[i].0))
      ensures forall t :: t in Stamps(files, dir, base) ==> exists k :: 0 <= k < |items| && items[k].0 == t
    {
      items := [];
      var rest := files.Keys;
      while rest != {}
        invariant rest <= files.Keys && DistinctKeys(items)
        invariant forall i :: 0 <= i < |items| ==>
                    items[i].1 == Loc(dir, VersionName(base, items[i].0)) && items[i].1 in files && items[i].1 !in rest
        invariant forall t :: t in Stamps(files, dir, base) && Loc(dir, VersionName(base, t)) !in rest ==>
                    exists k :: 0 <= k < |items| && items[k].0 == t
        decreases rest
      {
        var l :| l in rest;
        rest := rest - {l};
        if l.dir == dir && Listed(base, l.name) {
          NameOfStamp(base, l.name);
          ghost var was := items;
          items := items + [(StampOf(base, l.name), l)];
          forall t | t in Stamps(files, dir, base) && Loc(dir, VersionName(base, t)) !in rest
            ensures exists k :: 0 <= k < |items| && items[k].0 == t
          {
            if Loc(dir, VersionName(base, t)) == l {
              VersionNameIsInjective(base, t, StampOf(base, l.name));
            }
            HasKeyAfterAppend(was, items[|was|], t);
          }
        } else {
          forall t | Loc(dir, VersionName(base, t)) == l
            ensures false
          {
            StampOfName(base, t);
          }
        }
      }
    }

    /** Finds a free name; the directory is finite, so the search ends. */
    method UniqueTag(dir: string, base: string, stamp: string) returns (tag: string)
      ensures IsFirstFree(files, dir, base, stamp, tag)
    {
      var i := 0;
      ghost var tried: set<Loc> := {};
      while Loc(dir, VersionName(base, TagFor(stamp, i))) in files
        invariant tried <= files.Keys && |tried| == i
        invariant forall j :: 0 <= j < i ==> Loc(dir, VersionName(base, TagFor(stamp, j))) in tried
        invariant forall l :: l in tried ==> exists j :: 0 <= j < i && l == Loc(dir, VersionName(base, TagFor(stamp, j)))
        decreases |files| - |tried|
      {
        var l := Loc(dir, VersionName(base, TagFor(stamp, i)));
        if l in tried {
          var j :| 0 <= j < i && l == Loc(dir, VersionName(base, TagFor(stamp, j)));
          VersionNameIsInjective(base, TagFor(stamp, i), TagFor(stamp, j));
          TagForIsInjective(stamp, i, j);
        }
        tried := tried + {l};
        SubsetSize(tried, files.Keys);
        i := i + 1;
      }
      tag := TagFor(stamp, i);
    }

    /** Copies a file of `root` into the store under the stamp of its modification time. */
    method Archive(root: map<string, Bytes>, rel: string, local: bool, stamp: string) returns (r: Result<string, Error>)
      modifies this
      ensures r.Failure? ==> files == old(files) && (r.error == UnsafePath <==> !local)
      ensures r.Success? <==> local && rel in root
      ensures r.Success? ==> Archived(old(files), DirOf(rel), BaseOf(rel), root[rel], stamp, keep, r.value, files)
    {
      if !local {
        return Failure(UnsafePath);
      }
      if rel !in root {
        return Failure(NotFound);
      }
      var dir, base := DirOf(rel), BaseOf(rel);
      var tag := UniqueTag(dir, base, stamp);
      files := files[Loc(dir, VersionName(base, tag)) := root[rel]];
      ghost var full := files;
      Prune(dir, base);
      assert Stamps(full, dir, base) == Stamps(old(files), dir, base) + {tag} by {
        forall t
          ensures HasStamp(full, dir, base, t) <==> HasStamp(old(files), dir, base, t) || t == tag
        {
          VersionNameIsInjective(base, t, tag);
        }
      }
      return Success(tag);
    }

    /** Removes all but the newest `keep` versions; keeps everything if that is not positive. */
    method Prune(dir: string, base: string)
      modifies this
      ensures files.Keys <= old(files.Keys) && forall l :: l in files ==> files[l] == old(files)[l]
      ensures forall l :: l in old(files) && l !in files ==> l.dir == dir && Listed(base, l.name)
      ensures keep <= 0 ==> files == old(files)
      ensures keep > 0 ==> NewestOf(Stamps(old(files), dir, base), Stamps(files, dir, base), keep)
    {
      if keep <= 0 {
        return;
      }
      var vs := Versions(dir, base);
      TopOfDescending(vs, keep);
      var top := Min(keep, |vs|);
      for i := top to |vs|
        invariant forall l :: l in files <==>
                    l in old(files) && forall j :: top <= j < i ==> l != Loc(dir, VersionName(base, vs[j].0))
        invariant forall l :: l in files ==> files[l] == old(files)[l]
      {
        files := files - {vs[i].1};
      }
      forall l | l in old(files) && l !in files
        ensures l.dir == dir && Listed(base, l.name)
      {
        var j :| top <= j < |vs| && l == Loc(dir, VersionName(base, vs[j].0));
        StampOfName(base, vs[j].0);
      }
      assert Stamps(files, dir, base) == StampsOf(vs[..top]) by {
        PrunedStamps(old(files), files, dir, base, vs, top);
      }
    }

    /** Copies a version back; None where Go reports that the file does not exist. */
    method Restore(root: map<string, Bytes>, rel: string, local: bool, stamp: string)
      returns (r: Result<map<string, Bytes>, Error>)
      ensures r == if !local then Failure(UnsafePath)
                   else
                     var l := Loc(DirOf(rel), VersionName(BaseOf(rel), stamp));
                     if l in files then Success(root[rel := files[l]]) else Failure(NotFound)
    {
      if !local {
        return Failure(UnsafePath);
      }
      var l := Loc(DirOf(rel), VersionName(BaseOf(rel), stamp));
      if l !in files {
        return Failure(NotFound);
      }
      return Success(root[rel := files[l]]);
    }
  }

  lemma PrunedStamps(before: Files, after: Files, dir: string, base: string, vs: seq<(string, Loc)>, top: nat)
    requires Descending(vs) && StampsOf(vs) == Stamps(before, dir, base) && top <= |vs|
    requires forall l :: l in after <==>
               l in before && forall j :: top <= j < |vs| ==> l != Loc(dir, VersionName(base, vs[j].0))
    ensures Stamps(after, dir, base) == StampsOf(vs[..top])
  {
    forall t
      ensures t in Stamps(after, dir, base) <==> t in StampsOf(vs[..top])
    {
      if t in StampsOf(vs[..top]) {
        var i :| 0 <= i < top && vs[..top][i].0 == t;
        assert vs[i].0 == t && t in StampsOf(vs);
        forall j | top <= j < |vs|
          ensures Loc(dir, VersionName(base, t)) != Loc(dir, VersionName(base, vs[j].0))
        {
          VersionNameIsInjective(base, t, vs[j].0);
          LessIsTotal(t, vs[j].0);
        }
      }
      if t in Stamps(after, dir, base) {
        assert t in Stamps(before, dir, base);
        var i :| 0 <= i < |vs| && vs[i].0 == t;
        assert i < top;
        assert vs[..top][i].0 == t;
      }
    }
  }

  /** `after` is the store after archiving `content` under the free tag `tag`: the
      listing holds the newest `keep` of the old stamps and the new one, kept versions
      are unchanged, and nothing that is not listed for the file is touched. */
  ghost predicate Archived(before: Files, dir: string, base: string, content: Bytes, stamp: string, keep: int,
                           tag: string, after: Files)
  {
    var all := Stamps(before, dir, base) + {tag};
    && IsFirstFree(before, dir, base, stamp, tag)
    && (if keep > 0 then NewestOf(all, Stamps(after, dir, base), keep) else Stamps(after, dir, base) == all)
    && (forall t :: t in Stamps(after, dir, base) ==>
          after[Loc(dir, VersionName(base, t))] == if t == tag then content else before[Loc(dir, VersionName(base, t))])
    && (forall l: Loc :: l.dir != dir || !Listed(base, l.name) ==>
          (l in after <==> l in before) && (l in after ==> after[l] == before[l]))
  }

  /** After `Archive` the listing has min(keep, previous + 1) entries. */
  lemma ListingSize(before: Files, dir: string, base: string, content: Bytes, stamp: string, keep: nat, tag: string, after: Files)
    requires keep > 0 && Archived(before, dir, base, content, stamp, keep, tag, after)
    ensures |Stamps(after, dir, base)| == Min(keep, |Stamps(before, dir, base)| + 1)
  {
    assert tag !in Stamps(before, dir, base);
  }

  /** If the new stamp is the newest, it heads the listing and `Restore` of the first
      listed stamp brings the archived bytes back. */
  lemma NewestRestores(before: Files, dir: string, base: string, content: Bytes, stamp: string, keep: int, tag: string,
                       after: Files, vs: seq<(string, Loc)>)
    requires Archived(before, dir, base, content, stamp, keep, tag, after)
    requires forall u :: u in Stamps(before, dir, base) ==> Less(u, tag)
    requires Descending(vs) && StampsOf(vs) == Stamps(after, dir, base)
    ensures vs != [] && vs[0].0 == tag
    ensures Loc(dir, VersionName(base, tag)) in after && after[Loc(dir, VersionName(base, tag))] == content
  {
    if keep > 0 {
      NewestSurvives(Stamps(before, dir, base) + {tag}, Stamps(after, dir, base), keep, tag);
    }
    assert tag in StampsOf(vs);
    var i :| 0 <= i < |vs| && vs[i].0 == tag;
    if i > 0 {
      assert vs[0].0 in StampsOf(vs);
      LessIsTotal(vs[0].0, tag);
    }
  }

  /** The stamps of a listing that are newer than `tag`. */
  ghost function Newer(stamps: set<string>, tag: string): set<string> {
    set u | u in stamps && Less(tag, u)
  }

  lemma SurvivesExactly(all: set<string>, kept: set<string>, n: nat, t: string)
    requires NewestOf(all, kept, n) && t in all
    ensures t in kept <==> |Newer(all, t)| < n
  {
    if t in kept {
      LessIsTotal(t, t);
      forall u | u in Newer(all, t)
        ensures u in kept
      {
        LessIsTotal(u, t);
      }
      SubsetSize(Newer(all, t) + {t}, kept);
    } else {
      forall u | u in kept
        ensures u in Newer(all, t)
      {
      }
      SubsetSize(kept, Newer(all, t));
      SubsetSize(kept + {t}, all);
    }
  }

  /** Whether a file that was just archived is still there: exactly if nothing is pruned or
      fewer than `keep` of the older listing's stamps are newer. */
  lemma ArchivedSurvivesExactly(before: Files, dir: string, base: string, content: Bytes, stamp: string, keep: int,
                                tag: string, after: Files)
    requires Archived(before, dir, base, content, stamp, keep, tag, after)
    ensures tag in Stamps(after, dir, base) <==> keep <= 0 || |Newer(Stamps(before, dir, base), tag)| < keep
  {
    var all := Stamps(before, dir, base) + {tag};
    LessIsTotal(tag, tag);
    assert Newer(all, tag) == Newer(Stamps(before, dir, base), tag);
    if keep > 0 {
      SurvivesExactly(all, Stamps(after, dir, base), keep, tag);
    }
  }

  lemma FreeStampIsTag(files: Files, dir: string, base: string, stamp: string, tag: string)
    requires IsFirstFree(files, dir, base, stamp, tag) && !HasStamp(files, dir, base, stamp)
    ensures tag == stamp
  {
    var i: nat :| tag == TagFor(stamp, i) && forall j :: 0 <= j < i ==> HasStamp(files, dir, base, TagFor(stamp, j));
    var first := TagFor(stamp, 0);
    assert first == stamp;
  }

  /** A version with a later date than all the others, numbered ones among them, heads the
      listing, whatever is pruned. */
  lemma LatestDateHeads(before: Files, dir: string, base: string, content: Bytes, stamp: string, keep: int, tag: string,
                        after: Files, vs: seq<(string, Loc)>)
    requires Archived(before, dir, base, content, stamp, keep, tag, after)
    requires IsStamp(stamp)
    requires forall u :: u in Stamps(before, dir, base) ==> BeginsEarlier(u, stamp)
    requires Descending(vs) && StampsOf(vs) == Stamps(after, dir, base)
    ensures tag == stamp && vs != [] && vs[0].0 == stamp
  {
    forall u | u in Stamps(before, dir, base)
      ensures Less(u, stamp)
    {
      LaterStampIsAbove(u, stamp);
    }
    LessIsTotal(stamp, stamp);
    FreeStampIsTag(before, dir, base, stamp, tag);
    NewestRestores(before, dir, base, content, stamp, keep, tag, after, vs);
  }

  /** Archive, overwrite, and restore the first listed version: the folder is as before, if
      the file's stamp is newer than those of all its versions. */
  method ArchiveThenRestore(store: Store, root: map<string, Bytes>, rel: string, stamp: string, overwritten: Bytes)
    returns (restored: Result<map<string, Bytes>, Error>)
    requires rel in root
    requires forall u :: u in Stamps(store.files, DirOf(rel), BaseOf(rel)) ==> Less(u, stamp)
    modifies store
    ensures restored == Success(root)
  {
    ghost var before := store.files;
    var dir, base := DirOf(rel), BaseOf(rel);
    var tag := store.Archive(root, rel, true, stamp);
    LessIsTotal(stamp, stamp);
    FreeStampIsTag(before, dir, base, stamp, tag.value);
    var vs := store.Versions(dir, base);
    NewestRestores(before, dir, base, root[rel], stamp, store.keep, tag.value, store.files, vs);
    restored := store.Restore(root[rel := overwritten], rel, true, vs[0].0);
    assert root[rel := overwritten][rel := root[rel]] == root;
  }

  // ----- whose versions are listed ----------------------------------------------------

  predicate Free(s: string, c: char) {
    forall i :: 0 <= i < |s| ==> s[i] != c
  }

  /** Which versions of `other` the listing of `base` contains: those that go on like the stem
      of `base` and a '~', if `base` has no extension or the two have the same one. */
  lemma ListsForeignVersionsExactly(base: string, other: string, tag: string)
    requires Free(base, '/') && Free(other, '/') && Free(tag, '.') && Free(tag, '/')
    ensures Listed(base, VersionName(other, tag))
            <==> Stem(base) + "~" <= Stem(other) + "~" + tag && (Ext(base) == [] || Ext(base) == Ext(other))
  {
    var n, name, front := |Stem(base)| + 1, VersionName(other, tag), Stem(other) + "~" + tag;
    assert name == front + Ext(other);
    VersionExt(other, tag);
    if Listed(base, name) {
      assert name[..n] == Stem(base) + "~";
      if Ext(base) == [] {
        NoDotInFront(base, other, tag);
      } else {
        var k := |name| - |Ext(base)|;
        assert name == name[..k] + Ext(base);
        ExtOfTail(name[..k], Ext(base));
      }
      assert name[..n] == front[..n];
    }
    if Stem(base) + "~" <= front && (Ext(base) == [] || Ext(base) == Ext(other)) {
      assert name[..n] == front[..n] == Stem(base) + "~";
    }
  }

  /** A name without extension has no dot, so what begins with it and a '~' ends before the
      extension. */
  lemma NoDotInFront(base: string, other: string, tag: string)
    requires Ext(base) == [] && Free(base, '/') && Stem(base) + "~" <= VersionName(other, tag)
    ensures |Stem(base)| < |Stem(other) + "~" + tag|
  {
    var k, name := |Stem(other) + "~" + tag|, VersionName(other, tag);
    StemAndExt(base);
    NoDotNoExt(base, |base|);
    assert Ext(other) != [] ==> name[k] == Ext(other)[0] == '.';
    assert forall i :: 0 <= i <= |Stem(base)| ==> name[i] == (Stem(base) + "~")[i] != '.';
  }

  /** So with a stem that has no '~' itself: those of the same stem, and those of every stem
      that goes on with a '~', such as the backup copies of an editor. */
  lemma ListsBackupVersions(base: string, other: string, tag: string)
    requires Free(base, '/') && Free(other, '/') && Free(tag, '.') && Free(tag, '/') && Free(Stem(base), '~')
    ensures Listed(base, VersionName(other, tag))
            <==> && (Stem(base) == Stem(other) || Stem(base) + "~" <= Stem(other))
                 && (Ext(base) == [] || Ext(base) == Ext(other))
  {
    var x, y := Stem(base), Stem(other);
    ListsForeignVersionsExactly(base, other, tag);
    if x + "~" <= y + "~" + tag {
      var n := |x|;
      assert (y + "~" + tag)[..n + 1] == x + "~";
      if |y| < n {
        assert x[|y|] == (x + "~")[|y|] == (y + "~" + tag)[|y|] == '~';
      } else if |y| == n {
        assert x == (x + "~")[..n] == (y + "~" + tag)[..n] == y;
      } else {
        assert (y + "~" + tag)[..n + 1] == y[..n + 1];
      }
    }
    if x + "~" <= y {
      assert y + "~" + tag == x + "~" + (y[|x| + 1..] + "~" + tag);
    }
  }

  /** `other` is `base` with a '~' behind its stem, and at least `keep` versions of `other` are
      there. Their stamps are read with that '~', which sorts them above every date. So the
      version of `base` that was just archived is pruned at once. */
  lemma BackupsPushOutNewVersion(before: Files, dir: string, base: string, other: string, tags: set<string>, content: Bytes,
                                 stamp: string, keep: nat, tag: string, after: Files)
    requires Stem(other) == Stem(base) + "~" && Ext(other) == Ext(base)
    requires (forall t :: t in tags ==> HasStamp(before, dir, other, t)) && 0 < keep <= |tags|
    requires Archived(before, dir, base, content, stamp, keep, tag, after) && (tag == [] || tag[0] < '~')
    ensures tag !in Stamps(after, dir, base)
  {
    forall t | t in tags
      ensures "~" + t in Newer(Stamps(before, dir, base), tag)
    {
      BackupStampIsNewer(before, dir, base, other, t, tag);
    }
    MarkedTagsFit(tags, Newer(Stamps(before, dir, base), tag));
    ArchivedSurvivesExactly(before, dir, base, content, stamp, keep, tag, after);
  }

  lemma BackupStampIsNewer(files: Files, dir: string, base: string, other: string, t: string, tag: string)
    requires Stem(other) == Stem(base) + "~" && Ext(other) == Ext(base)
    requires HasStamp(files, dir, other, t) && (tag == [] || tag[0] < '~')
    ensures "~" + t in Newer(Stamps(files, dir, base), tag)
  {
    assert VersionName(other, t) == VersionName(base, "~" + t);
    assert HasStamp(files, dir, base, "~" + t);
    assert Less(tag, "~" + t);
  }

  lemma {:induction false} MarkedTagsFit(tags: set<string>, all: set<string>)
    requires forall t :: t in tags ==> "~" + t in all
    ensures |tags| <= |all|
    decreases tags
  {
    if tags != {} {
      var t :| t in tags;
      forall s | s in tags - {t}
        ensures "~" + s in all - {"~" + t}
      {
        assert ("~" + s)[1..] == s && ("~" + t)[1..] == t;
      }
      MarkedTagsFit(tags - {t}, all - {"~" + t});
    }
  }

  lemma DotlessStem(base: string)
    requires Free(base, '.')
    ensures Stem(base) == base && Ext(base) == []
  {
    NoDotNoStart(base, |base|);
  }

  /** The input where it matters: versions of the backup `notes~` are listed for `notes`. */
  lemma NotesListsItsBackup(t: string)
    ensures Stem("notes~") == Stem("notes") + "~" && Ext("notes~") == Ext("notes")
    ensures Listed("notes", VersionName("notes~", t)) && StampOf("notes", VersionName("notes~", t)) == "~" + t
  {
    DotlessStem("notes");
    DotlessStem("notes~");
    assert VersionName("notes~", t) == VersionName("notes", "~" + t);
    StampOfName("notes", "~" + t);
  }

  /** A version keeps the extension of its file; one without has none. */
  lemma VersionExt(other: string, tag: string)
    requires Free(other, '/') && Free(tag, '.') && Free(tag, '/')
    ensures Ext(VersionName(other, tag)) == Ext(other)
  {
    var name := VersionName(other, tag);
    StemAndExt(other);
    if Ext(other) != [] {
      ExtOfTail(Stem(other) + "~" + tag, Ext(other));
    } else {
      NoDotNoExt(other, |other|);
      forall i | 0 <= i < |name|
        ensures name[i] != '.'
      {
        if i < |other| {
          assert name[i] == other[i];
        } else if i > |other| {
          assert name[i] == tag[i - |other| - 1];
        }
      }
      NoDotNoStart(name, |name|);
    }
  }

  lemma {:induction false} NoDotNoExt(p: string, i: nat)
    requires i <= |p| && ExtStart(p, i) == |p| && Free(p, '/')
    ensures forall j :: 0 <= j < i ==> p[j] != '.'
  {
    if i > 0 {
      NoDotNoExt(p, i - 1);
    }
  }

  lemma {:induction false} NoDotNoStart(p: string, i: nat)
    requires i <= |p| && forall j :: 0 <= j < i ==> p[j] != '.'
    ensures ExtStart(p, i) == |p|
  {
    if i > 0 {
      NoDotNoStart(p, i - 1);
    }
  }
}
