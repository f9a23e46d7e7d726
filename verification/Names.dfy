/** Names of conflict copies (`engine/internal/conflict/conflict.go`) and of the
    temporary files of a pull. */
module Names {
  const TMP_SUFFIX := ".syncy-tmp"
  const MARK := ".sync-conflict-"
  const STAMP_LENGTH := 15

  /** Where the extension of p[..i] starts, as `path.Ext` finds it going backwards;
      |p| when there is none. */
  function ExtStart(p: string, i: nat): (k: nat)
    requires i <= |p|
    ensures k < i || k == |p|
    ensures k < i ==> p[k] == '.' && forall j :: k < j < i ==> p[j] != '.' && p[j] != '/'
  {
    if i == 0 || p[i - 1] == '/' then |p|
    else if p[i - 1] == '.' then i - 1
    else ExtStart(p, i - 1)
  }

  /** No dot and no slash at or behind position `k`. */
  predicate Plain(s: string, k: nat) {
    forall j :: k <= j < |s| ==> s[j] != '.' && s[j] != '/'
  }

  lemma {:induction false} LastDotIsExtStart(p: string, i: nat, k: nat)
    requires k < i <= |p| && p[k] == '.' && forall j :: k < j < i ==> p[j] != '.' && p[j] != '/'
    ensures ExtStart(p, i) == k
  {
    if i - 1 > k {
      LastDotIsExtStart(p, i - 1, k);
    }
  }

  /** The extension of a + t is `t` when `t` is a dot and something plain. */
  lemma ExtOfTail(a: string, t: string)
    requires t != [] && t[0] == '.' && Plain(t, 1)
    ensures ExtStart(a + t, |a + t|) == |a|
  {
    var p := a + t;
    forall j | |a| < j < |p|
      ensures p[j] != '.' && p[j] != '/'
    {
      assert p[j] == t[j - |a|];
    }
    LastDotIsExtStart(p, |p|, |a|);
  }

  function Stem(p: string): string {
    p[..ExtStart(p, |p|)]
  }

  function Ext(p: string): string {
    p[ExtStart(p, |p|)..]
  }

  function Short(id: string): string {
    if |id| > 7 then id[..7] else id
  }

  /** `stamp` is the formatted time and `short` the short device id. */
  predicate GoodTag(stamp: string, short: string) {
    |stamp| == STAMP_LENGTH && Plain(stamp, 0) && Plain(short, 0)
  }

  function Tag(stamp: string, short: string): string {
    MARK + stamp + "-" + short
  }

  function ConflictName(p: string, id: string, stamp: string): string {
    Stem(p) + Tag(stamp, Short(id)) + Ext(p)
  }

  /** `ext` is the part of p from the last dot on, if no slash follows that dot. */
  predicate Splits(p: string, stem: string, ext: string) {
    && p == stem + ext
    && if ext != [] then ext[0] == '.' && Plain(ext, 1)
       else forall k :: 0 <= k < |p| && p[k] == '.' ==> exists j :: k < j < |p| && p[j] == '/'
  }

  lemma SplitsExactly(p: string, stem: string, ext: string)
    ensures Splits(p, stem, ext) <==> Stem(p) == stem && Ext(p) == ext
  {
    StemAndExt(p);
    if ext != [] && Splits(p, stem, ext) {
      ExtOfTail(stem, ext);
    }
    if Stem(p) == stem && Ext(p) == ext == [] {
      NoExtensionNoPlainDot(p, |p|);
    }
  }

  lemma {:induction false} NoExtensionNoPlainDot(p: string, i: nat)
    requires i <= |p| && ExtStart(p, i) == |p|
    ensures forall k :: 0 <= k < i && p[k] == '.' ==> exists j :: k < j < i && p[j] == '/'
  {
    if i > 0 && p[i - 1] != '/' {
      NoExtensionNoPlainDot(p, i - 1);
    }
  }

  /** The name of a conflict copy, written out. */
  lemma ConflictNameExactly(p: string, stem: string, ext: string, id: string, stamp: string)
    requires Splits(p, stem, ext)
    ensures |id| <= 7 ==> ConflictName(p, id, stamp) == stem + ".sync-conflict-" + stamp + "-" + id + ext
    ensures |id| > 7 ==> ConflictName(p, id, stamp) == stem + ".sync-conflict-" + stamp + "-" + id[..7] + ext
  {
    SplitsExactly(p, stem, ext);
    assert stem + (".sync-conflict-" + stamp + "-" + Short(id)) + ext
        == stem + ".sync-conflict-" + stamp + "-" + Short(id) + ext;
  }

  lemma TagIsExtension(stamp: string, short: string)
    requires GoodTag(stamp, short)
    ensures Tag(stamp, short)[0] == '.' && Plain(Tag(stamp, short), 1)
    ensures |Tag(stamp, short)| == |MARK| + STAMP_LENGTH + 1 + |short|
  {
    var t := Tag(stamp, short);
    forall j | 1 <= j < |t|
      ensures t[j] != '.' && t[j] != '/'
    {
      if j < |MARK| {
        assert t[j] == MARK[j];
      } else if j < |MARK| + STAMP_LENGTH {
        assert t[j] == stamp[j - |MARK|];
      } else if j > |MARK| + STAMP_LENGTH {
        assert t[j] == short[j - |MARK| - STAMP_LENGTH - 1];
      }
    }
  }

  /** The extension of a conflict name: that of the path, or the tag if it has none. */
  lemma ExtOfConflictName(p: string, id: string, stamp: string)
    requires GoodTag(stamp, Short(id))
    ensures Ext(ConflictName(p, id, stamp)) == if Ext(p) != [] then Ext(p) else Tag(stamp, Short(id))
    ensures Stem(ConflictName(p, id, stamp)) == if Ext(p) != [] then Stem(p) + Tag(stamp, Short(id)) else Stem(p)
  {
    var t := Tag(stamp, Short(id));
    TagIsExtension(stamp, Short(id));
    if Ext(p) != [] {
      ExtOfTail(Stem(p) + t, Ext(p));
    } else {
      ExtOfTail(Stem(p), t);
      assert ConflictName(p, id, stamp) == Stem(p) + t;
    }
  }

  lemma EqualTails<T>(a: seq<T>, b: seq<T>, s: seq<T>, t: seq<T>)
    requires |s| == |t| && a + s == b + t
    ensures a == b && s == t
  {
    assert |a| == |b|;
    assert a == (a + s)[..|a|] == (b + t)[..|b|] == b;
    assert s == (a + s)[|a|..] == (b + t)[|b|..] == t;
  }

  lemma StemAndExt(p: string)
    ensures p == Stem(p) + Ext(p)
  {
  }

  lemma NoExtensionNoTail(p: string, a: string, t: string)
    requires Ext(p) == [] && t != [] && t[0] == '.' && Plain(t, 1)
    ensures p != a + t
  {
    if p == a + t {
      ExtOfTail(a, t);
    }
  }

  lemma TagDeterminesStamp(s: string, t: string, short: string)
    requires |s| == |t| == STAMP_LENGTH && Tag(s, short) == Tag(t, short)
    ensures s == t
  {
    assert s == Tag(s, short)[|MARK|..|MARK| + STAMP_LENGTH];
    assert t == Tag(t, short)[|MARK|..|MARK| + STAMP_LENGTH];
  }

  /** On one device no two paths share a conflict name, whatever the two times are. */
  lemma ConflictNameIsInjective(p: string, s: string, q: string, t: string, id: string)
    requires GoodTag(s, Short(id)) && GoodTag(t, Short(id))
    requires ConflictName(p, id, s) == ConflictName(q, id, t)
    ensures p == q && s == t
  {
    var x, y := Tag(s, Short(id)), Tag(t, Short(id));
    TagIsExtension(s, Short(id));
    TagIsExtension(t, Short(id));
    ExtOfConflictName(p, id, s);
    ExtOfConflictName(q, id, t);
    StemAndExt(p);
    StemAndExt(q);
    if Ext(p) == [] {
      NoExtensionNoTail(p, Stem(q), y);
    }
    if Ext(q) == [] {
      NoExtensionNoTail(q, Stem(p), x);
    }
    if Ext(p) != [] && Ext(q) != [] {
      EqualTails(Stem(p), Stem(q), x, y);
    }
    TagDeterminesStamp(s, t, Short(id));
  }

  /** Nor do two devices, unless they read the same time and their short ids are equal. */
  lemma ConflictNamesTellOrigin(p: string, id: string, s: string, q: string, id': string, t: string)
    requires GoodTag(s, Short(id)) && GoodTag(t, Short(id'))
    requires ConflictName(p, id, s) == ConflictName(q, id', t)
    ensures p == q && s == t && Short(id) == Short(id')
  {
    var x, y := Tag(s, Short(id)), Tag(t, Short(id'));
    TagIsExtension(s, Short(id));
    TagIsExtension(t, Short(id'));
    ExtOfConflictName(p, id, s);
    ExtOfConflictName(q, id', t);
    StemAndExt(p);
    StemAndExt(q);
    if Ext(p) == [] {
      NoExtensionNoTail(p, Stem(q), y);
    } else {
      if Ext(q) == [] {
        NoExtensionNoTail(q, Stem(p), x);
      }
      SameExtensions(Stem(p), x, Stem(q), y);
    }
    TagsTellOrigin(s, Short(id), t, Short(id'));
    assert ConflictName(q, id', t) == ConflictName(q, id, t);
    ConflictNameIsInjective(p, s, q, t, id);
  }

  lemma SameExtensions(a: string, x: string, b: string, y: string)
    requires a + x == b + y
    requires x != [] && x[0] == '.' && Plain(x, 1) && y != [] && y[0] == '.' && Plain(y, 1)
    ensures x == y
  {
    ExtOfTail(a, x);
    ExtOfTail(b, y);
    assert x == (a + x)[|a|..] && y == (b + y)[|b|..];
  }

  lemma TagsTellOrigin(s: string, short: string, t: string, short': string)
    requires |s| == |t| == STAMP_LENGTH && Tag(s, short) == Tag(t, short')
    ensures s == t && short == short'
  {
    assert short == Tag(s, short)[|MARK| + STAMP_LENGTH + 1..];
    assert short' == Tag(t, short')[|MARK| + STAMP_LENGTH + 1..];
    assert s == Tag(s, short)[|MARK|..|MARK| + STAMP_LENGTH];
    assert t == Tag(t, short')[|MARK|..|MARK| + STAMP_LENGTH];
  }

  predicate IsTmp(p: string) {
    |p| >= |TMP_SUFFIX| && p[|p| - |TMP_SUFFIX|..] == TMP_SUFFIX
  }

  lemma TmpSuffixIsExtension()
    ensures TMP_SUFFIX != [] && TMP_SUFFIX[0] == '.' && Plain(TMP_SUFFIX, 1)
  {
  }

  lemma EndsWithTail(p: string, t: string)
    requires |p| >= |t| && p[|p| - |t|..] == t
    ensures p == p[..|p| - |t|] + t
  {
  }

  lemma TmpHasTmpExtension(p: string)
    ensures IsTmp(p) <==> Ext(p) == TMP_SUFFIX
  {
    StemAndExt(p);
    TmpSuffixIsExtension();
    if IsTmp(p) {
      EndsWithTail(p, TMP_SUFFIX);
      ExtOfTail(p[..|p| - |TMP_SUFFIX|], TMP_SUFFIX);
    }
  }

  /** A conflict copy is a temporary file only if the path was one. */
  lemma ConflictNameIsTmp(p: string, id: string, stamp: string)
    requires GoodTag(stamp, Short(id))
    ensures IsTmp(ConflictName(p, id, stamp)) <==> IsTmp(p)
  {
    TmpHasTmpExtension(p);
    TmpHasTmpExtension(ConflictName(p, id, stamp));
    ExtOfConflictName(p, id, stamp);
    TagIsExtension(stamp, Short(id));
    assert |Tag(stamp, Short(id))| > |TMP_SUFFIX|;
  }
}
