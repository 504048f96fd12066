/**
 * Channel names for incidents: `createSlug` and `GenerateChannelName`.
 *
 * A title is lower-cased, every maximal run of characters outside [a-z0-9]
 * becomes a single hyphen, hyphens are trimmed from both ends, and a slug
 * longer than 30 characters is cut to 30 and then cut back to its last
 * hyphen if that hyphen lies past index 20. The channel name is
 * "_inc-" + YYYYMMDD-HHMMSS + "-" + slug, cut by the same rule at 64/50.
 */
module Naming {
  import opened Strings
  import Clock

  const SlugLimit := 30
  const SlugCutFloor := 20
  const ChannelLimit := 64
  const ChannelCutFloor := 50
  const ChannelPrefix := "_inc-"

  /** The characters a slug keeps: [a-z0-9]. */
  predicate IsSlugChar(c: char) {
    IsAsciiLower(c) || IsDigit(c)
  }

  predicate SlugAlphabet(s: string) {
    forall i :: 0 <= i < |s| ==> IsSlugChar(s[i]) || s[i] == '-'
  }

  /** No two adjacent hyphens. */
  predicate NoDoubleHyphen(s: string)
    decreases |s|
  {
    |s| < 2 || ((s[0] != '-' || s[1] != '-') && NoDoubleHyphen(s[1..]))
  }

  lemma {:induction false} NoDoubleHyphenAt(s: string, i: nat)
    requires NoDoubleHyphen(s) && i + 1 < |s|
    ensures s[i] != '-' || s[i + 1] != '-'
  {
    if i > 0 {
      NoDoubleHyphenAt(s[1..], i - 1);
    }
  }

  lemma {:induction false} NoDoubleHyphenDrop(s: string, a: nat)
    requires NoDoubleHyphen(s) && a <= |s|
    ensures NoDoubleHyphen(s[a..])
  {
    if a > 0 && |s| >= 2 {
      NoDoubleHyphenDrop(s[1..], a - 1);
      assert s[1..][a - 1..] == s[a..];
    }
  }

  lemma {:induction false} NoDoubleHyphenTake(s: string, b: nat)
    requires NoDoubleHyphen(s) && b <= |s|
    ensures NoDoubleHyphen(s[..b])
  {
    if b >= 2 {
      NoDoubleHyphenTake(s[1..], b - 1);
      var t := s[..b];
      assert t[0] == s[0] && t[1] == s[1];
      assert t[1..] == s[1..][..b - 1];
    }
  }

  predicate NoEdgeHyphen(s: string) {
    s == [] || (s[0] != '-' && s[|s| - 1] != '-')
  }

  /** Every value `createSlug` can return has this shape. */
  predicate IsSlug(s: string) {
    SlugAlphabet(s) && NoDoubleHyphen(s) && NoEdgeHyphen(s) && |s| <= SlugLimit
  }

  /** The letters and digits of `s`, in order: the content a slug carries. */
  function Alnums(s: string): string {
    if s == [] then [] else (if IsSlugChar(s[0]) then [s[0]] else []) + Alnums(s[1..])
  }

  lemma {:induction false} AlnumsAppend(a: string, b: string)
    ensures Alnums(a + b) == Alnums(a) + Alnums(b)
  {
    if a == [] {
      assert a + b == b;
    } else {
      assert (a + b)[0] == a[0];
      assert (a + b)[1..] == a[1..] + b;
      AlnumsAppend(a[1..], b);
    }
  }

  lemma {:induction false} AlnumsOfOthers(s: string)
    requires forall i :: 0 <= i < |s| ==> !IsSlugChar(s[i])
    ensures Alnums(s) == []
  {
    if s != [] {
      AlnumsOfOthers(s[1..]);
    }
  }

  lemma AlnumsOfPrefix(s: string, n: nat)
    requires n <= |s|
    ensures Alnums(s[..n]) <= Alnums(s)
  {
    hide *;
    AlnumsAppend(s[..n], s[n..]);
    assert s[..n] + s[n..] == s;
  }

  // ---------------------------------------------------------------------
  // Stage 1: regexp `[^a-z0-9]+` replaced by "-"
  // ---------------------------------------------------------------------

  /** Length of the run of characters outside [a-z0-9] that starts `s`. */
  function RunLength(s: string): (k: nat)
    ensures k <= |s|
    ensures forall i :: 0 <= i < k ==> !IsSlugChar(s[i])
    ensures k == |s| || IsSlugChar(s[k])
  {
    if s == [] || IsSlugChar(s[0]) then 0 else 1 + RunLength(s[1..])
  }

  /** `regexp.MustCompile("[^a-z0-9]+").ReplaceAllString(s, "-")`: each
      maximal run of other characters becomes one hyphen. Its laws are the
      lemmas below: the output shape (`CollapseShape`), the kept letters and
      digits (`CollapseKeepsAlnums`), fixed points (`CollapseFixed`) and
      piecewise evaluation (`CollapseGap`, `CollapseAppend`). */
  function CollapseRuns(s: string): (r: string)
    ensures r == [] <==> s == []
    ensures r != [] ==> (r[0] == '-' <==> !IsSlugChar(s[0]))
    decreases |s|
  {
    if s == [] then []
    else if IsSlugChar(s[0]) then [s[0]] + CollapseRuns(s[1..])
    else "-" + CollapseRuns(s[RunLength(s)..])
  }

  /** The replacement yields only [a-z0-9-] and never two hyphens in a row. */
  lemma {:induction false} CollapseShape(s: string)
    ensures SlugAlphabet(CollapseRuns(s)) && NoDoubleHyphen(CollapseRuns(s))
    decreases |s|
  {
    if s != [] {
      var t := if IsSlugChar(s[0]) then s[1..] else s[RunLength(s)..];
      var rest := CollapseRuns(t);
      CollapseShape(t);
      var r := CollapseRuns(s);
      assert r[1..] == rest;
      assert forall i :: 1 <= i < |r| ==> r[i] == rest[i - 1];
    }
  }

  /** The last character is a hyphen exactly when the input ends with a
      character outside [a-z0-9]. */
  lemma {:induction false} CollapseLast(s: string)
    requires s != []
    ensures var r := CollapseRuns(s); r[|r| - 1] == '-' <==> !IsSlugChar(s[|s| - 1])
    decreases |s|
  {
    CollapseUnfold(s);
    hide *;
    var k := if IsSlugChar(s[0]) then 1 else RunLength(s);
    if k < |s| {
      CollapseLast(s[k..]);
      assert s[k..][|s[k..]| - 1] == s[|s| - 1];
    }
  }

  /** One step of the replacement: the first character, or the hyphen for
      the run of other characters that starts `s`, then the rest. */
  lemma CollapseUnfold(s: string)
    requires s != []
    ensures var k := if IsSlugChar(s[0]) then 1 else RunLength(s);
            0 < k <= |s| &&
            CollapseRuns(s) == [if IsSlugChar(s[0]) then s[0] else '-'] + CollapseRuns(s[k..])
  {
  }

  /** The replacement keeps the letters and digits unchanged and in order. */
  lemma {:induction false} CollapseKeepsAlnums(s: string)
    ensures Alnums(CollapseRuns(s)) == Alnums(s)
    decreases |s|
  {
    if s != [] {
      if IsSlugChar(s[0]) {
        CollapseKeepsAlnums(s[1..]);
        assert [s[0]] + s[1..] == s;
        AlnumsAppend([s[0]], s[1..]);
        AlnumsAppend([s[0]], CollapseRuns(s[1..]));
      } else {
        var k := RunLength(s);
        CollapseKeepsAlnums(s[k..]);
        assert s[..k] + s[k..] == s;
        AlnumsAppend(s[..k], s[k..]);
        AlnumsOfOthers(s[..k]);
        AlnumsAppend("-", CollapseRuns(s[k..]));
      }
    }
  }

  // ---------------------------------------------------------------------
  // Stage 2: strings.Trim(s, "-")
  // ---------------------------------------------------------------------

  lemma SliceKeepsShape(s: string, a: nat, b: nat)
    requires a <= b <= |s|
    ensures SlugAlphabet(s) ==> SlugAlphabet(s[a..b])
    ensures NoDoubleHyphen(s) ==> NoDoubleHyphen(s[a..b])
  {
    var t := s[a..b];
    assert forall i :: 0 <= i < |t| ==> t[i] == s[a + i];
    if NoDoubleHyphen(s) {
      NoDoubleHyphenDrop(s, a);
      NoDoubleHyphenTake(s[a..], b - a);
      assert s[a..][..b - a] == t;
    }
  }

  lemma TrimHyphensEdges(s: string)
    ensures NoEdgeHyphen(Trim(s, Hyphens))
  {
    var a := LeadingCount(s, Hyphens);
    var l := s[a..];
    var b := TrailingCount(l, Hyphens);
    var r := l[..|l| - b];
    assert r == Trim(s, Hyphens);
    if r != [] {
      assert r[0] == l[0] == s[a];
      assert r[|r| - 1] == l[|l| - b - 1];
    }
  }

  /** Hyphens carry no letters or digits. */
  lemma AlnumsOfHyphens(s: string)
    requires forall i :: 0 <= i < |s| ==> InClass(Hyphens, s[i])
    ensures Alnums(s) == []
  {
    AlnumsOfOthers(s);
  }

  lemma AlnumsOfMiddle(x: string, y: string, z: string)
    requires Alnums(x) == [] && Alnums(z) == []
    ensures Alnums(x + y + z) == Alnums(y)
  {
    AlnumsAppend(x, y);
    AlnumsAppend(x + y, z);
  }

  lemma TrimHyphensAlnums(s: string)
    ensures Alnums(Trim(s, Hyphens)) == Alnums(s)
  {
    var l := s[LeadingCount(s, Hyphens)..];
    AlnumsDropHyphens(s, LeadingCount(s, Hyphens));
    AlnumsTakeHyphens(l, |l| - TrailingCount(l, Hyphens));
  }

  lemma AlnumsDropHyphens(s: string, a: nat)
    requires a <= |s| && forall i :: 0 <= i < a ==> InClass(Hyphens, s[i])
    ensures Alnums(s[a..]) == Alnums(s)
  {
    assert s == s[..a] + s[a..];
    AlnumsOfHyphens(s[..a]);
    AlnumsAppend(s[..a], s[a..]);
  }

  lemma AlnumsTakeHyphens(s: string, b: nat)
    requires b <= |s| && forall i :: b <= i < |s| ==> InClass(Hyphens, s[i])
    ensures Alnums(s[..b]) == Alnums(s)
  {
    assert s == s[..b] + s[b..];
    AlnumsOfHyphens(s[b..]);
    AlnumsAppend(s[..b], s[b..]);
  }

  /** `strings.Trim(s, "-")`: no hyphen is left at either end, and a string
      with none there is unchanged. */
  function TrimHyphens(s: string): (r: string)
    ensures NoEdgeHyphen(r)
    ensures NoEdgeHyphen(s) ==> r == s
  {
    TrimHyphensEdges(s);
    TrimHyphensFixed(s);
    Trim(s, Hyphens)
  }

  lemma TrimHyphensFixed(s: string)
    ensures NoEdgeHyphen(s) ==> Trim(s, Hyphens) == s
  {
    if s != [] && NoEdgeHyphen(s) {
      TrimAround("", s, "", Hyphens);
      assert "" + s + "" == s;
    }
  }

  /** Trimming keeps the slug alphabet and the single-hyphen rule. */
  lemma TrimHyphensShape(s: string)
    requires SlugAlphabet(s) && NoDoubleHyphen(s)
    ensures SlugAlphabet(TrimHyphens(s)) && NoDoubleHyphen(TrimHyphens(s))
  {
    var l := s[LeadingCount(s, Hyphens)..];
    var r := l[..|l| - TrailingCount(l, Hyphens)];
    assert r == TrimHyphens(s);
    SliceKeepsShape(s, LeadingCount(s, Hyphens), |s|);
    SliceKeepsShape(l, 0, |r|);
    assert r == l[0..|r|];
  }

  // ---------------------------------------------------------------------
  // Stage 3: the cut-back-to-a-hyphen truncation
  // ---------------------------------------------------------------------

  /** No hyphen in `s` at an index strictly between `lo` and `hi`. */
  predicate NoHyphenBetween(s: string, lo: int, hi: int) {
    forall j :: lo < j < hi && 0 <= j < |s| ==> s[j] != '-'
  }

  /** `r` is what cutting an over-long `s` produces: either the hard cut at
      `limit` (when no hyphen lies past `floor` in the first `limit`
      characters), or the cut at the last such hyphen, which is dropped. */
  predicate IsCutOf(s: string, limit: nat, floor: nat, n: nat) {
    || (n == limit && NoHyphenBetween(s, floor, limit))
    || (floor < n < limit && n < |s| && s[n] == '-' && NoHyphenBetween(s, n, limit))
  }

  /** The `if len(s) > limit { s = s[:limit]; if lastDash > floor { ... } }` rule. */
  function Truncate(s: string, limit: nat, floor: nat): (r: string)
    ensures r <= s
    ensures |r| <= limit
    ensures |s| <= limit ==> r == s
    ensures |s| > limit ==> IsCutOf(s, limit, floor, |r|)
  {
    if |s| <= limit then s
    else
      var cut := s[..limit];
      var dash := LastIndexOf(cut, '-');
      if dash > floor then cut[..dash] else cut
  }

  /** Only the first `limit` characters of an over-long input matter. */
  lemma TruncateSeesPrefix(s: string, t: string, limit: nat, floor: nat)
    requires |s| > limit && |t| > limit && s[..limit] == t[..limit]
    ensures Truncate(s, limit, floor) == Truncate(t, limit, floor)
  {
  }

  /** Truncating a hyphen-trimmed slug-alphabet string never exposes a
      hyphen at the end, provided the hyphen search covers the last kept
      position (`floor + 1 < limit`). */
  lemma TruncateKeepsShape(s: string, limit: nat, floor: nat)
    requires floor + 1 < limit
    requires SlugAlphabet(s) && NoDoubleHyphen(s) && NoEdgeHyphen(s)
    ensures SlugAlphabet(Truncate(s, limit, floor))
    ensures NoDoubleHyphen(Truncate(s, limit, floor))
    ensures NoEdgeHyphen(Truncate(s, limit, floor))
  {
    var r := Truncate(s, limit, floor);
    SliceKeepsShape(s, 0, |r|);
    assert r == s[0..|r|];
    if |s| > limit {
      assert r[|r| - 1] == s[|r| - 1];
      if |r| < limit {
        assert s[|r|] == '-';
        NoDoubleHyphenAt(s, |r| - 1);
      }
    }
  }

  // ---------------------------------------------------------------------
  // createSlug
  // ---------------------------------------------------------------------

  /** `createSlug`: lower-case, replace, trim, cut. What the result looks
      like is `SlugShape`; what it is for particular titles is the laws
      further down. */
  function Slug(title: string): (r: string)
    ensures |r| <= SlugLimit
  {
    Truncate(TrimHyphens(CollapseRuns(ToLower(title))), SlugLimit, SlugCutFloor)
  }

  /** A slug is non-hyphen-edged [a-z0-9-] text without double hyphens, and
      its letters and digits are a prefix of the lower-cased title's. */
  lemma SlugShape(title: string)
    ensures IsSlug(Slug(title))
    ensures Alnums(Slug(title)) <= Alnums(ToLower(title))
  {
    var collapsed := CollapseRuns(ToLower(title));
    CollapseShape(ToLower(title));
    CollapseKeepsAlnums(ToLower(title));
    TrimmedSlug(collapsed);
  }

  /** The last two stages keep the shape, and keep a prefix of the letters
      and digits. */
  lemma TrimmedSlug(c: string)
    requires SlugAlphabet(c) && NoDoubleHyphen(c)
    ensures IsSlug(Truncate(TrimHyphens(c), SlugLimit, SlugCutFloor))
    ensures Alnums(Truncate(TrimHyphens(c), SlugLimit, SlugCutFloor)) <= Alnums(c)
  {
    var trimmed := TrimHyphens(c);
    TrimHyphensShape(c);
    TrimHyphensAlnums(c);
    var r := Truncate(trimmed, SlugLimit, SlugCutFloor);
    TruncateKeepsShape(trimmed, SlugLimit, SlugCutFloor);
    AlnumsOfPrefix(trimmed, |r|);
    assert trimmed[..|r|] == r;
  }

  // ---------------------------------------------------------------------
  // GenerateChannelName
  // ---------------------------------------------------------------------

  /** `GenerateChannelName`: "_inc-" + the start time as "20060102-150405" +
      "-" + the slug, cut at 64 (back to a hyphen past index 50). A slug is at
      most 30 characters, so the name is at most 51 and the cut never applies:
      the name is always the full composition. */
  function GenerateChannelName(title: string, startedAt: Clock.DateTime): (r: string)
    ensures |r| <= 21 + SlugLimit < ChannelLimit
    ensures r == ChannelPrefix + Clock.Stamp(startedAt) + "-" + Slug(title)
  {
    var name := ChannelPrefix + Clock.Stamp(startedAt) + "-" + Slug(title);
    Truncate(name, ChannelLimit, ChannelCutFloor)
  }

  /** Reading the stamp and the slug back out of a composed name. */
  lemma ChannelNameParts(name: string, stamp: string, slug: string)
    requires |stamp| == 15 && name == ChannelPrefix + stamp + "-" + slug
    ensures name[5..20] == stamp && name[21..] == slug
  {
  }

  /** The name determines the start time (to the second) and the slug. */
  lemma ChannelNameInjective(t1: string, u1: Clock.DateTime, t2: string, u2: Clock.DateTime)
    ensures GenerateChannelName(t1, u1) == GenerateChannelName(t2, u2) ==> u1 == u2 && Slug(t1) == Slug(t2)
  {
    if GenerateChannelName(t1, u1) == GenerateChannelName(t2, u2) {
      var name := GenerateChannelName(t1, u1);
      ChannelNameParts(name, Clock.Stamp(u1), Slug(t1));
      ChannelNameParts(name, Clock.Stamp(u2), Slug(t2));
      Clock.StampInjective(u1, u2);
    }
  }

  /** Channel names use only [a-z0-9_-]. */
  lemma ChannelNameAlphabet(title: string, startedAt: Clock.DateTime)
    ensures var r := GenerateChannelName(title, startedAt);
            forall i :: 0 <= i < |r| ==> r[i] == '_' || r[i] == '-' || IsSlugChar(r[i])
  {
    var r := GenerateChannelName(title, startedAt);
    var st, sl := Clock.Stamp(startedAt), Slug(title);
    SlugShape(title);
    forall i | 0 <= i < |r|
      ensures r[i] == '_' || r[i] == '-' || IsSlugChar(r[i])
    {
      if 5 <= i < 20 {
        assert r[i] == st[i - 5];
      } else if 21 <= i {
        assert r[i] == sl[i - 21];
      }
    }
  }

  // ---------------------------------------------------------------------
  // Laws of the cut rule and of createSlug
  // ---------------------------------------------------------------------

  /** `IsCutOf` pins down a single cut position, so the contract of
      `Truncate` determines its result completely. */
  lemma IsCutOfUnique(s: string, limit: nat, floor: nat, m: nat, n: nat)
    requires IsCutOf(s, limit, floor, m) && IsCutOf(s, limit, floor, n)
    ensures m == n
  {
  }

  lemma {:induction false} RunLengthOf(g: string, rest: string)
    requires forall i :: 0 <= i < |g| ==> !IsSlugChar(g[i])
    requires rest == [] || IsSlugChar(rest[0])
    ensures RunLength(g + rest) == |g|
  {
    if g == [] {
      assert g + rest == rest;
    } else {
      assert (g + rest)[0] == g[0];
      assert (g + rest)[1..] == g[1..] + rest;
      RunLengthOf(g[1..], rest);
    }
  }

  /** A gap of other characters before a letter, a digit or the end
      becomes one hyphen. */
  lemma CollapseGap(g: string, rest: string)
    requires g != [] && forall i :: 0 <= i < |g| ==> !IsSlugChar(g[i])
    requires rest == [] || IsSlugChar(rest[0])
    ensures CollapseRuns(g + rest) == "-" + CollapseRuns(rest)
  {
    var s := g + rest;
    assert s[0] == g[0];
    RunLengthOf(g, rest);
    assert s[|g|..] == rest;
  }

  /** The replacement works piecewise when the first piece ends with a
      letter or digit. */
  lemma {:induction false} CollapseAppend(a: string, b: string)
    requires a != [] && IsSlugChar(a[|a| - 1])
    ensures CollapseRuns(a + b) == CollapseRuns(a) + CollapseRuns(b)
    decreases |a|, 1
  {
    if IsSlugChar(a[0]) {
      CollapseAppendWord(a, b);
    } else {
      CollapseAppendGap(a, b);
    }
  }

  lemma {:induction false} CollapseAppendWord(a: string, b: string)
    requires a != [] && IsSlugChar(a[|a| - 1]) && IsSlugChar(a[0])
    ensures CollapseRuns(a + b) == CollapseRuns(a) + CollapseRuns(b)
    decreases |a|, 0
  {
    var s := a + b;
    assert s[0] == a[0];
    assert s[1..] == a[1..] + b;
    if |a| > 1 {
      CollapseAppend(a[1..], b);
    } else {
      assert a[1..] + b == b;
    }
  }

  lemma {:induction false} CollapseAppendGap(a: string, b: string)
    requires a != [] && IsSlugChar(a[|a| - 1]) && !IsSlugChar(a[0])
    ensures CollapseRuns(a + b) == CollapseRuns(a) + CollapseRuns(b)
    decreases |a|, 0
  {
    var k := RunLength(a);
    RunLengthAppend(a, b);
    assert (a + b)[0] == a[0];
    assert (a + b)[k..] == a[k..] + b;
    assert a[k..][|a[k..]| - 1] == a[|a| - 1];
    CollapseAppend(a[k..], b);
  }

  /** A run of other characters that stops inside `a` stops at the same
      place in `a + b`. */
  lemma {:induction false} RunLengthAppend(a: string, b: string)
    requires a != [] && IsSlugChar(a[|a| - 1])
    ensures RunLength(a) < |a| && RunLength(a + b) == RunLength(a)
  {
    assert (a + b)[0] == a[0];
    if !IsSlugChar(a[0]) {
      assert a[1..] != [] && a[1..][|a[1..]| - 1] == a[|a| - 1];
      RunLengthAppend(a[1..], b);
      assert (a + b)[1..] == a[1..] + b;
    }
  }

  /** A string that already has the replacement's output shape is unchanged. */
  lemma {:induction false} CollapseFixed(s: string)
    requires SlugAlphabet(s) && NoDoubleHyphen(s)
    ensures CollapseRuns(s) == s
  {
    if s != [] {
      SliceKeepsShape(s, 1, |s|);
      CollapseFixed(s[1..]);
      if !IsSlugChar(s[0]) {
        assert s[0] == '-';
        assert |s| > 1 ==> s[1] != '-' && IsSlugChar(s[1]);
        RunLengthOf([s[0]], s[1..]);
        assert [s[0]] + s[1..] == s;
      }
    }
  }

  /** Every slug is its own slug. */
  lemma SlugIdentity(s: string)
    requires IsSlug(s)
    ensures Slug(s) == s
  {
    LowerOfSlug(s);
    CollapseFixed(s);
  }

  lemma LowerOfSlug(s: string)
    requires SlugAlphabet(s)
    ensures ToLower(s) == s
  {
    assert forall i :: 0 <= i < |s| ==> LowerChar(s[i]) == s[i];
  }

  /** `createSlug` is idempotent. */
  lemma SlugIdempotent(title: string)
    ensures Slug(Slug(title)) == Slug(title)
  {
    SlugShape(title);
    SlugIdentity(Slug(title));
  }

  /** A title whose replaced form is a slug wrapped in hyphens slugs to that
      slug. */
  lemma SlugOfWrapped(title: string, p: string, core: string, q: string)
    requires CollapseRuns(ToLower(title)) == p + core + q
    requires forall i :: 0 <= i < |p| ==> p[i] == '-'
    requires forall i :: 0 <= i < |q| ==> q[i] == '-'
    requires core != [] && IsSlug(core)
    ensures Slug(title) == core
  {
    TrimAround(p, core, q, Hyphens);
  }

  /** Once the lower-cased title starts with a piece, bounded by letters or
      digits, whose replaced form is longer than the limit, only that piece
      decides the slug. */
  lemma SlugOfLong(title: string, p: string, q: string)
    requires ToLower(title) == p + q
    requires p != [] && IsSlugChar(p[0]) && IsSlugChar(p[|p| - 1])
    requires |CollapseRuns(p)| > SlugLimit
    ensures Slug(title) == Truncate(CollapseRuns(p), SlugLimit, SlugCutFloor)
  {
    SlugOfSplit(title, p, q);
    TruncateCollapsedHead(p, q);
  }

  lemma TruncateCollapsedHead(p: string, q: string)
    requires p != [] && IsSlugChar(p[0]) && IsSlugChar(p[|p| - 1])
    requires |CollapseRuns(p)| > SlugLimit
    ensures Truncate(TrimHyphens(CollapseRuns(p) + CollapseRuns(q)), SlugLimit, SlugCutFloor)
            == Truncate(CollapseRuns(p), SlugLimit, SlugCutFloor)
  {
    hide *;
    CollapseEdges(p);
    TruncateTrimmedCore(CollapseRuns(p), CollapseRuns(q));
  }

  lemma SlugOfSplit(title: string, p: string, q: string)
    requires ToLower(title) == p + q
    requires p != [] && IsSlugChar(p[|p| - 1])
    ensures Slug(title) == Truncate(TrimHyphens(CollapseRuns(p) + CollapseRuns(q)), SlugLimit, SlugCutFloor)
  {
    CollapseAppend(p, q);
    SlugOfCollapsed(title, CollapseRuns(p) + CollapseRuns(q));
  }

  lemma TruncateTrimmedCore(core: string, tail: string)
    requires |core| > SlugLimit && core[0] != '-' && core[|core| - 1] != '-'
    ensures Truncate(TrimHyphens(core + tail), SlugLimit, SlugCutFloor) == Truncate(core, SlugLimit, SlugCutFloor)
  {
    TrimKeepsCore(core, tail, Hyphens);
    var trimmed := TrimHyphens(core + tail);
    assert trimmed[..SlugLimit] == core[..SlugLimit];
    TruncateSeesPrefix(trimmed, core, SlugLimit, SlugCutFloor);
  }

  /** Letters or digits at both ends stay at both ends after replacement. */
  lemma CollapseEdges(p: string)
    requires p != [] && IsSlugChar(p[0]) && IsSlugChar(p[|p| - 1])
    ensures var c := CollapseRuns(p); c != [] && c[0] != '-' && c[|c| - 1] != '-'
  {
    CollapseLast(p);
  }

  /** `createSlug` as the last two stages applied to the replaced form. */
  lemma SlugOfCollapsed(title: string, c: string)
    requires CollapseRuns(ToLower(title)) == c
    ensures Slug(title) == Truncate(TrimHyphens(c), SlugLimit, SlugCutFloor)
  {
  }

  /** Cutting an over-long string whose last hyphen before the limit lies
      past the floor at `n` keeps exactly the first `n` characters. */
  lemma TruncateAtHyphen(s: string, limit: nat, floor: nat, n: nat)
    requires |s| > limit && floor < n < limit && s[n] == '-'
    requires NoHyphenBetween(s, n, limit)
    ensures Truncate(s, limit, floor) == s[..n]
  {
    var r := Truncate(s, limit, floor);
    IsCutOfUnique(s, limit, floor, |r|, n);
  }

  // ---------------------------------------------------------------------
  // Titles made of words and gaps
  // ---------------------------------------------------------------------

  /** A non-empty run of letters and digits. */
  predicate IsSlugWord(w: string) {
    w != [] && forall i :: 0 <= i < |w| ==> IsSlugChar(w[i])
  }

  lemma {:induction false} SlugWordShape(w: string)
    requires forall i :: 0 <= i < |w| ==> IsSlugChar(w[i])
    ensures SlugAlphabet(w) && NoDoubleHyphen(w)
  {
    if |w| >= 2 {
      SlugWordShape(w[1..]);
    }
  }

  /** A non-empty run of characters outside [a-z0-9]. */
  predicate IsGap(g: string) {
    g != [] && forall i :: 0 <= i < |g| ==> !IsSlugChar(g[i])
  }

  /** `ws[0] + gs[0] + ws[1] + ... + ws[n]`. */
  function Interleave(ws: seq<string>, gs: seq<string>): string
    requires |ws| == |gs| + 1
  {
    if |gs| == 0 then ws[0] else ws[0] + gs[0] + Interleave(ws[1..], gs[1..])
  }

  lemma {:induction false} InterleaveEnds(ws: seq<string>, gs: seq<string>)
    requires |ws| == |gs| + 1
    requires forall i :: 0 <= i < |ws| ==> IsSlugWord(ws[i])
    ensures var t := Interleave(ws, gs);
            t != [] && IsSlugChar(t[0]) && IsSlugChar(t[|t| - 1])
  {
    assert IsSlugWord(ws[0]);
    if |gs| > 0 {
      InterleaveEnds(ws[1..], gs[1..]);
    }
  }

  /** One word and the gap after it become the word and one hyphen. */
  lemma CollapseWordGap(w: string, g: string, rest: string)
    requires IsSlugWord(w) && IsGap(g)
    requires rest != [] && IsSlugChar(rest[0])
    ensures CollapseRuns(w + g + rest) == w + "-" + CollapseRuns(rest)
  {
    CollapseWord(w);
    assert w + g + rest == w + (g + rest);
    CollapseAppend(w, g + rest);
    CollapseGap(g, rest);
  }

  lemma CollapseWord(w: string)
    requires IsSlugWord(w)
    ensures CollapseRuns(w) == w && IsSlugChar(w[|w| - 1])
  {
    SlugWordShape(w);
    CollapseFixed(w);
  }

  /** Words separated by gaps become the words joined by single hyphens. */
  lemma {:induction false} CollapseWords(ws: seq<string>, gs: seq<string>)
    requires |ws| == |gs| + 1
    requires forall i :: 0 <= i < |ws| ==> IsSlugWord(ws[i])
    requires forall i :: 0 <= i < |gs| ==> IsGap(gs[i])
    ensures CollapseRuns(Interleave(ws, gs)) == Join(ws, "-")
  {
    assert IsSlugWord(ws[0]);
    if |gs| == 0 {
      CollapseWord(ws[0]);
    } else {
      var rest := Interleave(ws[1..], gs[1..]);
      CollapseWords(ws[1..], gs[1..]);
      InterleaveEnds(ws[1..], gs[1..]);
      assert IsGap(gs[0]);
      CollapseWordGap(ws[0], gs[0], rest);
    }
  }

  /** The hyphen an optional outer gap turns into. */
  function Marker(g: string): string {
    if g == [] then "" else "-"
  }

  /** A trailing gap after the last word becomes one more hyphen. */
  lemma CollapseWordsThen(ws: seq<string>, gs: seq<string>, post: string)
    requires |ws| == |gs| + 1
    requires forall i :: 0 <= i < |ws| ==> IsSlugWord(ws[i])
    requires forall i :: 0 <= i < |gs| ==> IsGap(gs[i])
    requires post == [] || IsGap(post)
    ensures CollapseRuns(Interleave(ws, gs) + post) == Join(ws, "-") + Marker(post)
  {
    CollapseWords(ws, gs);
    InterleaveEnds(ws, gs);
    CollapseAppend(Interleave(ws, gs), post);
    if post != [] {
      CollapseGap(post, "");
      assert post + "" == post;
    } else {
      assert Interleave(ws, gs) + post == Interleave(ws, gs);
    }
  }

  /** The same with an optional gap before the first word as well: each
      outer gap becomes one more hyphen. */
  lemma CollapseFramed(pre: string, ws: seq<string>, gs: seq<string>, post: string)
    requires |ws| == |gs| + 1
    requires forall i :: 0 <= i < |ws| ==> IsSlugWord(ws[i])
    requires forall i :: 0 <= i < |gs| ==> IsGap(gs[i])
    requires pre == [] || IsGap(pre)
    requires post == [] || IsGap(post)
    ensures CollapseRuns(pre + Interleave(ws, gs) + post) == Marker(pre) + (Join(ws, "-") + Marker(post))
  {
    CollapseWordsThen(ws, gs, post);
    InterleaveEnds(ws, gs);
    CollapseFront(pre, Interleave(ws, gs), post, Join(ws, "-") + Marker(post));
  }

  /** An optional gap in front of text that starts with a letter or digit
      adds its hyphen in front of the replaced text. */
  lemma CollapseFront(pre: string, body: string, post: string, c: string)
    requires pre == [] || IsGap(pre)
    requires body != [] && IsSlugChar(body[0])
    requires CollapseRuns(body + post) == c
    ensures CollapseRuns(pre + body + post) == Marker(pre) + c
  {
    if pre == [] {
      assert pre + body + post == body + post;
      assert Marker(pre) + c == c;
    } else {
      assert (body + post)[0] == body[0];
      assert pre + body + post == pre + (body + post);
      CollapseGap(pre, body + post);
    }
  }

  /** Words of letters and digits joined by single hyphens form a slug body:
      [a-z0-9-], no double hyphen, a letter or digit at both ends. */
  lemma JoinedWordsShape(ws: seq<string>, gs: seq<string>)
    requires |ws| == |gs| + 1
    requires forall i :: 0 <= i < |ws| ==> IsSlugWord(ws[i])
    requires forall i :: 0 <= i < |gs| ==> IsGap(gs[i])
    ensures Join(ws, "-") != [] && NoEdgeHyphen(Join(ws, "-"))
    ensures SlugAlphabet(Join(ws, "-")) && NoDoubleHyphen(Join(ws, "-"))
  {
    CollapseWords(ws, gs);
    CollapseShape(Interleave(ws, gs));
    InterleaveEnds(ws, gs);
    CollapseEdges(Interleave(ws, gs));
  }

  /** A title that lower-cases to words separated by gaps, with an optional
      gap at either end, slugs to the words joined by hyphens when that fits
      in 30 characters. */
  lemma SlugOfWords(title: string, pre: string, ws: seq<string>, gs: seq<string>, post: string)
    requires |ws| == |gs| + 1
    requires forall i :: 0 <= i < |ws| ==> IsSlugWord(ws[i])
    requires forall i :: 0 <= i < |gs| ==> IsGap(gs[i])
    requires pre == [] || IsGap(pre)
    requires post == [] || IsGap(post)
    requires ToLower(title) == pre + Interleave(ws, gs) + post
    requires |Join(ws, "-")| <= SlugLimit
    ensures Slug(title) == Join(ws, "-")
  {
    hide CollapseRuns, Interleave, Join, Slug, ToLower;
    CollapseFramed(pre, ws, gs, post);
    JoinedWordsShape(ws, gs);
    MarkersAreHyphens(pre, post);
    assert Marker(pre) + (Join(ws, "-") + Marker(post)) == Marker(pre) + Join(ws, "-") + Marker(post);
    SlugOfWrapped(title, Marker(pre), Join(ws, "-"), Marker(post));
  }

  lemma MarkersAreHyphens(pre: string, post: string)
    ensures forall i :: 0 <= i < |Marker(pre)| ==> Marker(pre)[i] == '-'
    ensures forall i :: 0 <= i < |Marker(post)| ==> Marker(post)[i] == '-'
  {
  }

  /** A title that lower-cases to words separated by gaps, with an optional
      gap in front and anything at all after them, slugs to the cut of the
      joined words once they are longer than 30 characters. */
  lemma SlugOfLongWords(title: string, pre: string, ws: seq<string>, gs: seq<string>, q: string)
    requires |ws| == |gs| + 1
    requires forall i :: 0 <= i < |ws| ==> IsSlugWord(ws[i])
    requires forall i :: 0 <= i < |gs| ==> IsGap(gs[i])
    requires pre == [] || IsGap(pre)
    requires ToLower(title) == pre + Interleave(ws, gs) + q
    requires |Join(ws, "-")| > SlugLimit
    ensures Slug(title) == Truncate(Join(ws, "-"), SlugLimit, SlugCutFloor)
  {
    hide CollapseRuns, Interleave, Join, Slug, ToLower, TrimHyphens, Truncate;
    var body := Interleave(ws, gs);
    var joined := Join(ws, "-");
    InterleaveEnds(ws, gs);
    CollapseWords(ws, gs);
    CollapseAppend(body, q);
    CollapseFront(pre, body, q, joined + CollapseRuns(q));
    JoinedWordsShape(ws, gs);
    SlugOfCollapsed(title, Marker(pre) + (joined + CollapseRuns(q)));
    LongCoreAfterMarker(pre, joined, CollapseRuns(q));
  }

  /** The hyphen an outer gap leaves in front of an over-long core is
      trimmed, and the cut then sees the core alone. */
  lemma LongCoreAfterMarker(pre: string, core: string, tail: string)
    requires |core| > SlugLimit && core[0] != '-' && core[|core| - 1] != '-'
    ensures Truncate(TrimHyphens(Marker(pre) + (core + tail)), SlugLimit, SlugCutFloor)
         == Truncate(core, SlugLimit, SlugCutFloor)
  {
    hide Truncate;
    MarkersAreHyphens(pre, pre);
    assert (core + tail)[0] == core[0];
    TrimDropsLead(Marker(pre), core + tail, Hyphens);
    TruncateTrimmedCore(core, tail);
  }
}
