/**
 * String helpers with the meaning of the Go standard-library functions the
 * bot relies on: `unicode.IsSpace`, `strings.Fields`, `strings.Join`,
 * `strings.Index`/`Contains`, `strings.LastIndex`, `strings.TrimSpace`,
 * `strings.Trim`, ASCII `strings.ToLower`/`ToUpper`, and `%d`/`%x` rendering.
 *
 * Strings are sequences of Unicode scalar values. The bot only measures the
 * length of strings that are pure ASCII (slugs and channel names), where the
 * Go byte length and the character count agree.
 */
module Strings {
  import opened Wrappers

  // ---------------------------------------------------------------------
  // Character classes
  // ---------------------------------------------------------------------

  /** `unicode.IsSpace`: the six ASCII blanks, NEL, NBSP and the remaining
      Unicode White_Space characters. */
  predicate IsSpace(c: char) {
    || c == ' ' || c == '\t' || c == '\n' || c == '\U{0B}' || c == '\U{0C}' || c == '\r'
    || c == '\U{85}' || c == '\U{A0}' || c == '\U{1680}'
    || ('\U{2000}' <= c <= '\U{200A}')
    || c == '\U{2028}' || c == '\U{2029}' || c == '\U{202F}' || c == '\U{205F}' || c == '\U{3000}'
  }

  predicate IsAsciiUpper(c: char) { 'A' <= c <= 'Z' }

  predicate IsAsciiLower(c: char) { 'a' <= c <= 'z' }

  predicate IsDigit(c: char) { '0' <= c <= '9' }

  function LowerChar(c: char): char {
    if IsAsciiUpper(c) then (c as int + 32) as char else c
  }

  function UpperChar(c: char): char {
    if IsAsciiLower(c) then (c as int - 32) as char else c
  }

  /** `strings.ToLower`, restricted to the ASCII case mapping. */
  function ToLower(s: string): (r: string)
    ensures |r| == |s|
    ensures forall i :: 0 <= i < |s| ==> r[i] == LowerChar(s[i])
  {
    seq(|s|, i requires 0 <= i < |s| => LowerChar(s[i]))
  }

  /** `strings.ToUpper`, restricted to the ASCII case mapping. */
  function ToUpper(s: string): (r: string)
    ensures |r| == |s|
    ensures forall i :: 0 <= i < |s| ==> r[i] == UpperChar(s[i])
  {
    seq(|s|, i requires 0 <= i < |s| => UpperChar(s[i]))
  }

  lemma ToLowerAppend(a: string, b: string)
    ensures ToLower(a + b) == ToLower(a) + ToLower(b)
  {
  }

  // ---------------------------------------------------------------------
  // Searching
  // ---------------------------------------------------------------------

  /** `pat` occurs in `s` starting at index `i`. */
  predicate OccursAt(s: string, pat: string, i: int) {
    0 <= i && i + |pat| <= |s| && s[i..i + |pat|] == pat
  }

  /** The first occurrence of `pat` in `s` at or after `from`. */
  function FindFrom(s: string, pat: string, from: nat): (r: Option<nat>)
    ensures r.Some? ==> from <= r.value && OccursAt(s, pat, r.value)
    ensures r.Some? ==> forall j :: from <= j < r.value ==> !OccursAt(s, pat, j)
    ensures r.None? ==> forall j :: from <= j ==> !OccursAt(s, pat, j)
    decreases |s| - from
  {
    if from + |pat| > |s| then None
    else if s[from..from + |pat|] == pat then Some(from)
    else FindFrom(s, pat, from + 1)
  }

  /** `strings.Index`: the first occurrence of `pat` in `s`, if any. */
  function Find(s: string, pat: string): (r: Option<nat>)
    ensures r.Some? ==> OccursAt(s, pat, r.value)
    ensures r.Some? ==> forall j :: 0 <= j < r.value ==> !OccursAt(s, pat, j)
    ensures r.None? <==> forall j :: !OccursAt(s, pat, j)
  {
    FindFrom(s, pat, 0)
  }

  /** `strings.HasPrefix`. */
  predicate HasPrefix(s: string, prefix: string) {
    prefix <= s
  }

  /** `strings.Contains`. */
  predicate Contains(s: string, pat: string) {
    Find(s, pat).Some?
  }

  /** Occurrences that end inside a prefix `c` of `s` are the same in both. */
  lemma OccursInPrefix(s: string, c: string, pat: string, j: nat)
    requires c <= s && j + |pat| <= |c|
    ensures OccursAt(s, pat, j) <==> OccursAt(c, pat, j)
  {
    assert s[j..j + |pat|] == c[j..j + |pat|];
  }

  /** In `a + pat + b`, the first `pat` is the one right after `a`, unless an
      earlier one starts inside `a` (it would then end by `a + pat` minus its
      last character). */
  lemma FindAfter(a: string, pat: string, b: string)
    requires pat != []
    requires !Contains(a + pat[..|pat| - 1], pat)
    ensures Find(a + pat + b, pat) == Some(|a|)
  {
    var s := a + pat + b;
    var c := a + pat[..|pat| - 1];
    assert s[|a|..|a| + |pat|] == pat;
    assert c <= s;
    forall j: nat | j < |a|
      ensures !OccursAt(s, pat, j)
    {
      OccursInPrefix(s, c, pat, j);
      assert !OccursAt(c, pat, j);
    }
    var r := Find(s, pat);
    assert OccursAt(s, pat, |a|);
    assert r.Some?;
    assert !(r.value < |a|) && !(r.value > |a|);
  }

  /** `strings.LastIndex` for a one-character pattern: -1 when absent. */
  function LastIndexOf(s: string, c: char): (r: int)
    ensures -1 <= r < |s|
    ensures r >= 0 ==> s[r] == c
    ensures forall j :: r < j < |s| ==> s[j] != c
  {
    if s == [] then -1
    else if s[|s| - 1] == c then |s| - 1
    else LastIndexOf(s[..|s| - 1], c)
  }

  // ---------------------------------------------------------------------
  // Trimming
  // ---------------------------------------------------------------------

  /** The two character sets the bot trims: `unicode.IsSpace` for
      `strings.TrimSpace`, and the cutset "-" for `strings.Trim(s, "-")`. */
  datatype CharClass = Spaces | Hyphens

  predicate InClass(cls: CharClass, c: char) {
    match cls
    case Spaces => IsSpace(c)
    case Hyphens => c == '-'
  }

  /** Number of leading characters of class `cls`. */
  function LeadingCount(s: string, cls: CharClass): (k: nat)
    ensures k <= |s|
    ensures forall i :: 0 <= i < k ==> InClass(cls, s[i])
    ensures k == |s| || !InClass(cls, s[k])
  {
    if s == [] || !InClass(cls, s[0]) then 0 else 1 + LeadingCount(s[1..], cls)
  }

  /** Number of trailing characters of class `cls`. */
  function TrailingCount(s: string, cls: CharClass): (k: nat)
    ensures k <= |s|
    ensures forall i :: |s| - k <= i < |s| ==> InClass(cls, s[i])
    ensures k == |s| || !InClass(cls, s[|s| - k - 1])
  {
    if s == [] || !InClass(cls, s[|s| - 1]) then 0 else 1 + TrailingCount(s[..|s| - 1], cls)
  }

  /** Drops the leading characters of class `cls`. */
  function TrimLeft(s: string, cls: CharClass): string {
    s[LeadingCount(s, cls)..]
  }

  /** Drops the trailing characters of class `cls`. */
  function TrimRight(s: string, cls: CharClass): string {
    s[..|s| - TrailingCount(s, cls)]
  }

  /** `strings.Trim` / `strings.TrimFunc`: drops both ends of class `cls`. */
  function Trim(s: string, cls: CharClass): string {
    TrimRight(TrimLeft(s, cls), cls)
  }

  /** A run of class characters followed by a non-class character (or
      nothing) is exactly the leading run. */
  lemma {:induction false} LeadingCountOf(p: string, rest: string, cls: CharClass)
    requires forall i :: 0 <= i < |p| ==> InClass(cls, p[i])
    requires rest == [] || !InClass(cls, rest[0])
    ensures LeadingCount(p + rest, cls) == |p|
  {
    if p == [] {
      assert p + rest == rest;
    } else {
      assert (p + rest)[0] == p[0];
      assert (p + rest)[1..] == p[1..] + rest;
      LeadingCountOf(p[1..], rest, cls);
    }
  }

  /** Mirror image of `LeadingCountOf`. */
  lemma {:induction false} TrailingCountOf(rest: string, q: string, cls: CharClass)
    requires forall i :: 0 <= i < |q| ==> InClass(cls, q[i])
    requires rest == [] || !InClass(cls, rest[|rest| - 1])
    ensures TrailingCount(rest + q, cls) == |q|
  {
    if q == [] {
      assert rest + q == rest;
    } else {
      var s := rest + q;
      assert s[|s| - 1] == q[|q| - 1];
      assert s[..|s| - 1] == rest + q[..|q| - 1];
      TrailingCountOf(rest, q[..|q| - 1], cls);
    }
  }

  /** Trimming strips exactly the class runs wrapped around a core whose
      ends are outside the class. */
  lemma TrimAround(p: string, core: string, q: string, cls: CharClass)
    requires forall i :: 0 <= i < |p| ==> InClass(cls, p[i])
    requires forall i :: 0 <= i < |q| ==> InClass(cls, q[i])
    requires core != [] && !InClass(cls, core[0]) && !InClass(cls, core[|core| - 1])
    ensures Trim(p + core + q, cls) == core
  {
    var s := p + core + q;
    assert s == p + (core + q);
    assert (core + q)[0] == core[0];
    LeadingCountOf(p, core + q, cls);
    assert s[|p|..] == core + q;
    TrailingCountOf(core, q, cls);
    assert (core + q)[..|core|] == core;
  }

  /** A prefix whose ends are outside the class survives trimming. */
  /** Class characters in front of text that does not start with one are
      trimmed away. */
  lemma TrimDropsLead(p: string, s: string, cls: CharClass)
    requires forall i :: 0 <= i < |p| ==> InClass(cls, p[i])
    requires s != [] && !InClass(cls, s[0])
    ensures Trim(p + s, cls) == Trim(s, cls)
  {
    LeadingCountOf(p, s, cls);
    assert (p + s)[|p|..] == s;
    LeadingCountOf([], s, cls);
    assert [] + s == s;
  }

  lemma TrimKeepsCore(core: string, rest: string, cls: CharClass)
    requires core != [] && !InClass(cls, core[0]) && !InClass(cls, core[|core| - 1])
    ensures core <= Trim(core + rest, cls)
  {
    var s := core + rest;
    assert s[0] == core[0];
    assert LeadingCount(s, cls) == 0;
    assert s[|core| - 1] == core[|core| - 1];
    var k := TrailingCount(s, cls);
    assert k <= |rest|;
  }

  /** Neither end of `s` is a space. */
  predicate NoEdgeSpace(s: string) {
    s == [] || (!IsSpace(s[0]) && !IsSpace(s[|s| - 1]))
  }

  /** `strings.TrimSpace`. */
  function TrimSpace(s: string): (r: string)
    ensures NoEdgeSpace(r)
    ensures r == [] <==> forall i :: 0 <= i < |s| ==> IsSpace(s[i])
    ensures NoEdgeSpace(s) ==> r == s
  {
    Trim(s, Spaces)
  }

  // ---------------------------------------------------------------------
  // Fields and Join
  // ---------------------------------------------------------------------

  /** A non-empty run of non-space characters: what `strings.Fields` yields. */
  predicate IsWord(w: string) {
    w != [] && forall i :: 0 <= i < |w| ==> !IsSpace(w[i])
  }

  /** Printable ASCII without the space is a word. */
  lemma PrintableWord(w: string)
    requires w != [] && forall i :: 0 <= i < |w| ==> '!' <= w[i] <= '~'
    ensures IsWord(w)
  {
  }

  /** Length of the run of non-space characters that starts `s`. */
  function WordLength(s: string): (n: nat)
    ensures n <= |s|
    ensures forall i :: 0 <= i < n ==> !IsSpace(s[i])
    ensures n == |s| || IsSpace(s[n])
  {
    if s == [] || IsSpace(s[0]) then 0 else 1 + WordLength(s[1..])
  }

  /** `strings.Fields`: the maximal runs of non-space characters, in order. */
  function Fields(s: string): (r: seq<string>)
    ensures forall i :: 0 <= i < |r| ==> IsWord(r[i])
    decreases |s|
  {
    var t := TrimLeft(s, Spaces);
    if t == [] then []
    else
      var n := WordLength(t);
      assert n > 0;
      var w := t[..n];
      assert IsWord(w);
      [w] + Fields(t[n..])
  }

  /** `strings.Join`. */
  function Join(parts: seq<string>, sep: string): string {
    if |parts| == 0 then ""
    else if |parts| == 1 then parts[0]
    else parts[0] + sep + Join(parts[1..], sep)
  }

  lemma {:induction false} WordLengthOfWord(w: string, rest: string)
    requires IsWord(w)
    requires rest == [] || IsSpace(rest[0])
    ensures WordLength(w + rest) == |w|
  {
    var s := w + rest;
    assert forall i :: 0 <= i < |w| ==> s[i] == w[i];
    if rest != [] {
      assert s[|w|] == rest[0];
    }
  }

  lemma FieldsSkipsSpace(s: string)
    ensures Fields([' '] + s) == Fields(s)
  {
    var t := [' '] + s;
    assert t[1..] == s;
    assert TrimLeft(t, Spaces) == TrimLeft(s, Spaces);
  }

  lemma FieldsOfEmpty()
    ensures Fields("") == []
  {
  }

  /** A word followed by a space contributes exactly itself as the first field. */
  lemma FieldsCons(w: string, rest: string)
    requires IsWord(w)
    ensures Fields(w + " " + rest) == [w] + Fields(rest)
  {
    var tail := [' '] + rest;
    var s := w + tail;
    assert w + " " + rest == s;
    assert s[0] == w[0];
    assert LeadingCount(s, Spaces) == 0;
    assert TrimLeft(s, Spaces) == s;
    WordLengthOfWord(w, tail);
    assert s[..|w|] == w;
    assert s[|w|..] == tail;
    FieldsSkipsSpace(rest);
  }

  lemma FieldsOfWord(w: string)
    requires IsWord(w)
    ensures Fields(w) == [w]
  {
    assert TrimLeft(w, Spaces) == w;
    WordLengthOfWord(w, "");
    assert w + "" == w;
    assert w[|w|..] == "";
  }

  /** `strings.Fields` undoes a single-space `strings.Join` of words. */
  lemma {:induction false} FieldsOfJoin(ws: seq<string>)
    requires forall i :: 0 <= i < |ws| ==> IsWord(ws[i])
    ensures Fields(Join(ws, " ")) == ws
  {
    if |ws| == 1 {
      FieldsOfWord(ws[0]);
    } else if |ws| > 1 {
      FieldsOfJoin(ws[1..]);
      FieldsOfJoinStep(ws);
    }
  }

  lemma FieldsOfJoinStep(ws: seq<string>)
    requires |ws| > 1 && IsWord(ws[0])
    requires Fields(Join(ws[1..], " ")) == ws[1..]
    ensures Fields(Join(ws, " ")) == ws
  {
    var rest := Join(ws[1..], " ");
    assert Join(ws, " ") == ws[0] + " " + rest;
    FieldsCons(ws[0], rest);
    assert [ws[0]] + ws[1..] == ws;
  }

  /** Joins of two and three parts, spelled out. */
  lemma Join2(a: string, b: string, sep: string)
    ensures Join([a, b], sep) == a + sep + b
  {
    assert [a, b][1..] == [b];
  }

  lemma Join3(a: string, b: string, c: string, sep: string)
    ensures Join([a, b, c], sep) == a + sep + b + sep + c
  {
    assert [a, b, c][1..] == [b, c];
    Join2(b, c, sep);
    assert Join([a, b, c], sep) == a + sep + (b + sep + c);
  }

  lemma {:induction false} JoinAppend(a: seq<string>, b: seq<string>, sep: string)
    requires |a| > 0 && |b| > 0
    ensures Join(a + b, sep) == Join(a, sep) + sep + Join(b, sep)
  {
    if |a| == 1 {
      assert (a + b)[1..] == b;
    } else {
      assert (a + b)[1..] == a[1..] + b;
      JoinAppend(a[1..], b, sep);
    }
  }

  /** A single-space join of words is non-empty and has no space at either end. */
  lemma {:induction false} JoinOfWords(ws: seq<string>)
    requires |ws| > 0
    requires forall i :: 0 <= i < |ws| ==> IsWord(ws[i])
    ensures Join(ws, " ") != []
    ensures NoEdgeSpace(Join(ws, " "))
  {
    if |ws| > 1 {
      JoinOfWords(ws[1..]);
      var tail := Join(ws[1..], " ");
      assert Join(ws, " ") == ws[0] + " " + tail;
      assert Join(ws, " ")[|Join(ws, " ")| - 1] == tail[|tail| - 1];
    }
  }

  // ---------------------------------------------------------------------
  // Number rendering
  // ---------------------------------------------------------------------

  function DigitChar(d: nat): char
    requires d < 10
  {
    "0123456789"[d]
  }

  /** `%d` of a natural number. */
  function NatToString(n: nat): (r: string)
    ensures r != []
    ensures forall i :: 0 <= i < |r| ==> IsDigit(r[i])
    ensures |r| > 1 ==> r[0] != '0'
  {
    if n < 10 then [DigitChar(n)] else NatToString(n / 10) + [DigitChar(n % 10)]
  }

  /** `%d` of an integer: a minus sign, then the digits of the magnitude. */
  function IntToString(n: int): string {
    if n < 0 then "-" + NatToString(-n) else NatToString(n)
  }

  /** The value of a string of decimal digits. */
  function ParseDigits(s: string): nat
    requires forall i :: 0 <= i < |s| ==> IsDigit(s[i])
  {
    if s == [] then 0
    else
      var last := s[|s| - 1];
      assert IsDigit(last);
      10 * ParseDigits(s[..|s| - 1]) + (last as int - '0' as int)
  }

  /** Decimal rendering is read back to the same number, so it is injective. */
  lemma {:induction false} ParseNatToString(n: nat)
    ensures ParseDigits(NatToString(n)) == n
  {
    if n >= 10 {
      var r := NatToString(n);
      assert r[..|r| - 1] == NatToString(n / 10);
      ParseNatToString(n / 10);
    }
  }

  lemma NatToStringInjective(a: nat, b: nat)
    requires NatToString(a) == NatToString(b)
    ensures a == b
  {
    ParseNatToString(a);
    ParseNatToString(b);
  }

  lemma IntToStringInjective(a: int, b: int)
    requires IntToString(a) == IntToString(b)
    ensures a == b
  {
    var s := IntToString(a);
    if a < 0 {
      assert s[0] == '-';
      if b < 0 {
        assert s[1..] == NatToString(-a);
        assert IntToString(b)[1..] == NatToString(-b);
        NatToStringInjective(-a, -b);
      }
    } else {
      assert IsDigit(s[0]);
      if b >= 0 {
        NatToStringInjective(a, b);
      }
    }
  }

  /** `%02x` of one byte: two lower-case hexadecimal digits. */
  function HexByte(b: bv8): (r: string)
    ensures |r| == 2
  {
    var digits := "0123456789abcdef";
    [digits[(b >> 4) as int], digits[(b & 0xF) as int]]
  }

  /** `%x` of a byte slice. */
  function Hex(bytes: seq<bv8>): (r: string)
    ensures |r| == 2 * |bytes|
  {
    if bytes == [] then "" else HexByte(bytes[0]) + Hex(bytes[1..])
  }

  /** The value of a lower-case hexadecimal digit. */
  function HexValue(c: char): int {
    if '0' <= c <= '9' then c as int - '0' as int else c as int - 'a' as int + 10
  }

  lemma HexDigitValue(d: bv8)
    requires d < 16
    ensures HexValue("0123456789abcdef"[d as int]) == d as int
  {
  }

  lemma HexByteInjective(a: bv8, b: bv8)
    requires HexByte(a) == HexByte(b)
    ensures a == b
  {
    HexDigitValue(a >> 4);
    HexDigitValue(b >> 4);
    HexDigitValue(a & 0xF);
    HexDigitValue(b & 0xF);
    assert a >> 4 == b >> 4 && a & 0xF == b & 0xF;
  }

  /** Two byte slices of the same length with the same hex are equal. */
  lemma {:induction false} HexInjective(a: seq<bv8>, b: seq<bv8>)
    requires |a| == |b| && Hex(a) == Hex(b)
    ensures a == b
  {
    if a != [] {
      var ha, hb := Hex(a), Hex(b);
      assert ha[..2] == HexByte(a[0]) && hb[..2] == HexByte(b[0]);
      assert ha[2..] == Hex(a[1..]) && hb[2..] == Hex(b[1..]);
      HexByteInjective(a[0], b[0]);
      HexInjective(a[1..], b[1..]);
      assert a == [a[0]] + a[1..];
      assert b == [b[0]] + b[1..];
    }
  }
}
