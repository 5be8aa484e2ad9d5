/** The handful of Python `str` operations the prompt rewriter relies on, written
    out over `seq<char>`: `strip`, `rstrip(c)`, `upper`, `in`, `find`, `join`,
    `split` and the truthiness of optional strings and lists. */
module PyStr {
  import opened Wrappers

  /** `str.isspace()` for one character: the code points CPython treats as
      whitespace (Unicode White_Space plus the ASCII separators 0x1C-0x1F). */
  predicate IsSpace(c: char) {
    || ('\t' <= c <= '\r')
    || ('\U{1C}' <= c <= ' ')
    || c == '\U{85}' || c == '\U{A0}' || c == '\U{1680}'
    || ('\U{2000}' <= c <= '\U{200A}')
    || c == '\U{2028}' || c == '\U{2029}' || c == '\U{202F}' || c == '\U{205F}'
    || c == '\U{3000}'
  }

  predicate AllSpace(s: string) {
    forall i :: 0 <= i < |s| ==> IsSpace(s[i])
  }

  /** Neither the first nor the last character is whitespace. */
  predicate NoEdgeSpace(s: string) {
    s == [] || (!IsSpace(s[0]) && !IsSpace(s[|s| - 1]))
  }

  /** The first index at or after `i` that does not hold whitespace. */
  function SkipSpace(s: string, i: nat): (n: nat)
    requires i <= |s|
    decreases |s| - i
    ensures i <= n <= |s|
    ensures forall j :: i <= j < n ==> IsSpace(s[j])
    ensures n < |s| ==> !IsSpace(s[n])
  {
    if i < |s| && IsSpace(s[i]) then SkipSpace(s, i + 1) else i
  }

  /** The end left after cutting the whitespace off `s[lo..e]` from the right. */
  function TrimEnd(s: string, lo: nat, e: nat): (m: nat)
    requires lo <= e <= |s|
    decreases e
    ensures lo <= m <= e
    ensures forall j :: m <= j < e ==> IsSpace(s[j])
    ensures m > lo ==> !IsSpace(s[m - 1])
  {
    if e > lo && IsSpace(s[e - 1]) then TrimEnd(s, lo, e - 1) else e
  }

  /** Where the stripped text starts in `s`. */
  function StripStart(s: string): nat {
    SkipSpace(s, 0)
  }

  /** `str.strip()`: the input with leading and trailing whitespace cut off,
      i.e. the slice `s[k..k + |r|]` with only whitespace around it. */
  function Strip(s: string): (r: string)
    ensures NoEdgeSpace(r)
    ensures var k := StripStart(s);
      k + |r| <= |s| && r == s[k..k + |r|] && AllSpace(s[..k]) && AllSpace(s[k + |r|..])
  {
    var k := SkipSpace(s, 0);
    s[k..TrimEnd(s, k, |s|)]
  }

  /** `SkipSpace` stops at the first non-whitespace index. */
  lemma {:induction false} SkipSpaceAt(s: string, i: nat, p: nat)
    requires i <= p <= |s|
    requires forall j :: i <= j < p ==> IsSpace(s[j])
    requires p < |s| ==> !IsSpace(s[p])
    decreases p - i
    ensures SkipSpace(s, i) == p
  {
    if i < p {
      SkipSpaceAt(s, i + 1, p);
    }
  }

  /** `TrimEnd` stops after the last non-whitespace index above `lo`. */
  lemma {:induction false} TrimEndAt(s: string, lo: nat, e: nat, q: nat)
    requires lo <= q <= e <= |s|
    requires forall j :: q <= j < e ==> IsSpace(s[j])
    requires q > lo ==> !IsSpace(s[q - 1])
    decreases e
    ensures TrimEnd(s, lo, e) == q
  {
    if q < e {
      TrimEndAt(s, lo, e - 1, q);
    }
  }

  /** Reference characterisation: whatever is surrounded only by whitespace and
      has no whitespace at its own edges is exactly what `strip` returns. */
  lemma StripOfPadded(a: string, m: string, b: string)
    requires AllSpace(a) && AllSpace(b) && NoEdgeSpace(m)
    ensures Strip(a + m + b) == m
  {
    var s := a + m + b;
    assert forall j :: 0 <= j < |a| ==> s[j] == a[j];
    assert forall j :: |a| + |m| <= j < |s| ==> s[j] == b[j - |a| - |m|];
    if m == [] {
      SkipSpaceAt(s, 0, |s|);
      TrimEndAt(s, |s|, |s|, |s|);
      assert Strip(s) == s[|s|..|s|];
    } else {
      assert s[|a|] == m[0] && s[|a| + |m| - 1] == m[|m| - 1];
      SkipSpaceAt(s, 0, |a|);
      TrimEndAt(s, |a|, |s|, |a| + |m|);
      assert s[|a|..|a| + |m|] == m;
    }
  }

  /** Stripping twice is stripping once. */
  lemma StripIdempotent(s: string)
    ensures Strip(Strip(s)) == Strip(s)
  {
    var r := Strip(s);
    StripOfPadded([], r, []);
    assert [] + r + [] == r;
  }

  /** `strip` yields the empty string exactly for all-whitespace input. */
  lemma StripEmptyIff(s: string)
    ensures Strip(s) == [] <==> AllSpace(s)
  {
    if AllSpace(s) {
      StripOfPadded(s, [], []);
      assert s + [] + [] == s;
    }
    if Strip(s) == [] {
      // the stripped text starts at a non-space unless it starts at the end
      var k := StripStart(s);
      assert k == |s|;
      forall j | 0 <= j < |s| ensures IsSpace(s[j]) {
        assert s[..k][j] == s[j];
      }
    }
  }

  /** `str.upper()` for one character, ASCII letters only. */
  function UpperChar(c: char): char {
    if 'a' <= c <= 'z' then (c as int - 32) as char else c
  }

  /** `str.upper` on ASCII: lower-case letters become upper-case, nothing else changes. */
  function Upper(s: string): (r: string)
    ensures |r| == |s|
    ensures forall i :: 0 <= i < |s| ==> !('a' <= r[i] <= 'z')
    ensures forall i :: 0 <= i < |s| && !('a' <= s[i] <= 'z') ==> r[i] == s[i]
    ensures forall i :: 0 <= i < |s| && 'a' <= s[i] <= 'z' ==> r[i] as int == s[i] as int - 32
  {
    seq(|s|, i requires 0 <= i < |s| => UpperChar(s[i]))
  }

  /** Upper-casing twice is upper-casing once. */
  lemma UpperIdempotent(s: string)
    ensures Upper(Upper(s)) == Upper(s)
  {
  }

  /** `sub` occurs in `s` starting at index `i`. */
  predicate OccursAt(s: string, sub: string, i: int) {
    0 <= i && i + |sub| <= |s| && s[i..i + |sub|] == sub
  }

  /** Python's `sub in s`. */
  predicate Contains(s: string, sub: string) {
    exists i :: 0 <= i <= |s| - |sub| && OccursAt(s, sub, i)
  }

  function FindFrom(s: string, sub: string, k: nat): (r: int)
    requires k <= |s|
    decreases |s| - k
    ensures r == -1 || (k <= r && OccursAt(s, sub, r))
    ensures forall j :: k <= j && (r == -1 || j < r) ==> !OccursAt(s, sub, j)
  {
    if k + |sub| > |s| then -1
    else if OccursAt(s, sub, k) then k
    else FindFrom(s, sub, k + 1)
  }

  /** Python's `s.find(sub)`: the first index at which `sub` occurs, or -1. */
  function Find(s: string, sub: string): (r: int)
    ensures r >= 0 <==> Contains(s, sub)
    ensures r >= 0 ==> OccursAt(s, sub, r) && forall j :: 0 <= j < r ==> !OccursAt(s, sub, j)
    ensures r < 0 ==> r == -1
  {
    FindFrom(s, sub, 0)
  }

  /** `sep.join(parts)`. */
  function Join(parts: seq<string>, sep: string): string {
    if |parts| == 0 then ""
    else if |parts| == 1 then parts[0]
    else parts[0] + sep + Join(parts[1..], sep)
  }

  /** A join starts with its first part, so it is empty only if that part is. */
  lemma JoinStartsWithFirst(parts: seq<string>, sep: string)
    requires |parts| > 0
    ensures parts[0] <= Join(parts, sep)
  {
  }

  function IndexOfChar(s: string, c: char): (i: nat)
    requires c in s
    ensures i < |s| && s[i] == c && c !in s[..i]
  {
    if s[0] == c then 0
    else
      var i := 1 + IndexOfChar(s[1..], c);
      assert s[..i] == [s[0]] + s[1..][..i - 1];
      i
  }

  /** Python's `s.split(c)` for a one-character separator. */
  function SplitOn(s: string, c: char): (pieces: seq<string>)
    decreases |s|
  {
    if c !in s then [s]
    else
      var i := IndexOfChar(s, c);
      [s[..i]] + SplitOn(s[i + 1..], c)
  }

  lemma IndexOfCharAfter(p: string, c: char, t: string)
    requires c !in p
    ensures c in p + [c] + t && IndexOfChar(p + [c] + t, c) == |p|
  {
    var s := p + [c] + t;
    assert s[|p|] == c;
    var i := IndexOfChar(s, c);
  }

  /** A join of two or more parts is the first part, the separator and the
      join of the rest. */
  lemma JoinCons(first: string, rest: seq<string>, sep: string)
    requires |rest| > 0
    ensures Join([first] + rest, sep) == first + sep + Join(rest, sep)
  {
    assert ([first] + rest)[1..] == rest;
  }

  /** Splitting at the first separator: the text before it, then the split of the rest. */
  lemma SplitOnFirst(s: string, c: char, i: nat)
    requires c in s && i == IndexOfChar(s, c)
    ensures SplitOn(s, c) == [s[..i]] + SplitOn(s[i + 1..], c)
  {
  }

  /** Splitting a join on a separator that no part contains gives the parts back. */
  lemma {:induction false} SplitJoin(parts: seq<string>, c: char)
    requires |parts| > 0
    requires forall k :: 0 <= k < |parts| ==> c !in parts[k]
    ensures SplitOn(Join(parts, [c]), c) == parts
  {
    if |parts| > 1 {
      var first := parts[0];
      var tail := parts[1..];
      var rest := Join(tail, [c]);
      var s := first + [c] + rest;
      assert parts == [first] + tail;
      JoinCons(first, tail, [c]);
      IndexOfCharAfter(first, c, rest);
      SplitOnFirst(s, c, |first|);
      assert s[..|first|] == first;
      assert s[|first| + 1..] == rest;
      SplitJoin(tail, c);
    }
  }

  /** Joining the pieces of a split with the separator gives the text back, and
      no piece contains the separator. */
  lemma {:induction false} JoinSplit(s: string, c: char)
    ensures |SplitOn(s, c)| > 0
    ensures forall k :: 0 <= k < |SplitOn(s, c)| ==> c !in SplitOn(s, c)[k]
    ensures Join(SplitOn(s, c), [c]) == s
    decreases |s|
  {
    if c in s {
      var i := IndexOfChar(s, c);
      var head := s[..i];
      var tail := s[i + 1..];
      var rest := SplitOn(tail, c);
      var pieces := [head] + rest;
      JoinSplit(tail, c);
      SplitOnFirst(s, c, i);
      assert SplitOn(s, c) == pieces;
      JoinCons(head, rest, [c]);
      assert s == head + [c] + tail;
      assert Join(pieces, [c]) == s;
      forall k | 0 <= k < |pieces| ensures c !in pieces[k] {
        if k > 0 {
          assert pieces[k] == rest[k - 1];
        }
      }
    }
  }

  /** `s.rstrip(c)`: `s` without its trailing run of `c`. */
  function RStripChar(s: string, c: char): (r: string)
    ensures |r| <= |s| && r == s[..|r|]
    ensures r == [] || r[|r| - 1] != c
    ensures forall i :: |r| <= i < |s| ==> s[i] == c
  {
    if s != [] && s[|s| - 1] == c then RStripChar(s[..|s| - 1], c) else s
  }

  /** Python truthiness of an optional string: present and non-empty. */
  predicate TruthyStr(o: Option<string>) {
    o.Some? && o.value != ""
  }

  /** Python truthiness of an optional list: present and non-empty. */
  predicate TruthyList<T>(o: Option<seq<T>>) {
    o.Some? && |o.value| > 0
  }
}
