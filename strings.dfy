/**
  The handful of `str` operations the generator relies on: `split` on a
  separator, `trim`, `trim_end_matches`, `rsplit(..).next()`, whitespace
  removal, decimal rendering of integers and the lexicographic order that
  `Vec<String>::sort` uses.
 */
module Strings {
  import opened Wrappers

  /** `sub` occurs in `s` starting at index `j`. */
  predicate OccursAt(s: string, sub: string, j: nat)
  {
    j + |sub| <= |s| && s[j..j + |sub|] == sub
  }

  predicate Contains(s: string, sub: string)
  {
    exists j: nat | j <= |s| :: OccursAt(s, sub, j)
  }

  /** Index of the leftmost occurrence of `sep` in `s`, the match that `str::find` reports. */
  function FirstIndexOf(s: string, sep: string): (r: Option<nat>)
    requires |sep| > 0
    ensures r.Some? ==> r.value + |sep| <= |s| && s[r.value..r.value + |sep|] == sep
  {
    FindFrom(s, sep, 0)
  }

  /** The leftmost occurrence of `sep` in `s` that starts at or after index `i`. */
  function FindFrom(s: string, sep: string, i: nat): (r: Option<nat>)
    requires |sep| > 0 && i <= |s|
    ensures r.Some? ==> i <= r.value && OccursAt(s, sep, r.value)
    decreases |s| - i
  {
    if |s| - i < |sep| then None
    else if OccursAt(s, sep, i) then Some(i)
    else FindFrom(s, sep, i + 1)
  }

  /** `FindFrom` skips no occurrence at or after `i`. */
  lemma {:induction false} FindFromLeftmost(s: string, sep: string, i: nat)
    requires |sep| > 0 && i <= |s|
    ensures var r := FindFrom(s, sep, i);
            (r.Some? ==> forall j: nat :: i <= j < r.value ==> !OccursAt(s, sep, j))
            && (r.None? ==> forall j: nat :: i <= j ==> !OccursAt(s, sep, j))
    decreases |s| - i
  {
    if |s| - i >= |sep| && !OccursAt(s, sep, i) {
      FindFromLeftmost(s, sep, i + 1);
    }
  }

  /** `FirstIndexOf` finds the leftmost occurrence, and finds none only when there is none. */
  lemma FirstIndexOfLeftmost(s: string, sep: string)
    requires |sep| > 0
    ensures var r := FirstIndexOf(s, sep);
            (r.Some? ==> forall j: nat :: j < r.value ==> !OccursAt(s, sep, j))
            && (r.None? ==> !Contains(s, sep))
  {
    FindFromLeftmost(s, sep, 0);
  }

  /**
    `s.split(sep)` for a non-empty separator: the pieces between the
    leftmost non-overlapping occurrences of `sep`, scanning left to right.
   */
  function Split(s: string, sep: string): (parts: seq<string>)
    requires |sep| > 0
    ensures |parts| >= 1
    decreases |s|
  {
    match FirstIndexOf(s, sep)
    case None => [s]
    case Some(k) => [s[..k]] + Split(s[k + |sep|..], sep)
  }

  /** `parts.join(sep)`. */
  function Join(parts: seq<string>, sep: string): string
  {
    if |parts| == 0 then ""
    else if |parts| == 1 then parts[0]
    else parts[0] + sep + Join(parts[1..], sep)
  }

  /** Joining the pieces of a split with the same separator gives back the input. */
  lemma {:induction false} SplitJoin(s: string, sep: string)
    requires |sep| > 0
    ensures Join(Split(s, sep), sep) == s
    decreases |s|
  {
    var r := FirstIndexOf(s, sep);
    if r.Some? {
      var k := r.value;
      var rest := s[k + |sep|..];
      SplitJoin(rest, sep);
      SplitAtFirst(s, sep);
      JoinCons(s[..k], Split(rest, sep), sep);
      ThreeParts(s, k, |sep|);
    }
  }

  lemma SplitAtFirst(s: string, sep: string)
    requires |sep| > 0 && FirstIndexOf(s, sep).Some?
    ensures var k := FirstIndexOf(s, sep).value;
            Split(s, sep) == [s[..k]] + Split(s[k + |sep|..], sep)
  {
  }

  lemma JoinCons(head: string, tail: seq<string>, sep: string)
    requires |tail| >= 1
    ensures Join([head] + tail, sep) == head + sep + Join(tail, sep)
  {
    assert ([head] + tail)[1..] == tail;
  }

  lemma ThreeParts(s: string, k: nat, n: nat)
    requires k + n <= |s|
    ensures s == s[..k] + s[k..k + n] + s[k + n..]
  {
  }

  /** No piece of a split contains the separator. */
  lemma {:induction false} SplitPartsFree(s: string, sep: string)
    requires |sep| > 0
    ensures forall i :: 0 <= i < |Split(s, sep)| ==> !Contains(Split(s, sep)[i], sep)
    decreases |s|
  {
    FirstIndexOfLeftmost(s, sep);
    var r := FirstIndexOf(s, sep);
    if r.Some? {
      var k := r.value;
      var rest := s[k + |sep|..];
      SplitPartsFree(rest, sep);
      PrefixFree(s, sep, k);
      var tail := Split(rest, sep);
      var parts := [s[..k]] + tail;
      SplitAtFirst(s, sep);
      forall i | 0 <= i < |parts| ensures !Contains(parts[i], sep) {
        if i > 0 { assert parts[i] == tail[i - 1]; }
      }
    }
  }

  /** A prefix that ends before the leftmost occurrence does not contain the separator. */
  lemma PrefixFree(s: string, sep: string, k: nat)
    requires |sep| > 0 && k <= |s|
    requires forall j: nat :: j < k ==> !OccursAt(s, sep, j)
    ensures !Contains(s[..k], sep)
  {
    forall j: nat | OccursAt(s[..k], sep, j) ensures false {
      assert s[..k][j..j + |sep|] == s[j..j + |sep|];
      assert OccursAt(s, sep, j);
    }
  }

  /**
    The text after the last separator (all of `s` when there is none): the last piece of
    `Split(s, sep)`, i.e. `s.split(sep).last().unwrap()`. For a one-character separator
    this is also `s.rsplit(sep).next().unwrap()`; for a longer one the two can differ
    (`"a:::b"` split on `"::"` ends in `":b"`, while `rsplit` gives `"b"`).
   */
  function LastPiece(s: string, sep: string): string
    requires |sep| > 0
    decreases |s|
  {
    match FirstIndexOf(s, sep)
    case None => s
    case Some(k) => LastPiece(s[k + |sep|..], sep)
  }

  lemma {:induction false} LastPieceSuffix(s: string, sep: string)
    requires |sep| > 0
    ensures !Contains(LastPiece(s, sep), sep)
    ensures EndsWith(s, LastPiece(s, sep))
    decreases |s|
  {
    match FirstIndexOf(s, sep)
    case None =>
      FirstIndexOfLeftmost(s, sep);
      assert s[|s| - |s|..] == s;
    case Some(k) =>
      LastPieceStep(s, sep, k);
      var rest := s[k + |sep|..];
      LastPieceSuffix(rest, sep);
      SuffixOfDrop(s, k + |sep|, LastPiece(rest, sep));
  }

  /** The last piece is all of `s`, or it follows the last separator. */
  lemma {:induction false} LastPieceAfterSeparator(s: string, sep: string)
    requires |sep| > 0
    ensures LastPiece(s, sep) == s || EndsWith(s, sep + LastPiece(s, sep))
    decreases |s|
  {
    match FirstIndexOf(s, sep)
    case None =>
    case Some(k) =>
      LastPieceStep(s, sep, k);
      LastPieceAfterSeparator(s[k + |sep|..], sep);
      SeparatedSuffix(s, sep, k, LastPiece(s, sep));
  }

  lemma SeparatedSuffix(s: string, sep: string, k: nat, r: string)
    requires k + |sep| <= |s| && s[k..k + |sep|] == sep
    requires r == s[k + |sep|..] || EndsWith(s[k + |sep|..], sep + r)
    ensures EndsWith(s, sep + r)
  {
    if r == s[k + |sep|..] {
      assert s[k..] == sep + r;
    } else {
      SuffixOfDrop(s, k + |sep|, sep + r);
    }
  }

  /**
    For pieces none of which holds the separator's first character, the text after the
    last separator of their join is the last piece.
   */
  lemma {:induction false} LastPieceOfJoin(segs: seq<string>, sep: string)
    requires |sep| > 0 && |segs| > 0 && PiecesAvoid(segs, sep[0])
    ensures LastPiece(Join(segs, sep), sep) == segs[|segs| - 1]
    decreases |segs|
  {
    if |segs| == 1 {
      LastPieceWhole(segs, sep);
    } else {
      var tail := segs[1..];
      assert |tail| == |segs| - 1 && tail[|tail| - 1] == segs[|segs| - 1];
      PiecesAvoidTail(segs, sep[0]);
      LastPieceOfJoin(tail, sep);
      LastPieceOfJoinStep(segs, sep);
    }
  }

  /** No piece holds the character `c`. */
  predicate PiecesAvoid(segs: seq<string>, c: char)
  {
    forall i :: 0 <= i < |segs| ==> c !in segs[i]
  }

  lemma PiecesAvoidTail(segs: seq<string>, c: char)
    requires |segs| > 0 && PiecesAvoid(segs, c)
    ensures PiecesAvoid(segs[1..], c) && c !in segs[0]
  {
    forall i | 0 <= i < |segs| - 1 ensures c !in segs[1..][i] {
      assert segs[1..][i] == segs[i + 1];
    }
  }

  lemma LastPieceWhole(segs: seq<string>, sep: string)
    requires |sep| > 0 && |segs| == 1 && PiecesAvoid(segs, sep[0])
    ensures LastPiece(Join(segs, sep), sep) == segs[0]
  {
    NoFirstIndex(segs[0], sep);
  }

  lemma LastPieceOfJoinStep(segs: seq<string>, sep: string)
    requires |sep| > 0 && |segs| >= 2 && sep[0] !in segs[0]
    ensures LastPiece(Join(segs, sep), sep) == LastPiece(Join(segs[1..], sep), sep)
  {
    var h := segs[0];
    var rest := Join(segs[1..], sep);
    assert segs == [h] + segs[1..];
    JoinCons(h, segs[1..], sep);
    FirstIndexAfter(h, sep, rest);
    LastPieceStep(h + sep + rest, sep, |h|);
    assert (h + sep + rest)[|h| + |sep|..] == rest;
  }

  lemma LastPieceStep(s: string, sep: string, k: nat)
    requires |sep| > 0 && FirstIndexOf(s, sep) == Some(k)
    ensures k + |sep| <= |s| && LastPiece(s, sep) == LastPiece(s[k + |sep|..], sep)
  {
  }

  lemma NoFirstIndex(h: string, sep: string)
    requires |sep| > 0
    requires sep[0] !in h
    ensures FirstIndexOf(h, sep).None?
  {
  }

  lemma FirstIndexAfter(h: string, sep: string, t: string)
    requires |sep| > 0
    requires sep[0] !in h
    ensures FirstIndexOf(h + sep + t, sep) == Some(|h|)
  {
    var s := h + sep + t;
    assert s[|h|..|h| + |sep|] == sep;
    assert OccursAt(s, sep, |h|);
    FirstIndexOfLeftmost(s, sep);
    var k := FirstIndexOf(s, sep).value;
    assert s[k..k + |sep|][0] == s[k];
  }

  lemma SuffixOfDrop(s: string, a: nat, t: string)
    requires a <= |s| && EndsWith(s[a..], t)
    ensures EndsWith(s, t)
  {
    assert s[|s| - |t|..] == s[a..][|s[a..]| - |t|..];
  }

  lemma ContainsMiddle(a: string, b: string, c: string)
    ensures Contains(a + b + c, b)
  {
    assert (a + b + c)[|a|..|a| + |b|] == b;
    assert OccursAt(a + b + c, b, |a|);
  }

  lemma EndsWithAppend(a: string, b: string, suffix: string)
    requires EndsWith(b, suffix)
    ensures EndsWith(a + b, suffix)
  {
    assert (a + b)[|a + b| - |suffix|..] == b[|b| - |suffix|..];
  }

  lemma StartsWithConcat(a: string, b: string)
    ensures StartsWith(a + b, a)
  {
    assert (a + b)[..|a|] == a;
  }

  lemma StartsWithExtend(s: string, prefix: string, t: string)
    requires StartsWith(s, prefix)
    ensures StartsWith(s + t, prefix)
  {
    assert (s + t)[..|prefix|] == s[..|prefix|];
  }

  lemma ConcatAssoc(a: string, b: string, c: string, d: string)
    ensures a + b + c + d == a + (b + c + d)
  {
  }

  lemma EndsWithConcat(a: string, b: string)
    ensures EndsWith(a + b, b)
  {
    assert (a + b)[|a|..] == b;
  }

  /** Rust's `char::is_whitespace`: the Unicode White_Space property. */
  predicate IsWhitespace(c: char)
  {
    ('\U{9}' <= c <= '\U{D}') || c == '\U{20}' || c == '\U{85}' || c == '\U{A0}' || c == '\U{1680}'
    || ('\U{2000}' <= c <= '\U{200A}') || c == '\U{2028}' || c == '\U{2029}' || c == '\U{202F}'
    || c == '\U{205F}' || c == '\U{3000}'
  }

  function TrimStart(s: string): (r: string)
    ensures |r| <= |s| && r == s[|s| - |r|..]
    ensures |r| > 0 ==> !IsWhitespace(r[0])
    ensures forall i :: 0 <= i < |s| - |r| ==> IsWhitespace(s[i])
  {
    if |s| > 0 && IsWhitespace(s[0]) then TrimStart(s[1..]) else s
  }

  function TrimEnd(s: string): (r: string)
    ensures |r| <= |s| && r == s[..|r|]
    ensures |r| > 0 ==> !IsWhitespace(r[|r| - 1])
    ensures forall i :: |r| <= i < |s| ==> IsWhitespace(s[i])
  {
    if |s| > 0 && IsWhitespace(s[|s| - 1]) then TrimEnd(s[..|s| - 1]) else s
  }

  /** `str::trim`: drops leading and trailing white space. */
  function Trim(s: string): (r: string)
    ensures |r| > 0 ==> !IsWhitespace(r[0]) && !IsWhitespace(r[|r| - 1])
    ensures exists i, j :: 0 <= i <= j <= |s| && r == s[i..j]
  {
    var a := TrimStart(s);
    var b := TrimEnd(a);
    assert b == s[|s| - |a|..][..|b|] == s[|s| - |a|..|s| - |a| + |b|];
    b
  }

  /** `s.split_whitespace().collect::<String>()`: every white-space character removed. */
  function RemoveWhitespace(s: string): (r: string)
    ensures forall i :: 0 <= i < |r| ==> !IsWhitespace(r[i])
    ensures |r| <= |s|
  {
    if |s| == 0 then ""
    else if IsWhitespace(s[0]) then RemoveWhitespace(s[1..])
    else [s[0]] + RemoveWhitespace(s[1..])
  }

  predicate NoWhitespace(s: string)
  {
    forall i :: 0 <= i < |s| ==> !IsWhitespace(s[i])
  }

  /** The pieces written one after the other. */
  function Concat(parts: seq<string>): string
  {
    if parts == [] then "" else parts[0] + Concat(parts[1..])
  }

  lemma {:induction false} RemoveWhitespaceAppend(a: string, b: string)
    ensures RemoveWhitespace(a + b) == RemoveWhitespace(a) + RemoveWhitespace(b)
    decreases |a|
  {
    if |a| > 0 {
      assert (a + b)[1..] == a[1..] + b;
      RemoveWhitespaceAppend(a[1..], b);
    } else {
      assert a + b == b;
    }
  }

  lemma {:induction false} RemoveWhitespaceKeeps(s: string)
    requires NoWhitespace(s)
    ensures RemoveWhitespace(s) == s
    decreases |s|
  {
    if |s| > 0 {
      RemoveWhitespaceKeeps(s[1..]);
      assert s == [s[0]] + s[1..];
    }
  }

  /**
    Joining white-space-free tokens with spaces and then removing all white space
    gives the tokens written together.
   */
  lemma {:induction false} RemoveWhitespaceJoin(tokens: seq<string>)
    requires forall i :: 0 <= i < |tokens| ==> NoWhitespace(tokens[i])
    ensures RemoveWhitespace(Join(tokens, " ")) == Concat(tokens)
    decreases |tokens|
  {
    if |tokens| == 1 {
      RemoveWhitespaceKeeps(tokens[0]);
      assert Concat(tokens) == tokens[0] + Concat([]);
    } else if |tokens| > 1 {
      RemoveWhitespaceJoin(tokens[1..]);
      RemoveWhitespaceKeeps(tokens[0]);
      RemoveWhitespaceAppend(tokens[0] + " ", Join(tokens[1..], " "));
      RemoveWhitespaceAppend(tokens[0], " ");
      assert RemoveWhitespace(" ") == "";
    }
  }

  /** `s.trim_end_matches(c)`. */
  function TrimEndMatches(s: string, c: char): (r: string)
    ensures |r| <= |s| && s[..|r|] == r
    ensures |r| == 0 || r[|r| - 1] != c
    ensures forall i :: |r| <= i < |s| ==> s[i] == c
  {
    if |s| > 0 && s[|s| - 1] == c then TrimEndMatches(s[..|s| - 1], c) else s
  }

  function DigitChar(d: nat): char
    requires d < 10
  {
    "0123456789"[d]
  }

  /** Decimal rendering of a natural number, as `Display` writes it. */
  function NatToString(n: nat): (r: string)
    ensures |r| > 0
    ensures forall i :: 0 <= i < |r| ==> '0' <= r[i] <= '9'
  {
    if n < 10 then [DigitChar(n)] else NatToString(n / 10) + [DigitChar(n % 10)]
  }

  /** Decimal rendering of an integer, with a leading `-` when negative. */
  function IntToString(i: int): string
  {
    if i < 0 then "-" + NatToString(-i) else NatToString(i)
  }

  function StartsWith(s: string, prefix: string): bool
  {
    |prefix| <= |s| && s[..|prefix|] == prefix
  }

  function EndsWith(s: string, suffix: string): bool
  {
    |suffix| <= |s| && s[|s| - |suffix|..] == suffix
  }

  /** `a < b` in the order of `Ord for str`: lexicographic by character, a proper prefix first. */
  predicate Less(a: string, b: string)
  {
    if |a| == 0 then |b| > 0
    else if |b| == 0 then false
    else if a[0] != b[0] then a[0] < b[0]
    else Less(a[1..], b[1..])
  }

  predicate LessEq(a: string, b: string)
  {
    a == b || Less(a, b)
  }

  lemma {:induction false} LessIrreflexive(a: string)
    ensures !Less(a, a)
  {
    if |a| > 0 { LessIrreflexive(a[1..]); }
  }

  lemma {:induction false} LessTrichotomy(a: string, b: string)
    ensures Less(a, b) || a == b || Less(b, a)
    ensures !(Less(a, b) && Less(b, a))
  {
    if |a| > 0 && |b| > 0 && a[0] == b[0] {
      LessTrichotomy(a[1..], b[1..]);
      if a[1..] == b[1..] {
        assert a == [a[0]] + a[1..] && b == [b[0]] + b[1..];
      }
    }
  }

  lemma {:induction false} LessTransitive(a: string, b: string, c: string)
    requires Less(a, b) && Less(b, c)
    ensures Less(a, c)
  {
    if |a| > 0 && a[0] == b[0] && b[0] == c[0] {
      LessTransitive(a[1..], b[1..], c[1..]);
    }
  }
}
