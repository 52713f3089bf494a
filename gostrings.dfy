/**
 * The parts of Go's `strings` package the core relies on: `Join`, `Split`
 * with a one-character separator, and `Split(s, pat)[0]` for a longer pattern.
 */
module GoStrings {

  /** strings.Join: the parts with `sep` between consecutive parts. */
  function Join(parts: seq<string>, sep: string): string
  {
    if |parts| == 0 then ""
    else if |parts| == 1 then parts[0]
    else parts[0] + sep + Join(parts[1..], sep)
  }

  /** strings.Split(s, [c]): at least one piece, none of which contains `c`. */
  function Split(s: string, c: char): (pieces: seq<string>)
    ensures |pieces| >= 1
    ensures forall i :: 0 <= i < |pieces| ==> c !in pieces[i]
    decreases |s|
  {
    if s == [] then [""]
    else if s[0] == c then [""] + Split(s[1..], c)
    else
      var rest := Split(s[1..], c);
      [[s[0]] + rest[0]] + rest[1..]
  }

  /** strings.Split(s, [c]) followed by taking the last piece. */
  function LastPiece(s: string, c: char): string
  {
    var pieces := Split(s, c);
    pieces[|pieces| - 1]
  }

  /** strings.Split(s, [c]) followed by taking the first piece. */
  function FirstPiece(s: string, c: char): string
  {
    Split(s, c)[0]
  }

  predicate OccursAt(s: string, pat: string, i: nat)
  {
    i + |pat| <= |s| && s[i..i + |pat|] == pat
  }

  /** strings.Split(s, pat)[0]: the text before the first occurrence of `pat`. */
  function BeforeFirst(s: string, pat: string): (r: string)
    requires pat != ""
    ensures |r| <= |s| && r == s[..|r|]
    ensures forall i :: 0 <= i < |r| ==> !OccursAt(s, pat, i)
    ensures |r| == |s| || OccursAt(s, pat, |r|)
    decreases |s|
  {
    if |s| < |pat| then s
    else if s[..|pat|] == pat then ""
    else
      var rest := BeforeFirst(s[1..], pat);
      ShiftOccurs(s, pat);
      [s[0]] + rest
  }

  /** Occurrences in `s` past its first character are the occurrences in `s[1..]`. */
  lemma ShiftOccurs(s: string, pat: string)
    requires |s| >= 1
    ensures forall i :: 1 <= i <= |s| ==> (OccursAt(s, pat, i) <==> OccursAt(s[1..], pat, i - 1))
  {
    forall i | 1 <= i <= |s| ensures OccursAt(s, pat, i) <==> OccursAt(s[1..], pat, i - 1) {
      if i + |pat| <= |s| {
        var a, b := s[i..i + |pat|], s[1..][i - 1..i - 1 + |pat|];
        assert |a| == |b|;
        assert forall k :: 0 <= k < |a| ==> a[k] == s[i + k] == b[k];
        assert a == b;
      }
    }
  }

  /** A piece of a split, re-joined with the separator, gives back the original. */
  lemma {:induction false} JoinSplit(s: string, c: char)
    ensures Join(Split(s, c), [c]) == s
    decreases |s|
  {
    if s == [] {
    } else {
      JoinSplit(s[1..], c);
      var rest := Split(s[1..], c);
      if s[0] == c {
        assert Split(s, c) == [""] + rest;
        JoinCons("", rest, [c]);
      } else {
        assert Split(s, c) == [[s[0]] + rest[0]] + rest[1..];
        JoinHead(s[0], rest, [c]);
      }
    }
  }

  lemma JoinCons(p: string, rest: seq<string>, sep: string)
    requires |rest| >= 1
    ensures Join([p] + rest, sep) == p + sep + Join(rest, sep)
  {
    assert ([p] + rest)[1..] == rest;
  }

  lemma {:induction false} JoinHead(ch: char, rest: seq<string>, sep: string)
    requires |rest| >= 1
    ensures Join([[ch] + rest[0]] + rest[1..], sep) == [ch] + Join(rest, sep)
  {
    var parts := [[ch] + rest[0]] + rest[1..];
    if |rest| == 1 {
      assert parts == [[ch] + rest[0]];
    } else {
      assert parts[1..] == rest[1..];
      assert Join(rest, sep) == rest[0] + sep + Join(rest[1..], sep);
    }
  }

  /** Splitting a join on a separator that no part contains recovers the parts. */
  lemma {:induction false} SplitJoin(parts: seq<string>, c: char)
    requires |parts| >= 1
    requires forall i :: 0 <= i < |parts| ==> c !in parts[i]
    ensures Split(Join(parts, [c]), c) == parts
    decreases |parts|, |parts[0]|
  {
    if |parts| == 1 {
      SplitNoSep(parts[0], c);
    } else {
      var p := parts[0];
      var rest := parts[1..];
      assert Join(parts, [c]) == p + [c] + Join(rest, [c]);
      SplitJoin(rest, c);
      SplitPrefix(p, Join(rest, [c]), c);
      assert [p] + rest == parts;
    }
  }

  lemma {:induction false} SplitNoSep(p: string, c: char)
    requires c !in p
    ensures Split(p, c) == [p]
    decreases |p|
  {
    if p != [] {
      SplitNoSep(p[1..], c);
      assert [p[0]] + p[1..] == p;
    }
  }

  /** Split of `p + [c] + t` when `p` holds no separator. */
  lemma {:induction false} SplitPrefix(p: string, t: string, c: char)
    requires c !in p
    ensures Split(p + [c] + t, c) == [p] + Split(t, c)
    decreases |p|
  {
    var s := p + [c] + t;
    if p == [] {
      assert s[0] == c && s[1..] == t;
    } else {
      assert s[0] == p[0] && s[1..] == p[1..] + [c] + t;
      SplitPrefix(p[1..], t, c);
      assert [p[0]] + p[1..] == p;
    }
  }

  predicate NoOccurrence(s: string, pat: string)
  {
    forall i :: 0 <= i <= |s| ==> !OccursAt(s, pat, i)
  }

  lemma NotBefore(base: string, tail: string, pat: string, p: nat)
    requires pat != "" && base != [] && base[|base| - 1] !in pat
    requires NoOccurrence(base, pat) && p < |base|
    ensures !OccursAt(base + tail, pat, p)
  {
    var s := base + tail;
    if p + |pat| <= |base| {
      assert !OccursAt(base, pat, p);
      assert s[p..p + |pat|] == base[p..p + |pat|];
    } else if p + |pat| <= |s| {
      var k := |base| - 1 - p;
      assert s[p..p + |pat|][k] == base[|base| - 1];
      assert pat[k] != base[|base| - 1];
    }
  }

  /**
   * The text before the first `pat` of `base + tail` is `base`, when `base`
   * holds no `pat`, ends in a character `pat` does not contain, and `tail` is
   * empty or starts with `pat`.
   */
  lemma BeforeFirstAppend(base: string, tail: string, pat: string)
    requires pat != "" && base != [] && base[|base| - 1] !in pat
    requires NoOccurrence(base, pat)
    requires tail == [] || OccursAt(tail, pat, 0)
    ensures BeforeFirst(base + tail, pat) == base
  {
    var s := base + tail;
    var r := BeforeFirst(s, pat);
    if tail != [] {
      assert s[|base|..|base| + |pat|] == tail[..|pat|];
      assert OccursAt(s, pat, |base|);
    }
    forall p | 0 <= p < |base| ensures !OccursAt(s, pat, p) {
      NotBefore(base, tail, pat, p);
    }
    assert |r| == |base|;
    assert r == s[..|base|] == base;
  }
}
