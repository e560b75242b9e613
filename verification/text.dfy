/**
 * The JavaScript string operations the dashboard relies on, over `seq<char>`:
 * ASCII `toLowerCase`/`toUpperCase`, `includes`, `split` with a string separator,
 * `join`, and `replace` with a global pattern that matches a literal token.
 */
module Text {

  /** ASCII lower-casing of one character; every other character is kept. */
  function LowerChar(c: char): char
  {
    if 'A' <= c <= 'Z' then (c as int - 'A' as int + 'a' as int) as char else c
  }

  /** ASCII upper-casing of one character; every other character is kept. */
  function UpperChar(c: char): char
  {
    if 'a' <= c <= 'z' then (c as int - 'a' as int + 'A' as int) as char else c
  }

  /** `s.toLowerCase()` restricted to ASCII letters. */
  function Lower(s: string): (r: string)
    ensures |r| == |s|
    ensures forall i :: 0 <= i < |s| ==> r[i] == LowerChar(s[i])
  {
    seq(|s|, i requires 0 <= i < |s| => LowerChar(s[i]))
  }

  /** `s.toUpperCase()` restricted to ASCII letters. */
  function Upper(s: string): (r: string)
    ensures |r| == |s|
    ensures forall i :: 0 <= i < |s| ==> r[i] == UpperChar(s[i])
  {
    seq(|s|, i requires 0 <= i < |s| => UpperChar(s[i]))
  }

  /** Lower-casing is idempotent, so a query lower-cased twice matches the same leads. */
  lemma LowerIdempotent(s: string)
    ensures Lower(Lower(s)) == Lower(s)
  {
    forall i | 0 <= i < |s|
      ensures Lower(Lower(s))[i] == Lower(s)[i]
    {
      var c := s[i];
      if 'A' <= c <= 'Z' {
        assert 'a' <= LowerChar(c) <= 'z';
      }
    }
  }

  /** `p` occurs in `s` starting at position `i`. */
  ghost predicate OccursAt(s: string, p: string, i: int)
  {
    0 <= i && i + |p| <= |s| && s[i..i + |p|] == p
  }

  /** `p` occurs somewhere in `s`. */
  ghost predicate Occurs(s: string, p: string)
  {
    exists i :: OccursAt(s, p, i)
  }

  /** A token with a character the text lacks does not occur in it. */
  lemma MissingCharBlocks(s: string, p: string, c: char)
    requires c in p && c !in s
    ensures !Occurs(s, p)
  {
    var j :| 0 <= j < |p| && p[j] == c;
    forall i
      ensures !OccursAt(s, p, i)
    {
      if 0 <= i && i + |p| <= |s| {
        assert s[i..i + |p|][j] == s[i + j];
      }
    }
  }

  /** A token with two adjacent characters the text never has side by side does not occur in it. */
  lemma MissingPairBlocks(s: string, p: string, j: nat)
    requires j + 1 < |p|
    requires forall i :: 0 <= i < |s| - 1 ==> s[i] != p[j] || s[i + 1] != p[j + 1]
    ensures !Occurs(s, p)
  {
    forall i
      ensures !OccursAt(s, p, i)
    {
      if 0 <= i && i + |p| <= |s| {
        assert s[i..i + |p|][j] == s[i + j] && s[i..i + |p|][j + 1] == s[i + j + 1];
      }
    }
  }

  /** `s.startsWith(p)`. */
  predicate StartsWith(s: string, p: string)
  {
    |p| <= |s| && s[..|p|] == p
  }

  /** `s.includes(p)`: a left-to-right scan for a position where `p` starts. */
  predicate Includes(s: string, p: string)
    decreases |s|
  {
    StartsWith(s, p) || (s != [] && Includes(s[1..], p))
  }

  /** The scan finds `p` exactly when `p` occurs somewhere in `s` (the empty string occurs everywhere). */
  lemma {:induction false} IncludesIffOccurs(s: string, p: string)
    ensures Includes(s, p) <==> Occurs(s, p)
    decreases |s|
  {
    if StartsWith(s, p) {
      assert OccursAt(s, p, 0);
    } else if s != [] {
      IncludesIffOccurs(s[1..], p);
      assert !OccursAt(s, p, 0);
      forall j | 1 <= j
        ensures OccursAt(s, p, j) <==> OccursAt(s[1..], p, j - 1)
      {
        if j + |p| <= |s| {
          var tail := s[1..];
          var a, b := s[j..j + |p|], tail[j - 1..j - 1 + |p|];
          forall k | 0 <= k < |p|
            ensures a[k] == b[k]
          {
            assert tail[j - 1 + k] == s[j + k];
          }
          assert a == b;
        }
      }
      if Occurs(s[1..], p) {
        var i :| OccursAt(s[1..], p, i);
        assert OccursAt(s, p, i + 1);
      }
      if Occurs(s, p) {
        var i :| OccursAt(s, p, i);
        assert OccursAt(s[1..], p, i - 1);
      }
    }
  }

  /**
   * `s.split(sep)` for a non-empty separator: the pieces between the
   * non-overlapping occurrences of `sep`, found from the left. There is always
   * at least one piece (`"".split(" ")` is `[""]`).
   */
  function Split(s: string, sep: string): (parts: seq<string>)
    requires sep != ""
    ensures |parts| >= 1
    decreases |s|
  {
    if StartsWith(s, sep) then [""] + Split(s[|sep|..], sep)
    else if s == [] then [""]
    else
      var rest := Split(s[1..], sep);
      [[s[0]] + rest[0]] + rest[1..]
  }

  /** `parts.join(sep)`. */
  function Join(parts: seq<string>, sep: string): string
  {
    if parts == [] then ""
    else if |parts| == 1 then parts[0]
    else parts[0] + sep + Join(parts[1..], sep)
  }

  /** Prepending a character to the first piece prepends it to the joined string. */
  lemma JoinConsFirst(c: char, parts: seq<string>, sep: string)
    requires |parts| >= 1
    ensures Join([[c] + parts[0]] + parts[1..], sep) == [c] + Join(parts, sep)
  {
    var ps := [[c] + parts[0]] + parts[1..];
    assert ps[1..] == parts[1..];
    if |parts| > 1 {
      assert Join(ps, sep) == ([c] + parts[0]) + sep + Join(parts[1..], sep);
    }
  }

  /** Joining the pieces of a split with the same separator gives back the string. */
  lemma {:induction false} JoinSplit(s: string, sep: string)
    requires sep != ""
    ensures Join(Split(s, sep), sep) == s
    decreases |s|
  {
    if StartsWith(s, sep) {
      JoinSplit(s[|sep|..], sep);
      JoinSplitAtSeparator(s, sep);
    } else if s != [] {
      JoinSplit(s[1..], sep);
      JoinSplitAtChar(s, sep);
    }
  }

  /** The step of `JoinSplit` where the string starts with the separator. */
  lemma JoinSplitAtSeparator(s: string, sep: string)
    requires sep != "" && StartsWith(s, sep)
    requires Join(Split(s[|sep|..], sep), sep) == s[|sep|..]
    ensures Join(Split(s, sep), sep) == s
  {
    var t := s[|sep|..];
    var rest := Split(t, sep);
    assert Split(s, sep) == [""] + rest;
    JoinAfterEmpty(rest, sep);
    assert s == s[..|sep|] + t;
  }

  /** An empty first piece contributes only the separator that follows it. */
  lemma JoinAfterEmpty(rest: seq<string>, sep: string)
    requires |rest| >= 1
    ensures Join([""] + rest, sep) == sep + Join(rest, sep)
  {
    var ps := [""] + rest;
    assert ps[0] == "" && ps[1..] == rest;
  }

  /** The step of `JoinSplit` where the string starts with an ordinary character. */
  lemma JoinSplitAtChar(s: string, sep: string)
    requires sep != "" && !StartsWith(s, sep) && s != []
    requires Join(Split(s[1..], sep), sep) == s[1..]
    ensures Join(Split(s, sep), sep) == s
  {
    var rest := Split(s[1..], sep);
    assert Split(s, sep) == [[s[0]] + rest[0]] + rest[1..];
    JoinConsFirst(s[0], rest, sep);
    assert s == [s[0]] + s[1..];
  }

  /**
   * `s.replace(/pat/g, rep)` where the pattern matches the literal `pat` and `rep`
   * holds no `$` replacement patterns: scans from the left and replaces each
   * occurrence, resuming after it.
   */
  function ReplaceAll(s: string, pat: string, rep: string): string
    requires pat != ""
    decreases |s|
  {
    if StartsWith(s, pat) then rep + ReplaceAll(s[|pat|..], pat, rep)
    else if s == [] then []
    else [s[0]] + ReplaceAll(s[1..], pat, rep)
  }

  /**
   * Replacing every occurrence is splitting at the occurrences and joining the
   * pieces with the replacement (the `s.split(pat).join(rep)` idiom).
   */
  lemma {:induction false} ReplaceAllIsSplitJoin(s: string, pat: string, rep: string)
    requires pat != ""
    ensures ReplaceAll(s, pat, rep) == Join(Split(s, pat), rep)
    decreases |s|
  {
    if StartsWith(s, pat) {
      var rest := Split(s[|pat|..], pat);
      ReplaceAllIsSplitJoin(s[|pat|..], pat, rep);
      assert ([""] + rest)[1..] == rest;
    } else if s != [] {
      ReplaceAllIsSplitJoin(s[1..], pat, rep);
      JoinConsFirst(s[0], Split(s[1..], pat), rep);
    }
  }

  /**
   * The pieces of a split are leftmost: the last piece contains no separator,
   * and no occurrence of the separator starts inside an earlier piece (even one
   * running on into the separator that follows it).
   */
  ghost predicate LeftmostPieces(parts: seq<string>, sep: string)
    requires |parts| >= 1 && sep != ""
  {
    && !Occurs(parts[|parts| - 1], sep)
    && forall k :: 0 <= k < |parts| - 1 ==> !Occurs(parts[k] + sep[..|sep| - 1], sep)
  }

  /**
   * Every occurrence of the separator is cut out by `Split`: with `JoinSplit`
   * this determines the pieces uniquely.
   */
  lemma {:induction false} SplitPiecesAreFree(s: string, sep: string)
    requires sep != ""
    ensures LeftmostPieces(Split(s, sep), sep)
    decreases |s|
  {
    if StartsWith(s, sep) {
      SplitPiecesAreFree(s[|sep|..], sep);
      LeftmostAfterSeparator(Split(s[|sep|..], sep), sep);
    } else if s != [] {
      var rest := Split(s[1..], sep);
      SplitPiecesAreFree(s[1..], sep);
      JoinSplit(s[1..], sep);
      FirstPieceFree(s, rest, sep);
      LeftmostAfterChar(s[0], rest, sep);
    }
  }

  /** An empty piece in front of leftmost pieces keeps them leftmost. */
  lemma LeftmostAfterSeparator(rest: seq<string>, sep: string)
    requires |rest| >= 1 && sep != ""
    requires LeftmostPieces(rest, sep)
    ensures LeftmostPieces([""] + rest, sep)
  {
    var parts := [""] + rest;
    var m := |sep|;
    assert !Occurs(parts[0] + sep[..m - 1], sep);
    forall k | 1 <= k < |parts| - 1
      ensures !Occurs(parts[k] + sep[..m - 1], sep)
    {
      assert parts[k] == rest[k - 1];
    }
    assert parts[|parts| - 1] == rest[|rest| - 1];
  }

  /**
   * Gluing a character onto the first of some leftmost pieces keeps them
   * leftmost, provided the new first piece is itself free of the separator.
   */
  lemma LeftmostAfterChar(c: char, rest: seq<string>, sep: string)
    requires |rest| >= 1 && sep != ""
    requires LeftmostPieces(rest, sep)
    requires |rest| == 1 ==> !Occurs([c] + rest[0], sep)
    requires |rest| >= 2 ==> !Occurs([c] + rest[0] + sep[..|sep| - 1], sep)
    ensures LeftmostPieces([[c] + rest[0]] + rest[1..], sep)
  {
    var m := |sep|;
    var parts := [[c] + rest[0]] + rest[1..];
    forall k | 1 <= k < |parts| - 1
      ensures !Occurs(parts[k] + sep[..m - 1], sep)
    {
      assert parts[k] == rest[k];
    }
    if |rest| >= 2 {
      assert parts[|parts| - 1] == rest[|rest| - 1];
    }
  }

  /** The first piece with `s[0]` glued on keeps the property the first piece of `s[1..]` has. */
  lemma FirstPieceFree(s: string, rest: seq<string>, sep: string)
    requires |rest| >= 1 && sep != "" && s != []
    requires |rest| == 1 ==> !Occurs(rest[0], sep)
    requires |rest| >= 2 ==> !Occurs(rest[0] + sep[..|sep| - 1], sep)
    requires s[1..] == Join(rest, sep)
    requires !StartsWith(s, sep)
    ensures |rest| == 1 ==> !Occurs([s[0]] + rest[0], sep)
    ensures |rest| >= 2 ==> !Occurs([s[0]] + rest[0] + sep[..|sep| - 1], sep)
  {
    assert s == [s[0]] + s[1..];
    if |rest| == 1 {
      ConsNoOccurrence([s[0]] + rest[0], rest[0], sep);
    } else {
      var after := Join(rest[1..], sep);
      assert s[1..] == rest[0] + sep + after;
      assert s == [s[0]] + rest[0] + sep + after;
      FirstPieceLeftmost(s, s[0], rest[0], after, sep);
    }
  }

  /**
   * The first piece of `s`, run on into the separator that follows it, holds
   * no separator: one starting at `s[0]` is excluded by `!StartsWith`, any
   * later one by the piece without its first character.
   */
  lemma FirstPieceLeftmost(s: string, c: char, piece: string, after: string, sep: string)
    requires sep != ""
    requires s == [c] + piece + sep + after
    requires !Occurs(piece + sep[..|sep| - 1], sep)
    requires !StartsWith(s, sep)
    ensures !Occurs([c] + piece + sep[..|sep| - 1], sep)
  {
    var m := |sep|;
    var u := piece + sep[..m - 1];
    var t := [c] + u;
    assert sep == sep[..m - 1] + sep[m - 1..];
    assert s == t + (sep[m - 1..] + after);
    assert t == s[..|t|];
    assert t[..m] == s[..m];
    assert t[1..] == u;
    ConsNoOccurrence(t, u, sep);
    assert t == [c] + piece + sep[..m - 1];
  }

  /** A string that does not start with `sep` and whose tail has no `sep` has none at all. */
  lemma ConsNoOccurrence(t: string, tail: string, sep: string)
    requires t != [] && t[1..] == tail
    requires !Occurs(tail, sep)
    requires !StartsWith(t, sep)
    ensures !Occurs(t, sep)
  {
    assert !OccursAt(t, sep, 0);
    assert t == [t[0]] + tail;
    forall i | 0 < i && i + |sep| <= |t|
      ensures !OccursAt(t, sep, i)
    {
      ShiftedOccurrence(t, [t[0]], tail, sep, i);
    }
  }

  /** Replacing a token by itself changes nothing (`{name}` stays `{name}` when there is no lead). */
  lemma ReplaceSelf(s: string, pat: string)
    requires pat != ""
    ensures ReplaceAll(s, pat, pat) == s
  {
    ReplaceAllIsSplitJoin(s, pat, pat);
    JoinSplit(s, pat);
  }

  /** A string without the token is left as it is. */
  lemma {:induction false} ReplaceAbsent(s: string, pat: string, rep: string)
    requires pat != "" && !Occurs(s, pat)
    ensures ReplaceAll(s, pat, rep) == s
    decreases |s|
  {
    IncludesIffOccurs(s, pat);
    if s != [] {
      IncludesIffOccurs(s[1..], pat);
      ReplaceAbsent(s[1..], pat, rep);
      assert [s[0]] + s[1..] == s;
    }
  }

  /**
   * No token is left after replacing when the replacement cannot help form one:
   * it holds no `pat[0]` and its first character is not in `pat[1..]`.
   * (Without such a condition new tokens can appear: replacing `{ab}` by `a`
   * in `{{ab}b}` yields `{ab}`.)
   */
  lemma {:induction false} ReplaceLeavesNoToken(s: string, pat: string, rep: string)
    requires pat != "" && rep != ""
    requires pat[0] !in rep && rep[0] !in pat[1..]
    ensures !Occurs(ReplaceAll(s, pat, rep), pat)
    decreases |s|
  {
    var m := |pat|;
    var r := ReplaceAll(s, pat, rep);
    if StartsWith(s, pat) {
      var r' := ReplaceAll(s[m..], pat, rep);
      ReplaceLeavesNoToken(s[m..], pat, rep);
      assert r == rep + r';
      forall i | 0 <= i && i + m <= |r|
        ensures !OccursAt(r, pat, i)
      {
        if i < |rep| {
          assert r[i] == rep[i];
        } else {
          ShiftedOccurrence(r, rep, r', pat, i);
        }
      }
    } else if s != [] {
      var r' := ReplaceAll(s[1..], pat, rep);
      ReplaceLeavesNoToken(s[1..], pat, rep);
      assert r == [s[0]] + r';
      ReplacedPrefix(s[1..], pat, rep, 1);
      if m <= |r| {
        assert r[..m] == [s[0]] + r'[..m - 1];
      }
      if m <= |s| {
        assert s[..m] == [s[0]] + s[1..][..m - 1];
      }
      assert pat == [pat[0]] + pat[1..];
      forall i | 0 < i && i + m <= |r|
        ensures !OccursAt(r, pat, i)
      {
        ShiftedOccurrence(r, [s[0]], r', pat, i);
      }
    }
  }

  /** An occurrence in `a + b` that starts after `a` is an occurrence in `b`. */
  lemma ShiftedOccurrence(r: string, a: string, b: string, pat: string, i: int)
    requires r == a + b && |a| <= i
    ensures OccursAt(r, pat, i) <==> OccursAt(b, pat, i - |a|)
  {
    if i + |pat| <= |r| {
      var x, y := r[i..i + |pat|], b[i - |a|..i - |a| + |pat|];
      forall k | 0 <= k < |pat|
        ensures x[k] == y[k]
      {
        assert r[i + k] == b[i - |a| + k];
      }
      assert x == y;
    }
  }

  /**
   * Under the conditions of `ReplaceLeavesNoToken`, a tail `pat[k..]` of the
   * token at the front of the result can only come from the same characters at
   * the front of the input.
   */
  lemma {:induction false} ReplacedPrefix(t: string, pat: string, rep: string, k: nat)
    requires pat != "" && rep != ""
    requires rep[0] !in pat[1..]
    requires 1 <= k <= |pat|
    ensures StartsWith(ReplaceAll(t, pat, rep), pat[k..]) ==> StartsWith(t, pat[k..])
    decreases |t|
  {
    var r := ReplaceAll(t, pat, rep);
    if k < |pat| {
      if StartsWith(t, pat) {
        assert r[0] == rep[0];
        assert pat[k] in pat[1..];
      } else if t != [] {
        var r' := ReplaceAll(t[1..], pat, rep);
        ReplacedPrefix(t[1..], pat, rep, k + 1);
        if StartsWith(r, pat[k..]) {
          var m := |pat| - k;
          assert r == [t[0]] + r';
          assert r[1..] == r';
          assert r'[..m - 1] == r[1..m];
          assert pat[k..] == [pat[k]] + pat[k + 1..];
          assert r[..m][1..] == r[1..m];
          assert StartsWith(r', pat[k + 1..]);
          assert t[..m] == [t[0]] + t[1..][..m - 1];
        }
      }
    }
  }
}
