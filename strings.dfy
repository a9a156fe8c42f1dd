/** The pieces of Python's `str` behaviour that the core relies on:
    `lower`, `startswith`, `in`, `split`, `join`, `replace(p, '')` and `strip()`. */
module Strings {
  import opened Wrappers

  /** `c.lower()` on the ASCII letters; every other character is kept. */
  function LowerChar(c: char): char
  {
    if 'A' <= c <= 'Z' then (c as int + 32) as char else c
  }

  /** `s.lower()`, character by character. */
  function Lower(s: string): (r: string)
    ensures |r| == |s|
    ensures forall i :: 0 <= i < |s| ==> r[i] == LowerChar(s[i])
  {
    seq(|s|, i requires 0 <= i < |s| => LowerChar(s[i]))
  }

  /** `s.startswith(prefix)`. */
  predicate StartsWith(s: string, prefix: string)
  {
    |prefix| <= |s| && s[..|prefix|] == prefix
  }

  /** `p` occurs in `s` starting at index `k`. */
  predicate OccursAt(s: string, p: string, k: nat)
  {
    k + |p| <= |s| && s[k..k + |p|] == p
  }

  /** `p in s`. */
  predicate Contains(s: string, p: string)
  {
    exists k: nat | k <= |s| :: OccursAt(s, p, k)
  }

  /** An occurrence past the first character is an occurrence in the tail. */
  lemma OccursInTail(s: string, p: string)
    requires s != []
    ensures forall k: nat :: 1 <= k ==> (OccursAt(s, p, k) <==> OccursAt(s[1..], p, k - 1))
  {
    forall k: nat | 1 <= k
      ensures OccursAt(s, p, k) <==> OccursAt(s[1..], p, k - 1)
    {
      if k + |p| <= |s| {
        var u := s[1..][k - 1..k - 1 + |p|];
        assert forall x :: 0 <= x < |u| ==> u[x] == s[k + x];
        assert s[k..k + |p|] == u;
      }
    }
  }

  /** `s.find(p)` when it is not -1: the leftmost occurrence of `p`. */
  function IndexOf(s: string, p: string): (r: Option<nat>)
    requires p != []
    ensures r.Some? ==> OccursAt(s, p, r.value)
    ensures r.Some? ==> forall k: nat :: k < r.value ==> !OccursAt(s, p, k)
    ensures r.None? ==> !Contains(s, p)
    decreases |s|
  {
    if |s| < |p| then None
    else if s[..|p|] == p then Some(0)
    else
      OccursInTail(s, p);
      match IndexOf(s[1..], p)
      case None => None
      case Some(i) => Some(i + 1)
  }

  /** `s.split(sep)`: the pieces between the leftmost non-overlapping occurrences of `sep`. */
  function Split(s: string, sep: string): (r: seq<string>)
    requires sep != []
    ensures |r| >= 1
    decreases |s|
  {
    match IndexOf(s, sep)
    case None => [s]
    case Some(i) => [s[..i]] + Split(s[i + |sep|..], sep)
  }

  /** `sep.join(parts)`. */
  function Join(parts: seq<string>, sep: string): string
  {
    if |parts| == 0 then []
    else if |parts| == 1 then parts[0]
    else parts[0] + sep + Join(parts[1..], sep)
  }

  /** No proper suffix of `sep` is also a prefix of it, so an occurrence of
      `sep` cannot start inside a piece and run into the separator after it. */
  predicate Unbordered(sep: string)
  {
    forall k :: 0 < k < |sep| ==> sep[k..] != sep[..|sep| - k]
  }

  lemma SeparatorsAreUnbordered()
    ensures Unbordered(", ") && Unbordered(" ")
  {
    assert ", "[1..] == " ";
    assert ", "[..1] == ",";
  }

  /** In `a + sep + b`, with `sep` absent from `a`, the leftmost `sep` is the one after `a`. */
  lemma FirstOccurrenceAfterPiece(a: string, sep: string, b: string)
    requires sep != [] && Unbordered(sep) && !Contains(a, sep)
    ensures IndexOf(a + sep + b, sep) == Some(|a|)
  {
    var s := a + sep + b;
    assert s[|a|..|a| + |sep|] == sep;
    assert OccursAt(s, sep, |a|);
    forall k: nat | k < |a|
      ensures !OccursAt(s, sep, k)
    {
      if k + |sep| <= |a| {
        assert s[k..k + |sep|] == a[k..k + |sep|];
        assert !OccursAt(a, sep, k);
      } else {
        var j := |a| - k;
        assert 0 < j < |sep|;
        assert s[k..k + |sep|][j..] == sep[..|sep| - j];
        assert sep[j..] != sep[..|sep| - j];
      }
    }
    var r := IndexOf(s, sep);
    assert r.Some?;
    assert r.value >= |a|;
    assert r.value <= |a|;
  }

  /** Splitting joined pieces gives the pieces back, as long as no piece
      contains the separator. */
  lemma {:induction false} SplitJoin(parts: seq<string>, sep: string)
    requires sep != [] && Unbordered(sep)
    requires |parts| >= 1
    requires forall i :: 0 <= i < |parts| ==> !Contains(parts[i], sep)
    ensures Split(Join(parts, sep), sep) == parts
    decreases |parts|
  {
    if |parts| > 1 {
      var rest := Join(parts[1..], sep);
      var s := parts[0] + sep + rest;
      FirstOccurrenceAfterPiece(parts[0], sep, rest);
      assert s[..|parts[0]|] == parts[0];
      assert s[|parts[0]| + |sep|..] == rest;
      SplitJoin(parts[1..], sep);
    }
  }

  /** `s.replace(p, '')`: scanning left to right, every occurrence of `p` is dropped. */
  function RemoveAll(s: string, p: string): string
    requires p != []
    decreases |s|
  {
    if |s| < |p| then s
    else if s[..|p|] == p then RemoveAll(s[|p|..], p)
    else [s[0]] + RemoveAll(s[1..], p)
  }

  const Fence: string := "```"

  /** Prepending one character can only create an occurrence of the fence at the front. */
  lemma NoFenceCons(c: char, t: string)
    requires !Contains(t, Fence)
    requires !(c == '`' && |t| >= 2 && t[0] == '`' && t[1] == '`')
    ensures !Contains([c] + t, Fence)
  {
    var s := [c] + t;
    OccursInTail(s, Fence);
    assert s[1..] == t;
    assert !OccursAt(s, Fence, 0) by {
      if |s| >= 3 {
        assert s[..3] == [c, t[0], t[1]];
      }
    }
    forall k: nat
      ensures !OccursAt(s, Fence, k)
    {
      if k >= 1 {
        assert !OccursAt(t, Fence, k - 1);
      }
    }
  }

  /** One pass of `replace('```', '')` leaves no fence behind, even where the
      removal brings backticks together. */
  lemma {:induction false} RemoveFenceLeavesNoFence(s: string)
    ensures !Contains(RemoveAll(s, Fence), Fence)
    ensures |s| > 0 && s[0] != '`' ==>
              |RemoveAll(s, Fence)| > 0 && RemoveAll(s, Fence)[0] == s[0]
    decreases |s|
  {
    if |s| < 3 {
      assert RemoveAll(s, Fence) == s;
    } else if s[..3] == Fence {
      RemoveFenceLeavesNoFence(s[3..]);
    } else {
      var t := RemoveAll(s[1..], Fence);
      RemoveFenceLeavesNoFence(s[1..]);
      assert RemoveAll(s, Fence) == [s[0]] + t;
      if s[0] == '`' && s[1] == '`' {
        assert s[2] != '`' by {
          assert s[..3] == [s[0], s[1], s[2]];
        }
        if |s| == 3 {
          assert t == s[1..];
        } else {
          assert s[1..][..3] != Fence by {
            assert s[1..][..3][1] == s[2];
          }
          RemoveFenceLeavesNoFence(s[2..]);
          assert s[1..][1..] == s[2..];
          assert t == [s[1]] + RemoveAll(s[2..], Fence);
        }
      }
      NoFenceCons(s[0], t);
    }
  }

  /** The characters for which Python's `str.isspace` holds. */
  predicate IsSpace(c: char)
  {
    var n := c as int;
    n == 32 || 9 <= n <= 13 || 28 <= n <= 31 || n == 0x85 || n == 0xA0 || n == 0x1680
    || 0x2000 <= n <= 0x200A || n == 0x2028 || n == 0x2029 || n == 0x202F || n == 0x205F
    || n == 0x3000
  }

  /** `s.lstrip()`: the suffix of `s` left after dropping leading whitespace. */
  function StripLeading(s: string): (r: string)
    ensures |r| <= |s| && r == s[|s| - |r|..]
    ensures r == [] || !IsSpace(r[0])
    ensures forall i :: 0 <= i < |s| - |r| ==> IsSpace(s[i])
    decreases |s|
  {
    if s != [] && IsSpace(s[0]) then StripLeading(s[1..]) else s
  }

  /** `s.rstrip()`: the prefix of `s` left after dropping trailing whitespace. */
  function StripTrailing(s: string): (r: string)
    ensures |r| <= |s| && r == s[..|r|]
    ensures r == [] || !IsSpace(r[|r| - 1])
    ensures forall i :: |r| <= i < |s| ==> IsSpace(s[i])
    decreases |s|
  {
    if s != [] && IsSpace(s[|s| - 1]) then StripTrailing(s[..|s| - 1]) else s
  }

  /** `s.strip()`. */
  function Strip(s: string): (r: string)
    ensures r == [] || (!IsSpace(r[0]) && !IsSpace(r[|r| - 1]))
  {
    StripTrailing(StripLeading(s))
  }

  /** An occurrence inside a slice is an occurrence in the whole. */
  lemma ContainsInSlice(s: string, i: nat, j: nat, p: string)
    requires i <= j <= |s|
    requires Contains(s[i..j], p)
    ensures Contains(s, p)
  {
    var k: nat :| k <= j - i && OccursAt(s[i..j], p, k);
    var u := s[i..j][k..k + |p|];
    assert forall x :: 0 <= x < |u| ==> u[x] == s[i + k + x];
    assert u == s[i + k..i + k + |p|];
    assert OccursAt(s, p, i + k);
  }

  /** Stripping cannot create an occurrence of anything. */
  lemma StripKeepsAbsent(s: string, p: string)
    requires !Contains(s, p)
    ensures !Contains(Strip(s), p)
  {
    var l := StripLeading(s);
    if Contains(l, p) {
      assert s[|s| - |l|..|s|] == l;
      ContainsInSlice(s, |s| - |l|, |s|, p);
    }
    var r := StripTrailing(l);
    if Contains(r, p) {
      ContainsInSlice(l, 0, |r|, p);
    }
  }
}
