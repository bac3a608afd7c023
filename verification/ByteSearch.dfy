/** Knuth-Morris-Pratt search and in-place replacement over byte arrays
    (Ncqrs.Eventing.Sourcing.Snapshotting.DynamicSnapshot, ByteExtensions). */
module ByteSearch {
  import opened Common

  // ----- What the search promises -----

  /** The pattern occurs in `s` at position `m`. */
  predicate MatchesAt(s: seq<Byte>, p: seq<Byte>, m: nat) {
    m + |p| <= |s| && s[m..m + |p|] == p
  }

  /** The leftmost occurrence at or after `from`, by trying every position; -1 when there is none. */
  function FirstMatchFrom(s: seq<Byte>, p: seq<Byte>, from: nat): (r: int)
    ensures r == -1 || (from <= r && MatchesAt(s, p, r))
    ensures r == -1 ==> forall k: nat | from <= k :: !MatchesAt(s, p, k)
    ensures r != -1 ==> forall k: nat | from <= k < r :: !MatchesAt(s, p, k)
    decreases |s| - from
  {
    if from + |p| > |s| then -1
    else if MatchesAt(s, p, from) then from
    else FirstMatchFrom(s, p, from + 1)
  }

  function FirstMatch(s: seq<Byte>, p: seq<Byte>): int {
    FirstMatchFrom(s, p, 0)
  }

  /** `p[..k]` is a proper border of `p[..i]`: both a prefix and a suffix of it, and shorter. */
  predicate IsBorder(p: seq<Byte>, i: nat, k: nat)
    requires i <= |p|
  {
    k < i && p[..k] == p[i - k..i]
  }

  /** `p[..r]` is the longest proper border of `p[..i]`. */
  ghost predicate IsLongestBorder(p: seq<Byte>, i: nat, r: nat)
    requires i <= |p|
  {
    IsBorder(p, i, r) && forall k: nat {:trigger IsBorder(p, i, k)} | r < k < i :: !IsBorder(p, i, k)
  }

  /** What entry `i` of the failure table must be. */
  ghost predicate IsFailureEntry(p: seq<Byte>, i: nat, entry: int)
    requires i < |p|
  {
    if i == 0 then entry == -1 else entry >= 0 && IsLongestBorder(p, i, entry)
  }

  /** The first `n` entries of the table are right. */
  ghost predicate TableUpTo(p: seq<Byte>, t: seq<int>, n: nat)
    requires n <= |p| && n <= |t|
  {
    n == 0 || (TableUpTo(p, t, n - 1) && IsFailureEntry(p, n - 1, t[n - 1]))
  }

  // ----- How borders behave -----

  /** A border of `p[..i]` shorter than the border `j` is a border of `p[..j]`, and conversely. */
  lemma BorderOfBorder(p: seq<Byte>, i: nat, j: nat, k: nat)
    requires i <= |p| && IsBorder(p, i, j) && k < j
    ensures IsBorder(p, i, k) <==> IsBorder(p, j, k)
  {
    assert p[j - k..j] == p[..j][j - k..];
    assert p[i - k..i] == p[i - j..i][j - k..];
  }

  /** Extending a border by one byte. */
  lemma BorderExtends(p: seq<Byte>, i: nat, k: nat)
    requires 0 < i < |p| && k < i
    ensures IsBorder(p, i + 1, k + 1) <==> IsBorder(p, i, k) && p[i] == p[k]
  {
    assert p[..k + 1] == p[..k] + [p[k]];
    assert p[i - k..i + 1] == p[i - k..i] + [p[i]];
  }

  // ----- The failure table -----

  /** `j` is a border of `p[..i]`, and no longer border extends by the byte `p[i]`. */
  ghost predicate BestCandidate(p: seq<Byte>, i: nat, j: nat)
    requires 0 < i <= |p|
  {
    IsBorder(p, i, j) &&
    forall k: nat {:trigger IsBorder(p, i, k)} | j < k < i && IsBorder(p, i, k) :: i < |p| && p[i] != p[k]
  }

  /** The fall-back `j = t[j]` loses no candidate. */
  lemma FallBackKeepsCandidates(p: seq<Byte>, i: nat, j: nat, shorter: nat)
    requires 0 < j < i < |p| && p[i] != p[j]
    requires BestCandidate(p, i, j) && IsLongestBorder(p, j, shorter)
    ensures shorter < j && BestCandidate(p, i, shorter)
  {
    BorderOfBorder(p, i, j, shorter);
    forall k: nat | shorter < k < i && IsBorder(p, i, k)
      ensures p[i] != p[k]
    {
      if k < j {
        BorderOfBorder(p, i, j, k);
      }
    }
  }

  /** When the byte after the best candidate agrees, the candidate plus one is the longest border. */
  lemma ExtensionIsLongest(p: seq<Byte>, i: nat, j: nat)
    requires 1 < i <= |p| && BestCandidate(p, i - 1, j) && p[i - 1] == p[j]
    ensures IsLongestBorder(p, i, j + 1) && BestCandidate(p, i, j + 1)
  {
    BorderExtends(p, i - 1, j);
    forall k: nat {:trigger IsBorder(p, i, k)} | j + 1 < k < i
      ensures !IsBorder(p, i, k)
    {
      BorderExtends(p, i - 1, k - 1);
    }
  }

  /** When even the empty candidate disagrees, the longest border is empty. */
  lemma NothingExtends(p: seq<Byte>, i: nat)
    requires 1 < i <= |p| && BestCandidate(p, i - 1, 0) && p[i - 1] != p[0]
    ensures IsLongestBorder(p, i, 0) && BestCandidate(p, i, 0)
  {
    forall k: nat {:trigger IsBorder(p, i, k)} | 0 < k < i
      ensures !IsBorder(p, i, k)
    {
      BorderExtends(p, i - 1, k - 1);
    }
  }

  lemma TableEntry(p: seq<Byte>, t: seq<int>, n: nat, k: nat)
    requires k < n <= |p| && n <= |t| && TableUpTo(p, t, n)
    ensures IsFailureEntry(p, k, t[k])
  {
  }

  /** One more correct entry, the earlier ones unchanged. */
  lemma TableGrows(p: seq<Byte>, t: seq<int>, t': seq<int>, n: nat)
    requires n < |p| && n < |t'| && n <= |t| && t[..n] == t'[..n]
    requires TableUpTo(p, t, n) && IsFailureEntry(p, n, t'[n])
    ensures TableUpTo(p, t', n + 1)
  {
    if n > 0 {
      assert t[..n - 1] == t[..n][..n - 1] == t'[..n - 1];
      assert t[n - 1] == t[..n][n - 1] == t'[n - 1];
      TableEntry(p, t, n, n - 1);
      TableGrows(p, t, t', n - 1);
    }
  }

  lemma TableStart(p: seq<Byte>, t: seq<int>)
    requires 2 <= |p| && 2 <= |t| && t[0] == -1 && t[1] == 0
    ensures TableUpTo(p, t, 2) && BestCandidate(p, 1, 0)
  {
    TableGrows(p, [], t, 0);
    TableGrows(p, t, t, 1);
  }

  /** `ComputeFailureTable`: every entry is the longest proper border, within 2 * |pattern| iterations. */
  method ComputeFailureTable(p: seq<Byte>) returns (t: array<int>, ghost iterations: nat)
    requires |p| >= 2
    ensures fresh(t) && t.Length == |p| && TableUpTo(p, t[..], |p|)
    ensures iterations <= 2 * |p|
  {
    t := new int[|p|];
    t[0] := -1;
    t[1] := 0;
    var i := 2;
    var j := 0;
    iterations := 0;
    TableStart(p, t[..]);
    while i < |p|
      invariant 2 <= i <= |p|
      invariant 0 <= j < i - 1
      invariant TableUpTo(p, t[..], i)
      invariant BestCandidate(p, i - 1, j)
      invariant iterations + j <= 2 * i
      decreases 2 * (|p| - i) + j
    {
      ghost var before := t[..];
      if p[i - 1] == p[j] {
        ExtensionIsLongest(p, i, j);
        j := j + 1;
        t[i] := j;
        TableGrows(p, before, t[..], i);
        i := i + 1;
      } else if j > 0 {
        TableEntry(p, t[..], i, j);
        FallBackKeepsCandidates(p, i - 1, j, t[j]);
        j := t[j];
      } else {
        NothingExtends(p, i);
        t[i] := 0;
        TableGrows(p, before, t[..], i);
        i := i + 1;
      }
      iterations := iterations + 1;
    }
  }

  // ----- The search -----

  /** The position is one at which the bytes are there, and none comes earlier; it is -1 when they are nowhere. */
  lemma FirstMatchIsLeftmost(s: seq<Byte>, p: seq<Byte>, k: nat)
    ensures var m := FirstMatch(s, p);
      && -1 <= m
      && (m >= 0 ==> m + |p| <= |s| && s[m..m + |p|] == p)
      && (k + |p| <= |s| && s[k..k + |p|] == p ==> 0 <= m <= k)
  {
    if k + |p| <= |s| && s[k..k + |p|] == p {
      assert MatchesAt(s, p, k);
    }
  }

  /** Positions `m .. m'` hold no occurrence, so the leftmost one from `m` is the leftmost one from `m'`. */
  lemma NoMatchBetween(s: seq<Byte>, p: seq<Byte>, m: nat, m': nat)
    requires m <= m' && forall k: nat | m <= k < m' :: !MatchesAt(s, p, k)
    ensures FirstMatchFrom(s, p, m) == FirstMatchFrom(s, p, m')
    decreases m' - m
  {
    if m < m' {
      NoMatchBetween(s, p, m + 1, m');
    }
  }

  /** The shift `m += i - t[i]` after a mismatch skips no occurrence and keeps a matched prefix of length t[i]. */
  lemma ShiftSkipsNoMatch(s: seq<Byte>, p: seq<Byte>, m: nat, i: nat, r: nat)
    requires i < |p| && m + i < |s| && s[m..m + i] == p[..i] && s[m + i] != p[i]
    requires 0 < i && IsLongestBorder(p, i, r)
    ensures s[m + i - r..m + i] == p[..r]
    ensures FirstMatchFrom(s, p, m) == FirstMatchFrom(s, p, m + i - r)
  {
    assert s[m + i - r..m + i] == s[m..m + i][i - r..];
    assert p[i - r..i] == p[..i][i - r..];
    forall k: nat | m <= k < m + i - r
      ensures !MatchesAt(s, p, k)
    {
      MatchGivesBorder(s, p, m, i, k);
    }
    NoMatchBetween(s, p, m, m + i - r);
  }

  /** An occurrence at `k`, inside a partial match of length `i` at `m`, makes `m + i - k` a border length. */
  lemma MatchGivesBorder(s: seq<Byte>, p: seq<Byte>, m: nat, i: nat, k: nat)
    requires i < |p| && m + i < |s| && s[m..m + i] == p[..i] && s[m + i] != p[i]
    requires m <= k < m + i
    ensures MatchesAt(s, p, k) ==> IsBorder(p, i, m + i - k)
  {
    if MatchesAt(s, p, k) {
      var b := m + i - k;
      if b == i {
        assert false;
      } else {
        assert p[..b] == s[k..k + |p|][..b] == s[k..m + i];
        assert p[i - b..i] == p[..i][i - b..] == s[m..m + i][i - b..] == s[k..m + i];
      }
    }
  }

  /** `Find`: the leftmost occurrence or -1, within 2 * |self| iterations of the search loop. */
  method Find(self: seq<Byte>, pattern: seq<Byte>) returns (position: int, ghost iterations: nat)
    requires |pattern| >= 2
    ensures position == FirstMatch(self, pattern)
    ensures iterations <= 2 * |self|
  {
    var m, i := 0, 0;
    var t, _ := ComputeFailureTable(pattern);
    iterations := 0;
    while m + i < |self|
      invariant 0 <= m && 0 <= i < |pattern| && m + i <= |self|
      invariant t.Length == |pattern| && TableUpTo(pattern, t[..], |pattern|)
      invariant self[m..m + i] == pattern[..i]
      invariant FirstMatch(self, pattern) == FirstMatchFrom(self, pattern, m)
      invariant iterations <= 2 * m + i
      decreases 2 * (|self| - m) - i
    {
      iterations := iterations + 1;
      if pattern[i] == self[m + i] {
        PrefixGrows(self, pattern, m, i);
        if i == |pattern| - 1 {
          return m, iterations;
        }
        i := i + 1;
      } else {
        TableEntry(pattern, t[..], |pattern|, i);
        Mismatch(self, pattern, m, i, t[i]);
        m := m + (i - t[i]);
        i := if t[i] > -1 then t[i] else 0;
      }
    }
    return -1, iterations;
  }

  lemma PrefixGrows(s: seq<Byte>, p: seq<Byte>, m: nat, i: nat)
    requires i < |p| && m + i < |s| && s[m..m + i] == p[..i] && s[m + i] == p[i]
    ensures s[m..m + i + 1] == p[..i + 1]
    ensures i + 1 == |p| ==> FirstMatchFrom(s, p, m) == m
  {
    assert s[m..m + i + 1] == s[m..m + i] + [s[m + i]];
    assert p[..i + 1] == p[..i] + [p[i]];
  }

  /** Both kinds of table entry: the shift keeps the partial match and the leftmost occurrence. */
  lemma Mismatch(s: seq<Byte>, p: seq<Byte>, m: nat, i: nat, entry: int)
    requires i < |p| && m + i < |s| && s[m..m + i] == p[..i] && s[m + i] != p[i]
    requires IsFailureEntry(p, i, entry)
    ensures -1 <= entry < i
    ensures var r := if entry > -1 then entry else 0;
      var m' := m + (i - entry);
      m' + r <= |s| && s[m'..m' + r] == p[..r] &&
      FirstMatchFrom(s, p, m) == FirstMatchFrom(s, p, m')
  {
    if i > 0 {
      ShiftSkipsNoMatch(s, p, m, i, entry);
    } else {
      assert MatchesAt(s, p, m) ==> s[m..m + |p|][0] == p[0];
    }
  }

  // ----- Replacement -----

  /** The bytes after `Replace`: the leftmost occurrence overwritten, when there is one and the lengths agree. */
  function Replaced(s: seq<Byte>, p: seq<Byte>, q: seq<Byte>): (r: seq<Byte>)
    ensures |r| == |s|
  {
    var m := FirstMatch(s, p);
    if |p| != |q| || m == -1 then s else s[..m] + q + s[m + |q|..]
  }

  /** `Replace` overwrites the array in place; any of the three arrays may be the same object. */
  method Replace(self: array<Byte>, patternToReplace: array<Byte>, newPattern: array<Byte>) returns (replaced: bool)
    requires patternToReplace.Length == newPattern.Length ==> patternToReplace.Length >= 2
    modifies self
    ensures self[..] == Replaced(old(self[..]), old(patternToReplace[..]), old(newPattern[..]))
    ensures replaced <==> patternToReplace.Length == newPattern.Length &&
                          exists m: nat :: MatchesAt(old(self[..]), old(patternToReplace[..]), m)
  {
    if patternToReplace.Length != newPattern.Length {
      return false;
    }
    var pos, _ := Find(self[..], patternToReplace[..]);
    if pos != -1 {
      forall k | 0 <= k < newPattern.Length {
        self[pos + k] := newPattern[k];
      }
    }
    return pos != -1;
  }

  /** The leftmost occurrence is overwritten and every other byte stays; without one, or with lengths that differ, every
      byte does. */
  lemma ReplacesLeftmostOnly(s: seq<Byte>, p: seq<Byte>, q: seq<Byte>)
    ensures |p| == |q| && (exists m: nat :: MatchesAt(s, p, m)) ==>
      exists m: nat :: MatchesAt(s, p, m) && IsWritten(s, q, m, Replaced(s, p, q)) &&
                       forall k: nat | k < m :: !MatchesAt(s, p, k)
    ensures |p| != |q| || !(exists m: nat :: MatchesAt(s, p, m)) ==> Replaced(s, p, q) == s
  {
    var m := FirstMatch(s, p);
    if |p| == |q| && m != -1 {
      assert MatchesAt(s, p, m) && IsWritten(s, q, m, Replaced(s, p, q));
    }
  }

  /** `r` is `s` with `q` written over it at `m`. */
  predicate IsWritten(s: seq<Byte>, q: seq<Byte>, m: nat, r: seq<Byte>) {
    && m + |q| <= |s| == |r|
    && forall k | 0 <= k < |r| :: r[k] == if m <= k < m + |q| then q[k - m] else s[k]
  }

  /** Replacing back restores the bytes exactly when the new pattern does not already occur further left. */
  lemma ReplaceBackRestores(s: seq<Byte>, p: seq<Byte>, q: seq<Byte>)
    requires |p| == |q| && FirstMatch(s, p) != -1
    ensures Replaced(Replaced(s, p, q), q, p) == s <==> FirstMatch(Replaced(s, p, q), q) == FirstMatch(s, p)
  {
    var m := FirstMatch(s, p);
    var s' := Replaced(s, p, q);
    assert s'[m..m + |q|] == q;
    assert MatchesAt(s', q, m);
    var m' := FirstMatch(s', q);
    var s'' := Replaced(s', q, p);
    assert s''[m'..m' + |p|] == p;
    if m' < m {
      assert MatchesAt(s'', p, m');
    } else {
      assert s'[..m] == s[..m] && s'[m + |q|..] == s[m + |q|..] && s[m..m + |p|] == p;
      assert s == s[..m] + p + s[m + |p|..];
    }
  }
}
