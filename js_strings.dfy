/**
 * The few JavaScript string operations the page script relies on, written out
 * with their ECMAScript meaning: the `\s` character class (which is also the
 * set `String.prototype.trim` strips), `trim`, `includes`, and `replace` with a
 * global regular expression whose pattern is a plain literal.
 */
module JsStrings {

  /** The ECMAScript WhiteSpace and LineTerminator code points: what `\s` matches and `trim` removes. */
  predicate IsWhitespace(c: char) {
    // TAB, LF, VT, FF, CR, SPACE
    c == '\U{0009}' || c == '\U{000A}' || c == '\U{000B}' || c == '\U{000C}' ||
    c == '\U{000D}' || c == '\U{0020}' ||
    // NO-BREAK SPACE, OGHAM SPACE MARK, EN QUAD .. HAIR SPACE
    c == '\U{00A0}' || c == '\U{1680}' || ('\U{2000}' <= c <= '\U{200A}') ||
    // LINE SEPARATOR, PARAGRAPH SEPARATOR, NARROW NO-BREAK SPACE,
    // MEDIUM MATHEMATICAL SPACE, IDEOGRAPHIC SPACE, BYTE ORDER MARK
    c == '\U{2028}' || c == '\U{2029}' || c == '\U{202F}' ||
    c == '\U{205F}' || c == '\U{3000}' || c == '\U{FEFF}'
  }

  /** `\d`: an ASCII decimal digit. */
  predicate IsDigit(c: char) {
    '0' <= c <= '9'
  }

  /** `s[lo..hi]` is whitespace only. */
  predicate WhitespaceBetween(s: string, lo: int, hi: int) {
    forall k | lo <= k < hi && 0 <= k < |s| :: IsWhitespace(s[k])
  }

  predicate AllWhitespace(s: string) {
    WhitespaceBetween(s, 0, |s|)
  }

  /** The first index from `i` on that does not hold whitespace (`|s|` if none does). */
  function SkipLeading(s: string, i: nat): (j: nat)
    requires i <= |s|
    ensures i <= j <= |s| && WhitespaceBetween(s, i, j)
    ensures j == |s| || !IsWhitespace(s[j])
    decreases |s| - i
  {
    if i < |s| && IsWhitespace(s[i]) then SkipLeading(s, i + 1) else i
  }

  /** The last index down from `j`, but not below `lo`, that follows a non-whitespace character (`lo` if none does). */
  function SkipTrailing(s: string, lo: nat, j: nat): (h: nat)
    requires lo <= j <= |s|
    ensures lo <= h <= j && WhitespaceBetween(s, h, j)
    ensures h == lo || !IsWhitespace(s[h - 1])
    decreases j
  {
    if lo < j && IsWhitespace(s[j - 1]) then SkipTrailing(s, lo, j - 1) else j
  }

  /**
   * `String.prototype.trim`: whitespace removed at both ends, so the result
   * neither starts nor ends with whitespace, is empty exactly when `s` is all
   * whitespace, and is `s` itself when `s` has no whitespace at either end
   * (`TrimCutsWhitespace` says what is removed).
   */
  function Trim(s: string): (r: string)
    ensures |r| <= |s|
    ensures r == [] || (!IsWhitespace(r[0]) && !IsWhitespace(r[|r| - 1]))
    ensures r == [] <==> AllWhitespace(s)
    ensures (s == [] || (!IsWhitespace(s[0]) && !IsWhitespace(s[|s| - 1]))) ==> r == s
  {
    var lo := SkipLeading(s, 0);
    var hi := SkipTrailing(s, lo, |s|);
    assert lo == hi ==> AllWhitespace(s);
    s[lo..hi]
  }

  /** What `Trim` removes is whitespace only: the result is the slice of `s` between two runs of whitespace. */
  lemma TrimCutsWhitespace(s: string) returns (i: nat)
    ensures i + |Trim(s)| <= |s| && s[i..i + |Trim(s)|] == Trim(s)
    ensures WhitespaceBetween(s, 0, i) && WhitespaceBetween(s, i + |Trim(s)|, |s|)
  {
    i := SkipLeading(s, 0);
  }

  /** Whether `p` occurs in `s` starting at index `i`. */
  predicate OccursAt(s: string, p: string, i: int) {
    0 <= i && i + |p| <= |s| && s[i..i + |p|] == p
  }

  predicate StartsWith(s: string, p: string) {
    |p| <= |s| && s[..|p|] == p
  }

  /** `String.prototype.includes`, by scanning from the left. */
  predicate Includes(s: string, p: string)
    decreases |s|
  {
    StartsWith(s, p) || (s != [] && Includes(s[1..], p))
  }

  /** An occurrence in a suffix is an occurrence in the whole string, shifted by the suffix's offset. */
  lemma OccursInSuffix(s: string, p: string, n: nat, i: int)
    requires n <= |s|
    ensures OccursAt(s[n..], p, i) <==> (i >= 0 && OccursAt(s, p, n + i))
  {
    if 0 <= i && i + |p| <= |s| - n {
      assert s[n..][i..i + |p|] == s[n + i..n + i + |p|];
    }
  }

  /** `includes` finds every occurrence. */
  lemma {:induction false} IncludesOccurrence(s: string, p: string, i: int)
    requires OccursAt(s, p, i)
    ensures Includes(s, p)
    decreases i
  {
    if i > 0 {
      OccursInSuffix(s, p, 1, i - 1);
      IncludesOccurrence(s[1..], p, i - 1);
    }
  }

  /** `includes` reports only genuine occurrences. */
  lemma {:induction false} OccurrenceOfIncludes(s: string, p: string) returns (i: nat)
    requires Includes(s, p)
    ensures OccursAt(s, p, i)
    decreases |s|
  {
    if StartsWith(s, p) {
      i := 0;
    } else {
      var j := OccurrenceOfIncludes(s[1..], p);
      OccursInSuffix(s, p, 1, j);
      i := j + 1;
    }
  }

  /** `includes` finds exactly the occurrences `OccursAt` describes. */
  lemma IncludesIff(s: string, p: string)
    ensures Includes(s, p) <==> exists i :: OccursAt(s, p, i)
  {
    if Includes(s, p) {
      var i := OccurrenceOfIncludes(s, p);
    }
    if exists i :: OccursAt(s, p, i) {
      var i :| OccursAt(s, p, i);
      IncludesOccurrence(s, p, i);
    }
  }

  /** `p` occurs in `s` at index `k` and nowhere else. */
  ghost predicate OnlyOccurrence(s: string, p: string, k: int) {
    forall i :: OccursAt(s, p, i) <==> i == k
  }

  /**
   * `s.replace(/p/g, r)` for a pattern `p` without regular-expression
   * metacharacters and a replacement `r` without `$` patterns: every
   * non-overlapping occurrence of `p`, found left to right, becomes `r`.
   * A string that does not include `p` comes back unchanged.
   */
  function ReplaceAll(s: string, p: string, r: string): (res: string)
    requires p != []
    ensures !Includes(s, p) ==> res == s
    decreases |s|
  {
    if |s| < |p| then s
    else if s[..|p|] == p then r + ReplaceAll(s[|p|..], p, r)
    else [s[0]] + ReplaceAll(s[1..], p, r)
  }

  /** When `p` occurs exactly once, `replace` swaps exactly that occurrence for `r`. */
  lemma {:induction false} ReplaceAllSole(s: string, p: string, r: string, k: int)
    requires p != []
    requires OnlyOccurrence(s, p, k)
    ensures 0 <= k && k + |p| <= |s|
    ensures ReplaceAll(s, p, r) == s[..k] + r + s[k + |p|..]
    decreases |s|
  {
    assert OccursAt(s, p, k);
    if k == 0 {
      ReplaceAllSoleAtStart(s, p, r);
    } else {
      var tail := s[1..];
      OnlyOccurrenceInTail(s, p, k);
      ReplaceAllSole(tail, p, r, k - 1);
      assert ReplaceAll(s, p, r) == [s[0]] + ReplaceAll(tail, p, r);
      assert s[..k] == [s[0]] + tail[..k - 1];
      assert s[k + |p|..] == tail[k - 1 + |p|..];
    }
  }

  /** A pattern occurring only between `x` and `y` is replaced there, and `x` and `y` are kept. */
  lemma ReplaceAllSoleMiddle(x: string, p: string, y: string, r: string)
    requires p != [] && OnlyOccurrence(x + p + y, p, |x|)
    ensures ReplaceAll(x + p + y, p, r) == x + r + y
  {
    var s := x + p + y;
    ReplaceAllSole(s, p, r, |x|);
    assert s[..|x|] == x && s[|x| + |p|..] == y;
  }

  /** A sole occurrence at the start is replaced, and the rest is copied. */
  lemma ReplaceAllSoleAtStart(s: string, p: string, r: string)
    requires p != []
    requires OnlyOccurrence(s, p, 0)
    ensures |p| <= |s| && ReplaceAll(s, p, r) == r + s[|p|..]
  {
    assert OccursAt(s, p, 0);
    var rest := s[|p|..];
    forall i | OccursAt(rest, p, i) ensures false {
      OccursInSuffix(s, p, |p|, i);
    }
    IncludesIff(rest, p);
  }

  /** A sole occurrence after the start is the sole occurrence, one place earlier, in the tail. */
  lemma OnlyOccurrenceInTail(s: string, p: string, k: int)
    requires OnlyOccurrence(s, p, k) && k > 0
    ensures |p| <= |s| && s[..|p|] != p
    ensures OnlyOccurrence(s[1..], p, k - 1)
  {
    assert OccursAt(s, p, k) && !OccursAt(s, p, 0);
    forall i ensures OccursAt(s[1..], p, i) <==> i == k - 1 {
      OccursInSuffix(s, p, 1, i);
    }
  }

  /**
   * A chain `s.replace(/from[0]/g, to[0]).replace(/from[1]/g, to[1])...`,
   * applied in order.
   */
  function ReplaceChain(s: string, from: seq<string>, to: seq<string>): (res: string)
    requires |from| == |to|
    requires forall j | 0 <= j < |from| :: from[j] != []
    ensures (forall j | 0 <= j < |from| :: !Includes(s, from[j])) ==> res == s
    decreases |from|
  {
    if from == [] then s
    else ReplaceChain(ReplaceAll(s, from[0], to[0]), from[1..], to[1..])
  }

  /**
   * If `s` holds a single occurrence of the pattern `from[i]` at `k`, and
   * neither `s` nor the result of swapping it for `to[i]` includes any other
   * pattern of the chain, the chain swaps exactly that occurrence.
   */
  lemma {:induction false} ReplaceChainSole(s: string, from: seq<string>, to: seq<string>, i: nat, k: int)
    requires |from| == |to| && i < |from|
    requires forall j | 0 <= j < |from| :: from[j] != []
    requires OnlyOccurrence(s, from[i], k)
    requires 0 <= k && k + |from[i]| <= |s|
    requires forall j | 0 <= j < |from| && j != i ::
               !Includes(s, from[j]) && !Includes(s[..k] + to[i] + s[k + |from[i]|..], from[j])
    ensures ReplaceChain(s, from, to) == s[..k] + to[i] + s[k + |from[i]|..]
    decreases i
  {
    var t := s[..k] + to[i] + s[k + |from[i]|..];
    if i == 0 {
      ReplaceAllSole(s, from[0], to[0], k);
      assert forall j | 0 <= j < |from[1..]| :: !Includes(t, from[1..][j]) by {
        forall j | 0 <= j < |from[1..]| ensures !Includes(t, from[1..][j]) {
          assert from[1..][j] == from[j + 1];
        }
      }
    } else {
      assert ReplaceAll(s, from[0], to[0]) == s;
      assert forall j | 0 <= j < |from[1..]| && j != i - 1 ::
        !Includes(s, from[1..][j]) && !Includes(t, from[1..][j]) by {
        forall j | 0 <= j < |from[1..]| && j != i - 1
          ensures !Includes(s, from[1..][j]) && !Includes(t, from[1..][j])
        {
          assert from[1..][j] == from[j + 1];
        }
      }
      ReplaceChainSole(s, from[1..], to[1..], i - 1, k);
    }
  }

  /** `ReplaceChainSole` for a string written as `x + from[i] + y`. */
  lemma ReplaceChainSoleMiddle(x: string, y: string, from: seq<string>, to: seq<string>, i: nat)
    requires |from| == |to| && i < |from|
    requires forall j | 0 <= j < |from| :: from[j] != []
    requires OnlyOccurrence(x + from[i] + y, from[i], |x|)
    requires forall j | 0 <= j < |from| && j != i :: !Includes(x + from[i] + y, from[j]) && !Includes(x + to[i] + y, from[j])
    ensures ReplaceChain(x + from[i] + y, from, to) == x + to[i] + y
  {
    var s := x + from[i] + y;
    assert s[..|x|] == x && s[|x| + |from[i]|..] == y;
    ReplaceChainSole(s, from, to, i, |x|);
  }

  /** What an occurrence of `m` at `k` shares with the parts of `a + f + b` it overlaps. */
  lemma OverlapShares(a: string, f: string, b: string, m: string, c: nat, k: nat)
    requires c < |m|
    requires OccursAt(a + f + b, m, k)
    ensures k < |a| < k + |m| ==> a[|a| - 1] in m
    ensures k < |a| + |f| < k + |m| ==> b[0] in m
    ensures |a| <= k && k + |m| <= |a| + |f| ==> m[c] in f
  {
    var s := a + f + b;
    assert s[k..k + |m|] == m;
    if k < |a| < k + |m| {
      assert a[|a| - 1] == s[|a| - 1] == m[|a| - 1 - k];
    }
    if k < |a| + |f| < k + |m| {
      assert b[0] == s[|a| + |f|] == m[|a| + |f| - k];
    }
    if |a| <= k && k + |m| <= |a| + |f| {
      assert f[k - |a| + c] == s[k + c] == m[c];
    }
  }

  /** An occurrence outside the middle part survives replacing that part. */
  lemma OccurrenceOutside(a: string, b: string, f: string, g: string, m: string, k: nat) returns (k': nat)
    requires OccursAt(a + f + b, m, k)
    requires k + |m| <= |a| || k >= |a| + |f|
    ensures OccursAt(a + g + b, m, k')
  {
    var s := a + f + b;
    var t := a + g + b;
    if k + |m| <= |a| {
      k' := k;
      assert t[k..k + |m|] == a[k..k + |m|] == s[k..k + |m|];
    } else {
      k' := k - |f| + |g|;
      assert s[k..k + |m|] == b[k - |a| - |f|..k - |a| - |f| + |m|];
      assert t[k'..k' + |m|] == b[k - |a| - |f|..k - |a| - |f| + |m|];
    }
  }
}
