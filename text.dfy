/** String operations of Python's `str` that the modelled code relies on:
    `strip`, `rstrip(c)`, `partition(sep)`, `lower` (as far as a comparison
    with an ASCII word needs it), `in`, `find`, `replace` and `isdigit`/`int`. */
module Text {

  /** Python's `str.isspace` for one character: the characters `strip()`
      removes when it is called without an argument. */
  predicate IsSpace(c: char)
  {
    c == ' ' || ('\t' <= c <= '\r') || ('\U{1C}' <= c <= '\U{1F}')
    || c == '\U{85}' || c == '\U{A0}' || c == '\U{1680}'
    || ('\U{2000}' <= c <= '\U{200A}') || c == '\U{2028}' || c == '\U{2029}'
    || c == '\U{202F}' || c == '\U{205F}' || c == '\U{3000}'
  }

  predicate AllSpace(s: string)
  {
    forall k :: 0 <= k < |s| ==> IsSpace(s[k])
  }

  /** Number of leading whitespace characters. */
  function LeadingSpace(s: string): (n: nat)
    ensures n <= |s|
    ensures AllSpace(s[..n])
    ensures n < |s| ==> !IsSpace(s[n])
  {
    if s == [] || !IsSpace(s[0]) then 0 else 1 + LeadingSpace(s[1..])
  }

  /** Number of trailing whitespace characters. */
  function TrailingSpace(s: string): (n: nat)
    ensures n <= |s|
    ensures AllSpace(s[|s| - n..])
    ensures n < |s| ==> !IsSpace(s[|s| - 1 - n])
  {
    if s == [] || !IsSpace(s[|s| - 1]) then 0 else 1 + TrailingSpace(s[..|s| - 1])
  }

  /** Python's `s.strip()`. */
  function Strip(s: string): (r: string)
  {
    var lead := LeadingSpace(s);
    s[lead..][..|s[lead..]| - TrailingSpace(s[lead..])]
  }

  /** What `strip()` keeps: a contiguous piece of `s` that starts and ends
      with a non-space character, with only whitespace cut away on either side;
      it is empty exactly when `s` is all whitespace. */
  lemma StripMeaning(s: string)
    ensures var r := Strip(s);
      && (exists i, j :: 0 <= i <= j <= |s| && r == s[i..j] && AllSpace(s[..i]) && AllSpace(s[j..]))
      && (r == [] <==> AllSpace(s))
      && (r != [] ==> !IsSpace(r[0]) && !IsSpace(r[|r| - 1]))
  {
    var lead := LeadingSpace(s);
    var t := s[lead..];
    var trail := TrailingSpace(t);
    var j := lead + (|t| - trail);
    assert Strip(s) == s[lead..j];
    assert s[j..] == t[|t| - trail..];
    if Strip(s) == [] {
      assert lead == j;
      assert lead == |s|;
      forall k | 0 <= k < |s| ensures IsSpace(s[k]) {
        assert s[k] == s[..lead][k];
      }
    } else {
      assert Strip(s)[0] == s[lead];
      assert Strip(s)[|Strip(s)| - 1] == t[|t| - 1 - trail];
    }
  }

  /** A string with no whitespace at either end is its own strip. */
  lemma {:induction false} StripOfTrimmed(s: string)
    requires s != [] ==> !IsSpace(s[0]) && !IsSpace(s[|s| - 1])
    ensures Strip(s) == s
  {
  }

  /** Python's `s.rstrip(c)` for a one-character argument. */
  function RStripChar(s: string, c: char): (r: string)
    ensures |r| <= |s| && r == s[..|r|]
    ensures r != [] ==> r[|r| - 1] != c
    ensures forall k :: |r| <= k < |s| ==> s[k] == c
  {
    if s != [] && s[|s| - 1] == c then RStripChar(s[..|s| - 1], c) else s
  }

  /** Python's `s.partition(sep)` for a one-character separator: the part before
      the first `sep`, whether there was one, and the part after it. */
  function Partition(s: string, sep: char): (r: (string, bool, string))
    ensures r.1 <==> sep in s
    ensures sep !in r.0
    ensures r.1 ==> r.0 + [sep] + r.2 == s
    ensures !r.1 ==> r.0 == s && r.2 == []
  {
    if s == [] then ([], false, [])
    else if s[0] == sep then ([], true, s[1..])
    else
      var rest := Partition(s[1..], sep);
      assert s == [s[0]] + s[1..];
      ([s[0]] + rest.0, rest.1, rest.2)
  }

  function LowerChar(c: char): char
  {
    if 'A' <= c <= 'Z' then (c as int + 32) as char else c
  }

  /** `s.lower()` restricted to the ASCII letters; see README for why this is
      exact for a comparison with the lower-case ASCII word "bearer". */
  function LowerAscii(s: string): (r: string)
    ensures |r| == |s|
    ensures forall k :: 0 <= k < |s| ==> r[k] == LowerChar(s[k])
  {
    seq(|s|, k requires 0 <= k < |s| => LowerChar(s[k]))
  }

  /** A lower-case ASCII letter comes from exactly itself and its upper-case form. */
  lemma LowerCharTo(c: char, lo: char)
    requires 'a' <= lo <= 'z'
    ensures LowerChar(c) == lo <==> c == lo || c == (lo as int - 32) as char
  {
  }

  /** Lower-casing gives "bearer" exactly for the spellings of that word in
      any mix of upper and lower case, so comparing `scheme.lower()` with
      "bearer" accepts "Bearer", "BEARER", "bEaReR" and nothing else. */
  lemma LowerIsBearer(s: string)
    ensures LowerAscii(s) == "bearer"
        <==> |s| == 6 && forall k :: 0 <= k < 6 ==> s[k] == "bearer"[k] || s[k] == "BEARER"[k]
  {
    var lo, up := "bearer", "BEARER";
    forall k | 0 <= k < 6 ensures up[k] == (lo[k] as int - 32) as char && 'a' <= lo[k] <= 'z' {
    }
    if |s| == 6 {
      forall k | 0 <= k < 6
        ensures LowerChar(s[k]) == lo[k] <==> s[k] == lo[k] || s[k] == up[k]
      {
        LowerCharTo(s[k], lo[k]);
      }
      if forall k :: 0 <= k < 6 ==> s[k] == lo[k] || s[k] == up[k] {
        assert LowerAscii(s) == lo;
      }
      if LowerAscii(s) == lo {
        forall k | 0 <= k < 6 ensures s[k] == lo[k] || s[k] == up[k] {
          assert LowerAscii(s)[k] == LowerChar(s[k]);
        }
      }
    }
  }

  /** `pat in s` for strings. */
  predicate Contains(s: string, pat: string)
  {
    exists i: nat | i <= |s| :: OccursAt(s, pat, i)
  }

  predicate OccursAt(s: string, pat: string, i: nat)
  {
    i + |pat| <= |s| && s[i..i + |pat|] == pat
  }

  /** Python's `s.find(pat)`: the first index at which `pat` occurs, -1 if none. */
  function Find(s: string, pat: string): (r: int)
    ensures r >= -1
    ensures r == -1 <==> !Contains(s, pat)
    ensures r >= 0 ==> OccursAt(s, pat, r) && forall i :: 0 <= i < r ==> !OccursAt(s, pat, i)
  {
    FindFrom(s, pat, 0)
  }

  function FindFrom(s: string, pat: string, from: nat): (r: int)
    requires forall i :: 0 <= i < from ==> !OccursAt(s, pat, i)
    ensures r == -1 <==> !Contains(s, pat)
    ensures r >= 0 ==> from <= r && OccursAt(s, pat, r) && forall i :: 0 <= i < r ==> !OccursAt(s, pat, i)
    ensures r >= -1
    decreases |s| - from
  {
    if from + |pat| > |s| then
      assert forall i: nat | i <= |s| :: !OccursAt(s, pat, i) by {
        forall i: nat | i <= |s| ensures !OccursAt(s, pat, i) { if i >= from { assert i + |pat| > |s|; } }
      }
      -1
    else if s[from..from + |pat|] == pat then assert OccursAt(s, pat, from); from
    else FindFrom(s, pat, from + 1)
  }

  /** Python's `s.replace(pat, rep)`: scanning left to right, each next
      occurrence is replaced and the scan resumes after it, so occurrences
      never overlap and the replacement text is never rescanned. */
  function ReplaceAll(s: string, pat: string, rep: string): string
    requires pat != []
    decreases |s|
  {
    var k := Find(s, pat);
    if k < 0 then s else s[..k] + rep + ReplaceAll(s[k + |pat|..], pat, rep)
  }

  /** Python's `s.split(pat)`: the pieces between successive occurrences. */
  function Split(s: string, pat: string): (r: seq<string>)
    requires pat != []
    ensures |r| > 0
    decreases |s|
  {
    var k := Find(s, pat);
    if k < 0 then [s] else [s[..k]] + Split(s[k + |pat|..], pat)
  }

  /** Python's `sep.join(parts)`. */
  function Join(parts: seq<string>, sep: string): string
  {
    if |parts| <= 1 then (if parts == [] then [] else parts[0])
    else parts[0] + sep + Join(parts[1..], sep)
  }

  /** `replace` is `split` followed by `join` with the replacement: every
      occurrence, and nothing else, is replaced. */
  lemma {:induction false} ReplaceIsSplitJoin(s: string, pat: string, rep: string)
    requires pat != []
    ensures ReplaceAll(s, pat, rep) == Join(Split(s, pat), rep)
    decreases |s|
  {
    var k := Find(s, pat);
    if k >= 0 {
      var rest := s[k + |pat|..];
      ReplaceIsSplitJoin(rest, pat, rep);
      assert Split(s, pat) == [s[..k]] + Split(rest, pat);
      assert (Split(s, pat))[1..] == Split(rest, pat);
    }
  }

  /** Joining the pieces with the pattern gives back the original string. */
  lemma {:induction false} SplitJoinInverse(s: string, pat: string)
    requires pat != []
    ensures Join(Split(s, pat), pat) == s
    decreases |s|
  {
    var k := Find(s, pat);
    if k >= 0 {
      var rest := s[k + |pat|..];
      var parts := Split(s, pat);
      SplitJoinInverse(rest, pat);
      assert parts == [s[..k]] + Split(rest, pat);
      assert |parts| > 1 && parts[0] == s[..k] && parts[1..] == Split(rest, pat);
      assert Join(parts, pat) == s[..k] + pat + Join(Split(rest, pat), pat);
      assert s[k..k + |pat|] == pat;
      assert s == s[..k] + s[k..k + |pat|] + rest;
    }
  }

  /** No piece contains the pattern: the scan left no occurrence behind. */
  lemma {:induction false} SplitPiecesFree(s: string, pat: string)
    requires pat != []
    ensures forall piece :: piece in Split(s, pat) ==> !Contains(piece, pat)
    decreases |s|
  {
    var k := Find(s, pat);
    if k < 0 {
    } else {
      var rest := s[k + |pat|..];
      SplitPiecesFree(rest, pat);
      PrefixBeforeFirst(s, pat, k);
    }
  }

  /** The part of a string before the first occurrence of a pattern does not contain it. */
  lemma PrefixBeforeFirst(s: string, pat: string, k: nat)
    requires pat != [] && k <= |s| && forall i :: 0 <= i < k ==> !OccursAt(s, pat, i)
    ensures !Contains(s[..k], pat)
  {
    if Contains(s[..k], pat) {
      var i: nat :| i <= k && OccursAt(s[..k], pat, i);
      assert i < k;
      assert s[i..i + |pat|] == s[..k][i..i + |pat|];
      assert OccursAt(s, pat, i);
    }
  }

  /** A string without the pattern is left as it is. */
  lemma ReplaceAbsent(s: string, pat: string, rep: string)
    requires pat != [] && !Contains(s, pat)
    ensures ReplaceAll(s, pat, rep) == s
  {
  }

  /** Where the pattern occurs, the replacement text appears in the result. */
  lemma ReplacePresent(s: string, pat: string, rep: string)
    requires pat != [] && Contains(s, pat)
    ensures Contains(ReplaceAll(s, pat, rep), rep)
  {
    var k := Find(s, pat);
    var r := ReplaceAll(s, pat, rep);
    assert r == s[..k] + rep + ReplaceAll(s[k + |pat|..], pat, rep);
    assert r[k..k + |rep|] == rep;
    assert OccursAt(r, rep, k);
  }

  /** A piece of a string contains what the piece contains. */
  lemma ContainsWithin(a: string, b: string, c: string, pat: string)
    requires Contains(b, pat)
    ensures Contains(a + b + c, pat)
  {
    var i: nat :| i <= |b| && OccursAt(b, pat, i);
    assert (a + b + c)[|a| + i..|a| + i + |pat|] == b[i..i + |pat|];
    assert OccursAt(a + b + c, pat, |a| + i);
  }

  /** Containment is transitive. */
  lemma ContainsTrans(s: string, mid: string, pat: string)
    requires Contains(s, mid) && Contains(mid, pat)
    ensures Contains(s, pat)
  {
    var i: nat :| i <= |s| && OccursAt(s, mid, i);
    var j: nat :| j <= |mid| && OccursAt(mid, pat, j);
    forall k | 0 <= k < |pat| ensures s[i + j + k] == pat[k] {
      assert s[i..i + |mid|][j + k] == s[i + j + k];
      assert mid[j..j + |pat|][k] == mid[j + k];
    }
    assert s[i + j..i + j + |pat|] == pat;
    assert OccursAt(s, pat, i + j);
  }

  predicate IsDigitChar(c: char)
  {
    '0' <= c <= '9'
  }

  function DigitValue(c: char): (d: nat)
    requires IsDigitChar(c)
    ensures d < 10
  {
    c as int - '0' as int
  }

  /** Python's `s.isdigit()` restricted to the ASCII digits. */
  predicate IsDigits(s: string)
  {
    s != [] && forall k :: 0 <= k < |s| ==> IsDigitChar(s[k])
  }

  /** Python's `int(s)` on a string of ASCII digits (leading zeros allowed). */
  function ParseNat(s: string): (n: nat)
    requires forall k :: 0 <= k < |s| ==> IsDigitChar(s[k])
  {
    if s == [] then 0 else ParseNat(s[..|s| - 1]) * 10 + DigitValue(s[|s| - 1])
  }
}
