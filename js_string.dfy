/**
 * The two JavaScript string built-ins the plugin relies on, over strings seen
 * as sequences of characters: `String.prototype.replace` with a string
 * pattern (ECMA-262, ES2022 edition, section 22.1.3.18, with the
 * GetSubstitution step of section 22.1.3.18.1) and `String.prototype.trim`
 * (section 22.1.3.30).
 */
module JsString {
  import opened Wrappers

  /** WhiteSpace and LineTerminator code points, the set `trim` removes. */
  predicate IsWhitespace(c: char) {
    c == '\t' || c == '\U{000B}' || c == '\U{000C}' || c == ' ' || c == '\U{00A0}' || c == '\U{FEFF}'
    || c == '\U{1680}' || ('\U{2000}' <= c <= '\U{200A}') || c == '\U{202F}' || c == '\U{205F}'
    || c == '\U{3000}' || c == '\n' || c == '\r' || c == '\U{2028}' || c == '\U{2029}'
  }

  // ---------------------------------------------------------------------
  // Occurrences of a literal pattern
  // ---------------------------------------------------------------------

  /** `pat` occurs in `s` starting at index `i`. */
  predicate OccursAt(s: string, pat: string, i: nat) {
    i + |pat| <= |s| && s[i..i + |pat|] == pat
  }

  predicate Contains(s: string, pat: string) {
    exists i: nat :: i <= |s| && OccursAt(s, pat, i)
  }

  /** No occurrence of `pat` in `s` starts before index `k`. */
  predicate NoOccurrenceBefore(s: string, pat: string, k: nat) {
    forall j: nat :: j < k ==> !OccursAt(s, pat, j)
  }

  /** The least index at or after `from` where `pat` occurs in `s`, the search `indexOf` performs. */
  function FindFrom(s: string, pat: string, from: nat): (r: Option<nat>)
    decreases |s| - from
    ensures r.Some? ==> from <= r.value && OccursAt(s, pat, r.value)
    ensures forall j: nat :: from <= j && (r.None? || j < r.value) ==> !OccursAt(s, pat, j)
  {
    if from + |pat| > |s| then None
    else if s[from..from + |pat|] == pat then Some(from)
    else FindFrom(s, pat, from + 1)
  }

  function IndexOf(s: string, pat: string): (r: Option<nat>)
    ensures r.None? <==> !Contains(s, pat)
    ensures r.Some? ==> OccursAt(s, pat, r.value) && NoOccurrenceBefore(s, pat, r.value)
  {
    FindFrom(s, pat, 0)
  }

  // ---------------------------------------------------------------------
  // String.prototype.replace with a string pattern
  // ---------------------------------------------------------------------

  /**
   * GetSubstitution for a string pattern: there are no capture groups, so
   * only `$$`, `$&`, `` $` `` and `$'` are expanded; every other `$` is
   * copied as it is. `before` and `after` are the parts of the subject
   * string around the match.
   */
  function Substitution(rep: string, matched: string, before: string, after: string): (r: string)
    decreases |rep|
    ensures '$' !in rep ==> r == rep
  {
    if rep == [] then []
    else if |rep| >= 2 && rep[0] == '$' && rep[1] == '$' then "$" + Substitution(rep[2..], matched, before, after)
    else if |rep| >= 2 && rep[0] == '$' && rep[1] == '&' then matched + Substitution(rep[2..], matched, before, after)
    else if |rep| >= 2 && rep[0] == '$' && rep[1] == '`' then before + Substitution(rep[2..], matched, before, after)
    else if |rep| >= 2 && rep[0] == '$' && rep[1] == '\'' then after + Substitution(rep[2..], matched, before, after)
    else [rep[0]] + Substitution(rep[1..], matched, before, after)
  }

  /** A `$`-free front of the replacement is copied as it is. */
  lemma {:induction false} SubstitutionLiteralFront(x: string, rest: string, matched: string, before: string, after: string)
    requires '$' !in x
    ensures Substitution(x + rest, matched, before, after) == x + Substitution(rest, matched, before, after)
    decreases |x|
  {
    if x != [] {
      var r := x + rest;
      assert r[0] == x[0] && x[0] != '$';
      assert r[1..] == x[1..] + rest;
      assert '$' !in x[1..];
      assert Substitution(r, matched, before, after) == [x[0]] + Substitution(r[1..], matched, before, after);
      SubstitutionLiteralFront(x[1..], rest, matched, before, after);
      var tail := Substitution(rest, matched, before, after);
      assert Substitution(r, matched, before, after) == [x[0]] + (x[1..] + tail);
      assert [x[0]] + (x[1..] + tail) == ([x[0]] + x[1..]) + tail;
      assert [x[0]] + x[1..] == x;
    } else {
      assert x + rest == rest;
    }
  }

  /** A replacement that starts with one of the four patterns, followed by `$`-free text. */
  lemma SubstitutionPatternHeads(y: string, matched: string, before: string, after: string)
    requires '$' !in y
    ensures Substitution("$$" + y, matched, before, after) == "$" + y
    ensures Substitution("$&" + y, matched, before, after) == matched + y
    ensures Substitution("$`" + y, matched, before, after) == before + y
    ensures Substitution("$'" + y, matched, before, after) == after + y
  {
    assert ("$$" + y)[0] == '$' && ("$$" + y)[1] == '$' && ("$$" + y)[2..] == y;
    assert ("$&" + y)[0] == '$' && ("$&" + y)[1] == '&' && ("$&" + y)[2..] == y;
    assert ("$`" + y)[0] == '$' && ("$`" + y)[1] == '`' && ("$`" + y)[2..] == y;
    assert ("$'" + y)[0] == '$' && ("$'" + y)[1] == '\'' && ("$'" + y)[2..] == y;
  }

  /** A `$`-free front, then a pattern-headed rest. */
  lemma SubstitutionAfterFront(x: string, p: string, y: string, e: string, matched: string, before: string, after: string)
    requires '$' !in x
    requires Substitution(p + y, matched, before, after) == e + y
    ensures Substitution(x + p + y, matched, before, after) == x + e + y
  {
    assert x + p + y == x + (p + y);
    SubstitutionLiteralFront(x, p + y, matched, before, after);
  }

  /**
   * The four replacement patterns: between `$`-free texts, `$$` becomes
   * `$`, `$&` the matched text, `` $` `` the text before the match and `$'`
   * the text after it.
   */
  lemma SubstitutionPatterns(x: string, y: string, matched: string, before: string, after: string)
    requires '$' !in x && '$' !in y
    ensures Substitution(x + "$$" + y, matched, before, after) == x + "$" + y
    ensures Substitution(x + "$&" + y, matched, before, after) == x + matched + y
    ensures Substitution(x + "$`" + y, matched, before, after) == x + before + y
    ensures Substitution(x + "$'" + y, matched, before, after) == x + after + y
  {
    SubstitutionPatternHeads(y, matched, before, after);
    SubstitutionAfterFront(x, "$$", y, "$", matched, before, after);
    SubstitutionAfterFront(x, "$&", y, matched, matched, before, after);
    SubstitutionAfterFront(x, "$`", y, before, matched, before, after);
    SubstitutionAfterFront(x, "$'", y, after, matched, before, after);
  }

  /** `s.replace(pat, rep)`: only the first occurrence of `pat` is replaced. */
  function ReplaceFirst(s: string, pat: string, rep: string): (r: string)
    ensures !Contains(s, pat) ==> r == s
  {
    match IndexOf(s, pat)
    case None => s
    case Some(i) => s[..i] + Substitution(rep, pat, s[..i], s[i + |pat|..]) + s[i + |pat|..]
  }

  /**
   * The replacement is determined by the first occurrence alone: whenever
   * `s` splits as `pre + pat + post` with no occurrence starting inside
   * `pre`, the result keeps `pre` and `post` verbatim (later occurrences
   * included) and puts the expanded replacement between them.
   */
  lemma ReplaceFirstAt(s: string, pat: string, rep: string, pre: string, post: string)
    requires s == pre + pat + post
    requires NoOccurrenceBefore(s, pat, |pre|)
    ensures ReplaceFirst(s, pat, rep) == pre + Substitution(rep, pat, pre, post) + post
  {
    assert s[|pre|..|pre| + |pat|] == pat;
    assert OccursAt(s, pat, |pre|);
    var i := IndexOf(s, pat).value;
    assert i == |pre|;
    assert s[..i] == pre;
    assert s[i + |pat|..] == post;
  }

  /**
   * When the pattern is present, the result is `pre + rep' + post` where
   * `s == pre + pat + post`, no occurrence starts inside `pre` (so `pre`
   * itself holds none), and `rep'` is `rep` expanded (just `rep` when it
   * holds no `$`).
   */
  lemma ReplaceFirstPresent(s: string, pat: string, rep: string) returns (pre: string, post: string)
    requires Contains(s, pat)
    ensures s == pre + pat + post
    ensures NoOccurrenceBefore(s, pat, |pre|)
    ensures pat != [] ==> !Contains(pre, pat)
    ensures ReplaceFirst(s, pat, rep) == pre + Substitution(rep, pat, pre, post) + post
    ensures '$' !in rep ==> ReplaceFirst(s, pat, rep) == pre + rep + post
  {
    var i := IndexOf(s, pat).value;
    pre, post := s[..i], s[i + |pat|..];
    assert s[i..i + |pat|] == pat;
    assert s == pre + pat + post;
    assert NoOccurrenceBefore(s, pat, i);
    if pat != [] {
      forall j: nat | j <= |pre| ensures !OccursAt(pre, pat, j) {
        if j + |pat| <= |pre| {
          assert j < i && !OccursAt(s, pat, j);
          assert pre[j..j + |pat|] == s[j..j + |pat|];
        }
      }
    }
  }

  /**
   * When the pattern's first character does not occur in `lead` and the
   * pattern occurs in `x`, replacing in `lead + x + rest` replaces inside `x`.
   */
  lemma ReplaceFirstInSegment(lead: string, x: string, rest: string, pat: string, rep: string)
    requires pat != []
    requires forall k :: 0 <= k < |lead| ==> lead[k] != pat[0]
    requires Contains(x, pat)
    requires '$' !in rep
    ensures ReplaceFirst(lead + x + rest, pat, rep) == lead + ReplaceFirst(x, pat, rep) + rest
  {
    var xpre, xpost := FirstOccurrenceAfterLead(lead, x, rest, pat, rep);
    var s := lead + x + rest;
    var pre := lead + xpre;
    var post := xpost + rest;
    ReplaceFirstAt(s, pat, rep, pre, post);
    var r := ReplaceFirst(s, pat, rep);
    assert r == pre + rep + post;
    var rx := ReplaceFirst(x, pat, rep);
    assert rx == xpre + rep + xpost;
    Regroup(lead, xpre, rep, xpost, rest);
  }

  /** Concatenation regrouped; stated on its own to keep the callers' proofs small. */
  lemma Regroup(a: string, b: string, c: string, d: string, e: string)
    ensures (a + b) + c + (d + e) == a + (b + c + d) + e
  {
  }

  /** Where the first occurrence of `pat` in `lead + x + rest` lies, under the conditions above. */
  lemma FirstOccurrenceAfterLead(lead: string, x: string, rest: string, pat: string, rep: string)
      returns (xpre: string, xpost: string)
    requires pat != []
    requires forall k :: 0 <= k < |lead| ==> lead[k] != pat[0]
    requires Contains(x, pat)
    requires '$' !in rep
    ensures lead + x + rest == (lead + xpre) + pat + (xpost + rest)
    ensures NoOccurrenceBefore(lead + x + rest, pat, |lead| + |xpre|)
    ensures ReplaceFirst(x, pat, rep) == xpre + rep + xpost
  {
    xpre, xpost := ReplaceFirstPresent(x, pat, rep);
    var s := lead + x + rest;
    assert s == (lead + xpre) + pat + (xpost + rest);
    assert s == lead + (x + rest);
    NoOccurrenceInLead(lead, x + rest, pat);
    FirstOccurrenceInSegment(lead, x, rest, pat, |xpre|);
  }

  // ---------------------------------------------------------------------
  // Facts used to locate the first occurrence in a concatenation
  // ---------------------------------------------------------------------

  /** Characters different from the pattern's first one cannot start an occurrence. */
  lemma NoOccurrenceOverChars(s: string, pat: string, k: nat, k': nat)
    requires pat != [] && k <= k' <= |s|
    requires NoOccurrenceBefore(s, pat, k)
    requires forall j :: k <= j < k' ==> s[j] != pat[0]
    ensures NoOccurrenceBefore(s, pat, k')
  {
    forall j: nat | j < k' ensures !OccursAt(s, pat, j) {
      if k <= j && j + |pat| <= |s| {
        assert s[j..j + |pat|][0] == s[j];
      }
    }
  }

  /** No occurrence starts inside a leading segment that lacks the pattern's first character. */
  lemma NoOccurrenceInLead(lead: string, tail: string, pat: string)
    requires pat != []
    requires forall k :: 0 <= k < |lead| ==> lead[k] != pat[0]
    ensures NoOccurrenceBefore(lead + tail, pat, |lead|)
  {
    var s := lead + tail;
    forall j | 0 <= j < |lead| ensures s[j] != pat[0] {
      assert s[j] == lead[j];
    }
    NoOccurrenceOverChars(s, pat, 0, |lead|);
  }

  /** A string without the pattern's first character does not contain the pattern. */
  lemma AbsentFirstChar(s: string, pat: string)
    requires pat != [] && pat[0] !in s
    ensures !Contains(s, pat)
  {
    assert s == s + [];
    NoOccurrenceInLead(s, [], pat);
  }

  /**
   * An occurrence never starts inside a segment `x` that holds none of its
   * own, provided the segment that follows cannot complete a straddling
   * one: its first character does not occur in the pattern past position 0.
   */
  lemma NoOccurrenceOverSegment(pre: string, x: string, rest: string, pat: string)
    requires pat != []
    requires NoOccurrenceBefore(pre + x + rest, pat, |pre|)
    requires !Contains(x, pat)
    requires rest != [] ==> rest[0] !in pat[1..]
    ensures NoOccurrenceBefore(pre + x + rest, pat, |pre| + |x|)
  {
    var s := pre + x + rest;
    forall j: nat | j < |pre| + |x| ensures !OccursAt(s, pat, j) {
      if |pre| <= j && j + |pat| <= |s| {
        if j + |pat| <= |pre| + |x| {
          if OccursAt(s, pat, j) {
            OccurrenceInside(pre, x, rest, pat, j - |pre|);
          }
        } else {
          var d := |pre| + |x| - j;
          assert s[j..j + |pat|][d] == s[j + d] == rest[0];
          assert pat[d] == pat[1..][d - 1];
        }
      }
    }
  }

  /**
   * The first occurrence inside a segment `x` is the first one of the
   * whole string when none starts before `x`.
   */
  lemma FirstOccurrenceInSegment(pre: string, x: string, rest: string, pat: string, k: nat)
    requires NoOccurrenceBefore(pre + x + rest, pat, |pre|)
    requires k + |pat| <= |x| && NoOccurrenceBefore(x, pat, k)
    ensures NoOccurrenceBefore(pre + x + rest, pat, |pre| + k)
  {
    var s := pre + x + rest;
    forall j: nat | |pre| <= j < |pre| + k ensures !OccursAt(s, pat, j) {
      if OccursAt(s, pat, j) {
        OccurrenceInside(pre, x, rest, pat, j - |pre|);
      }
    }
  }

  /** An occurrence lying wholly inside the middle segment is an occurrence in that segment. */
  lemma OccurrenceInside(a: string, b: string, c: string, pat: string, j: nat)
    requires j + |pat| <= |b|
    requires OccursAt(a + b + c, pat, |a| + j)
    ensures OccursAt(b, pat, j)
  {
    assert (a + b + c)[|a| + j..|a| + j + |pat|] == b[j..j + |pat|];
  }

  // ---------------------------------------------------------------------
  // String.prototype.trim
  // ---------------------------------------------------------------------

  /** The number of whitespace characters `s` starts with. */
  function LeadingWhitespace(s: string): (k: nat)
    ensures k <= |s|
    ensures forall i :: 0 <= i < k ==> IsWhitespace(s[i])
    ensures k < |s| ==> !IsWhitespace(s[k])
  {
    if |s| > 0 && IsWhitespace(s[0]) then 1 + LeadingWhitespace(s[1..]) else 0
  }

  /** The number of whitespace characters `s` ends with. */
  function TrailingWhitespace(s: string): (k: nat)
    ensures k <= |s|
    ensures forall i :: |s| - k <= i < |s| ==> IsWhitespace(s[i])
    ensures k < |s| ==> !IsWhitespace(s[|s| - 1 - k])
  {
    if |s| > 0 && IsWhitespace(s[|s| - 1]) then 1 + TrailingWhitespace(s[..|s| - 1]) else 0
  }

  /** Empty, or starting and ending with a character other than whitespace. */
  predicate NoSurroundingWhitespace(s: string) {
    s == [] || (!IsWhitespace(s[0]) && !IsWhitespace(s[|s| - 1]))
  }

  /** `s.trim()`: the result neither starts nor ends with whitespace. */
  function Trim(s: string): (r: string)
    ensures NoSurroundingWhitespace(r)
  {
    var t := s[LeadingWhitespace(s)..];
    t[..|t| - TrailingWhitespace(t)]
  }

  /** `trim` removes whitespace from the two ends and nothing else. */
  lemma TrimSpec(s: string) returns (i: nat, j: nat)
    ensures i <= j <= |s| && Trim(s) == s[i..j]
    ensures forall k :: 0 <= k < i ==> IsWhitespace(s[k])
    ensures forall k :: j <= k < |s| ==> IsWhitespace(s[k])
  {
    i := LeadingWhitespace(s);
    var t := s[i..];
    j := i + |t| - TrailingWhitespace(t);
    assert Trim(s) == s[i..j];
    forall k | j <= k < |s| ensures IsWhitespace(s[k]) {
      assert s[k] == t[k - i];
    }
  }

  /**
   * `trim` is characterised by its result: whatever splits `s` into
   * whitespace, a middle that is empty or has non-whitespace ends, and
   * whitespace, the middle is what `trim` returns.
   */
  lemma TrimUnique(s: string, a: string, m: string, b: string)
    requires s == a + m + b
    requires forall k :: 0 <= k < |a| ==> IsWhitespace(a[k])
    requires forall k :: 0 <= k < |b| ==> IsWhitespace(b[k])
    requires NoSurroundingWhitespace(m)
    ensures Trim(s) == m
  {
    var i := LeadingWhitespace(s);
    var t := s[i..];
    var n := TrailingWhitespace(t);
    if m == [] {
      assert forall k :: 0 <= k < |s| ==> IsWhitespace(s[k]) by {
        forall k | 0 <= k < |s| ensures IsWhitespace(s[k]) {
          if k < |a| { assert s[k] == a[k]; } else { assert s[k] == b[k - |a|]; }
        }
      }
      assert i == |s|;
    } else {
      assert s[|a|] == m[0];
      assert i == |a|;
      assert t == m + b;
      assert t[|m| - 1] == m[|m| - 1];
      assert n == |b|;
      assert t[..|t| - n] == m;
    }
  }

  /** Trimming twice is trimming once. */
  lemma TrimIdempotent(s: string)
    ensures Trim(Trim(s)) == Trim(s)
  {
    var r := Trim(s);
    assert r == [] + r + [];
    TrimUnique(r, [], r, []);
  }
}
