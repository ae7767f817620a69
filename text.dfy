/**
 * Pure string helpers of the research loop: code-fence stripping of the
 * planner's reply and the per-query result file name.
 */
module Text {

  // ---------------------------------------------------------------------
  // str.replace
  // ---------------------------------------------------------------------

  /** Python's `s.replace(pat, rep)`: every non-overlapping occurrence of
      `pat`, scanning left to right, becomes `rep`. */
  function Replace(s: string, pat: string, rep: string): string
    requires pat != []
    decreases |s|
  {
    if |s| < |pat| then s
    else if s[..|pat|] == pat then rep + Replace(s[|pat|..], pat, rep)
    else [s[0]] + Replace(s[1..], pat, rep)
  }

  /** `pat` occurs in `s` at index `i`. */
  predicate OccursAt(s: string, pat: string, i: nat) {
    i + |pat| <= |s| && s[i..i + |pat|] == pat
  }

  /** `pat` occurs nowhere in `s`. */
  predicate Absent(s: string, pat: string) {
    forall i: nat | i <= |s| :: !OccursAt(s, pat, i)
  }

  /** Replacing a pattern that does not occur changes nothing. */
  lemma {:induction false} ReplaceAbsent(s: string, pat: string, rep: string)
    requires pat != [] && Absent(s, pat)
    ensures Replace(s, pat, rep) == s
    decreases |s|
  {
    if |s| >= |pat| {
      assert s[0..|pat|] == s[..|pat|];
      assert !OccursAt(s, pat, 0);
      forall i: nat ensures !OccursAt(s[1..], pat, i) {
        assert !OccursAt(s, pat, i + 1);
        if i + |pat| <= |s[1..]| {
          assert s[1..][i..i + |pat|] == s[i + 1..i + 1 + |pat|];
        }
      }
      ReplaceAbsent(s[1..], pat, rep);
    }
  }

  // ---------------------------------------------------------------------
  // Code-fence stripping
  // ---------------------------------------------------------------------

  const Fence: string := "```"

  /** The planner reply with its Markdown code fences removed:
      `.replace("```json", "").replace("```", "")`. */
  function StripFences(reply: string): (r: string)
    ensures Absent(r, Fence)
  {
    var once := Replace(reply, "```json", "");
    NoFenceLeft(once);
    Replace(once, Fence, "")
  }

  /** A reply without backticks passes through unchanged. */
  lemma StripFencesNoBackticks(reply: string)
    requires '`' !in reply
    ensures StripFences(reply) == reply
  {
    forall i: nat ensures !OccursAt(reply, "```json", i) {
      if i + 7 <= |reply| {
        assert reply[i..i + 7][0] == reply[i];
      }
    }
    ReplaceAbsent(reply, "```json", "");
    forall i: nat ensures !OccursAt(reply, Fence, i) {
      if i + 3 <= |reply| {
        assert reply[i..i + 3][0] == reply[i];
      }
    }
    ReplaceAbsent(reply, Fence, "");
  }

  /** Removing fences keeps a first character that is not a backtick. */
  lemma KeepsFirst(t: string)
    requires t != [] && t[0] != '`'
    ensures Replace(t, Fence, "") != [] && Replace(t, Fence, "")[0] == t[0]
  {
    if |t| >= 3 {
      assert t[..3][0] == t[0];
    }
  }

  /** Removing fences keeps a backtick followed by something else. */
  lemma KeepsFirstTwo(t: string)
    requires |t| >= 2 && t[0] == '`' && t[1] != '`'
    ensures |Replace(t, Fence, "")| >= 2 && Replace(t, Fence, "")[..2] == t[..2]
  {
    if |t| >= 3 {
      assert t[..3][1] == t[1];
    }
    KeepsFirst(t[1..]);
  }

  /** No fence survives their removal: the scan removes every run of three
      backticks, and a shorter run left behind cannot join another one. */
  lemma {:induction false} NoFenceLeft(s: string)
    ensures Absent(Replace(s, Fence, ""), Fence)
    decreases |s|
  {
    if |s| < 3 {
    } else if s[..3] == Fence {
      NoFenceLeft(s[3..]);
      assert Replace(s, Fence, "") == Replace(s[3..], Fence, "");
    } else {
      var rest := Replace(s[1..], Fence, "");
      NoFenceLeft(s[1..]);
      var r := [s[0]] + rest;
      assert Replace(s, Fence, "") == r;
      if s[0] == '`' {
        if s[1] != '`' {
          KeepsFirst(s[1..]);
        } else {
          assert s[..3] == [s[0], s[1], s[2]];
          assert s[2] != '`';
          KeepsFirstTwo(s[1..]);
          assert rest[1] == s[2];
        }
      }
      forall i: nat ensures !OccursAt(r, Fence, i) {
        if i + 3 <= |r| {
          if i == 0 {
            assert r[0..3] == [s[0], rest[0], rest[1]];
          } else {
            assert !OccursAt(rest, Fence, i - 1);
            assert r[i..i + 3] == rest[i - 1..i + 2];
          }
        }
      }
    }
  }

  // ---------------------------------------------------------------------
  // Result file names
  // ---------------------------------------------------------------------

  predicate IsDigit(c: char) { '0' <= c <= '9' }

  function DigitChar(d: nat): (c: char)
    requires d < 10
    ensures IsDigit(c)
  {
    (48 + d) as char
  }

  /** Python's `str(n)` for a natural number. */
  function NatToString(n: nat): (s: string)
    ensures s != []
    ensures forall k :: 0 <= k < |s| ==> IsDigit(s[k])
    ensures n >= 10 ==> |s| >= 2
    decreases n
  {
    if n < 10 then [DigitChar(n)] else NatToString(n / 10) + [DigitChar(n % 10)]
  }

  /** Different numbers print differently. */
  lemma {:induction false} NatToStringInjective(a: nat, b: nat)
    requires NatToString(a) == NatToString(b)
    ensures a == b
    decreases a
  {
    var s := NatToString(a);
    if a >= 10 && b >= 10 {
      assert s[..|s| - 1] == NatToString(a / 10) == NatToString(b / 10);
      NatToStringInjective(a / 10, b / 10);
      assert DigitChar(a % 10) == s[|s| - 1] == DigitChar(b % 10);
    }
  }

  /** The length of the leading run of digits. */
  function DigitPrefixLength(s: string): (n: nat)
    ensures n <= |s|
  {
    if s != [] && IsDigit(s[0]) then 1 + DigitPrefixLength(s[1..]) else 0
  }

  lemma {:induction false} DigitPrefixOf(digits: string, rest: string)
    requires forall k :: 0 <= k < |digits| ==> IsDigit(digits[k])
    requires rest != [] && !IsDigit(rest[0])
    ensures DigitPrefixLength(digits + rest) == |digits|
    decreases |digits|
  {
    if digits != [] {
      assert (digits + rest)[1..] == digits[1..] + rest;
      DigitPrefixOf(digits[1..], rest);
    } else {
      assert digits + rest == rest;
    }
  }

  /** The file a query's result is saved to: "{iteration}-{i}.md". */
  function ResultFileName(iteration: nat, index: nat): string {
    NatToString(iteration) + "-" + NatToString(index) + ".md"
  }

  /** A digit string before a '-' is determined by the whole string. */
  lemma SplitAtDash(a: string, x: string, b: string, y: string)
    requires forall k :: 0 <= k < |a| ==> IsDigit(a[k])
    requires forall k :: 0 <= k < |b| ==> IsDigit(b[k])
    requires a + ("-" + x) == b + ("-" + y)
    ensures a == b && x == y
  {
    DigitPrefixOf(a, "-" + x);
    DigitPrefixOf(b, "-" + y);
    var f := a + ("-" + x);
    assert a == f[..|a|] == b;
    assert x == f[|a| + 1..] == y;
  }

  /** Different (iteration, index) pairs never share a file. */
  lemma ResultFileNameInjective(i: nat, j: nat, i': nat, j': nat)
    requires ResultFileName(i, j) == ResultFileName(i', j')
    ensures i == i' && j == j'
  {
    var c, d := NatToString(j), NatToString(j');
    assert ResultFileName(i, j) == NatToString(i) + ("-" + (c + ".md"));
    assert ResultFileName(i', j') == NatToString(i') + ("-" + (d + ".md"));
    SplitAtDash(NatToString(i), c + ".md", NatToString(i'), d + ".md");
    NatToStringInjective(i, i');
    assert c == (c + ".md")[..|c|] == d;
    NatToStringInjective(j, j');
  }
}
