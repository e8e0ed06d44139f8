/** String operations the handlers and the Python helpers rely on, each written
    the way the host language defines it (JavaScript `String.replace` with a
    string pattern, Python `str.split` / `str.join` with a one-character
    separator, `str(int)` for non-negative integers). */
module Text {
  import opened Results

  predicate StartsWith(s: string, prefix: string) {
    |prefix| <= |s| && s[..|prefix|] == prefix
  }

  predicate EndsWith(s: string, suffix: string) {
    |suffix| <= |s| && s[|s| - |suffix|..] == suffix
  }

  /** `pat` occurs somewhere in `s`. */
  predicate Contains(s: string, pat: string)
    decreases |s|
  {
    |pat| <= |s| && (s[..|pat|] == pat || (|s| > 0 && Contains(s[1..], pat)))
  }

  /** `pat` occurs in `s` starting at position `j`. */
  predicate OccursAt(s: string, pat: string, j: nat) {
    j + |pat| <= |s| && s[j..j + |pat|] == pat
  }

  /** An occurrence anywhere means `pat` is contained in `s`. */
  lemma {:induction false} ContainsAt(s: string, pat: string, j: nat)
    requires OccursAt(s, pat, j)
    ensures Contains(s, pat)
    decreases j
  {
    if j > 0 {
      assert s[1..][j - 1..j - 1 + |pat|] == s[j..j + |pat|];
      ContainsAt(s[1..], pat, j - 1);
    }
  }

  /** Where the leftmost occurrence of `pat` in `s` starts. */
  function IndexOf(s: string, pat: string): (i: nat)
    requires Contains(s, pat)
    ensures OccursAt(s, pat, i)
    ensures forall j: nat :: j < i ==> !OccursAt(s, pat, j)
    decreases |s|
  {
    if s[..|pat|] == pat then 0
    else
      var k := IndexOf(s[1..], pat);
      assert forall j: nat :: 1 <= j ==> (OccursAt(s, pat, j) <==> OccursAt(s[1..], pat, j - 1)) by {
        forall j: nat | 1 <= j
          ensures OccursAt(s, pat, j) <==> OccursAt(s[1..], pat, j - 1)
        {
          if j + |pat| <= |s| {
            var a, b := s[j..j + |pat|], s[1..][j - 1..j - 1 + |pat|];
            assert |a| == |b| && forall t :: 0 <= t < |a| ==> a[t] == b[t];
          }
        }
      }
      k + 1
  }

  /** JavaScript `s.replace(pat, rep)` for a non-empty string pattern and a
      replacement without `$` (JavaScript expands `$&`, `$$`, `` $` `` and
      `$'` in a replacement string; every use here passes `""`): only the
      first (leftmost) occurrence of `pat` is replaced (`ReplaceFirstLeftmost`). */
  function ReplaceFirst(s: string, pat: string, rep: string): (r: string)
    requires |pat| > 0
    ensures !Contains(s, pat) ==> r == s
    ensures StartsWith(s, pat) ==> r == rep + s[|pat|..]
    decreases |s|
  {
    if |s| < |pat| then s
    else if s[..|pat|] == pat then rep + s[|pat|..]
    else [s[0]] + ReplaceFirst(s[1..], pat, rep)
  }

  /** With an occurrence, the result is the text before the leftmost one,
      then the replacement, then the text after it. */
  lemma {:induction false} ReplaceFirstLeftmost(s: string, pat: string, rep: string)
    requires |pat| > 0 && Contains(s, pat)
    ensures var i := IndexOf(s, pat);
      ReplaceFirst(s, pat, rep) == s[..i] + rep + s[i + |pat|..]
    ensures |ReplaceFirst(s, pat, rep)| == |s| - |pat| + |rep|
    decreases |s|
  {
    if s[..|pat|] != pat {
      ReplaceFirstLeftmost(s[1..], pat, rep);
      var k := IndexOf(s[1..], pat);
      assert IndexOf(s, pat) == k + 1;
      assert s[..k + 1] == [s[0]] + s[1..][..k];
      assert s[k + 1 + |pat|..] == s[1..][k + |pat|..];
    }
  }

  /** Replacing with nothing cuts the leftmost occurrence out, shortening the
      string by the pattern's length, or leaves a string without one as it is. */
  lemma ReplaceFirstRemoves(s: string, pat: string)
    requires |pat| > 0
    ensures Contains(s, pat) ==>
      var i := IndexOf(s, pat);
      ReplaceFirst(s, pat, "") == s[..i] + s[i + |pat|..]
    ensures StartsWith(s, pat) ==> ReplaceFirst(s, pat, "") == s[|pat|..]
    ensures |ReplaceFirst(s, pat, "")| == |s| - (if Contains(s, pat) then |pat| else 0)
  {
    if Contains(s, pat) {
      LeftmostRemoved(s, pat);
    }
    if StartsWith(s, pat) {
      LeadingRemoved(s, pat);
    }
  }

  lemma LeftmostRemoved(s: string, pat: string)
    requires |pat| > 0 && Contains(s, pat)
    ensures var i := IndexOf(s, pat);
      ReplaceFirst(s, pat, "") == s[..i] + s[i + |pat|..] && |ReplaceFirst(s, pat, "")| == |s| - |pat|
  {
    ReplaceFirstLeftmost(s, pat, "");
    var i := IndexOf(s, pat);
    assert s[..i] + "" + s[i + |pat|..] == s[..i] + s[i + |pat|..];
  }

  lemma LeadingRemoved(s: string, pat: string)
    requires |pat| > 0 && StartsWith(s, pat)
    ensures ReplaceFirst(s, pat, "") == s[|pat|..]
  {
    assert "" + s[|pat|..] == s[|pat|..];
  }

  /** An occurrence with none before it is the leftmost one. */
  lemma LeftmostOccurrence(s: string, pat: string, i: nat)
    requires OccursAt(s, pat, i)
    requires forall j: nat :: j < i ==> !OccursAt(s, pat, j)
    ensures Contains(s, pat) && IndexOf(s, pat) == i
  {
    ContainsAt(s, pat, i);
  }

  /** When the one-character pattern first occurs after a stretch free of it,
      that occurrence is the one replaced. */
  lemma ReplaceFirstAfter(p: string, c: char, e: string, rep: string)
    requires c !in p
    ensures ReplaceFirst(p + [c] + e, [c], rep) == p + rep + e
  {
    var s := p + [c] + e;
    assert s[|p|..|p| + 1] == [c];
    forall j: nat | j < |p|
      ensures !OccursAt(s, [c], j)
    {
      assert s[j..j + 1][0] == p[j];
    }
    LeftmostOccurrence(s, [c], |p|);
    ReplaceFirstLeftmost(s, [c], rep);
    assert s[..|p|] == p && s[|p| + 1..] == e;
  }

  /** Python `os.path.join(dir, part)` for a relative `part`. */
  function PathJoin(dir: string, part: string): string {
    if dir == "" || EndsWith(dir, "/") then dir + part else dir + "/" + part
  }

  /** ASCII case folding; every other character is left as it is. */
  function LowerChar(c: char): char {
    if 'A' <= c <= 'Z' then (c as int - 'A' as int + 'a' as int) as char else c
  }

  function Lower(s: string): (r: string)
    ensures |r| == |s|
    ensures forall i :: 0 <= i < |s| ==> r[i] == LowerChar(s[i])
  {
    seq(|s|, i requires 0 <= i < |s| => LowerChar(s[i]))
  }

  /** Python `s.split(sep)` for a one-character separator: never empty, and a
      separator at either end yields an empty first or last part. */
  function Split(s: string, sep: char): (parts: seq<string>)
    ensures |parts| >= 1
    ensures forall i :: 0 <= i < |parts| ==> sep !in parts[i]
    decreases |s|
  {
    if |s| == 0 then [""]
    else if s[0] == sep then [""] + Split(s[1..], sep)
    else
      var rest := Split(s[1..], sep);
      [[s[0]] + rest[0]] + rest[1..]
  }

  /** Python `sep.join(parts)`. */
  function Join(parts: seq<string>, sep: char): string
    decreases |parts|
  {
    if |parts| == 0 then ""
    else if |parts| == 1 then parts[0]
    else parts[0] + [sep] + Join(parts[1..], sep)
  }

  /** Joining the parts of a split gives back the original string. */
  lemma {:induction false} JoinSplit(s: string, sep: char)
    ensures Join(Split(s, sep), sep) == s
    decreases |s|
  {
    if |s| == 0 {
    } else if s[0] == sep {
      var rest := Split(s[1..], sep);
      JoinSplit(s[1..], sep);
      assert Split(s, sep) == [""] + rest;
      assert Join([""] + rest, sep) == "" + [sep] + Join(rest, sep);
      assert [s[0]] + s[1..] == s;
    } else {
      var rest := Split(s[1..], sep);
      JoinSplit(s[1..], sep);
      var parts := [[s[0]] + rest[0]] + rest[1..];
      assert Split(s, sep) == parts;
      if |rest| == 1 {
        assert Join(rest, sep) == rest[0];
        assert Join(parts, sep) == [s[0]] + rest[0];
      } else {
        assert Join(rest, sep) == rest[0] + [sep] + Join(rest[1..], sep);
        assert parts[1..] == rest[1..];
        assert Join(parts, sep) == [s[0]] + rest[0] + [sep] + Join(rest[1..], sep);
      }
      assert [s[0]] + s[1..] == s;
    }
  }

  /** A field free of the separator, followed by the separator, splits off as
      one part. */
  lemma {:induction false} SplitField(a: string, sep: char, b: string)
    requires sep !in a
    ensures Split(a + [sep] + b, sep) == [a] + Split(b, sep)
    decreases |a|
  {
    if |a| == 0 {
      assert a + [sep] + b == [sep] + b;
      assert ([sep] + b)[1..] == b;
    } else {
      SplitField(a[1..], sep, b);
      assert (a + [sep] + b)[1..] == a[1..] + [sep] + b;
      assert [a[0]] + a[1..] == a;
    }
  }

  predicate IsDigit(c: char) {
    '0' <= c <= '9'
  }

  predicate AllDigits(s: string) {
    forall i :: 0 <= i < |s| ==> IsDigit(s[i])
  }

  function DigitChar(d: nat): (c: char)
    requires d < 10
    ensures IsDigit(c)
  {
    ('0' as int + d) as char
  }

  function DigitValue(c: char): (d: nat)
    requires IsDigit(c)
    ensures d < 10
  {
    c as int - '0' as int
  }

  /** Python `str(n)` for a non-negative integer: decimal, no leading zeros. */
  function Decimal(n: nat): (s: string)
    ensures |s| >= 1 && AllDigits(s)
  {
    if n < 10 then [DigitChar(n)] else Decimal(n / 10) + [DigitChar(n % 10)]
  }

  /** Reads a non-empty run of decimal digits. */
  function ParseDecimal(s: string): nat
    requires |s| >= 1 && AllDigits(s)
    decreases |s|
  {
    if |s| == 1 then DigitValue(s[0])
    else ParseDecimal(s[..|s| - 1]) * 10 + DigitValue(s[|s| - 1])
  }

  lemma {:induction false} ParseDecimalOfDecimal(n: nat)
    ensures ParseDecimal(Decimal(n)) == n
  {
    if n >= 10 {
      var s := Decimal(n);
      ParseDecimalOfDecimal(n / 10);
      assert s[..|s| - 1] == Decimal(n / 10);
    }
  }

  /** Length of the longest all-digit prefix of `s`. */
  function DigitSpan(s: string): (k: nat)
    ensures k <= |s| && AllDigits(s[..k])
    ensures k < |s| ==> !IsDigit(s[k])
    decreases |s|
  {
    if |s| == 0 || !IsDigit(s[0]) then 0 else 1 + DigitSpan(s[1..])
  }

  lemma {:induction false} DigitSpanOfDigits(a: string, b: string)
    requires AllDigits(a)
    requires |b| > 0 ==> !IsDigit(b[0])
    ensures DigitSpan(a + b) == |a|
    decreases |a|
  {
    if |a| > 0 {
      assert (a + b)[1..] == a[1..] + b;
      DigitSpanOfDigits(a[1..], b);
    } else {
      assert a + b == b;
    }
  }
}
