/** The parts of Python's `str` and `list` behaviour that the loader and the
    sample code rely on: `in`, `replace`, `split`, `join`, `rstrip`,
    `endswith`, `str(int)`, `readlines` and `sorted` on strings. */
module Text {

  /** `sub in s`: `sub` occurs in `s` as a contiguous slice (the empty string
      occurs everywhere). */
  predicate Contains(s: string, sub: string)
    decreases |s|
  {
    sub <= s || (|s| > 0 && Contains(s[1..], sub))
  }

  /** `sub` occurs in `s` starting at position `i`. */
  predicate OccursAt(s: string, sub: string, i: int)
  {
    0 <= i <= |s| - |sub| && s[i..i + |sub|] == sub
  }

  /** `Contains` agrees with the position-based reading of `in`. */
  lemma {:induction false} ContainsIffOccurs(s: string, sub: string)
    ensures Contains(s, sub) <==> exists i :: OccursAt(s, sub, i)
  {
    if sub <= s {
      assert OccursAt(s, sub, 0);
    } else if |s| > 0 {
      ContainsIffOccurs(s[1..], sub);
      if Contains(s[1..], sub) {
        var i :| OccursAt(s[1..], sub, i);
        assert s[1..][i..i + |sub|] == s[i + 1..i + 1 + |sub|];
        assert OccursAt(s, sub, i + 1);
      }
      if exists i :: OccursAt(s, sub, i) {
        var i :| OccursAt(s, sub, i);
        if i > 0 {
          assert s[1..][i - 1..i - 1 + |sub|] == s[i..i + |sub|];
          assert OccursAt(s[1..], sub, i - 1);
        }
      }
    }
  }

  /** A string shorter than `sub` cannot contain it. */
  lemma {:induction false} ShortDoesNotContain(s: string, sub: string)
    requires |s| < |sub|
    ensures !Contains(s, sub)
  {
    if |s| > 0 {
      ShortDoesNotContain(s[1..], sub);
    }
  }

  lemma PrefixChar(s: string, sub: string, j: nat)
    requires j < |sub|
    ensures sub <= s ==> sub[j] in s
  {
    if sub <= s {
      assert s[j] == sub[j];
    }
  }

  /** A string lacking one of the characters of `sub` does not contain it. */
  lemma {:induction false} MissingChar(s: string, sub: string, j: nat)
    requires j < |sub| && sub[j] !in s
    ensures !Contains(s, sub)
  {
    PrefixChar(s, sub, j);
    if |s| > 0 {
      assert forall k :: 0 <= k < |s[1..]| ==> s[1..][k] == s[k + 1];
      MissingChar(s[1..], sub, j);
    }
  }

  /** What `s` contains, `x + s` contains too. */
  lemma {:induction false} ContainsInSuffix(x: string, s: string, sub: string)
    requires Contains(s, sub)
    ensures Contains(x + s, sub)
  {
    if |x| > 0 {
      assert (x + s)[1..] == x[1..] + s;
      ContainsInSuffix(x[1..], s, sub);
      assert Contains((x + s)[1..], sub);
    } else {
      assert x + s == s;
    }
  }

  /** `s.endswith(suffix)`. */
  predicate EndsWith(s: string, suffix: string)
  {
    |suffix| <= |s| && s[|s| - |suffix|..] == suffix
  }

  /** `s.replace(pat, repl)`: every non-overlapping occurrence of `pat`,
      scanning left to right, is replaced by `repl`. */
  function ReplaceAll(s: string, pat: string, repl: string): string
    requires |pat| > 0
    decreases |s|
  {
    if |s| < |pat| then s
    else if pat <= s then repl + ReplaceAll(s[|pat|..], pat, repl)
    else [s[0]] + ReplaceAll(s[1..], pat, repl)
  }

  /** `s.split(sep)`: the pieces between the non-overlapping occurrences of
      `sep`, scanning left to right; always at least one piece. */
  function Split(s: string, sep: string): (parts: seq<string>)
    requires |sep| > 0
    ensures |parts| >= 1
    decreases |s|
  {
    if |s| < |sep| then [s]
    else if sep <= s then [""] + Split(s[|sep|..], sep)
    else
      var rest := Split(s[1..], sep);
      [[s[0]] + rest[0]] + rest[1..]
  }

  /** `sep.join(parts)`. */
  function Join(parts: seq<string>, sep: string): string
    decreases |parts|
  {
    if |parts| == 0 then ""
    else if |parts| == 1 then parts[0]
    else parts[0] + sep + Join(parts[1..], sep)
  }

  lemma JoinConsHead(c: char, x: string, rest: seq<string>, sep: string)
    ensures Join([[c] + x] + rest, sep) == [c] + Join([x] + rest, sep)
  {
    if |rest| > 0 {
      assert ([[c] + x] + rest)[1..] == rest;
      assert ([x] + rest)[1..] == rest;
    }
  }

  lemma JoinCons(x: string, rest: seq<string>, sep: string)
    requires |rest| > 0
    ensures Join([x] + rest, sep) == x + sep + Join(rest, sep)
  {
    assert ([x] + rest)[1..] == rest;
  }

  /** Joining the pieces of a split with the separator gives back the string. */
  lemma {:induction false} JoinSplit(s: string, sep: string)
    requires |sep| > 0
    ensures Join(Split(s, sep), sep) == s
  {
    if |s| < |sep| {
    } else if sep <= s {
      JoinSplit(s[|sep|..], sep);
      JoinCons("", Split(s[|sep|..], sep), sep);
    } else {
      var rest := Split(s[1..], sep);
      JoinSplit(s[1..], sep);
      JoinConsHead(s[0], rest[0], rest[1..], sep);
      assert [rest[0]] + rest[1..] == rest;
    }
  }

  /** `s.replace(pat, repl)` is `repl.join(s.split(pat))`: every piece of text
      between occurrences is kept verbatim, and only the occurrences change. */
  lemma {:induction false} ReplaceIsJoinOfSplit(s: string, pat: string, repl: string)
    requires |pat| > 0
    ensures ReplaceAll(s, pat, repl) == Join(Split(s, pat), repl)
  {
    if |s| < |pat| {
    } else if pat <= s {
      ReplaceIsJoinOfSplit(s[|pat|..], pat, repl);
      JoinCons("", Split(s[|pat|..], pat), repl);
    } else {
      var rest := Split(s[1..], pat);
      ReplaceIsJoinOfSplit(s[1..], pat, repl);
      JoinConsHead(s[0], rest[0], rest[1..], repl);
      assert [rest[0]] + rest[1..] == rest;
    }
  }

  /** `sep in s` exactly when `s.split(sep)` has more than one piece. */
  lemma {:induction false} SplitManyIffContains(s: string, sep: string)
    requires |sep| > 0
    ensures |Split(s, sep)| >= 2 <==> Contains(s, sep)
  {
    if |s| < |sep| {
      ShortDoesNotContain(s, sep);
    } else if sep <= s {
    } else {
      SplitManyIffContains(s[1..], sep);
    }
  }

  /** Splitting `x + sep + y`, where no occurrence of `sep` starts inside `x`,
      cuts at that `sep` first. */
  lemma {:induction false} SplitAtFirst(x: string, sep: string, y: string)
    requires |sep| > 0
    requires !Contains(x + sep[..|sep| - 1], sep)
    ensures Split(x + sep + y, sep) == [x] + Split(y, sep)
  {
    var s := x + sep + y;
    if |x| == 0 {
      assert s == sep + y;
      assert s[|sep|..] == y;
    } else {
      var w := x + sep[..|sep| - 1];
      assert s[1..] == x[1..] + sep + y;
      assert w[1..] == x[1..] + sep[..|sep| - 1];
      SplitAtFirst(x[1..], sep, y);
      assert [x[0]] + x[1..] == x;
    }
  }

  /** Replacing in `x + pat + y`, where no occurrence of `pat` starts inside
      `x`, keeps `x` and replaces that `pat` first. */
  lemma {:induction false} ReplaceAtFirst(x: string, pat: string, repl: string, y: string)
    requires |pat| > 0
    requires !Contains(x + pat[..|pat| - 1], pat)
    ensures ReplaceAll(x + pat + y, pat, repl) == x + repl + ReplaceAll(y, pat, repl)
  {
    var s := x + pat + y;
    if |x| == 0 {
      assert s == pat + y;
      assert s[|pat|..] == y;
    } else {
      var w := x + pat[..|pat| - 1];
      assert s[..|pat|] == w[..|pat|];
      assert !(pat <= s);
      assert s[1..] == x[1..] + pat + y;
      assert w[1..] == x[1..] + pat[..|pat| - 1];
      ReplaceAtFirst(x[1..], pat, repl, y);
      calc {
        ReplaceAll(s, pat, repl);
        [s[0]] + ReplaceAll(s[1..], pat, repl);
        [x[0]] + (x[1..] + repl + ReplaceAll(y, pat, repl));
        { assert [x[0]] + x[1..] == x; }
        x + repl + ReplaceAll(y, pat, repl);
      }
    }
  }

  /** A string without `sep` splits into itself alone. */
  lemma {:induction false} SplitNone(s: string, sep: string)
    requires |sep| > 0
    requires !Contains(s, sep)
    ensures Split(s, sep) == [s]
  {
    if |s| >= |sep| {
      SplitNone(s[1..], sep);
      assert [s[0]] + s[1..] == s;
    }
  }

  /** Replacing a pattern that does not occur changes nothing. */
  lemma {:induction false} ReplaceAbsent(s: string, pat: string, repl: string)
    requires |pat| > 0
    requires !Contains(s, pat)
    ensures ReplaceAll(s, pat, repl) == s
  {
    if |s| >= |pat| {
      ReplaceAbsent(s[1..], pat, repl);
      assert [s[0]] + s[1..] == s;
    }
  }

  /** `s.rstrip(c)`: the longest prefix of `s` that does not end in `c`; what
      was cut off is made of `c` only. */
  function RStrip(s: string, c: char): (r: string)
    ensures r <= s
    ensures |r| == 0 || r[|r| - 1] != c
    ensures forall k :: |r| <= k < |s| ==> s[k] == c
    decreases |s|
  {
    if |s| > 0 && s[|s| - 1] == c then RStrip(s[..|s| - 1], c) else s
  }

  /** `s[1:]`, which is empty on the empty string. */
  function DropFirst(s: string): string
  {
    if |s| == 0 then s else s[1..]
  }

  predicate IsDigits(s: string)
  {
    forall k :: 0 <= k < |s| ==> '0' <= s[k] <= '9'
  }

  function DigitChar(d: nat): char
    requires d < 10
  {
    ('0' as int + d) as char
  }

  /** `str(n)` for a non-negative integer: its decimal digits. */
  function NatToString(n: nat): (r: string)
    ensures |r| > 0 && IsDigits(r)
    ensures r[0] == '0' <==> n == 0
    ensures |r| == 1 || r[0] != '0'
  {
    if n < 10 then [DigitChar(n)] else NatToString(n / 10) + [DigitChar(n % 10)]
  }

  /** The number a string of decimal digits denotes. */
  function DecimalValue(s: string): nat
    requires IsDigits(s)
  {
    if |s| == 0 then 0 else DecimalValue(s[..|s| - 1]) * 10 + (s[|s| - 1] as int - '0' as int)
  }

  /** Reading back the digits of `str(n)` gives `n`. */
  lemma {:induction false} NatToStringValue(n: nat)
    ensures DecimalValue(NatToString(n)) == n
  {
    if n >= 10 {
      NatToStringValue(n / 10);
      var r := NatToString(n);
      assert r[..|r| - 1] == NatToString(n / 10);
    }
  }

  /** Length of the first line of `t`, its `'\n'` included. */
  function FirstLineLength(t: string): (k: nat)
    requires |t| > 0
    ensures 0 < k <= |t|
    ensures forall j :: 0 <= j < k - 1 ==> t[j] != '\n'
    ensures k < |t| ==> t[k - 1] == '\n'
    decreases |t|
  {
    if t[0] == '\n' || |t| == 1 then 1 else 1 + FirstLineLength(t[1..])
  }

  /** `f.readlines()` on a file whose (decoded) text is `t`: the lines of `t`,
      each keeping its `'\n'`; only the last one may lack it. */
  function ReadLines(t: string): (lines: seq<string>)
    ensures Join(lines, "") == t
    ensures forall k :: 0 <= k < |lines| ==> |lines[k]| > 0
    ensures forall k :: 0 <= k < |lines| - 1 ==> lines[k][|lines[k]| - 1] == '\n'
    ensures forall k, j :: 0 <= k < |lines| && 0 <= j < |lines[k]| - 1 ==> lines[k][j] != '\n'
    decreases |t|
  {
    if |t| == 0 then []
    else
      var k := FirstLineLength(t);
      var line := t[..k];
      var rest := ReadLines(t[k..]);
      JoinOfCons(line, rest);
      assert forall j :: 0 <= j < |line| - 1 ==> line[j] == t[j];
      [line] + rest
  }

  lemma JoinOfCons(x: string, rest: seq<string>)
    ensures Join([x] + rest, "") == x + Join(rest, "")
  {
    if |rest| > 0 {
      JoinCons(x, rest, "");
    }
  }

  /** Python's `<=` on strings: lexicographic by code point, a prefix first. */
  predicate LexLe(a: string, b: string)
    decreases |a|
  {
    |a| == 0 || (|b| > 0 && (a[0] < b[0] || (a[0] == b[0] && LexLe(a[1..], b[1..]))))
  }

  lemma {:induction false} LexLeTotal(a: string, b: string)
    ensures LexLe(a, b) || LexLe(b, a)
    decreases |a|
  {
    if |a| > 0 && |b| > 0 && a[0] == b[0] {
      LexLeTotal(a[1..], b[1..]);
    }
  }

  lemma {:induction false} LexLeTrans(a: string, b: string, c: string)
    requires LexLe(a, b) && LexLe(b, c)
    ensures LexLe(a, c)
    decreases |a|
  {
    if |a| > 0 && a[0] == b[0] && b[0] == c[0] {
      LexLeTrans(a[1..], b[1..], c[1..]);
    }
  }

  predicate IsSorted(s: seq<string>)
  {
    forall i :: 0 <= i < |s| - 1 ==> LexLe(s[i], s[i + 1])
  }

  /** Inserts `x` into the sorted `s` before the first element above it. */
  function Insert(x: string, s: seq<string>): (r: seq<string>)
    requires IsSorted(s)
    ensures IsSorted(r)
    ensures multiset(r) == multiset(s) + multiset{x}
    ensures |r| > 0 && (r[0] == x || (|s| > 0 && r[0] == s[0]))
    decreases |s|
  {
    if |s| == 0 then [x]
    else if LexLe(x, s[0]) then [x] + s
    else
      LexLeTotal(x, s[0]);
      var t := Insert(x, s[1..]);
      assert s == [s[0]] + s[1..];
      [s[0]] + t
  }

  /** `sorted(ids)` for a list of strings. */
  function SortStrings(ids: seq<string>): (r: seq<string>)
    ensures IsSorted(r)
    ensures multiset(r) == multiset(ids)
    decreases |ids|
  {
    if |ids| == 0 then []
    else
      assert ids == [ids[0]] + ids[1..];
      Insert(ids[0], SortStrings(ids[1..]))
  }
}
