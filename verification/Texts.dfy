/** Python's operations on texts and slices that several parts share. */
module Texts {

  /** Whitespace as str.strip sees it. */
  predicate IsSpace(c: char) {
    var n := c as int;
    9 <= n <= 13 || 28 <= n <= 32 || n == 0x85 || n == 0xA0 || n == 0x1680 || 0x2000 <= n <= 0x200A
    || n == 0x2028 || n == 0x2029 || n == 0x202F || n == 0x205F || n == 0x3000
  }

  function StripLeft(s: string): string {
    if s != "" && IsSpace(s[0]) then StripLeft(s[1..]) else s
  }

  function StripRight(s: string): string {
    if s != "" && IsSpace(s[|s| - 1]) then StripRight(s[..|s| - 1]) else s
  }

  function Strip(s: string): string {
    StripRight(StripLeft(s))
  }

  predicate StartsWith(s: string, prefix: string) {
    prefix <= s
  }

  predicate Contains(s: string, part: string) {
    exists k :: 0 <= k <= |s| && StartsWith(s[k..], part)
  }

  // ---- Splitting and joining at one character ----

  /** The prefix of s before the first c. */
  function Before(s: string, c: char): (p: string)
    ensures p <= s && c !in p && (|p| < |s| ==> s[|p|] == c)
  {
    if s == "" || s[0] == c then ""
    else
      var p := Before(s[1..], c);
      assert [s[0]] + p <= [s[0]] + s[1..] == s;
      [s[0]] + p
  }

  /** What follows the first c; "" if there is none. */
  function After(s: string, c: char): string {
    var p := Before(s, c);
    if |p| < |s| then s[|p| + 1..] else ""
  }

  lemma {:induction false} CutAt(a: string, c: char, b: string)
    requires c !in a
    ensures Before(a + [c] + b, c) == a && After(a + [c] + b, c) == b
    decreases |a|
  {
    var s := a + [c] + b;
    if a != "" {
      CutAt(a[1..], c, b);
      assert s[1..] == a[1..] + [c] + b;
    }
    assert s[|a| + 1..] == b;
  }

  lemma {:induction false} NothingToCut(a: string, c: char)
    requires c !in a
    ensures Before(a, c) == a && After(a, c) == ""
    decreases |a|
  {
    if a != "" { NothingToCut(a[1..], c); }
  }

  function SplitOn(s: string, c: char): (r: seq<string>)
    ensures |r| > 0 && forall i :: 0 <= i < |r| ==> c !in r[i]
    decreases |s|
  {
    if c !in s then [s]
    else
      var p := Before(s, c);
      assert |p| < |s|;
      [p] + SplitOn(s[|p| + 1..], c)
  }

  function JoinWith(parts: seq<string>, c: char): string {
    if parts == [] then "" else if |parts| == 1 then parts[0] else parts[0] + [c] + JoinWith(parts[1..], c)
  }

  lemma {:induction false} SplitJoin(parts: seq<string>, c: char)
    requires parts != [] && forall i :: 0 <= i < |parts| ==> c !in parts[i]
    ensures SplitOn(JoinWith(parts, c), c) == parts
    decreases |parts|
  {
    if |parts| > 1 {
      var first, rest := parts[0], parts[1..];
      SplitJoin(rest, c);
      SplitFirst(first, c, JoinWith(rest, c));
      assert parts == [first] + rest;
    }
  }

  lemma SplitFirst(a: string, c: char, b: string)
    requires c !in a
    ensures SplitOn(a + [c] + b, c) == [a] + SplitOn(b, c)
  {
    var s := a + [c] + b;
    CutAt(a, c, b);
    assert s[|a|] == c && s[|a| + 1..] == b;
  }

  lemma {:induction false} JoinKeepsOut(parts: seq<string>, c: char, d: char)
    requires c != d && forall i :: 0 <= i < |parts| ==> d !in parts[i]
    ensures d !in JoinWith(parts, c)
    decreases |parts|
  {
    if |parts| > 1 { JoinKeepsOut(parts[1..], c, d); }
  }

  // ---- Decimal numbers ----

  predicate IsDigits(s: string) {
    s != "" && forall i :: 0 <= i < |s| ==> '0' <= s[i] <= '9'
  }

  function Value(s: string): nat
    requires forall i :: 0 <= i < |s| ==> '0' <= s[i] <= '9'
  {
    if s == "" then 0 else Value(s[..|s| - 1]) * 10 + (s[|s| - 1] as int - '0' as int)
  }

  function Decimal(n: nat): (s: string)
    ensures IsDigits(s)
  {
    if n < 10 then [('0' as int + n) as char] else Decimal(n / 10) + [('0' as int + n % 10) as char]
  }

  lemma {:induction false} DecimalValue(n: nat)
    ensures Value(Decimal(n)) == n
    decreases n
  {
    if n >= 10 {
      DecimalValue(n / 10);
      var s := Decimal(n);
      assert s[..|s| - 1] == Decimal(n / 10);
    }
  }

  // ---- Facts about stripping ----

  lemma {:induction false} StripLeftCuts(s: string) returns (i: nat)
    ensures i <= |s| && StripLeft(s) == s[i..] && (i < |s| ==> !IsSpace(s[i]))
    ensures forall k :: 0 <= k < i ==> IsSpace(s[k])
    decreases |s|
  {
    i := 0;
    if s != "" && IsSpace(s[0]) {
      var j := StripLeftCuts(s[1..]);
      i := j + 1;
    }
  }

  lemma {:induction false} StripRightCuts(s: string) returns (j: nat)
    ensures j <= |s| && StripRight(s) == s[..j] && (j > 0 ==> !IsSpace(s[j - 1]))
    ensures forall k :: j <= k < |s| ==> IsSpace(s[k])
    decreases |s|
  {
    j := |s|;
    if s != "" && IsSpace(s[|s| - 1]) {
      j := StripRightCuts(s[..|s| - 1]);
    }
  }

  lemma StripRightPrefix(s: string)
    ensures StripRight(s) <= s
    ensures s != "" && IsSpace(s[|s| - 1]) ==> |StripRight(s)| < |s|
    ensures s == "" || !IsSpace(s[|s| - 1]) ==> StripRight(s) == s
  {
    var j := StripRightCuts(s);
  }

  lemma StripRightKeeps(s: string, k: nat)
    requires k < |s| && !IsSpace(s[k])
    ensures |StripRight(s)| > k
  {
    var j := StripRightCuts(s);
  }

  lemma {:induction false} StripLeftShortens(s: string)
    ensures |StripLeft(s)| <= |s| && (s != "" && IsSpace(s[0]) ==> |StripLeft(s)| < |s|)
    decreases |s|
  {
    if s != "" && IsSpace(s[0]) {
      StripLeftShortens(s[1..]);
    }
  }

  lemma StripOne(c: char, s: string)
    requires IsSpace(c)
    ensures Strip([c] + s) == Strip(s)
  {
    assert ([c] + s)[1..] == s;
  }

  lemma {:induction false} StripLeftOfEnd(s: string, c: char)
    requires IsSpace(c)
    ensures StripLeft(s + [c]) == if StripLeft(s) == "" then "" else StripLeft(s) + [c]
    decreases |s|
  {
    if s == "" {
      assert s + [c] == [c] && [c][1..] == "";
    } else if IsSpace(s[0]) {
      StripLeftOfEnd(s[1..], c);
      assert (s + [c])[1..] == s[1..] + [c];
    }
  }

  lemma StripEnd(s: string, c: char)
    requires IsSpace(c)
    ensures Strip(s + [c]) == Strip(s)
  {
    StripLeftOfEnd(s, c);
    var l := StripLeft(s);
    assert (l + [c])[..|l|] == l;
  }

  lemma StripRightSolid(s: string)
    requires s != "" && !IsSpace(s[0])
    ensures StripRight(s) != "" && StripRight(s)[0] == s[0]
  {
    var j := StripRightCuts(s);
  }

  lemma StripRightAgain(s: string)
    ensures StripRight(StripRight(s)) == StripRight(s)
  {
    var j := StripRightCuts(s);
  }

  lemma StripAgain(s: string)
    ensures Strip(Strip(s)) == Strip(s)
  {
    var i := StripLeftCuts(s);
    if StripLeft(s) != "" {
      StripRightSolid(StripLeft(s));
      StripRightAgain(StripLeft(s));
    }
  }

  lemma SolidStrips(s: string)
    requires s != "" && forall i :: 0 <= i < |s| ==> !IsSpace(s[i])
    ensures Strip(s) == s
  {
  }

  /** What str.strip takes off: the ASCII blanks and separators, and the blanks of Unicode. */
  lemma StripsExactly(c: char)
    ensures Strip([c]) == "" <==>
      || c as int in {9, 10, 11, 12, 13, 28, 29, 30, 31, 32, 0x85, 0xA0, 0x1680, 0x2028, 0x2029, 0x202F, 0x205F, 0x3000}
      || 0x2000 <= c as int <= 0x200A
  {
    assert [c][1..] == "" && [c][..0] == "" && StripLeft("") == "" && StripRight("") == "";
    assert StripLeft([c]) == if IsSpace(c) then "" else [c];
  }

  // ---- Slices ----

  /** Where xs[:max] ends in a sequence of n elements; a negative bound counts from the end. */
  function SliceEnd(max: int, n: nat): (k: nat)
    ensures k <= n
    ensures max >= 0 ==> k <= max
  {
    if n <= max then n
    else if max >= 0 then max
    else if n + max >= 0 then n + max
    else 0
  }
}
