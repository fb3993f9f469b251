/**
 * String operations the source takes from its language runtime: case mapping,
 * prefix/suffix tests, `indexOf`, `split`, `trim`/`strip`, `join`, replacement,
 * number formatting and the ordering used by `sort`.
 *
 * Case mapping and white space are ASCII only (see README, "Left out").
 */
module Text {

  // ---------------------------------------------------------------- characters

  function LowerChar(c: char): char {
    if 'A' <= c <= 'Z' then (c as int + 32) as char else c
  }

  function UpperChar(c: char): char {
    if 'a' <= c <= 'z' then (c as int - 32) as char else c
  }

  /** `String.prototype.toLowerCase` / `str.lower()` on ASCII letters. */
  function ToLower(s: string): (r: string)
    ensures |r| == |s|
    ensures forall i :: 0 <= i < |s| ==> r[i] == LowerChar(s[i])
  {
    seq(|s|, i requires 0 <= i < |s| => LowerChar(s[i]))
  }

  /** `String.prototype.toUpperCase` / `str.upper()` on ASCII letters. */
  function ToUpper(s: string): (r: string)
    ensures |r| == |s|
    ensures forall i :: 0 <= i < |s| ==> r[i] == UpperChar(s[i])
  {
    seq(|s|, i requires 0 <= i < |s| => UpperChar(s[i]))
  }

  /** A text with no upper-case letter is its own lower case. */
  lemma {:induction false} LowerFixed(s: string)
    requires forall i :: 0 <= i < |s| ==> !('A' <= s[i] <= 'Z')
    ensures ToLower(s) == s
  {
  }

  /** `constructor`, a key every JavaScript object inherits, is its own lower case. */
  lemma {:induction false} ConstructorLower()
    ensures ToLower("constructor") == "constructor"
  {
    LowerFixed("constructor");
  }

  lemma {:induction false} ToLowerIdempotent(s: string)
    ensures ToLower(ToLower(s)) == ToLower(s)
  {
  }

  lemma {:induction false} ToLowerAppend(a: string, b: string)
    ensures ToLower(a + b) == ToLower(a) + ToLower(b)
  {
  }

  lemma {:induction false} ToUpperAppend(a: string, b: string)
    ensures ToUpper(a + b) == ToUpper(a) + ToUpper(b)
  {
  }

  /** White space as `\s`, `trim()` and `strip()` see it, restricted to ASCII. */
  predicate IsSpace(c: char) {
    c == ' ' || c == '\t' || c == '\n' || c == '\r' || c == '\U{000B}' || c == '\U{000C}'
  }

  /** Lower-casing keeps `_` where it is and makes no new one. */
  lemma {:induction false} IndexOfLower(s: string)
    ensures IndexOf(ToLower(s), '_') == IndexOf(s, '_')
  {
    if |s| > 0 {
      IndexOfLower(s[1..]);
      assert ToLower(s)[1..] == ToLower(s[1..]);
    }
  }

  // ---------------------------------------------------------------- substrings

  predicate StartsWith(s: string, p: string) {
    |p| <= |s| && s[..|p|] == p
  }

  predicate EndsWith(s: string, p: string) {
    |p| <= |s| && s[|s| - |p|..] == p
  }

  /** `sub` occurs in `s` starting at index `i`. */
  predicate OccursAt(s: string, sub: string, i: int) {
    0 <= i <= |s| - |sub| && s[i..i + |sub|] == sub
  }

  /** `s.includes(sub)` / `sub in s`. */
  predicate Contains(s: string, sub: string) {
    exists i :: 0 <= i <= |s| - |sub| && OccursAt(s, sub, i)
  }

  /** `s.indexOf(c)`: the first index of `c`, or -1. */
  function IndexOf(s: string, c: char): (r: int)
    ensures -1 <= r < |s|
    ensures r >= 0 ==> s[r] == c && forall j :: 0 <= j < r ==> s[j] != c
    ensures r < 0 ==> forall j :: 0 <= j < |s| ==> s[j] != c
  {
    if |s| == 0 then -1
    else if s[0] == c then 0
    else
      var k := IndexOf(s[1..], c);
      if k < 0 then -1 else k + 1
  }
  /** The first occurrence of a character, read off the text's characters. */
  lemma {:induction false} IndexOfAt(s: string, c: char, k: int)
    requires 0 <= k < |s| && s[k] == c
    requires forall j :: 0 <= j < k ==> s[j] != c
    ensures IndexOf(s, c) == k
  {
  }

  lemma {:induction false} IndexOfNone(s: string, c: char)
    requires forall j :: 0 <= j < |s| ==> s[j] != c
    ensures IndexOf(s, c) == -1
  {
  }


  /** The first index at which `sep` occurs in `s`, or -1. */
  function Find(s: string, sep: string): (r: int)
    requires |sep| > 0
    ensures r == -1 || 0 <= r <= |s| - |sep|
    ensures r >= 0 ==> OccursAt(s, sep, r)
    ensures forall j :: (r < 0 || j < r) ==> !OccursAt(s, sep, j)
    decreases |s|
  {
    if |s| < |sep| then -1
    else if s[..|sep|] == sep then 0
    else
      var k := Find(s[1..], sep);
      assert forall j :: 1 <= j ==> (OccursAt(s, sep, j) <==> OccursAt(s[1..], sep, j - 1)) by {
        forall j | 1 <= j ensures OccursAt(s, sep, j) <==> OccursAt(s[1..], sep, j - 1) {
          if 1 <= j <= |s| - |sep| {
            assert s[1..][j - 1..j - 1 + |sep|] == s[j..j + |sep|];
          }
        }
      }
      if k < 0 then -1 else k + 1
  }

  /** `s.split(c)` for a one-character separator: never empty, no part contains `c`. */
  function Split(s: string, c: char): (r: seq<string>)
    ensures |r| >= 1
    ensures r[0] == if IndexOf(s, c) < 0 then s else s[..IndexOf(s, c)]
    decreases |s|
  {
    var k := IndexOf(s, c);
    if k < 0 then [s] else [s[..k]] + Split(s[k + 1..], c)
  }

  /** `s.split(sep)` for a separator of any positive length, scanning left to right. */
  function SplitOn(s: string, sep: string): (r: seq<string>)
    requires |sep| > 0
    ensures |r| >= 1
    decreases |s|
  {
    var k := Find(s, sep);
    if k < 0 then [s] else [s[..k]] + SplitOn(s[k + |sep|..], sep)
  }

  /** The last part holds no separator. */
  lemma {:induction false} SplitOnLast(s: string, sep: string)
    requires |sep| > 0
    ensures var r := SplitOn(s, sep); Find(r[|r| - 1], sep) < 0
    decreases |s|
  {
    var k := Find(s, sep);
    var r := SplitOn(s, sep);
    if k >= 0 {
      var tail := s[k + |sep|..];
      var rest := SplitOn(tail, sep);
      SplitOnLast(tail, sep);
      assert r == [s[..k]] + rest;
      assert r[|r| - 1] == rest[|rest| - 1];
    } else {
      assert r == [s];
    }
  }

  /** Each part followed by the separator, all concatenated. */
  function Terminated(parts: seq<string>, sep: string): string {
    if |parts| == 0 then "" else Terminated(parts[..|parts| - 1], sep) + parts[|parts| - 1] + sep
  }

  lemma {:induction false} TerminatedAppend(a: seq<string>, b: seq<string>, sep: string)
    ensures Terminated(a + b, sep) == Terminated(a, sep) + Terminated(b, sep)
    decreases |b|
  {
    if |b| == 0 {
      assert a + b == a;
    } else {
      assert (a + b)[..|a + b| - 1] == a + b[..|b| - 1];
      TerminatedAppend(a, b[..|b| - 1], sep);
    }
  }

  /** Splitting loses nothing: the parts but the last, each with its separator, then the last part, give back `s`. */
  lemma {:induction false} SplitOnJoin(s: string, sep: string)
    requires |sep| > 0
    ensures var r := SplitOn(s, sep); Terminated(r[..|r| - 1], sep) + r[|r| - 1] == s
    decreases |s|
  {
    var k := Find(s, sep);
    if k >= 0 {
      var tail := s[k + |sep|..];
      var rest := SplitOn(tail, sep);
      assert Terminated(rest[..|rest| - 1], sep) + rest[|rest| - 1] == tail by {
        SplitOnJoin(tail, sep);
      }
      assert SplitOn(s, sep) == [s[..k]] + rest;
      JoinStep(s, k, sep, rest);
    }
  }

  /** The step of `SplitOnJoin`: the part before the first separator, put back in front. */
  lemma {:induction false} JoinStep(s: string, k: nat, sep: string, rest: seq<string>)
    requires k + |sep| <= |s| && s[k..k + |sep|] == sep && |rest| >= 1
    requires Terminated(rest[..|rest| - 1], sep) + rest[|rest| - 1] == s[k + |sep|..]
    ensures var r := [s[..k]] + rest; Terminated(r[..|r| - 1], sep) + r[|r| - 1] == s
  {
    ConsLast(s[..k], rest);
    SplitOnStep(s[..k], rest[..|rest| - 1], rest[|rest| - 1], sep);
    SeparatorBack(s, k, sep);
  }

  lemma {:induction false} ConsLast<T>(x: T, rest: seq<T>)
    requires |rest| >= 1
    ensures var r := [x] + rest; r[..|r| - 1] == [x] + rest[..|rest| - 1] && r[|r| - 1] == rest[|rest| - 1]
  {
  }

  lemma {:induction false} SeparatorBack(s: string, k: nat, sep: string)
    requires k + |sep| <= |s| && s[k..k + |sep|] == sep
    ensures s[..k] + sep + s[k + |sep|..] == s
  {
    assert s == s[..k] + s[k..k + |sep|] + s[k + |sep|..];
  }

  lemma {:induction false} SplitOnStep(head: string, init: seq<string>, last: string, sep: string)
    ensures Terminated([head] + init, sep) + last == head + sep + (Terminated(init, sep) + last)
  {
    TerminatedAppend([head], init, sep);
    assert [head][..0] == [];
  }

  /** `parts.join(sep)`. */
  function Join(parts: seq<string>, sep: string): string {
    if |parts| == 0 then ""
    else if |parts| == 1 then parts[0]
    else Join(parts[..|parts| - 1], sep) + sep + parts[|parts| - 1]
  }

  /** Joining two non-empty lists puts one separator between their joins. */
  lemma {:induction false} JoinAppend(a: seq<string>, b: seq<string>, sep: string)
    requires |a| > 0 && |b| > 0
    ensures Join(a + b, sep) == Join(a, sep) + sep + Join(b, sep)
    decreases |b|
  {
    var ab := a + b;
    if |b| == 1 {
      assert ab[..|ab| - 1] == a;
    } else {
      var init := b[..|b| - 1];
      JoinAppend(a, init, sep);
      assert ab[..|ab| - 1] == a + init;
    }
  }

  /** Every occurrence of character `c` replaced by `rep` (`s.replace(/c/g, rep)`). */
  function ReplaceChar(s: string, c: char, rep: string): (r: string)
    ensures c !in rep ==> c !in r
  {
    if |s| == 0 then ""
    else (if s[0] == c then rep else [s[0]]) + ReplaceChar(s[1..], c, rep)
  }

  /** Python `s.replace(pat, '')`: occurrences removed left to right, without overlap. */
  function RemoveAll(s: string, pat: string): string
    requires |pat| > 0
    decreases |s|
  {
    if |s| == 0 then ""
    else if StartsWith(s, pat) then RemoveAll(s[|pat|..], pat)
    else [s[0]] + RemoveAll(s[1..], pat)
  }

  /** The leading run of `c` removed (`s.replace(/^c+/, '')`, Python `s.lstrip(c)`). */
  function LStrip(s: string, c: char): (r: string)
    ensures |r| <= |s| && r == s[|s| - |r|..]
    ensures |r| == 0 || r[0] != c
    ensures forall i :: 0 <= i < |s| - |r| ==> s[i] == c
  {
    if |s| > 0 && s[0] == c then
      var r := LStrip(s[1..], c);
      assert forall i :: 1 <= i < |s| - |r| ==> s[i] == s[1..][i - 1];
      r
    else s
  }

  /** Python `s.rstrip(c)`. */
  function RStrip(s: string, c: char): (r: string)
    ensures |r| <= |s| && r == s[..|r|]
    ensures |r| == 0 || r[|r| - 1] != c
    ensures forall i :: |r| <= i < |s| ==> s[i] == c
  {
    if |s| > 0 && s[|s| - 1] == c then RStrip(s[..|s| - 1], c) else s
  }

  function TrimStart(s: string): (r: string)
    ensures |r| <= |s| && r == s[|s| - |r|..]
    ensures |r| == 0 || !IsSpace(r[0])
    ensures forall i :: 0 <= i < |s| - |r| ==> IsSpace(s[i])
  {
    if |s| > 0 && IsSpace(s[0]) then TrimStart(s[1..]) else s
  }

  function TrimEnd(s: string): (r: string)
    ensures |r| <= |s| && r == s[..|r|]
    ensures |r| == 0 || !IsSpace(r[|r| - 1])
    ensures forall i :: |r| <= i < |s| ==> IsSpace(s[i])
  {
    if |s| > 0 && IsSpace(s[|s| - 1]) then TrimEnd(s[..|s| - 1]) else s
  }

  /** `s.trim()` / `s.strip()`. */
  function Trim(s: string): (r: string)
    ensures |r| == 0 || (!IsSpace(r[0]) && !IsSpace(r[|r| - 1]))
  {
    TrimEnd(TrimStart(s))
  }

  /** `!s.trim()`: the string holds nothing but white space. */
  predicate IsBlank(s: string) {
    forall i :: 0 <= i < |s| ==> IsSpace(s[i])
  }

  lemma {:induction false} TrimEmptyIffBlank(s: string)
    ensures Trim(s) == "" <==> IsBlank(s)
  {
    var t := TrimStart(s);
    if Trim(s) == "" {
      assert |t| == 0;
    } else {
      var r := Trim(s);
      assert r[0] == t[0] == s[|s| - |t|];
    }
  }

  /**
   * JavaScript's `s.length`: UTF-16 code units, two for a character beyond
   * the Basic Multilingual Plane.
   */
  function Utf16Length(s: string): (n: nat)
    ensures |s| <= n <= 2 * |s|
    ensures (forall i :: 0 <= i < |s| ==> s[i] as int <= 0xFFFF) ==> n == |s|
  {
    if |s| == 0 then 0
    else Utf16Length(s[..|s| - 1]) + (if s[|s| - 1] as int > 0xFFFF then 2 else 1)
  }

  // ---------------------------------------------------------------- numbers

  function DigitChar(d: nat): char
    requires d < 10
  {
    ('0' as int + d) as char
  }

  /** Decimal text of a natural number, as `${n}` writes it. */
  function NatToString(n: nat): (r: string)
    ensures |r| >= 1
    ensures forall i :: 0 <= i < |r| ==> '0' <= r[i] <= '9'
  {
    if n < 10 then [DigitChar(n)] else NatToString(n / 10) + [DigitChar(n % 10)]
  }

  function IntToString(i: int): string {
    if i < 0 then "-" + NatToString(-i) else NatToString(i)
  }

  lemma {:induction false} NatToStringInjective(m: nat, n: nat)
    requires NatToString(m) == NatToString(n)
    ensures m == n
  {
    if m < 10 && n < 10 {
      assert DigitChar(m) == NatToString(m)[0];
    } else {
      assert m >= 10 && n >= 10;
      var a, b := NatToString(m / 10), NatToString(n / 10);
      var s := NatToString(m);
      assert s == a + [DigitChar(m % 10)];
      assert s == b + [DigitChar(n % 10)];
      assert a == s[..|s| - 1] == b;
      NatToStringInjective(m / 10, n / 10);
      assert DigitChar(m % 10) == s[|s| - 1] == DigitChar(n % 10);
    }
  }

  // ---------------------------------------------------------------- ordering

  /** Code-point lexicographic order on strings (a strict order). */
  predicate Less(a: string, b: string) {
    if |a| == 0 then |b| > 0
    else if |b| == 0 then false
    else if a[0] != b[0] then a[0] < b[0]
    else Less(a[1..], b[1..])
  }

  lemma LessIrreflexive(a: string)
    ensures !Less(a, a)
  {
  }

  lemma {:induction false} LessTransitive(a: string, b: string, c: string)
    requires Less(a, b) && Less(b, c)
    ensures Less(a, c)
  {
    if |a| > 0 && |b| > 0 && |c| > 0 && a[0] == b[0] == c[0] {
      LessTransitive(a[1..], b[1..], c[1..]);
    }
  }

  lemma {:induction false} LessTotal(a: string, b: string)
    requires a != b
    ensures Less(a, b) || Less(b, a)
  {
    if |a| > 0 && |b| > 0 && a[0] == b[0] {
      assert a == [a[0]] + a[1..] && b == [b[0]] + b[1..];
      LessTotal(a[1..], b[1..]);
    }
  }

  lemma {:induction false} LessAsymmetric(a: string, b: string)
    requires Less(a, b)
    ensures !Less(b, a)
  {
    if |a| > 0 && |b| > 0 && a[0] == b[0] {
      LessAsymmetric(a[1..], b[1..]);
    }
  }

  /** Ascending with respect to `Less`, equal neighbours allowed. */
  predicate Sorted(s: seq<string>) {
    forall i, j :: 0 <= i < j < |s| ==> !Less(s[j], s[i])
  }

  /** Insert `x` before the first element that is not less than it. */
  function Insert(x: string, s: seq<string>): (r: seq<string>)
    requires Sorted(s)
    ensures multiset(r) == multiset(s) + multiset{x}
    ensures Sorted(r)
  {
    if |s| == 0 then [x]
    else if !Less(s[0], x) then
      InsertFront(x, s);
      [x] + s
    else
      SortedTail(s);
      var t := Insert(x, s[1..]);
      InsertBehind(x, s, t);
      [s[0]] + t
  }

  lemma {:induction false} SortedTail(s: seq<string>)
    requires Sorted(s) && |s| > 0
    ensures Sorted(s[1..])
  {
    forall i, j | 0 <= i < j < |s| - 1 ensures !Less(s[1..][j], s[1..][i]) {
      assert s[1..][j] == s[j + 1] && s[1..][i] == s[i + 1];
    }
  }

  /** `x` goes in front when the first element is not less than it. */
  lemma {:induction false} InsertFront(x: string, s: seq<string>)
    requires Sorted(s) && |s| > 0 && !Less(s[0], x)
    ensures Sorted([x] + s)
  {
    forall j | 0 <= j < |s| ensures !Less(s[j], x) {
      LessIrreflexive(s[0]);
      LessMonotone(s[0], s[j], x);
    }
    var r := [x] + s;
    forall i, j | 0 <= i < j < |r| ensures !Less(r[j], r[i]) {
      assert r[j] == s[j - 1];
      if i > 0 { assert r[i] == s[i - 1]; }
    }
  }

  /** `x` goes behind the first element when that one is less than it. */
  lemma {:induction false} InsertBehind(x: string, s: seq<string>, t: seq<string>)
    requires Sorted(s) && |s| > 0 && Less(s[0], x)
    requires multiset(t) == multiset(s[1..]) + multiset{x} && Sorted(t)
    ensures multiset([s[0]] + t) == multiset(s) + multiset{x}
    ensures Sorted([s[0]] + t)
  {
    assert s == [s[0]] + s[1..];
    assert forall y :: y in multiset(t) ==> y == x || y in multiset(s[1..]);
    forall j | 0 <= j < |t| ensures !Less(t[j], s[0]) {
      assert t[j] in multiset(t);
      if t[j] == x { LessAsymmetric(s[0], x); }
      else { assert t[j] in s[1..]; }
    }
    var r := [s[0]] + t;
    forall i, j | 0 <= i < j < |r| ensures !Less(r[j], r[i]) {
      assert r[j] == t[j - 1];
      if i > 0 { assert r[i] == t[i - 1]; }
    }
  }

  /** Whatever `b` precedes, anything not after `b` precedes as well. */
  lemma {:induction false} LessMonotone(a: string, b: string, c: string)
    requires !Less(b, a)
    ensures Less(b, c) ==> Less(a, c)
  {
    if Less(b, c) && a != b {
      LessTotal(a, b);
      LessTransitive(a, b, c);
    }
  }

  /** The sort the source asks of its runtime: an ascending permutation of `s`. */
  function SortStrings(s: seq<string>): (r: seq<string>)
    ensures multiset(r) == multiset(s)
    ensures Sorted(r)
  {
    if |s| == 0 then [] else
      assert s == s[..|s| - 1] + [s[|s| - 1]];
      Insert(s[|s| - 1], SortStrings(s[..|s| - 1]))
  }

  /** A sorted sequence of distinct strings is strictly ascending. */
  lemma {:induction false} SortedDistinctStrict(s: seq<string>)
    requires Sorted(s)
    requires forall i, j :: 0 <= i < j < |s| ==> s[i] != s[j]
    ensures forall i, j :: 0 <= i < j < |s| ==> Less(s[i], s[j])
  {
    forall i, j | 0 <= i < j < |s| ensures Less(s[i], s[j]) {
      LessTotal(s[i], s[j]);
    }
  }
}
