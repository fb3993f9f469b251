/**
 * The session cookie (`session.ts`): its lifetime and the token parser that
 * finds `erdai_session=<token>` in a `Cookie` header the way the pattern
 * `(?:^|;\s*)erdai_session=([^;]+)` does, leftmost match first.
 */
module Session {
  import opened Wrappers
  import opened Text

  const COOKIE_NAME: string := "erdai_session"

  /** Twelve hours in milliseconds. */
  const COOKIE_MAX_AGE: int := 12 * 60 * 60 * 1000

  /** `name=` as it must appear in the header. */
  function Prefix(): string {
    COOKIE_NAME + "="
  }

  /** `\s*` from `i`: the first index at or after `i` that is not white space. */
  function SkipSpaces(s: string, i: nat): (j: nat)
    requires i <= |s|
    ensures i <= j <= |s|
    ensures forall k :: i <= k < j ==> IsSpace(s[k])
    ensures j == |s| || !IsSpace(s[j])
    decreases |s| - i
  {
    if i == |s| || !IsSpace(s[i]) then i else SkipSpaces(s, i + 1)
  }

  /** `[^;]*` from `i`, greedy: the index of the next `;`, or the end. */
  function ValueEnd(s: string, i: nat): (j: nat)
    requires i <= |s|
    ensures i <= j <= |s|
    ensures forall k :: i <= k < j ==> s[k] != ';'
    ensures j == |s| || s[j] == ';'
    decreases |s| - i
  {
    if i == |s| || s[i] == ';' then i else ValueEnd(s, i + 1)
  }

  /** `erdai_session=([^;]+)` at index `k`: the captured token, when it is not empty. */
  function TokenAt(s: string, k: nat): (r: Option<string>)
    requires k <= |s|
  {
    if OccursAt(s, Prefix(), k) then
      var v := k + |Prefix()|;
      var e := ValueEnd(s, v);
      if e > v then Some(s[v..e]) else None
    else None
  }

  /**
   * The match of the whole pattern starting at `p`: the `^` alternative
   * (only at 0) first, then `;` followed by white space.
   */
  function MatchAt(s: string, p: nat): (r: Option<string>)
  {
    var anchored := if p == 0 then TokenAt(s, 0) else None;
    if anchored.Some? then anchored
    else if p < |s| && s[p] == ';' then TokenAt(s, SkipSpaces(s, p + 1))
    else None
  }

  /** The first of `f(p)`, ..., `f(n)` that is present: a leftmost search. */
  function Leftmost<T>(f: nat -> Option<T>, p: nat, n: nat): Option<T>
    decreases n - p
  {
    if f(p).Some? then f(p)
    else if p >= n then None
    else Leftmost(f, p + 1, n)
  }

  /** None of `f(p)`, ..., `f(q - 1)` is present. */
  predicate NoneBetween<T>(f: nat -> Option<T>, p: nat, q: nat) {
    forall i: nat :: p <= i < q ==> f(i).None?
  }

  /** The search gives the first present value, and nothing only when none is present. */
  lemma {:induction false} LeftmostSpec<T>(f: nat -> Option<T>, p: nat, n: nat)
    requires p <= n
    ensures Leftmost(f, p, n).Some? ==>
      exists q: nat :: p <= q <= n && f(q) == Leftmost(f, p, n) && NoneBetween(f, p, q)
    ensures Leftmost(f, p, n).None? <==> NoneBetween(f, p, n + 1)
    decreases n - p
  {
    if f(p).Some? {
      assert NoneBetween(f, p, p);
    } else if p < n {
      LeftmostSpec(f, p + 1, n);
      if Leftmost(f, p, n).Some? {
        var q: nat :| p + 1 <= q <= n && f(q) == Leftmost(f, p, n) && NoneBetween(f, p + 1, q);
        assert NoneBetween(f, p, q);
      }
    }
  }

  /** Starts that give nothing are passed over. */
  lemma {:induction false} LeftmostSkips<T>(f: nat -> Option<T>, p: nat, q: nat, n: nat)
    requires p <= q <= n && NoneBetween(f, p, q)
    ensures Leftmost(f, p, n) == Leftmost(f, q, n)
    decreases q - p
  {
    if p < q {
      LeftmostSkips(f, p + 1, q, n);
    }
  }

  /** The pattern tried at each start of `s`. */
  function Matcher(s: string): nat -> Option<string> {
    (p: nat) => MatchAt(s, p)
  }

  /** The regex search: the match of the leftmost start that has one. */
  function FirstMatch(s: string): Option<string> {
    Leftmost(Matcher(s), 0, |s|)
  }

  /**
   * `getTokenFromCookie`: `null` for a missing or empty header; otherwise the
   * token of the leftmost start where the pattern matches, `null` if none does.
   */
  function GetTokenFromCookie(header: Option<string>): (r: Option<string>)
    ensures !Truthy(header) ==> r == None
    ensures Truthy(header) ==> var s := header.value;
      && (r.None? <==> forall p: nat :: p <= |s| ==> MatchAt(s, p).None?)
      && (r.Some? ==>
            exists p: nat :: p <= |s| && MatchAt(s, p) == r && forall q: nat :: q < p ==> MatchAt(s, q).None?)
  {
    if !Truthy(header) then None
    else
      var s := header.value;
      LeftmostSpec(Matcher(s), 0, |s|);
      assert forall p: nat :: Matcher(s)(p) == MatchAt(s, p);
      FirstMatch(s)
  }

  // ------------------------------------------------------------ what a match is

  /**
   * `v` is the token of an occurrence of `erdai_session=` at `k`: the name
   * begins the header or follows a `;` and white space, and `v` is the whole
   * non-empty run of characters up to the next `;` or the end.
   */
  ghost predicate Occurrence(s: string, k: nat, v: string) {
    && OccursAt(s, Prefix(), k)
    && (k == 0 || exists p :: 0 <= p < k && s[p] == ';' && forall i :: p < i < k ==> IsSpace(s[i]))
    && v != "" && ';' !in v && k + |Prefix()| + |v| <= |s|
    && s[k + |Prefix()|..k + |Prefix()| + |v|] == v
    && (k + |Prefix()| + |v| == |s| || s[k + |Prefix()| + |v|] == ';')
  }

  lemma {:induction false} TokenAtSpec(s: string, k: nat)
    requires k <= |s|
    ensures TokenAt(s, k).Some? ==>
      var v := TokenAt(s, k).value;
      && v != "" && ';' !in v
      && OccursAt(s, Prefix(), k)
      && k + |Prefix()| + |v| <= |s| && s[k + |Prefix()|..k + |Prefix()| + |v|] == v
      && (k + |Prefix()| + |v| == |s| || s[k + |Prefix()| + |v|] == ';')
  {
    if TokenAt(s, k).Some? {
      var v := k + |Prefix()|;
      var e := ValueEnd(s, v);
      assert TokenAt(s, k).value == s[v..e];
      forall i | 0 <= i < e - v
        ensures s[v..e][i] != ';'
      {
        assert s[v..e][i] == s[v + i];
      }
    }
  }

  /** Every match is an occurrence of the name at the start or after `;` and white space. */
  lemma {:induction false} MatchAtIsOccurrence(s: string, p: nat)
    requires p <= |s| && MatchAt(s, p).Some?
    ensures ';' !in MatchAt(s, p).value
    ensures exists k :: p <= k <= |s| && Occurrence(s, k, MatchAt(s, p).value)
  {
    var v := MatchAt(s, p).value;
    if p == 0 && TokenAt(s, 0).Some? {
      TokenOccurrence(s, 0, v);
    } else {
      var k := SkipSpaces(s, p + 1);
      assert s[p] == ';' && forall i :: p < i < k ==> IsSpace(s[i]);
      TokenOccurrence(s, k, v);
    }
  }

  /** A token read at the start, or after a `;` and white space, is an occurrence. */
  lemma {:induction false} TokenOccurrence(s: string, k: nat, v: string)
    requires k <= |s| && TokenAt(s, k) == Some(v)
    requires k == 0 || exists p :: 0 <= p < k && s[p] == ';' && forall i :: p < i < k ==> IsSpace(s[i])
    ensures Occurrence(s, k, v) && ';' !in v
  {
    TokenAtSpec(s, k);
  }

  /**
   * The parser's result, when there is one, is a non-empty token without `;`
   * taken from an occurrence of the name at the start or after `;`.
   */
  lemma {:induction false} TokenShape(header: Option<string>)
    requires GetTokenFromCookie(header).Some?
    ensures var v := GetTokenFromCookie(header).value;
      && v != "" && ';' !in v
      && exists k :: 0 <= k <= |header.value| && Occurrence(header.value, k, v)
  {
    var s := header.value;
    var q: nat :| q <= |s| && MatchAt(s, q) == GetTokenFromCookie(header);
    MatchAtIsOccurrence(s, q);
  }

  /** An occurrence is matched where its `;` (or the start) is. */
  lemma {:induction false} OccurrenceMatches(s: string, k: nat, v: string)
    requires Occurrence(s, k, v)
    ensures exists p :: 0 <= p <= k && MatchAt(s, p).Some?
  {
    OccurrenceToken(s, k, v);
    if k > 0 {
      var p :| 0 <= p < k && s[p] == ';' && forall i :: p < i < k ==> IsSpace(s[i]);
      SkipSpacesAt(s, p + 1, k);
      assert MatchAt(s, p).Some?;
    } else {
      assert MatchAt(s, 0).Some?;
    }
  }

  /** An occurrence's token is what `TokenAt` reads there, and the name's first letter is not white space. */
  lemma {:induction false} OccurrenceToken(s: string, k: nat, v: string)
    requires Occurrence(s, k, v)
    ensures k < |s| && !IsSpace(s[k]) && TokenAt(s, k) == Some(v)
  {
    assert s[k] == s[k..k + |Prefix()|][0];
    TokenOfParts(s, k, v);
  }

  lemma {:induction false} ValueEndAt(s: string, i: nat, e: nat)
    requires i <= e <= |s|
    requires forall k :: i <= k < e ==> s[k] != ';'
    requires e == |s| || s[e] == ';'
    ensures ValueEnd(s, i) == e
    decreases e - i
  {
    if i < e {
      ValueEndAt(s, i + 1, e);
    }
  }

  lemma {:induction false} SkipSpacesAt(s: string, i: nat, k: nat)
    requires i <= k < |s|
    requires forall j :: i <= j < k ==> IsSpace(s[j])
    requires !IsSpace(s[k])
    ensures SkipSpaces(s, i) == k
    decreases k - i
  {
    if i < k {
      SkipSpacesAt(s, i + 1, k);
    }
  }

  /** Some token is found iff the header holds an occurrence of the name with a non-empty value. */
  lemma {:induction false} FoundIff(header: Option<string>)
    requires Truthy(header)
    ensures GetTokenFromCookie(header).Some? <==>
      exists k, v :: 0 <= k <= |header.value| && Occurrence(header.value, k, v)
  {
    var s := header.value;
    if GetTokenFromCookie(header).Some? {
      TokenShape(header);
    }
    if exists k, v :: 0 <= k <= |s| && Occurrence(s, k, v) {
      var k, v :| 0 <= k <= |s| && Occurrence(s, k, v);
      OccurrenceMatches(s, k, v);
    }
  }

  // ------------------------------------------------------------ examples

  /** The token of the name at `k`, read off its parts. */
  lemma {:induction false} TokenOfParts(s: string, k: nat, v: string)
    requires k + |Prefix()| + |v| <= |s|
    requires s[k..k + |Prefix()|] == Prefix() && s[k + |Prefix()|..k + |Prefix()| + |v|] == v
    requires v != "" && ';' !in v
    requires k + |Prefix()| + |v| == |s| || s[k + |Prefix()| + |v|] == ';'
    ensures TokenAt(s, k) == Some(v)
  {
    var w := k + |Prefix()|;
    forall i | w <= i < w + |v|
      ensures s[i] != ';'
    {
      assert s[i] == v[i - w];
    }
    ValueEndAt(s, w, w + |v|);
  }

  /** A header that begins with the name gives the value up to the first `;`. */
  lemma {:induction false} NameFirst(v: string, rest: string)
    requires v != "" && ';' !in v && (rest == "" || rest[0] == ';')
    ensures GetTokenFromCookie(Some(Prefix() + v + rest)) == Some(v)
  {
    var s := Prefix() + v + rest;
    assert s[..|Prefix()|] == Prefix();
    assert s[|Prefix()|..|Prefix()| + |v|] == v;
    TokenOfParts(s, 0, v);
    assert MatchAt(s, 0) == Some(v);
  }

  /** Before the first `;`, only the start can match, and only when the name is there. */
  lemma {:induction false} NoMatchBeforeSemicolon(s: string, p: nat)
    requires p <= |s| && !OccursAt(s, Prefix(), 0)
    requires forall i :: 0 <= i < p ==> s[i] != ';'
    ensures NoneBetween(Matcher(s), 0, p)
  {
    forall i: nat | i < p
      ensures Matcher(s)(i).None?
    {
      assert Matcher(s)(i) == MatchAt(s, i);
    }
  }

  /** A `;`, white space and then the name with a token: the match at the `;`. */
  lemma {:induction false} MatchAtSemicolon(s: string, p: nat, k: nat, v: string)
    requires 0 < p < k < |s| && s[p] == ';' && !IsSpace(s[k])
    requires forall i :: p < i < k ==> IsSpace(s[i])
    requires TokenAt(s, k) == Some(v)
    ensures MatchAt(s, p) == Some(v)
  {
    SkipSpacesAt(s, p + 1, k);
  }

  /** The facts `AfterOtherCookie` reads off its header, at the `;` and at the name. */
  lemma {:induction false} AfterOtherParts(head: string, spaces: string, tail: string, v: string, rest: string)
    requires |head| > 0 && head[|head| - 1] == ';' && tail == Prefix() + v + rest
    requires forall i :: 0 <= i < |spaces| ==> IsSpace(spaces[i])
    requires v != "" && ';' !in v && (rest == "" || rest[0] == ';')
    ensures var s, k := head + spaces + tail, |head| + |spaces|;
      && s[|head| - 1] == ';' && k < |s| && !IsSpace(s[k])
      && (forall i :: |head| - 1 < i < k ==> IsSpace(s[i]))
      && TokenAt(s, k) == Some(v)
  {
    var s, k := head + spaces + tail, |head| + |spaces|;
    assert s[|head| - 1] == head[|head| - 1];
    assert s[k..] == tail;
    assert tail[..|Prefix()|] == Prefix();
    assert tail[|Prefix()|..|Prefix()| + |v|] == v;
    TokenOfParts(s, k, v);
    forall i | |head| - 1 < i < k
      ensures IsSpace(s[i])
    {
      assert s[i] == (head + spaces)[i] == spaces[i - |head|];
    }
    assert s[k] == tail[0];
  }

  /**
   * After another cookie with no `;` of its own, a `;` and white space, the
   * name's value is the token.
   */
  lemma {:induction false} AfterOtherCookie(other: string, spaces: string, v: string, rest: string)
    requires other != "" && other[0] != 'e' && ';' !in other
    requires forall i :: 0 <= i < |spaces| ==> IsSpace(spaces[i])
    requires v != "" && ';' !in v && (rest == "" || rest[0] == ';')
    ensures GetTokenFromCookie(Some((other + ";") + spaces + (Prefix() + v + rest))) == Some(v)
  {
    var head, tail := other + ";", Prefix() + v + rest;
    var s := head + spaces + tail;
    var p := |other|;
    forall i | 0 <= i < p
      ensures s[i] != ';'
    {
      assert s[i] == head[i] == other[i];
    }
    assert !OccursAt(s, Prefix(), 0) by {
      assert s[0] == other[0];
    }
    AfterOtherParts(head, spaces, tail, v, rest);
    FirstAtSemicolon(s, p, |head| + |spaces|, v);
  }

  /** With no match before the first `;`, the search stops at the token after it. */
  lemma {:induction false} FirstAtSemicolon(s: string, p: nat, k: nat, v: string)
    requires 0 < p < k < |s| && s[p] == ';' && !IsSpace(s[k])
    requires forall i :: 0 <= i < p ==> s[i] != ';'
    requires !OccursAt(s, Prefix(), 0)
    requires forall i :: p < i < k ==> IsSpace(s[i])
    requires TokenAt(s, k) == Some(v)
    ensures FirstMatch(s) == Some(v)
  {
    NoMatchBeforeSemicolon(s, p);
    LeftmostSkips(Matcher(s), 0, p, |s|);
    MatchAtSemicolon(s, p, k, v);
    assert Matcher(s)(p) == Some(v);
  }

  /** A cookie whose name only ends in `erdai_session` is not the session cookie. */
  lemma {:induction false} LongerNameIgnored()
    ensures GetTokenFromCookie(Some("xerdai_session=tok")) == None
  {
    var s := "xerdai_session=tok";
    assert !OccursAt(s, Prefix(), 0) by {
      assert s[0] != Prefix()[0];
    }
    forall p | 0 < p < |s|
      ensures s[p] != ';'
    {
    }
    assert forall p: nat :: p <= |s| ==> MatchAt(s, p).None?;
  }
}
