/** The PHP string built-ins the verifier relies on, over strings whose characters stand
    for single bytes (PHP's strlen, substr and str_split count bytes). */
module PhpStrings {

  /** PHP `empty()` applied to a string: true for "" and for "0". */
  predicate Empty(s: string): (b: bool)
    ensures s == [] ==> b
    ensures b ==> |s| <= 1
    ensures |s| == 1 ==> (b <==> s[0] == '0')
  {
    s == "" || s == "0"
  }

  /** True when every character of `s` is `c`. */
  ghost predicate AllChar(s: string, c: char) {
    forall i :: 0 <= i < |s| ==> s[i] == c
  }

  // ---------------------------------------------------------------------------
  // strtolower (ASCII)

  predicate IsUpper(c: char) {
    'A' <= c <= 'Z'
  }

  /** ASCII lower-casing of one byte; every other byte is left alone. */
  function ToLowerChar(c: char): (d: char)
    ensures !IsUpper(d)
    ensures IsUpper(c) ==> d as int == c as int + 32
    ensures !IsUpper(c) ==> d == c
  {
    if IsUpper(c) then (c as int + 32) as char else c
  }

  /** PHP `strtolower`, modelled as ASCII lower-casing byte by byte. */
  function StrToLower(s: string): (r: string)
    ensures |r| == |s|
    ensures forall i :: 0 <= i < |s| ==> r[i] == ToLowerChar(s[i])
  {
    if s == [] then [] else [ToLowerChar(s[0])] + StrToLower(s[1..])
  }

  /** Lower-casing keeps a string PHP-empty exactly when it was PHP-empty. */
  lemma StrToLowerEmpty(s: string)
    ensures Empty(StrToLower(s)) <==> Empty(s)
  {
  }

  // ---------------------------------------------------------------------------
  // str_contains

  predicate StartsWith(s: string, prefix: string) {
    |prefix| <= |s| && s[..|prefix|] == prefix
  }

  /** PHP 8 `str_contains`: is `needle` a substring of `haystack` (the empty needle always is)? */
  predicate StrContains(haystack: string, needle: string): (b: bool)
    ensures b ==> |needle| <= |haystack|
    ensures StartsWith(haystack, needle) ==> b
    decreases |haystack|
  {
    StartsWith(haystack, needle) || (|haystack| > 0 && StrContains(haystack[1..], needle))
  }

  /** `needle` occurs in `haystack` starting at index `i`. */
  ghost predicate OccursAt(haystack: string, needle: string, i: int) {
    0 <= i && i + |needle| <= |haystack| && haystack[i..i + |needle|] == needle
  }

  /** The recursive search agrees with the positional meaning of substring containment. */
  lemma {:induction false} StrContainsIff(haystack: string, needle: string)
    ensures StrContains(haystack, needle) <==> exists i :: OccursAt(haystack, needle, i)
    decreases |haystack|
  {
    if |haystack| > 0 {
      StrContainsIff(haystack[1..], needle);
    }
    if StrContains(haystack, needle) {
      if StartsWith(haystack, needle) {
        assert OccursAt(haystack, needle, 0);
      } else {
        var j :| OccursAt(haystack[1..], needle, j);
        assert haystack[j + 1..j + 1 + |needle|] == haystack[1..][j..j + |needle|];
        assert OccursAt(haystack, needle, j + 1);
      }
    }
    if exists i :: OccursAt(haystack, needle, i) {
      var i :| OccursAt(haystack, needle, i);
      if i > 0 {
        assert haystack[1..][i - 1..i - 1 + |needle|] == haystack[i..i + |needle|];
        assert OccursAt(haystack[1..], needle, i - 1);
      }
    }
  }

  // ---------------------------------------------------------------------------
  // trim with a one-character character list

  /** The length of the run of `c` that `s` starts with. */
  function LeadingRun(s: string, c: char): (n: nat)
    ensures n <= |s|
    ensures forall i :: 0 <= i < n ==> s[i] == c
    ensures n < |s| ==> s[n] != c
  {
    if |s| > 0 && s[0] == c then 1 + LeadingRun(s[1..], c) else 0
  }

  /** The length of the run of `c` that `s` ends with. */
  function TrailingRun(s: string, c: char): (n: nat)
    ensures n <= |s|
    ensures forall i :: |s| - n <= i < |s| ==> s[i] == c
    ensures n < |s| ==> s[|s| - 1 - n] != c
  {
    if |s| > 0 && s[|s| - 1] == c then 1 + TrailingRun(s[..|s| - 1], c) else 0
  }

  /** `trim(s, c)`: drops the leading and the trailing run of `c`. */
  function Trim(s: string, c: char): (r: string)
    ensures |r| <= |s|
    ensures r == [] || (r[0] != c && r[|r| - 1] != c)
    ensures c !in s ==> r == s
  {
    var t := s[LeadingRun(s, c)..];
    t[..|t| - TrailingRun(t, c)]
  }

  /** What `trim` keeps: the middle part of `s` that is left once only `c` is cut off on
      either side, and that neither starts nor ends with `c`. */
  lemma TrimSpec(s: string, c: char)
    ensures var r, lo := Trim(s, c), LeadingRun(s, c);
      lo + |r| <= |s| && r == s[lo..lo + |r|]
      && AllChar(s[..lo], c) && AllChar(s[lo + |r|..], c)
      && (r == [] || (r[0] != c && r[|r| - 1] != c))
  {
  }

  // ---------------------------------------------------------------------------
  // explode / implode with a one-character delimiter

  /** PHP `explode(sep, s)`: the pieces of `s` between occurrences of `sep`
      (always at least one piece; explode on "" gives [""]). */
  function Explode(sep: char, s: string): (parts: seq<string>)
    ensures |parts| >= 1
    ensures forall k :: 0 <= k < |parts| ==> sep !in parts[k]
    ensures |parts| >= 2 <==> sep in s
    decreases |s|
  {
    if s == [] then [""]
    else
      var rest := Explode(sep, s[1..]);
      if s[0] == sep then [""] + rest
      else [[s[0]] + rest[0]] + rest[1..]
  }

  /** PHP `implode(sep, parts)` for a non-empty list of pieces. */
  function Implode(sep: char, parts: seq<string>): (r: string)
    requires |parts| >= 1
    ensures StartsWith(r, parts[0])
    ensures |parts| >= 2 ==> sep in r
    ensures |r| >= |parts| - 1
  {
    if |parts| == 1 then parts[0] else parts[0] + [sep] + Implode(sep, parts[1..])
  }

  /** Joining the pieces back with the delimiter gives the original string. */
  lemma {:induction false} ImplodeExplode(sep: char, s: string)
    ensures Implode(sep, Explode(sep, s)) == s
    decreases |s|
  {
    if s != [] {
      var rest := Explode(sep, s[1..]);
      ImplodeExplode(sep, s[1..]);
      if s[0] == sep {
        assert Explode(sep, s)[1..] == rest;
      } else {
        var parts := Explode(sep, s);
        assert parts[1..] == rest[1..];
        if |rest| == 1 {
          assert Implode(sep, parts) == [s[0]] + rest[0];
        } else {
          assert Implode(sep, rest) == rest[0] + [sep] + Implode(sep, rest[1..]);
        }
        assert s == [s[0]] + s[1..];
      }
    }
  }

  /** Splitting a join of delimiter-free pieces gives back those pieces. */
  lemma {:induction false} ExplodeImplode(sep: char, parts: seq<string>)
    requires |parts| >= 1
    requires forall k :: 0 <= k < |parts| ==> sep !in parts[k]
    ensures Explode(sep, Implode(sep, parts)) == parts
    decreases |parts|, |parts[0]|
  {
    var head := parts[0];
    if head == [] {
      if |parts| > 1 {
        ExplodeImplode(sep, parts[1..]);
        assert Implode(sep, parts) == [sep] + Implode(sep, parts[1..]);
        assert ([sep] + Implode(sep, parts[1..]))[1..] == Implode(sep, parts[1..]);
        assert parts == [""] + parts[1..];
      }
    } else {
      var shorter := [head[1..]] + parts[1..];
      assert sep !in shorter[0];
      forall k | 0 <= k < |shorter| ensures sep !in shorter[k] {
        if k > 0 { assert shorter[k] == parts[k]; }
      }
      ExplodeImplode(sep, shorter);
      var s := Implode(sep, parts);
      ImplodeCons(sep, parts);
      assert s == [head[0]] + Implode(sep, shorter);
      assert s[1..] == Implode(sep, shorter);
      assert s[0] == head[0] != sep;
      assert [head[0]] + head[1..] == head;
      assert [[head[0]] + head[1..]] + parts[1..] == parts;
    }
  }

  /** Implode peels one character off the first piece. */
  lemma ImplodeCons(sep: char, parts: seq<string>)
    requires |parts| >= 1 && parts[0] != []
    ensures Implode(sep, parts) == [parts[0][0]] + Implode(sep, [parts[0][1..]] + parts[1..])
  {
  }

  // ---------------------------------------------------------------------------
  // substr / str_split / array_count_values

  /** `substr(s, 0, n)` for n >= 0. */
  function Prefix(s: string, n: nat): (r: string)
    ensures |r| == if n <= |s| then n else |s|
    ensures StartsWith(s, r)
  {
    if n <= |s| then s[..n] else s
  }

  /** The keys of `array_count_values(str_split(s))`: the distinct characters of `s`. */
  function DistinctChars(s: string): (d: set<char>)
    ensures forall x :: x in d <==> x in s
  {
    set i | 0 <= i < |s| :: s[i]
  }

  /** A string has exactly one distinct character exactly when it is non-empty and every
      character equals the first. */
  lemma {:induction false} OneDistinctIff(s: string)
    ensures |DistinctChars(s)| == 1 <==> (|s| > 0 && forall i :: 0 <= i < |s| ==> s[i] == s[0])
  {
    var d := DistinctChars(s);
    if |s| > 0 && forall i :: 0 <= i < |s| ==> s[i] == s[0] {
      assert d == {s[0]};
    }
    if |d| == 1 {
      forall i | 0 <= i < |s| ensures s[i] == s[0] {
        assert s[0] in d && s[i] in d;
        if s[i] != s[0] {
          assert {s[0], s[i]} <= d;
          assert |{s[0], s[i]}| == 2;
          SubsetCard({s[0], s[i]}, d);
        }
      }
    }
  }

  lemma SubsetCard(a: set<char>, b: set<char>)
    requires a <= b
    ensures |a| <= |b|
  {
    assert b == a + (b - a);
  }
}
