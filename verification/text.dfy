// What several modules use; and C strings, without their terminator, and the searches made on them.

module Wrappers {
  datatype Option<+T> = None | Some(value: T)

  lemma SomeElement<T>(s: set<T>) returns (x: T)
    requires s != {}
    ensures x in s
  {
    if forall y :: y !in s {
      assert false;
    }
    x :| x in s;
  }
}

module Text {
  import opened Wrappers

  predicate OccursAt(hay: string, needle: string, k: nat) {
    k + |needle| <= |hay| && hay[k..k + |needle|] == needle
  }

  // `strstr(hay, needle) != NULL`
  predicate Contains(hay: string, needle: string) {
    exists k: nat | k <= |hay| :: OccursAt(hay, needle, k)
  }

  // The capital and the small form of an ASCII letter.
  predicate CaseOf(capital: char, small: char) {
    'A' <= capital <= 'Z' && small as int == capital as int + 32
  }

  predicate SameLetter(a: char, b: char) { a == b || CaseOf(a, b) || CaseOf(b, a) }

  // The spellings differ at most in the case of ASCII letters.
  predicate SameSpelling(s: string, t: string) {
    |s| == |t| && forall k :: 0 <= k < |s| ==> SameLetter(s[k], t[k])
  }

  // `r` is where `needle` first occurs in `hay`.
  ghost predicate IsFound(hay: string, needle: string, r: Option<nat>) {
    match r
    case Some(k) => OccursAt(hay, needle, k) && forall j: nat :: j < k ==> !OccursAt(hay, needle, j)
    case None => forall j: nat :: !OccursAt(hay, needle, j)
  }

  // `strstr`, as an offset.
  function Find(hay: string, needle: string): (r: Option<nat>)
    ensures r.Some? ==> r.value + |needle| <= |hay|
  {
    FindFrom(hay, needle, 0)
  }

  function FindFrom(hay: string, needle: string, i: nat): (r: Option<nat>)
    requires i <= |hay|
    ensures r.Some? ==> r.value + |needle| <= |hay|
    decreases |hay| - i
  {
    if OccursAt(hay, needle, i) then Some(i)
    else if i == |hay| then None
    else FindFrom(hay, needle, i + 1)
  }

  lemma {:induction false} FindFromIsFound(hay: string, needle: string, i: nat)
    requires i <= |hay|
    requires forall j: nat :: j < i ==> !OccursAt(hay, needle, j)
    ensures IsFound(hay, needle, FindFrom(hay, needle, i))
    decreases |hay| - i
  {
    if !OccursAt(hay, needle, i) && i < |hay| {
      FindFromIsFound(hay, needle, i + 1);
    }
  }

  // `Find` gives the first occurrence, and the only answer that is one.
  lemma FindIsFound(hay: string, needle: string)
    ensures IsFound(hay, needle, Find(hay, needle))
    ensures Find(hay, needle).Some? <==> Contains(hay, needle)
  {
    FindFromIsFound(hay, needle, 0);
  }

  lemma FoundOnce(hay: string, needle: string, r: Option<nat>)
    requires IsFound(hay, needle, r)
    ensures Find(hay, needle) == r
  {
    FindIsFound(hay, needle);
  }

  // `snprintf` into a buffer of `size` bytes keeps what fits beside the terminator.
  function Truncate(s: string, size: nat): string
    requires size > 0
  {
    if |s| < size then s else s[..size - 1]
  }

  function Shift(r: Option<nat>, n: nat): Option<nat> {
    match r
    case None => None
    case Some(k) => Some(n + k)
  }

  lemma OccursBehind(a: string, b: string, needle: string, j: nat)
    ensures OccursAt(a + b, needle, |a| + j) <==> OccursAt(b, needle, j)
  {
    if j + |needle| <= |b| {
      assert (a + b)[|a| + j..|a| + j + |needle|] == b[j..j + |needle|];
    }
  }

  lemma OccursInside(a: string, b: string, needle: string, j: nat)
    requires j + |needle| <= |a|
    ensures OccursAt(a + b, needle, j) <==> OccursAt(a, needle, j)
  {
    assert (a + b)[j..j + |needle|] == a[j..j + |needle|];
  }

  lemma OccurrenceChars(hay: string, needle: string, j: nat)
    ensures OccursAt(hay, needle, j) ==>
              forall m :: 0 <= m < |needle| ==> needle[m] == hay[j + m] && needle[m] in hay
  {
    if OccursAt(hay, needle, j) {
      forall m | 0 <= m < |needle| ensures needle[m] == hay[j + m] {
        assert hay[j..j + |needle|][m] == hay[j + m];
      }
    }
  }

  lemma ForeignCharInside(hay: string, needle: string, j: nat, m: nat)
    requires j <= m < j + |needle| && m < |hay| && hay[m] !in needle
    ensures !OccursAt(hay, needle, j)
  {
    OccurrenceChars(hay, needle, j);
    assert needle[m - j] != hay[m];
  }

  // Where no occurrence starts before `b`, the search goes on in `b`.
  lemma FindBehind(a: string, b: string, needle: string)
    requires forall j: nat :: j < |a| ==> !OccursAt(a + b, needle, j)
    ensures Find(a + b, needle) == Shift(Find(b, needle), |a|)
  {
    var r := Find(b, needle);
    FindIsFound(b, needle);
    forall j: nat | j >= |a|
      ensures OccursAt(a + b, needle, j) <==> OccursAt(b, needle, j - |a|)
    {
      OccursBehind(a, b, needle, j - |a|);
    }
    FoundOnce(a + b, needle, Shift(r, |a|));
  }

  // Text that lacks the first character of the needle is passed over.
  lemma FindPastForeign(a: string, b: string, needle: string)
    requires needle != [] && needle[0] !in a
    ensures Find(a + b, needle) == Shift(Find(b, needle), |a|)
  {
    forall j: nat | j < |a| ensures !OccursAt(a + b, needle, j) {
      assert (a + b)[j] == a[j];
      OccurrenceChars(a + b, needle, j);
    }
    FindBehind(a, b, needle);
  }

  // So is a piece without the needle that ends in a character foreign to it.
  lemma FindPastPiece(a: string, d: char, b: string, needle: string)
    requires needle != [] && d !in needle && !Contains(a, needle)
    ensures Find(a + [d] + b, needle) == Shift(Find(b, needle), |a| + 1)
  {
    var t := a + [d];
    forall j: nat | j < |t| ensures !OccursAt(t + b, needle, j) {
      if j + |needle| <= |a| {
        OccursInside(a, [d] + b, needle, j);
        assert a + ([d] + b) == t + b;
      } else {
        assert (t + b)[|a|] == d;
        ForeignCharInside(t + b, needle, j, |a|);
      }
    }
    FindBehind(t, b, needle);
  }

  lemma FindHere(needle: string, b: string)
    ensures Find(needle + b, needle) == Some(0)
  {
    assert OccursAt(needle + b, needle, 0);
    FoundOnce(needle + b, needle, Some(0));
  }

  lemma FindChar(a: string, c: char, b: string)
    requires c !in a
    ensures Find(a + [c] + b, [c]) == Some(|a|)
  {
    FindPastForeign(a, [c] + b, [c]);
    FindHere([c], b);
    assert a + [c] + b == a + ([c] + b);
  }

  lemma FindNoChar(a: string, c: char)
    requires c !in a
    ensures Find(a, [c]) == None
  {
    forall j: nat ensures !OccursAt(a, [c], j) {
      OccurrenceChars(a, [c], j);
      assert [c][0] == c;
    }
    FoundOnce(a, [c], None);
  }

  lemma TooShortToContain(a: string, needle: string)
    requires |a| < |needle| || (|a| == |needle| && a != needle)
    ensures !Contains(a, needle)
  {
    forall j: nat | j <= |a| ensures !OccursAt(a, needle, j) {
      assert j == 0 && |needle| == |a| ==> a[j..j + |needle|] == a;
    }
  }

  lemma LacksFirstChar(a: string, needle: string)
    requires needle != [] && needle[0] !in a
    ensures !Contains(a, needle)
  {
    forall j: nat | j <= |a| ensures !OccursAt(a, needle, j) {
      OccurrenceChars(a, needle, j);
      assert needle[0] == needle[0 + 0];
    }
  }
}
