/** String helpers the pages rely on: `toLowerCase`/`toUpperCase` (restricted to
    ASCII letters) and `String.prototype.includes`. */
module AsciiText {

  predicate IsUpperLetter(c: char) { 'A' <= c <= 'Z' }

  predicate IsLowerLetter(c: char) { 'a' <= c <= 'z' }

  function LowerChar(c: char): char {
    if IsUpperLetter(c) then (c as int + 32) as char else c
  }

  function UpperChar(c: char): char {
    if IsLowerLetter(c) then (c as int - 32) as char else c
  }

  /** `s.toLowerCase()` on ASCII. */
  function Lower(s: string): (r: string)
    ensures |r| == |s|
    ensures forall i :: 0 <= i < |r| ==> !IsUpperLetter(r[i])
    ensures forall i :: 0 <= i < |r| ==> UpperChar(r[i]) == UpperChar(s[i])
  {
    seq(|s|, i requires 0 <= i < |s| => LowerChar(s[i]))
  }

  /** `s.toUpperCase()` on ASCII. */
  function Upper(s: string): (r: string)
    ensures |r| == |s|
    ensures forall i :: 0 <= i < |r| ==> !IsLowerLetter(r[i])
    ensures forall i :: 0 <= i < |r| ==> LowerChar(r[i]) == LowerChar(s[i])
  {
    seq(|s|, i requires 0 <= i < |s| => UpperChar(s[i]))
  }

  /** Lower-casing forgets exactly the case of the letters: two strings have the
      same lower-case form iff they agree up to letter case. */
  lemma LowerOfUpper(s: string)
    ensures Lower(Upper(s)) == Lower(s)
  {
    var a, b := Lower(Upper(s)), Lower(s);
    assert |a| == |b|;
    forall i | 0 <= i < |a|
      ensures a[i] == b[i]
    {
      assert a[i] == LowerChar(Upper(s)[i]);
    }
  }

  lemma LowerIdempotent(s: string)
    ensures Lower(Lower(s)) == Lower(s)
  {
    var a, b := Lower(Lower(s)), Lower(s);
    forall i | 0 <= i < |a|
      ensures a[i] == b[i]
    {
      assert !IsUpperLetter(b[i]);
    }
  }

  /** Text without capitals is its own lower case. */
  lemma LowerOfLowercase(s: string)
    requires forall i :: 0 <= i < |s| ==> !IsUpperLetter(s[i])
    ensures Lower(s) == s
  {
    var a := Lower(s);
    forall i | 0 <= i < |s|
      ensures a[i] == s[i]
    {
      assert UpperChar(a[i]) == UpperChar(s[i]);
    }
  }

  /** `needle` occurs in `hay` starting at index `i`. */
  predicate OccursAt(hay: string, needle: string, i: int) {
    0 <= i && i + |needle| <= |hay| && hay[i..i + |needle|] == needle
  }

  lemma OccursShift(hay: string, needle: string, i: int)
    requires |hay| > 0 && 0 <= i
    ensures OccursAt(hay, needle, i + 1) <==> OccursAt(hay[1..], needle, i)
  {
    if 0 <= i && i + 1 + |needle| <= |hay| {
      var a, b := hay[i + 1..i + 1 + |needle|], hay[1..][i..i + |needle|];
      assert |a| == |b|;
      forall k | 0 <= k < |a|
        ensures a[k] == b[k]
      {
        assert a[k] == hay[i + 1 + k];
        assert b[k] == hay[1..][i + k];
      }
      assert a == b;
    }
  }

  /** `hay.includes(needle)`: scans from the left. */
  function Contains(hay: string, needle: string): (r: bool)
    ensures r <==> exists i :: OccursAt(hay, needle, i)
    decreases |hay|
  {
    if |needle| <= |hay| && hay[..|needle|] == needle then
      assert OccursAt(hay, needle, 0);
      true
    else if |hay| == 0 then
      false
    else
      var r := Contains(hay[1..], needle);
      assert r ==> exists i :: OccursAt(hay, needle, i) by {
        if r {
          var i :| OccursAt(hay[1..], needle, i);
          OccursShift(hay, needle, i);
        }
      }
      assert (exists i :: OccursAt(hay, needle, i)) ==> r by {
        if exists i :: OccursAt(hay, needle, i) {
          var i :| OccursAt(hay, needle, i);
          assert i != 0;
          OccursShift(hay, needle, i - 1);
        }
      }
      r
  }

  /** The pages' search test:
      `field.toLowerCase().includes(term.toLowerCase())`. */
  predicate Includes(field: string, term: string) {
    Contains(Lower(field), Lower(term))
  }

  /** The empty search term matches every field. */
  lemma EmptyTermMatches(field: string)
    ensures Includes(field, "")
  {
    assert OccursAt(Lower(field), Lower(""), 0);
  }

  /** The search is insensitive to the letter case of both the field and the
      term. */
  lemma IncludesIgnoresCase(field: string, term: string)
    ensures Includes(Upper(field), term) == Includes(field, term)
    ensures Includes(field, Upper(term)) == Includes(field, term)
    ensures Includes(field, Lower(term)) == Includes(field, term)
  {
    LowerOfUpper(field);
    LowerOfUpper(term);
    LowerIdempotent(term);
  }

  /** A field that contains the term in its exact case matches it. */
  lemma IncludesExactOccurrence(field: string, term: string, i: int)
    requires OccursAt(field, term, i)
    ensures Includes(field, term)
  {
    var lf, lt := Lower(field), Lower(term);
    assert lf[i..i + |lt|] == lt by {
      forall k | 0 <= k < |lt|
        ensures lf[i + k] == lt[k]
      {
        assert field[i + k] == term[k];
      }
    }
    assert OccursAt(lf, lt, i);
  }
}
