/**
 * Text helpers behind the catalog search: lower-casing (`String.toLowerCase`,
 * restricted to ASCII) and substring search (`String.contains`).
 */
module Text {

  predicate IsUpper(c: char) { 'A' <= c <= 'Z' }

  /** ASCII lower-casing of one character; every other character is kept. */
  function LowerChar(c: char): (r: char)
    ensures !IsUpper(r)
    ensures IsUpper(c) ==> r as int - c as int == 'a' as int - 'A' as int
    ensures !IsUpper(c) ==> r == c
  {
    if IsUpper(c) then (c as int - 'A' as int + 'a' as int) as char else c
  }

  /** `s.toLowerCase()` over ASCII: same length, each character lowered, no upper-case letter left. */
  function ToLower(s: string): (r: string)
    ensures |r| == |s|
    ensures forall i :: 0 <= i < |s| ==> r[i] == LowerChar(s[i])
  {
    seq(|s|, i requires 0 <= i < |s| => LowerChar(s[i]))
  }

  /** Lower-casing twice is lower-casing once. */
  lemma ToLowerIdempotent(s: string)
    ensures ToLower(ToLower(s)) == ToLower(s)
  {
  }

  predicate StartsWith(s: string, prefix: string) {
    |prefix| <= |s| && s[..|prefix|] == prefix
  }

  /** `s.contains(t)`: `t` occurs in `s` starting at some position. */
  predicate Contains(s: string, t: string)
    decreases |s|
  {
    StartsWith(s, t) || (|s| > 0 && Contains(s[1..], t))
  }

  /** `t` occurs in `s` at position `i`. */
  predicate OccursAt(s: string, t: string, i: int) {
    0 <= i && i + |t| <= |s| && s[i..i + |t|] == t
  }

  /** `Contains` agrees with the positional definition of an occurrence. */
  lemma {:induction false} ContainsIffOccurrence(s: string, t: string)
    ensures Contains(s, t) <==> exists i :: OccursAt(s, t, i)
  {
    if Contains(s, t) {
      if StartsWith(s, t) {
        assert OccursAt(s, t, 0);
      } else {
        ContainsIffOccurrence(s[1..], t);
        var i :| OccursAt(s[1..], t, i);
        assert s[1..][i..i + |t|] == s[i + 1..i + 1 + |t|];
        assert OccursAt(s, t, i + 1);
      }
    }
    if exists i :: OccursAt(s, t, i) {
      var i :| OccursAt(s, t, i);
      if i == 0 {
        assert StartsWith(s, t);
      } else {
        assert s[1..][i - 1..i - 1 + |t|] == s[i..i + |t|];
        assert OccursAt(s[1..], t, i - 1);
        ContainsIffOccurrence(s[1..], t);
      }
    }
  }

  /** `t` occurs in `s` at position `i` when ASCII case is ignored. */
  predicate OccursIgnoringCaseAt(s: string, t: string, i: int) {
    0 <= i && i + |t| <= |s| && ToLower(s[i..i + |t|]) == ToLower(t)
  }

  /** After lower-casing both sides, `contains` finds exactly the occurrences that ignore case. */
  lemma ContainsIgnoringCase(s: string, t: string)
    ensures Contains(ToLower(s), ToLower(t)) <==> exists i :: OccursIgnoringCaseAt(s, t, i)
  {
    ContainsIffOccurrence(ToLower(s), ToLower(t));
    forall i
      ensures OccursAt(ToLower(s), ToLower(t), i) <==> OccursIgnoringCaseAt(s, t, i)
    {
      if 0 <= i && i + |t| <= |s| {
        assert ToLower(s)[i..i + |t|] == ToLower(s[i..i + |t|]);
      }
    }
  }

  /** The empty term occurs in every string. */
  lemma ContainsEmpty(s: string)
    ensures Contains(s, "")
  {
    assert StartsWith(s, "");
  }
}
