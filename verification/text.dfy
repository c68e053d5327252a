/**
 The two string operations the title search uses: `toLowerCase` and
 `includes`. Lower-casing is modelled on ASCII letters only.
 */
module Text {

  predicate IsUpper(c: char) {
    'A' <= c <= 'Z'
  }

  /** `toLowerCase` on one character, ASCII letters only. */
  function Lower(c: char): (r: char)
    ensures !IsUpper(r)
    ensures IsUpper(c) ==> r as int == c as int + ('a' as int - 'A' as int)
    ensures !IsUpper(c) ==> r == c
  {
    if IsUpper(c) then (c as int + ('a' as int - 'A' as int)) as char else c
  }

  function LowerStr(s: string): (r: string)
    ensures |r| == |s|
    ensures forall i :: 0 <= i < |s| ==> r[i] == Lower(s[i])
  {
    seq(|s|, i requires 0 <= i < |s| => Lower(s[i]))
  }

  /** Lower-casing a lower-cased string changes nothing. */
  lemma LowerStrIdempotent(s: string)
    ensures LowerStr(LowerStr(s)) == LowerStr(s)
  {
  }

  /** `needle` occurs in `hay` starting at position `i`. */
  predicate OccursAt(hay: string, needle: string, i: int) {
    0 <= i && i + |needle| <= |hay| && hay[i..i + |needle|] == needle
  }

  /** `String.prototype.includes`: try every start position from the left. */
  function Includes(hay: string, needle: string): (r: bool)
    ensures r <==> exists i :: OccursAt(hay, needle, i)
    decreases |hay|
  {
    if needle <= hay then
      assert OccursAt(hay, needle, 0);
      true
    else if hay == [] then
      assert forall i :: !OccursAt(hay, needle, i);
      false
    else
      var r := Includes(hay[1..], needle);
      assert forall i :: OccursAt(hay[1..], needle, i) <==> OccursAt(hay, needle, i + 1);
      assert forall i :: OccursAt(hay, needle, i) && i > 0 ==> OccursAt(hay[1..], needle, i - 1);
      r
  }

  lemma OccurrenceStartsWithFirstChar(hay: string, needle: string, i: int)
    requires |needle| > 0 && OccursAt(hay, needle, i)
    ensures hay[i] == needle[0]
  {
    assert hay[i..i + |needle|][0] == hay[i];
  }

  /** A needle whose first character never appears in the haystack does not occur in it. */
  lemma FirstCharAbsent(hay: string, needle: string)
    requires |needle| > 0
    requires forall k :: 0 <= k < |hay| ==> hay[k] != needle[0]
    ensures !Includes(hay, needle)
  {
    forall i
      ensures !OccursAt(hay, needle, i)
    {
      if OccursAt(hay, needle, i) {
        OccurrenceStartsWithFirstChar(hay, needle, i);
      }
    }
  }
}
