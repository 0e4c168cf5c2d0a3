/**
 * The two small helpers of internal/helper/helper.go, and `strings.Contains`,
 * which `CheckEmptyFields` uses on `json` tags.
 */
module Helper {

  /** `SliceHasElement` (internal/helper/helper.go:241-249): whether `needle`
      occurs in `haystack`. Like the Go loop, it looks at every element and
      does not stop at the first match. */
  method SliceHasElement(haystack: seq<string>, needle: string) returns (found: bool)
    ensures found <==> needle in haystack
  {
    found := false;
    for i := 0 to |haystack|
      invariant found <==> needle in haystack[..i]
    {
      assert haystack[..i + 1] == haystack[..i] + [haystack[i]];
      if haystack[i] == needle {
        found := true;
      }
    }
    assert haystack[..|haystack|] == haystack;
  }

  /** snapd's `quantity.Size`: an unsigned 64-bit byte count. */
  newtype Size = x: int | 0 <= x < 0x1_0000_0000_0000_0000

  /** `SafeQuantitySubtraction` (internal/helper/helper.go:267-272): `orig`
      minus `subtract`, floored at zero instead of wrapping around. */
  function SafeQuantitySubtraction(orig: Size, subtract: Size): (r: Size)
    // never more than what there was
    ensures r <= orig
    // exact whenever the true difference is representable
    ensures subtract <= orig ==> r as int + subtract as int == orig as int
    // zero, not a wrapped-around huge value, when it is not
    ensures subtract > orig ==> r == 0
  {
    if subtract > orig then 0 else orig - subtract
  }

  /** Taking two amounts away one after the other is taking their sum away
      once: the floor at zero loses nothing along the way. */
  lemma SafeQuantitySubtractionTwice(orig: Size, a: Size, b: Size)
    requires a as int + b as int < 0x1_0000_0000_0000_0000
    ensures SafeQuantitySubtraction(SafeQuantitySubtraction(orig, a), b) == SafeQuantitySubtraction(orig, a + b)
  {
  }

  /** `sub` occurs in `s` starting at index `i`. */
  predicate OccursAt(s: string, sub: string, i: nat)
  {
    i + |sub| <= |s| && s[i..i + |sub|] == sub
  }

  /** `strings.Contains(s, sub)`: whether `sub` occurs in `s`, searched from
      the front. */
  function Contains(s: string, sub: string): (b: bool)
    ensures b <==> exists i: nat :: OccursAt(s, sub, i)
    decreases |s|
  {
    if |sub| > |s| then
      false
    else if s[..|sub|] == sub then
      assert OccursAt(s, sub, 0);
      true
    else
      var b := Contains(s[1..], sub);
      assert b ==> exists i: nat :: OccursAt(s, sub, i) by {
        if b {
          var i: nat :| OccursAt(s[1..], sub, i);
          assert s[1..][i..i + |sub|] == s[i + 1..i + 1 + |sub|];
          assert OccursAt(s, sub, i + 1);
        }
      }
      assert (exists i: nat :: OccursAt(s, sub, i)) ==> b by {
        if i: nat :| OccursAt(s, sub, i) {
          assert i != 0;
          assert s[1..][i - 1..i - 1 + |sub|] == s[i..i + |sub|];
          assert OccursAt(s[1..], sub, i - 1);
        }
      }
      b
  }
}
