/**
 * Substring containment on strings, the `needle in haystack` test that the
 * registry interpreter applies to the lowercased text.
 */
module Text {

  /** `text` begins with `pat`. */
  predicate StartsWith(text: string, pat: string)
  {
    |pat| <= |text| && text[..|pat|] == pat
  }

  /** `pat` occurs in `text` starting at index `i`: the reference definition of containment. */
  predicate OccursAt(text: string, pat: string, i: int)
  {
    0 <= i <= |text| - |pat| && text[i..i + |pat|] == pat
  }

  /**
   * `pat` occurs somewhere in `text`, found by trying each start position in turn.
   * As with Python's `in` on strings, the empty pattern occurs in every text.
   */
  predicate Contains(text: string, pat: string)
    decreases |text|
  {
    StartsWith(text, pat) || (|text| > 0 && Contains(text[1..], pat))
  }

  /** The scan agrees with the reference definition, in both directions. */
  lemma {:induction false} ContainsIffOccurs(text: string, pat: string)
    ensures Contains(text, pat) <==> exists i :: OccursAt(text, pat, i)
    decreases |text|
  {
    if StartsWith(text, pat) {
      assert OccursAt(text, pat, 0);
    } else if |text| == 0 {
    } else {
      var tail := text[1..];
      ContainsIffOccurs(tail, pat);
      if Contains(tail, pat) {
        var j :| OccursAt(tail, pat, j);
        assert tail[j..j + |pat|] == text[j + 1..j + 1 + |pat|];
        assert OccursAt(text, pat, j + 1);
      }
      if i :| OccursAt(text, pat, i) {
        assert tail[i - 1..i - 1 + |pat|] == text[i..i + |pat|];
        assert OccursAt(tail, pat, i - 1);
      }
    }
  }

  /** The empty pattern is contained in every text. */
  lemma EmptyIsContained(text: string)
    ensures Contains(text, "")
  {
    assert StartsWith(text, "");
  }

  /** Containment is transitive: a text holding `u` holds everything `u` holds. */
  lemma {:induction false} ContainsTransitive(t: string, u: string, v: string)
    requires Contains(t, u) && Contains(u, v)
    ensures Contains(t, v)
  {
    ContainsIffOccurs(t, u);
    ContainsIffOccurs(u, v);
    var i :| OccursAt(t, u, i);
    var j :| OccursAt(u, v, j);
    forall k | 0 <= k < |v|
      ensures t[i + j + k] == v[k]
    {
      assert u[j + k] == v[k];
      assert t[i + (j + k)] == u[j + k];
    }
    assert t[i + j..i + j + |v|] == v;
    assert OccursAt(t, v, i + j);
    ContainsIffOccurs(t, v);
  }
}
