/** Matching a term on word boundaries: containsWord of
    cmd/terva-ste-lint/rules.go. */
module Words {

  predicate IsWordByte(c: char) {
    c == '_' || c == '-' || 'a' <= c <= 'z' || 'A' <= c <= 'Z' || '0' <= c <= '9'
  }

  predicate OccursAt(s: string, term: string, j: nat) {
    j + |term| <= |s| && s[j..j + |term|] == term
  }

  /** The term stands at j with no word byte on either side. */
  predicate WordAt(s: string, term: string, j: nat) {
    OccursAt(s, term, j) && (j == 0 || !IsWordByte(s[j - 1])) &&
    (j + |term| == |s| || !IsWordByte(s[j + |term|]))
  }

  /** strings.Index of s[i:], as a place in s, or -1. */
  method Index(s: string, term: string, i: nat) returns (j: int)
    requires i <= |s|
    ensures j >= 0 ==> i <= j && OccursAt(s, term, j) && forall k: nat | i <= k < j :: !OccursAt(s, term, k)
    ensures j < 0 ==> forall k: nat | i <= k :: !OccursAt(s, term, k)
  {
    var k := i;
    while k + |term| <= |s|
      invariant i <= k <= |s| + 1
      invariant forall l: nat | i <= l < k :: !OccursAt(s, term, l)
      decreases |s| + 1 - k
    {
      if s[k..k + |term|] == term {
        return k;
      }
      k := k + 1;
    }
    return -1;
  }

  /** It looks at every place, save that the empty term is not looked for past
      the last byte. */
  method ContainsWord(s: string, term: string) returns (found: bool)
    ensures found <==> exists j: nat :: WordAt(s, term, j) && (j == 0 || j < |s|)
  {
    var i := 0;
    while true
      invariant i < |s| || i == 0
      invariant forall k: nat | k < i :: !WordAt(s, term, k)
      decreases |s| - i
    {
      var j := Index(s, term, i);
      if j < 0 {
        return false;
      }
      var end := j + |term|;
      if (j == 0 || !IsWordByte(s[j - 1])) && (end == |s| || !IsWordByte(s[end])) {
        assert WordAt(s, term, j);
        if j == |s| && j > 0 {
          assert i < j && OccursAt(s, term, i);
        }
        return true;
      }
      i := j + 1;
      if i >= |s| {
        return false;
      }
    }
  }
}
