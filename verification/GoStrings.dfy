/** strings.TrimSpace on ASCII text. */
module GoStrings {
  import opened CStrings

  const SPACES: string := " \t\n\r\U{0B}\U{0C}"

  function TrimSpace(s: string): string { TrimSet(s, SPACES) }

  /** The white space of ASCII. */
  predicate IsWhite(c: char) {
    c == ' ' || c == '\t' || c == '\n' || c == '\r' || c == '\U{0B}' || c == '\U{0C}'
  }

  lemma SpacesAre(c: char)
    ensures c in SPACES <==> IsWhite(c)
  {
    assert SPACES[0] == ' ' && SPACES[1] == '\t' && SPACES[2] == '\n';
    assert SPACES[3] == '\r' && SPACES[4] == '\U{0B}' && SPACES[5] == '\U{0C}';
  }

  /** TrimSpace drops the white space at both ends, and nothing else. */
  lemma TrimSpaceDropsWhite(s: string) returns (i: nat, j: nat)
    ensures i <= j <= |s| && TrimSpace(s) == s[i..j]
    ensures forall k :: (0 <= k < i || j <= k < |s|) ==> IsWhite(s[k])
    ensures i < j ==> !IsWhite(s[i]) && !IsWhite(s[j - 1])
  {
    forall c ensures c in SPACES <==> IsWhite(c) {
      SpacesAre(c);
    }
    i := TrimLeftDrops(s, SPACES);
    var n := TrimRightDrops(s[i..], SPACES);
    j := i + n;
    assert forall k :: j <= k < |s| ==> s[k] == s[i..][k - i];
    assert s[i..][..n] == s[i..j];
  }
}
