/** The parts of the C string library that more than one program uses. */
module CStrings {

  /** `strstr(s, sub) != NULL`. */
  predicate Contains(s: string, sub: string) {
    sub <= s || (s != "" && Contains(s[1..], sub))
  }

  /** `sub` stands somewhere in `s`. */
  ghost predicate Occurs(sub: string, s: string) {
    exists i :: OccursAt(sub, s, i)
  }

  predicate OccursAt(sub: string, s: string, i: int) {
    0 <= i <= |s| - |sub| && s[i..i + |sub|] == sub
  }

  /** The search finds a string exactly if it stands somewhere. */
  lemma {:induction false} ContainsIff(s: string, sub: string)
    ensures Contains(s, sub) <==> Occurs(sub, s)
    decreases |s|
  {
    assert sub <= s <==> OccursAt(sub, s, 0);
    if s != "" {
      ContainsIff(s[1..], sub);
      forall i | 0 <= i ensures OccursAt(sub, s[1..], i) <==> OccursAt(sub, s, i + 1) {
        if i + |sub| < |s| { assert s[1..][i..i + |sub|] == s[i + 1..i + 1 + |sub|]; }
      }
      if i :| OccursAt(sub, s, i) && i > 0 { assert OccursAt(sub, s[1..], i - 1); }
      if i :| OccursAt(sub, s[1..], i) { assert OccursAt(sub, s, i + 1); }
    }
  }
}
