/** String helpers of the in-memory repository: `containsFold` (case-insensitive substring search)
    built from lower-casing and a substring search. Case folding is modelled on ASCII letters. */
module Text {

  /** Lower-cases one character; only 'A'..'Z' are folded. */
  function LowerChar(c: char): (r: char)
    ensures 'A' <= c <= 'Z' ==> r as int == c as int + 32
    ensures !('A' <= c <= 'Z') ==> r == c
  {
    if 'A' <= c <= 'Z' then (c as int + 32) as char else c
  }

  /** Lower-casing, the model of `strings.ToLower`: no upper-case letter is left, each upper-case
      letter becomes its lower-case partner in place, and every other character stays as it was. */
  function Lower(s: string): (r: string)
    ensures |r| == |s|
    ensures forall i :: 0 <= i < |r| ==> !('A' <= r[i] <= 'Z')
    ensures forall i :: 0 <= i < |s| && 'A' <= s[i] <= 'Z' ==> r[i] as int == s[i] as int + 32
    ensures forall i :: 0 <= i < |s| && !('A' <= s[i] <= 'Z') ==> r[i] == s[i]
  {
    seq(|s|, i requires 0 <= i < |s| => LowerChar(s[i]))
  }

  /** True when `sub` occurs in `s` at position `at`. */
  predicate OccursAt(s: string, sub: string, at: int)
  {
    0 <= at && at + |sub| <= |s| && s[at..at + |sub|] == sub
  }

  /** `strings.Contains`: a left-to-right search for `sub` in `s`. */
  function Contains(s: string, sub: string): bool
    decreases |s|
  {
    if sub <= s then true
    else if |s| == 0 then false
    else Contains(s[1..], sub)
  }

  /** Every occurrence is found by the search. */
  lemma {:induction false} OccursImpliesContains(s: string, sub: string, at: int)
    requires OccursAt(s, sub, at)
    ensures Contains(s, sub)
    decreases at
  {
    if at == 0 {
      assert sub == s[..|sub|];
    } else if !(sub <= s) {
      assert s[1..][at - 1..at - 1 + |sub|] == s[at..at + |sub|];
      OccursImpliesContains(s[1..], sub, at - 1);
    }
  }

  /** A successful search has found an occurrence. */
  lemma {:induction false} ContainsImpliesOccurs(s: string, sub: string) returns (at: int)
    requires Contains(s, sub)
    ensures OccursAt(s, sub, at)
    decreases |s|
  {
    if sub <= s {
      at := 0;
    } else {
      var at' := ContainsImpliesOccurs(s[1..], sub);
      assert s[at' + 1..at' + 1 + |sub|] == s[1..][at'..at' + |sub|];
      at := at' + 1;
    }
  }

  /** The search agrees with the positional definition of an occurrence, in both directions. */
  lemma ContainsIffOccurs(s: string, sub: string)
    ensures Contains(s, sub) <==> exists at :: OccursAt(s, sub, at)
  {
    if Contains(s, sub) {
      var at := ContainsImpliesOccurs(s, sub);
    }
    if exists at :: OccursAt(s, sub, at) {
      var at :| OccursAt(s, sub, at);
      OccursImpliesContains(s, sub, at);
    }
  }

  /** `containsFold`: substring search after lower-casing both sides. */
  function ContainsFold(s: string, sub: string): bool
  {
    Contains(Lower(s), Lower(sub))
  }

  /** True when the window of `s` at `at` equals `sub` up to letter case. */
  predicate FoldMatchAt(s: string, sub: string, at: int)
  {
    0 <= at && at + |sub| <= |s| && Lower(s[at..at + |sub|]) == Lower(sub)
  }

  /** `containsFold(s, sub)` holds exactly when some window of `s` equals `sub` up to case. */
  lemma ContainsFoldIffWindow(s: string, sub: string)
    ensures ContainsFold(s, sub) <==> exists at :: FoldMatchAt(s, sub, at)
  {
    ContainsIffOccurs(Lower(s), Lower(sub));
    if ContainsFold(s, sub) {
      var at :| OccursAt(Lower(s), Lower(sub), at);
      assert Lower(s[at..at + |sub|]) == Lower(s)[at..at + |sub|];
      assert FoldMatchAt(s, sub, at);
    }
    if exists at :: FoldMatchAt(s, sub, at) {
      var at :| FoldMatchAt(s, sub, at);
      assert Lower(s[at..at + |sub|]) == Lower(s)[at..at + |sub|];
      assert OccursAt(Lower(s), Lower(sub), at);
    }
  }

  /** The fold makes the search blind to letter case on either side. */
  lemma ContainsFoldIgnoresCase(s: string, sub: string)
    ensures ContainsFold(Lower(s), sub) == ContainsFold(s, sub)
    ensures ContainsFold(s, Lower(sub)) == ContainsFold(s, sub)
  {
    LowerIdempotent(s);
    LowerIdempotent(sub);
  }

  lemma LowerIdempotent(s: string)
    ensures Lower(Lower(s)) == Lower(s)
  {
  }
}
