/** What several programs ask of `std::string` and of `isspace`. */
module Text {
  import opened Wrappers

  predicate IsSpace(c: char) { c == ' ' || '\t' <= c <= '\r' }

  /** The six characters of the C locale. */
  lemma SpaceTable(c: char)
    ensures IsSpace(c) <==> c in [' ', '\t', '\n', '\U{0B}', '\U{0C}', '\r']
  {
  }

  predicate OccursAt(s: string, part: string, i: nat) { i + |part| <= |s| && s[i..i + |part|] == part }

  /** `find`: the first occurrence, with no value for npos. */
  function Find(s: string, part: string): (r: Option<nat>)
    ensures r.Some? ==> OccursAt(s, part, r.value)
    ensures forall i: nat :: OccursAt(s, part, i) ==> r.Some? && r.value <= i
  {
    if |s| < |part| then None
    else if s[..|part|] == part then Some(0)
    else
      var r := Find(s[1..], part);
      assert forall i: nat {:trigger OccursAt(s, part, i)} :: OccursAt(s, part, i) ==> i > 0 && s[1..][i - 1..i - 1 + |part|] == part && OccursAt(s[1..], part, i - 1);
      if r.None? then None
      else
        assert s[1..][r.value..r.value + |part|] == s[r.value + 1..r.value + 1 + |part|];
        Some(r.value + 1)
  }

  lemma OccurrenceStarts(s: string, part: string, i: nat, k: nat)
    requires k < |part|
    ensures OccursAt(s, part, i) ==> i + k < |s| && s[i + k] == part[k]
  {
    if OccursAt(s, part, i) {
      assert s[i..i + |part|][k] == s[i + k];
    }
  }
}
