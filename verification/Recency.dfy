/** Lists of distinct ids kept in the order they were last touched. */
module Recency {
  predicate Distinct(s: seq<string>) { forall i, j :: 0 <= i < j < |s| ==> s[i] != s[j] }

  function Without(s: seq<string>, x: string): seq<string> {
    if s == [] then [] else if s[0] == x then Without(s[1..], x) else [s[0]] + Without(s[1..], x)
  }

  /** Taking an id out keeps the order of the others and makes room for one. */
  lemma {:induction false} WithoutKeeps(s: seq<string>, x: string)
    ensures |Without(s, x)| <= |s| && x !in Without(s, x)
    ensures forall y :: y in Without(s, x) <==> y in s && y != x
    ensures Distinct(s) ==> Distinct(Without(s, x)) && |Without(s, x)| == if x in s then |s| - 1 else |s|
  {
    if s != [] {
      WithoutKeeps(s[1..], x);
      assert s == [s[0]] + s[1..];
      var rest := Without(s[1..], x);
      if Distinct(s) {
        assert Distinct(s[1..]) && s[0] !in s[1..];
        assert forall j :: 0 <= j < |rest| ==> rest[j] in rest;
      }
    }
  }
}
