/** The keyword test of create_flowchart_from_description: the description is lower-cased and
    searched for fixed words, in a fixed order of priority. */
module Keywords {

  /** str.lower on one character, for the ASCII letters. */
  function LowerChar(c: char): char
  {
    if 'A' <= c <= 'Z' then (c as int + 32) as char else c
  }

  /** str.lower, character by character. */
  function Lower(s: string): (r: string)
    ensures |r| == |s|
    ensures forall i :: 0 <= i < |s| ==> r[i] == LowerChar(s[i])
  {
    if s == [] then [] else [LowerChar(s[0])] + Lower(s[1..])
  }

  /** Lower-casing leaves no capital letter and changes nothing else than capitals. */
  lemma LowerChanges(s: string)
    ensures forall i :: 0 <= i < |s| ==> !('A' <= Lower(s)[i] <= 'Z')
    ensures forall i :: 0 <= i < |s| && !('A' <= s[i] <= 'Z') ==> Lower(s)[i] == s[i]
  {
  }

  /** Lower-casing twice is lower-casing once. */
  lemma LowerIdempotent(s: string)
    ensures Lower(Lower(s)) == Lower(s)
  {
    LowerChanges(s);
    LowerChanges(Lower(s));
  }

  /** Lower-casing a slice is slicing the lower-cased string. */
  lemma LowerSlice(s: string, i: nat, j: nat)
    requires i <= j <= |s|
    ensures Lower(s[i..j]) == Lower(s)[i..j]
  {
  }

  /** Python's `w in s` on strings: w occurs in s as a contiguous substring. */
  function Contains(s: string, w: string): bool
    decreases |s|
  {
    if |w| > |s| then false
    else s[..|w|] == w || Contains(s[1..], w)
  }

  /** w occurs in s starting at position i. */
  predicate OccursAt(s: string, w: string, i: nat)
  {
    i + |w| <= |s| && s[i..i + |w|] == w
  }

  /** Contains finds w exactly when w occurs at some position of s. */
  lemma {:induction false} ContainsAt(s: string, w: string)
    ensures Contains(s, w) <==> exists i: nat :: OccursAt(s, w, i)
    decreases |s|
  {
    if |w| <= |s| {
      if s[..|w|] == w {
        assert OccursAt(s, w, 0);
      } else {
        ContainsAt(s[1..], w);
        if Contains(s[1..], w) {
          var i: nat :| OccursAt(s[1..], w, i);
          assert s[1..][i..i + |w|] == s[i + 1..i + 1 + |w|];
          assert OccursAt(s, w, i + 1);
        }
        forall i: nat | OccursAt(s, w, i)
          ensures i >= 1 && OccursAt(s[1..], w, i - 1)
        {
          assert s[0..|w|] == s[..|w|];
          if i >= 1 {
            assert s[1..][i - 1..i - 1 + |w|] == s[i..i + |w|];
          }
        }
      }
    }
  }

  /** w is written at position i of s, in any mix of cases. */
  predicate WrittenAt(s: string, w: string, i: nat)
  {
    i + |w| <= |s| && Lower(s[i..i + |w|]) == w
  }

  /** w is written somewhere in s, in any mix of cases. */
  ghost predicate Written(s: string, w: string)
  {
    exists i: nat :: WrittenAt(s, w, i)
  }

  /** What the substring test finds on the lower-cased text is written in s. */
  lemma FoundIsWritten(s: string, w: string)
    requires Contains(Lower(s), w)
    ensures Written(s, w)
  {
    ContainsAt(Lower(s), w);
    var i: nat :| OccursAt(Lower(s), w, i);
    LowerSlice(s, i, i + |w|);
    assert WrittenAt(s, w, i);
  }

  /** The substring test on the lower-cased text finds w exactly when w is written in s. */
  lemma ContainsWritten(s: string, w: string)
    ensures Contains(Lower(s), w) <==> Written(s, w)
  {
    if Contains(Lower(s), w) {
      FoundIsWritten(s, w);
    }
    if Written(s, w) {
      var i: nat :| WrittenAt(s, w, i);
      Mentioned(s, w, i);
    }
  }

  /** The layout the dispatcher picks. */
  datatype Pattern = Sequential | Routing | Parallel | Fallback

  /** The keyword test, in the source's order: "sequential" or "chain" first, then "routing" or
      "router", then "parallel", and the default chain otherwise. */
  function Classify(description: string): (r: Pattern)
    ensures r == Sequential <==> Written(description, "sequential") || Written(description, "chain")
    ensures r == Routing ==> Written(description, "routing") || Written(description, "router")
    ensures r == Parallel ==> Written(description, "parallel")
    ensures r == Fallback <==>
              && !Written(description, "sequential") && !Written(description, "chain")
              && !Written(description, "routing") && !Written(description, "router")
              && !Written(description, "parallel")
  {
    ContainsWritten(description, "sequential");
    ContainsWritten(description, "chain");
    ContainsWritten(description, "routing");
    ContainsWritten(description, "router");
    ContainsWritten(description, "parallel");
    var d := Lower(description);
    if Contains(d, "sequential") || Contains(d, "chain") then Sequential
    else if Contains(d, "routing") || Contains(d, "router") then Routing
    else if Contains(d, "parallel") then Parallel
    else Fallback
  }

  /** A word written anywhere in the description, in any mix of cases, is found by the test. */
  lemma {:induction false} Mentioned(description: string, w: string, i: nat)
    requires i + |w| <= |description| && Lower(description[i..i + |w|]) == w
    ensures Contains(Lower(description), w)
  {
    LowerSlice(description, i, i + |w|);
    assert OccursAt(Lower(description), w, i);
    ContainsAt(Lower(description), w);
  }

  /** The keyword test ignores case: a description and its lower-cased form pick the same layout. */
  lemma ClassifyIgnoresCase(description: string)
    ensures Classify(Lower(description)) == Classify(description)
  {
    LowerIdempotent(description);
  }

  /** Priority: a description mentioning "sequential" or "chain" (in any case) is a chain whatever
      else it mentions; one mentioning "routing" or "router" is a chain or a routing layout; one
      mentioning "parallel" never falls back to the default. */
  lemma ClassifyPriority(description: string, w: string, i: nat)
    requires i + |w| <= |description| && Lower(description[i..i + |w|]) == w
    ensures w == "sequential" || w == "chain" ==> Classify(description) == Sequential
    ensures (w == "routing" || w == "router") ==> Classify(description) in {Sequential, Routing}
    ensures w == "parallel" ==> Classify(description) != Fallback
  {
    Mentioned(description, w, i);
  }
}
