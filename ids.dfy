/** Identifiers handed out by the diagram builder: "prefix-n" for elements and
    "group-n" / "name-group-n" for groups, where n is a decimal counter value. */
module Ids {

  /** The decimal digit for d. */
  function DigitChar(d: nat): (c: char)
    requires d < 10
    ensures '0' <= c <= '9'
  {
    ('0' as int + d) as char
  }

  /** The value of a decimal digit character (0 for any other character). */
  function DigitValue(c: char): nat
  {
    if '0' <= c <= '9' then c as int - '0' as int else 0
  }

  predicate IsDigits(s: string)
  {
    forall i :: 0 <= i < |s| ==> '0' <= s[i] <= '9'
  }

  /** Python's str(n) for a natural number: its decimal representation. */
  function NatToString(n: nat): (s: string)
    ensures |s| > 0 && IsDigits(s)
  {
    if n < 10 then [DigitChar(n)] else NatToString(n / 10) + [DigitChar(n % 10)]
  }

  /** The value of a string of decimal digits, read most significant first. */
  function DigitsValue(s: string): nat
  {
    if s == [] then 0 else DigitsValue(s[..|s| - 1]) * 10 + DigitValue(s[|s| - 1])
  }

  /** Reading back the decimal representation gives the number. */
  lemma {:induction false} DigitsRoundTrip(n: nat)
    ensures DigitsValue(NatToString(n)) == n
  {
    var s := NatToString(n);
    if n >= 10 {
      DigitsRoundTrip(n / 10);
      assert s[..|s| - 1] == NatToString(n / 10);
    }
  }

  /** The part of s after its last '-' (all of s when there is none). */
  function AfterLastDash(s: string): string
  {
    if s == [] then []
    else if s[|s| - 1] == '-' then []
    else AfterLastDash(s[..|s| - 1]) + [s[|s| - 1]]
  }

  /** A suffix without dashes is exactly what follows the last dash. */
  lemma {:induction false} AfterLastDashOf(p: string, d: string)
    requires IsDigits(d)
    ensures AfterLastDash(p + "-" + d) == d
  {
    if d != [] {
      var s := p + "-" + d;
      assert s[..|s| - 1] == p + "-" + d[..|d| - 1];
      AfterLastDashOf(p, d[..|d| - 1]);
      assert d[..|d| - 1] + [d[|d| - 1]] == d;
    }
  }

  /** f"{prefix}-{n}", as built by _generate_id. */
  function FormatId(prefix: string, n: nat): (r: string)
    ensures |r| > |prefix| + 1 && r[..|prefix| + 1] == prefix + "-"
    ensures IsDigits(r[|prefix| + 1..]) && DigitsValue(r[|prefix| + 1..]) == n
  {
    var r := prefix + "-" + NatToString(n);
    assert r[|prefix| + 1..] == NatToString(n);
    DigitsRoundTrip(n);
    r
  }

  /** The counter value an identifier was generated from: the number after its last dash. */
  function IdNumber(id: string): nat
  {
    DigitsValue(AfterLastDash(id))
  }

  /** An identifier remembers the counter value it was generated from,
      whatever its prefix (even one that contains dashes). */
  lemma IdNumberOfFormatId(prefix: string, n: nat)
    ensures IdNumber(FormatId(prefix, n)) == n
  {
    AfterLastDashOf(prefix, NatToString(n));
    DigitsRoundTrip(n);
  }

  /** Two generated identifiers are equal exactly when both prefix and counter agree,
      so ids generated from distinct counter values never collide. */
  lemma FormatIdInjective(p1: string, n1: nat, p2: string, n2: nat)
    ensures FormatId(p1, n1) == FormatId(p2, n2) <==> p1 == p2 && n1 == n2
  {
    if FormatId(p1, n1) == FormatId(p2, n2) {
      IdNumberOfFormatId(p1, n1);
      IdNumberOfFormatId(p2, n2);
      var s := FormatId(p1, n1);
      assert |p1| == |p2|;
      assert s[..|p1|] == p1;
      assert FormatId(p2, n2)[..|p2|] == p2;
    }
  }

  /** The group id made by start_group: "group-k", prefixed by "name-" when a name is given. */
  function GroupId(name: string, k: nat): (r: string)
    ensures var g := FormatId("group", k); |g| <= |r| && r[|r| - |g|..] == g
    ensures name == "" ==> |r| == |FormatId("group", k)|
    ensures name != "" ==> |r| > |name| + 1 && r[..|name| + 1] == name + "-"
  {
    if name != "" then name + "-" + FormatId("group", k) else FormatId("group", k)
  }

  /** A group id is itself a generated identifier carrying its counter value, so group ids
      from distinct counter values differ, whatever names the caller chose. */
  lemma GroupIdNumber(name: string, k: nat)
    ensures GroupId(name, k) != ""
    ensures IdNumber(GroupId(name, k)) == k
  {
    if name != "" {
      assert GroupId(name, k) == FormatId(name + "-group", k);
      IdNumberOfFormatId(name + "-group", k);
    } else {
      IdNumberOfFormatId("group", k);
    }
  }
}
