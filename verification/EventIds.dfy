/**
 Event ids of the web UI: the thread id, a colon, and the sequence number
 padded to six digits. Ids of different events never coincide, although a
 thread id may itself contain colons and digits.
 */
module EventIds {

  import opened Strings

  type ThreadId = string

  // `padStart(width, "0")`.
  function PadStart(s: string, width: nat): string
    decreases width - |s|
  {
    if |s| >= width then s else PadStart("0" + s, width)
  }

  function EventId(thread: ThreadId, sequence: nat): string {
    thread + ":" + PadStart(Numeral(sequence, 10), 6)
  }

  lemma {:induction false} LeadingZero(s: string)
    requires AllDigitsOf(s, 10)
    ensures AllDigitsOf("0" + s, 10) && NumeralValue("0" + s, 10) == NumeralValue(s, 10)
  {
    if s == [] {
      assert ("0" + s)[..0] == [];
    } else {
      LeadingZero(s[..|s| - 1]);
      assert ("0" + s)[..|s|] == "0" + s[..|s| - 1];
    }
  }

  lemma {:induction false} PaddingKeepsValue(s: string, width: nat)
    requires AllDigitsOf(s, 10)
    ensures AllDigitsOf(PadStart(s, width), 10) && NumeralValue(PadStart(s, width), 10) == NumeralValue(s, 10)
    decreases width - |s|
  {
    if |s| < width {
      LeadingZero(s);
      PaddingKeepsValue("0" + s, width);
    }
  }

  lemma NoColon(s: string)
    requires AllDigitsOf(s, 10)
    ensures ':' !in s
  {
  }

  lemma {:induction false} LastColonSplits(a: string, b: string, x: string, y: string)
    requires a + ":" + x == b + ":" + y && ':' !in x && ':' !in y
    ensures a == b && x == y
  {
    var s := a + ":" + x;
    assert s[|a|] == ':' && s[|b|] == ':';
    assert forall k :: |a| < k < |s| ==> s[k] == x[k - |a| - 1];
    assert forall k :: |b| < k < |s| ==> s[k] == y[k - |b| - 1];
    assert |a| == |b|;
    assert a == s[..|a|] && b == s[..|b|];
    assert x == s[|a| + 1..] && y == s[|b| + 1..];
  }

  lemma {:induction false} EventIdsAreUnique(t: ThreadId, m: nat, u: ThreadId, n: nat)
    requires EventId(t, m) == EventId(u, n)
    ensures t == u && m == n
  {
    var x, y := PadStart(Numeral(m, 10), 6), PadStart(Numeral(n, 10), 6);
    NumeralRoundTrip(m, 10);
    NumeralRoundTrip(n, 10);
    PaddingKeepsValue(Numeral(m, 10), 6);
    PaddingKeepsValue(Numeral(n, 10), 6);
    NoColon(x);
    NoColon(y);
    LastColonSplits(t, u, x, y);
  }
}
