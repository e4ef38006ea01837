/** Stripping white space, as the code does with the text it is given. */
module Text {
  /** The ASCII characters that Python's `strip` takes off. */
  predicate IsSpace(c: char) {
    c in {' ', '\t', '\n', '\r', '\U{0B}', '\U{0C}', '\U{1C}', '\U{1D}', '\U{1E}', '\U{1F}'}
  }

  function StripLeft(s: string): string {
    if s != [] && IsSpace(s[0]) then StripLeft(s[1..]) else s
  }

  function StripRight(s: string): string {
    if s != [] && IsSpace(s[|s| - 1]) then StripRight(s[..|s| - 1]) else s
  }

  function Strip(s: string): string {
    StripRight(StripLeft(s))
  }

  predicate Spaces(s: string) {
    forall i :: 0 <= i < |s| ==> IsSpace(s[i])
  }

  lemma {:induction false} StripLeftDropsSpaces(lead: string, s: string)
    requires Spaces(lead) && (s != [] ==> !IsSpace(s[0]))
    ensures StripLeft(lead + s) == s
  {
    if lead == [] {
      assert lead + s == s;
    } else {
      assert (lead + s)[1..] == lead[1..] + s;
      StripLeftDropsSpaces(lead[1..], s);
    }
  }

  lemma {:induction false} StripRightKeepsFirst(s: string)
    requires s != [] && !IsSpace(s[0])
    ensures StripRight(s) != [] && StripRight(s)[0] == s[0]
  {
    if IsSpace(s[|s| - 1]) {
      StripRightKeepsFirst(s[..|s| - 1]);
    }
  }

  lemma {:induction false} StripRightEnds(s: string)
    ensures StripRight(s) != [] ==> !IsSpace(StripRight(s)[|StripRight(s)| - 1])
  {
    if s != [] && IsSpace(s[|s| - 1]) { StripRightEnds(s[..|s| - 1]); }
  }

  lemma {:induction false} StripLeftStarts(s: string)
    ensures StripLeft(s) != [] ==> !IsSpace(StripLeft(s)[0])
  {
    if s != [] && IsSpace(s[0]) { StripLeftStarts(s[1..]); }
  }

  /** Stripping twice changes nothing. */
  lemma StripTwice(s: string)
    ensures Strip(Strip(s)) == Strip(s)
  {
    var left := StripLeft(s);
    StripLeftStarts(s);
    StripRightEnds(left);
    if left != [] { StripRightKeepsFirst(left); }
  }

  lemma {:induction false} StripLeftSplits(s: string) returns (lead: string)
    ensures s == lead + StripLeft(s) && Spaces(lead)
  {
    if s != [] && IsSpace(s[0]) {
      var rest := StripLeftSplits(s[1..]);
      lead := [s[0]] + rest;
      assert s == [s[0]] + s[1..];
    } else {
      lead := [];
    }
  }

  lemma {:induction false} StripRightSplits(s: string) returns (trail: string)
    ensures s == StripRight(s) + trail && Spaces(trail)
  {
    if s != [] && IsSpace(s[|s| - 1]) {
      var rest := StripRightSplits(s[..|s| - 1]);
      trail := rest + [s[|s| - 1]];
      assert s == s[..|s| - 1] + [s[|s| - 1]];
    } else {
      trail := [];
    }
  }

  /** Stripping takes white space off both ends, and all of it. */
  lemma StripIsMiddle(s: string) returns (lead: string, trail: string)
    ensures s == lead + Strip(s) + trail && Spaces(lead) && Spaces(trail)
    ensures Strip(s) != [] ==> !IsSpace(Strip(s)[0]) && !IsSpace(Strip(s)[|Strip(s)| - 1])
    ensures Strip(s) == [] <==> Spaces(s)
  {
    lead := StripLeftSplits(s);
    trail := StripRightSplits(StripLeft(s));
    StripLeftStarts(s);
    StripRightEnds(StripLeft(s));
    if StripLeft(s) != [] {
      StripRightKeepsFirst(StripLeft(s));
      assert !IsSpace(s[|lead|]);
    }
  }
}
