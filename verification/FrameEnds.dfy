/** Where the framer cuts, on any bytes whatever: stated by looking back from a position, without the
    scanner. */
module FrameEnds {
  import opened Framer

  /** The text ends in a backslash that escapes the next byte: inside a string, and not itself escaped. */
  predicate EscapesNext(p: seq<byte>)
    decreases |p|
  {
    p != [] &&
    var init := p[..|p| - 1];
    p[|p| - 1] == BACKSLASH && Inside(init) && !EscapesNext(init)
  }

  /** The text ends inside a string: its quotes that are not escaped are odd in number. */
  predicate Inside(p: seq<byte>)
    decreases |p|
  {
    p != [] &&
    var init := p[..|p| - 1];
    if p[|p| - 1] == QUOTE && !EscapesNext(init) then !Inside(init) else Inside(init)
  }

  /** Opening less closing braces outside strings; closing ones may outnumber. */
  function Balance(p: seq<byte>): int {
    if p == [] then 0
    else
      var init, b := p[..|p| - 1], p[|p| - 1];
      Balance(init) + if Inside(init) then 0 else if b == OPEN then 1 else if b == CLOSE then -1 else 0
  }

  /** A closing brace outside strings that makes the braces balance. */
  predicate EndsFrame(p: seq<byte>) {
    p != [] && p[|p| - 1] == CLOSE && !Inside(p[..|p| - 1]) && Balance(p) == 0
  }

  function ScanOf(p: seq<byte>): Scan {
    Scan(Balance(p), Inside(p), EscapesNext(p))
  }

  lemma {:induction false} EscapesInside(p: seq<byte>)
    ensures EscapesNext(p) ==> Inside(p)
  {
  }

  /** The scanner keeps just what looking back would find. */
  lemma {:induction false} StepIsScan(p: seq<byte>, b: byte)
    ensures Step(ScanOf(p), b) == ScanOf(p + [b])
    ensures Ends(ScanOf(p), b) <==> EndsFrame(p + [b])
  {
    assert (p + [b])[..|p|] == p;
    EscapesInside(p);
  }

  lemma {:induction false} BoundaryFrom(s: seq<byte>, i: nat)
    requires i <= |s|
    ensures match Boundary(ScanOf(s[..i]), s[i..])
            case Some(k) => i < i + k <= |s| && EndsFrame(s[..i + k]) && forall m | i < m < i + k :: !EndsFrame(s[..m])
            case None => forall m | i < m <= |s| :: !EndsFrame(s[..m])
    decreases |s| - i
  {
    hide EndsFrame, ScanOf, Step, Ends, Boundary;
    if i == |s| {
      BoundaryEmpty(ScanOf(s[..i]));
    } else {
      var b := s[i];
      assert s[..i] + [b] == s[..i + 1] && s[i..][0] == b && s[i..][1..] == s[i + 1..];
      BoundaryStep(ScanOf(s[..i]), s[i..]);
      StepIsScan(s[..i], b);
      BoundaryFrom(s, i + 1);
    }
  }

  /** Main result: on any bytes, the first frame ends with the first closing brace outside strings that
      makes the braces balance, and there is none if there is no such brace. */
  lemma {:induction false} BoundaryExactly(s: seq<byte>)
    ensures match Boundary(START, s)
            case Some(n) => 0 < n <= |s| && EndsFrame(s[..n]) && forall m | 0 < m < n :: !EndsFrame(s[..m])
            case None => forall m | 0 < m <= |s| :: !EndsFrame(s[..m])
  {
    assert s[..0] == [] && s[0..] == s;
    assert ScanOf([]) == START;
    BoundaryFrom(s, 0);
  }
}
