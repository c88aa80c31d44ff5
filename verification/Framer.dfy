/** The incremental JSON framer: cuts a byte stream into objects by tracking nesting depth,
    strings and escapes, and keeps what is incomplete for the next call. */
module Framer {
  import opened Collections
  import opened Options

  type byte = x: int | 0 <= x < 256

  const QUOTE: byte := 0x22
  const BACKSLASH: byte := 0x5C
  const OPEN: byte := 0x7B
  const CLOSE: byte := 0x7D

  /** The scanner between two bytes. */
  datatype Scan = Scan(depth: int, inString: bool, escaped: bool)

  const START := Scan(0, false, false)

  function Step(st: Scan, b: byte): Scan {
    if st.escaped then st.(escaped := false)
    else if b == BACKSLASH && st.inString then st.(escaped := true)
    else if b == QUOTE then st.(inString := !st.inString)
    else if b == OPEN && !st.inString then st.(depth := st.depth + 1)
    else if b == CLOSE && !st.inString then st.(depth := st.depth - 1)
    else st
  }

  /** A frame ends with a closing brace, outside strings, that brings the depth to zero. */
  predicate Ends(st: Scan, b: byte) {
    !st.escaped && !st.inString && b == CLOSE && st.depth == 1
  }

  /** The number of bytes up to and including the end of the first frame. */
  function Boundary(st: Scan, s: seq<byte>): (end: Option<nat>)
    ensures end.Some? ==> 0 < end.value <= |s|
    decreases |s|
  {
    if s == [] then None
    else if Ends(st, s[0]) then Some(1)
    else match Boundary(Step(st, s[0]), s[1..])
      case None => None
      case Some(n) => Some(n + 1)
  }

  /** The complete frames at the front of a buffer, and what is left of it. */
  function Frames(s: seq<byte>): (seq<seq<byte>>, seq<byte>)
    decreases |s|
  {
    match Boundary(START, s)
    case None => ([], s)
    case Some(n) =>
      var (fs, rest) := Frames(s[n..]);
      ([s[..n]] + fs, rest)
  }

  /** The values of those frames that parse. */
  function Parsed<T>(parse: seq<byte> -> Option<T>, frames: seq<seq<byte>>): seq<T> {
    if frames == [] then []
    else (if parse(frames[0]).Some? then [parse(frames[0]).value] else []) + Parsed(parse, frames[1..])
  }

  /** `done` and the values in the buffer `s` make up `goal`; `rest` will be left of `s`. */
  ghost predicate Towards<T>(parse: seq<byte> -> Option<T>, done: seq<T>, s: seq<byte>, goal: seq<T>, rest: seq<byte>) {
    done + Parsed(parse, Frames(s).0) == goal && Frames(s).1 == rest
  }

  lemma {:induction false} TowardsStep<T>(parse: seq<byte> -> Option<T>, done: seq<T>, s: seq<byte>, goal: seq<T>,
                                          rest: seq<byte>)
    requires Towards(parse, done, s, goal, rest)
    ensures match Boundary(START, s)
            case None => done == goal && s == rest
            case Some(n) =>
              var v := parse(s[..n]);
              Towards(parse, done + (if v.Some? then [v.value] else []), s[n..], goal, rest)
  {
    if Boundary(START, s).Some? {
      var n := Boundary(START, s).value;
      var fs := Frames(s[n..]).0;
      assert Frames(s).0 == [s[..n]] + fs && ([s[..n]] + fs)[1..] == fs;
      var head := if parse(s[..n]).Some? then [parse(s[..n]).value] else [];
      assert done + (head + Parsed(parse, fs)) == done + head + Parsed(parse, fs);
    }
  }

  lemma {:induction false} TowardsStart<T>(parse: seq<byte> -> Option<T>, s: seq<byte>)
    ensures Towards(parse, [], s, Parsed(parse, Frames(s).0), Frames(s).1)
  {
    assert [] + Parsed(parse, Frames(s).0) == Parsed(parse, Frames(s).0);
  }

  lemma {:induction false} SliceOfRest<T>(s: seq<T>, start: nat, n: nat)
    requires start + n <= |s|
    ensures s[start..][..n] == s[start..start + n] && s[start..][n..] == s[start + n..]
  {
  }

  lemma {:induction false} BoundaryStep(st: Scan, s: seq<byte>)
    requires s != []
    ensures Boundary(st, s) == if Ends(st, s[0]) then Some(1)
                               else match Boundary(Step(st, s[0]), s[1..])
                                 case None => None case Some(n) => Some(n + 1)
  {
  }

  lemma {:induction false} BoundaryEmpty(st: Scan)
    ensures Boundary(st, []) == None
  {
  }

  class BatchDecoder<T> {
    const parse: seq<byte> -> Option<T>
    var buffer: seq<byte>

    constructor (parse: seq<byte> -> Option<T>)
      ensures this.parse == parse && buffer == []
    {
      this.parse := parse;
      buffer := [];
    }

    method FindJsonBoundary(start: nat) returns (end: Option<nat>)
      requires start <= |buffer|
      ensures end == match Boundary(START, buffer[start..]) case None => None case Some(n) => Some(start + n)
    {
      hide Boundary;
      var depth := 0;
      var inString, escaped := false, false;
      var i := start;
      while i < |buffer|
        invariant start <= i <= |buffer|
        invariant Boundary(START, buffer[start..]) ==
                  match Boundary(Scan(depth, inString, escaped), buffer[i..])
                  case None => None case Some(n) => Some(i - start + n)
      {
        var b := buffer[i];
        assert buffer[i..][1..] == buffer[i + 1..];
        BoundaryStep(Scan(depth, inString, escaped), buffer[i..]);
        if escaped {
          escaped := false;
        } else if b == BACKSLASH && inString {
          escaped := true;
        } else if b == QUOTE {
          inString := !inString;
        } else if b == OPEN && !inString {
          depth := depth + 1;
        } else if b == CLOSE && !inString {
          depth := depth - 1;
          if depth == 0 {
            return Some(i + 1);
          }
        }
        i := i + 1;
      }
      BoundaryEmpty(Scan(depth, inString, escaped));
      end := None;
    }

    method ParseJsonStream(data: seq<byte>) returns (results: seq<T>)
      modifies this
      ensures var (frames, rest) := Frames(old(buffer) + data);
              results == Parsed(parse, frames) && buffer == rest
    {
      hide Boundary, Frames, Parsed, Towards;
      buffer := buffer + data;
      results := [];
      var start := 0;
      ghost var goal := Parsed(parse, Frames(buffer).0);
      ghost var rest := Frames(buffer).1;
      TowardsStart(parse, buffer);
      assert buffer[0..] == buffer;
      var end := FindJsonBoundary(start);
      while end.Some?
        invariant start <= |buffer| && buffer == old(buffer) + data
        invariant end == match Boundary(START, buffer[start..]) case None => None case Some(n) => Some(start + n)
        invariant Towards(parse, results, buffer[start..], goal, rest)
        decreases |buffer| - start
      {
        TowardsStep(parse, results, buffer[start..], goal, rest);
        var frame := buffer[start..end.value];
        SliceOfRest(buffer, start, end.value - start);
        var parsed := parse(frame);
        results := results + if parsed.Some? then [parsed.value] else [];
        start := end.value;
        end := FindJsonBoundary(start);
      }
      TowardsStep(parse, results, buffer[start..], goal, rest);
      buffer := buffer[start..];
    }
  }

  // ---------------------------------------------------------------- chunking

  /** A boundary already seen does not move when more bytes arrive. */
  lemma {:induction false} BoundaryStable(st: Scan, a: seq<byte>, b: seq<byte>)
    ensures Boundary(st, a).Some? ==> Boundary(st, a + b) == Boundary(st, a)
    decreases |a|
  {
    if a != [] {
      assert (a + b)[1..] == a[1..] + b;
      BoundaryStable(Step(st, a[0]), a[1..], b);
    }
  }

  /** Later bytes only add frames to those already complete. */
  lemma {:induction false} FramesAppend(a: seq<byte>, b: seq<byte>)
    ensures var (fa, ra) := Frames(a);
            var (fb, rb) := Frames(ra + b);
            Frames(a + b) == (fa + fb, rb)
    decreases |a|
  {
    BoundaryStable(START, a, b);
    match Boundary(START, a)
    case None =>
      assert [] + Frames(a + b).0 == Frames(a + b).0;
    case Some(n) =>
      assert (a + b)[..n] == a[..n] && (a + b)[n..] == a[n..] + b;
      FramesAppend(a[n..], b);
      var (fs, ra) := Frames(a[n..]);
      assert [a[..n]] + (fs + Frames(ra + b).0) == [a[..n]] + fs + Frames(ra + b).0;
  }

  /** The frames delivered by feeding chunk after chunk, starting with `buffer`. */
  function FeedAll(buffer: seq<byte>, chunks: seq<seq<byte>>): (seq<seq<byte>>, seq<byte>)
    decreases |chunks|
  {
    if chunks == [] then ([], buffer)
    else
      var (fs, rest) := Frames(buffer + chunks[0]);
      var (fs', rest') := FeedAll(rest, chunks[1..]);
      (fs + fs', rest')
  }

  /** Feeding bytes in any chunks gives the frames and the leftover of feeding them at once. */
  lemma {:induction false} ChunkingInvariance(buffer: seq<byte>, chunks: seq<seq<byte>>)
    requires Frames(buffer) == ([], buffer)
    ensures FeedAll(buffer, chunks) == Frames(buffer + Flatten(chunks))
    decreases |chunks|
  {
    if chunks == [] {
      assert buffer + [] == buffer;
    } else {
      assert Flatten(chunks) == chunks[0] + Flatten(chunks[1..]);
      var (fs, rest) := Frames(buffer + chunks[0]);
      RestHasNoFrame(buffer + chunks[0]);
      ChunkingInvariance(rest, chunks[1..]);
      FramesAppend(buffer + chunks[0], Flatten(chunks[1..]));
      Associate(buffer, chunks[0], Flatten(chunks[1..]));
    }
  }

  lemma {:induction false} ParsedConcat<T>(parse: seq<byte> -> Option<T>, a: seq<seq<byte>>, b: seq<seq<byte>>)
    ensures Parsed(parse, a + b) == Parsed(parse, a) + Parsed(parse, b)
  {
    if a == [] {
      assert a + b == b;
    } else {
      assert (a + b)[0] == a[0] && (a + b)[1..] == a[1..] + b;
      ParsedConcat(parse, a[1..], b);
      Associate(if parse(a[0]).Some? then [parse(a[0]).value] else [], Parsed(parse, a[1..]), Parsed(parse, b));
    }
  }

  /** What successive calls of `ParseJsonStream` return, one after the other, and the last leftover. */
  function ParseAll<T>(parse: seq<byte> -> Option<T>, buffer: seq<byte>, chunks: seq<seq<byte>>): (seq<T>, seq<byte>)
    decreases |chunks|
  {
    if chunks == [] then ([], buffer)
    else
      var (frames, rest) := Frames(buffer + chunks[0]);
      var (values, last) := ParseAll(parse, rest, chunks[1..]);
      (Parsed(parse, frames) + values, last)
  }

  lemma {:induction false} ParseAllOfFeed<T>(parse: seq<byte> -> Option<T>, buffer: seq<byte>, chunks: seq<seq<byte>>)
    ensures var (frames, rest) := FeedAll(buffer, chunks);
            ParseAll(parse, buffer, chunks) == (Parsed(parse, frames), rest)
    decreases |chunks|
  {
    if chunks != [] {
      var (frames, rest) := Frames(buffer + chunks[0]);
      ParseAllOfFeed(parse, rest, chunks[1..]);
      ParsedConcat(parse, frames, FeedAll(rest, chunks[1..]).0);
    }
  }

  /** The values returned for any chunks are, one after the other, those of a single call with all the
      bytes at once, and the same is kept. */
  lemma {:induction false} ChunkedValues<T>(parse: seq<byte> -> Option<T>, buffer: seq<byte>, chunks: seq<seq<byte>>)
    requires Frames(buffer) == ([], buffer)
    ensures var (frames, rest) := Frames(buffer + Flatten(chunks));
            ParseAll(parse, buffer, chunks) == (Parsed(parse, frames), rest)
  {
    ParseAllOfFeed(parse, buffer, chunks);
    ChunkingInvariance(buffer, chunks);
  }

  /** What is left over holds no complete frame. */
  lemma {:induction false} RestHasNoFrame(s: seq<byte>)
    ensures Frames(Frames(s).1) == ([], Frames(s).1)
    decreases |s|
  {
    match Boundary(START, s)
    case None =>
    case Some(n) => RestHasNoFrame(s[n..]);
  }

  /** No byte is lost or repeated. */
  lemma {:induction false} NothingLost(s: seq<byte>)
    ensures Flatten(Frames(s).0) + Frames(s).1 == s
    decreases |s|
  {
    match Boundary(START, s)
    case None =>
    case Some(n) =>
      NothingLost(s[n..]);
      var (fs, rest) := Frames(s[n..]);
      assert ([s[..n]] + fs)[1..] == fs;
      Associate(s[..n], Flatten(fs), rest);
  }
}
