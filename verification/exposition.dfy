/**
 The metrics-page scanner. The body is a sequence of lines. For each of the
 two patterns on its own, a line qualifies when it contains the pattern and
 splits on single spaces into exactly two tokens; the counter then takes
 `Atoi` of the second token, so the last qualifying line wins, a malformed
 value reads as 0, and a counter no line qualifies for stays 0.
 */
module Exposition {
  import opened Results
  import opened GoInt
  import opened GoStrconv
  import opened GoStrings

  /** What one line contributes to the counter of one pattern, if it qualifies. */
  function LineSample(line: string, pattern: string): (r: Option<int>)
    ensures r.Some? <==> Contains(line, pattern) && CountChar(line, ' ') == 1
    ensures r.Some? ==> InInt64(r.value)
  {
    if Contains(line, pattern) then
      var parts := Split(line, ' ');
      if |parts| == 2 then Some(Atoi(parts[1])) else None
    else None
  }

  /** A qualifying line "head tail" samples Atoi(tail). */
  lemma LineSampleValue(head: string, tail: string, pattern: string)
    requires ' ' !in head && ' ' !in tail
    requires Contains(head + " " + tail, pattern)
    ensures LineSample(head + " " + tail, pattern) == Some(Atoi(tail))
  {
    SplitPieces(head, ' ', tail);
  }

  /** The empty pattern, which an unrecognised flavour yields, lets every two-token line through. */
  lemma EmptyPatternMatchesEveryLine(line: string)
    ensures LineSample(line, "").Some? <==> CountChar(line, ' ') == 1
  {
    ContainsEmpty(line);
  }

  /** The counter value after scanning the lines, starting from 0. */
  function LastSample(lines: seq<string>, pattern: string): int
  {
    if |lines| == 0 then 0
    else match LineSample(lines[|lines| - 1], pattern)
      case Some(v) => v
      case None => LastSample(lines[..|lines| - 1], pattern)
  }

  predicate Qualifies(line: string, pattern: string) { LineSample(line, pattern).Some? }

  /** lines[j] qualifies and no later line does. */
  predicate LastQualifying(lines: seq<string>, pattern: string, j: int)
  {
    && 0 <= j < |lines|
    && Qualifies(lines[j], pattern)
    && forall l | j < l < |lines| :: !Qualifies(lines[l], pattern)
  }

  /** The counter is 0 when no line qualifies, and otherwise the sample of the last qualifying line. */
  lemma {:induction false} LastSampleSpec(lines: seq<string>, pattern: string)
    ensures (forall j | 0 <= j < |lines| :: !Qualifies(lines[j], pattern)) ==> LastSample(lines, pattern) == 0
    ensures forall j | LastQualifying(lines, pattern, j) ::
              LastSample(lines, pattern) == LineSample(lines[j], pattern).value
    ensures InInt64(LastSample(lines, pattern))
  {
    if |lines| > 0 {
      var init := lines[..|lines| - 1];
      LastSampleSpec(init, pattern);
      assert forall j | 0 <= j < |init| :: init[j] == lines[j];
      forall j | LastQualifying(lines, pattern, j)
        ensures LastSample(lines, pattern) == LineSample(lines[j], pattern).value
      {
        if j < |lines| - 1 {
          assert LastQualifying(init, pattern, j);
        }
      }
    }
  }

  /**
   The scanning loop: both counters in one pass over the lines, each line
   checked against the total pattern and then, independently, the active one.
   */
  method ScanBody(lines: seq<string>, totalPattern: string, activePattern: string)
    returns (total: int, active: int)
    ensures total == LastSample(lines, totalPattern)
    ensures active == LastSample(lines, activePattern)
  {
    total, active := 0, 0;
    var i := 0;
    while i < |lines|
      invariant 0 <= i <= |lines|
      invariant total == LastSample(lines[..i], totalPattern)
      invariant active == LastSample(lines[..i], activePattern)
    {
      assert lines[..i + 1][..i] == lines[..i];
      var line := lines[i];
      if Contains(line, totalPattern) {
        var parts := Split(line, ' ');
        if |parts| == 2 {
          total := Atoi(parts[1]);
        }
      }
      if Contains(line, activePattern) {
        var parts := Split(line, ' ');
        if |parts| == 2 {
          active := Atoi(parts[1]);
        }
      }
      i := i + 1;
    }
    assert lines[..|lines|] == lines;
  }
}
