/**
 * The transcript the script reports: the engine's segments are iterated once to
 * print each one and build `full_text`, and iterated again to list them in the
 * transcript file.
 */
module Transcript {
  import opened Wrappers
  import opened Text

  /** One recognised span of speech; times are in seconds. */
  datatype Segment = Segment(start: real, end: real, text: string)

  /**
   * The engine's segment sequence as a single-pass stream: a generator that
   * yields its segments in order once, after which it stays exhausted.
   */
  class SegmentStream {
    const segments: seq<Segment>
    var position: nat

    ghost predicate Valid()
      reads this
    {
      position <= |segments|
    }

    /** The segments this stream has yet to yield. */
    function Remaining(): seq<Segment>
      reads this
      requires Valid()
    {
      segments[position..]
    }

    constructor (segments: seq<Segment>)
      ensures Valid() && this.segments == segments && Remaining() == segments
    {
      this.segments := segments;
      position := 0;
    }

    /** One step of iteration: the next segment, or None once the stream is exhausted. */
    method Next() returns (next: Option<Segment>)
      requires Valid()
      modifies this
      ensures Valid()
      ensures old(position) == |segments| ==> next == None && position == old(position)
      ensures old(position) < |segments| ==>
                next == Some(segments[old(position)]) && position == old(position) + 1
    {
      if position < |segments| {
        next := Some(segments[position]);
        position := position + 1;
      } else {
        next := None;
      }
    }
  }

  /** The stripped text of every segment, in order: what each console line shows. */
  function StrippedTexts(segments: seq<Segment>): (r: seq<string>)
    ensures |r| == |segments|
    ensures forall i :: 0 <= i < |segments| ==> r[i] == Strip(segments[i].text)
  {
    seq(|segments|, i requires 0 <= i < |segments| => Strip(segments[i].text))
  }

  /** `full_text` after the loop has seen `segments`: each stripped text followed by a space. */
  function Accumulated(segments: seq<Segment>): (r: string)
    ensures r == "" <==> segments == []
    ensures r != "" ==> r[|r| - 1] == ' '
    decreases |segments|
  {
    if segments == [] then ""
    else
      var last := |segments| - 1;
      Accumulated(segments[..last]) + Strip(segments[last].text) + " "
  }

  /** One more segment appends its stripped text and a space. */
  lemma AccumulatedSnoc(seen: seq<Segment>, s: Segment)
    ensures Accumulated(seen + [s]) == Accumulated(seen) + Strip(s.text) + " "
  {
    assert (seen + [s])[..|seen|] == seen;
  }

  /** One more segment adds one line, its stripped text. */
  lemma StrippedTextsSnoc(seen: seq<Segment>, s: Segment)
    ensures StrippedTexts(seen + [s]) == StrippedTexts(seen) + [Strip(s.text)]
  {
  }

  /** The full text reported for `segments`: the stripped texts joined by single
      spaces, stripped once more. */
  function FullText(segments: seq<Segment>): (r: string)
    ensures segments == [] ==> r == ""
    ensures r == [] || (!IsSpace(r[0]) && !IsSpace(r[|r| - 1]))
  {
    Strip(JoinSpace(StrippedTexts(segments)))
  }

  /** Total length the loop adds: one stripped text and one space per segment. */
  function AddedLength(segments: seq<Segment>): nat
  {
    if segments == [] then 0
    else |Strip(segments[0].text)| + 1 + AddedLength(segments[1..])
  }

  lemma {:induction false} AddedLengthSnoc(segments: seq<Segment>, s: Segment)
    ensures AddedLength(segments + [s]) == AddedLength(segments) + |Strip(s.text)| + 1
    decreases |segments|
  {
    if segments != [] {
      assert (segments + [s])[1..] == segments[1..] + [s];
      AddedLengthSnoc(segments[1..], s);
    }
  }

  /** After k segments `full_text` has grown by exactly |strip(text)| + 1 per segment. */
  lemma {:induction false} AccumulatedLength(segments: seq<Segment>)
    ensures |Accumulated(segments)| == AddedLength(segments)
    decreases |segments|
  {
    if segments != [] {
      var last := |segments| - 1;
      AccumulatedLength(segments[..last]);
      AddedLengthSnoc(segments[..last], segments[last]);
      assert segments[..last] + [segments[last]] == segments;
    }
  }

  /** The loop's string is the joined stripped texts with one trailing space. */
  lemma {:induction false} AccumulatedIsJoinPlusSpace(segments: seq<Segment>)
    ensures segments == [] ==> Accumulated(segments) == ""
    ensures segments != [] ==> Accumulated(segments) == JoinSpace(StrippedTexts(segments)) + " "
    decreases |segments|
  {
    if segments != [] {
      var last := |segments| - 1;
      var init := segments[..last];
      assert StrippedTexts(segments) == StrippedTexts(init) + [Strip(segments[last].text)];
      if init != [] {
        AccumulatedIsJoinPlusSpace(init);
        JoinSpaceSnoc(StrippedTexts(init), Strip(segments[last].text));
      }
    }
  }

  /** Stripping the loop's string once at the end gives the closed form. */
  lemma StripAccumulated(segments: seq<Segment>)
    ensures Strip(Accumulated(segments)) == FullText(segments)
  {
    AccumulatedIsJoinPlusSpace(segments);
    if segments != [] {
      StripDropsTrailingSpace(JoinSpace(StrippedTexts(segments)), ' ');
    }
  }

  /** An empty segment is not skipped: it leaves two spaces between its neighbours. */
  lemma EmptySegmentLeavesDoubleSpace(a: Segment, empty: Segment, b: Segment)
    requires Strip(empty.text) == ""
    requires Strip(a.text) != "" && Strip(b.text) != ""
    ensures FullText([a, empty, b]) == Strip(a.text) + "  " + Strip(b.text)
  {
    var ta, tb := Strip(a.text), Strip(b.text);
    var parts := StrippedTexts([a, empty, b]);
    assert parts == [ta, "", tb];
    assert parts[1..] == ["", tb] && parts[1..][1..] == [tb];
    assert JoinSpace(parts) == ta + " " + ("" + " " + tb);
    assert ta + " " + ("" + " " + tb) == ta + "  " + tb;
    StripOfStripped(ta + "  " + tb);
  }

  /** One pass of the loop body: line 77 strips the text, line 79 appends it and a space. */
  method ShowSegment(acc: string, shown: seq<string>, ghost seen: seq<Segment>, segment: Segment)
    returns (acc': string, shown': seq<string>)
    requires acc == Accumulated(seen) && shown == StrippedTexts(seen)
    ensures acc' == Accumulated(seen + [segment]) && shown' == StrippedTexts(seen + [segment])
  {
    var text := Strip(segment.text);
    shown' := shown + [text];
    acc' := acc + text + " ";
    AccumulatedSnoc(seen, segment);
    StrippedTextsSnoc(seen, segment);
  }

  /** Lines 74-80: the loop that prints each segment and builds `full_text`; consumes the stream. */
  method ShowAll(stream: SegmentStream) returns (acc: string, shown: seq<string>)
    requires stream.Valid()
    modifies stream
    ensures stream.Valid() && stream.Remaining() == []
    ensures shown == StrippedTexts(old(stream.Remaining()))
    ensures acc == Accumulated(old(stream.Remaining()))
  {
    ghost var all := stream.Remaining();
    ghost var seen: seq<Segment> := [];
    acc := "";
    shown := [];
    ghost var first := stream.position;
    var next := stream.Next();
    PendingStart(all, next, stream.segments, first, stream.position);
    while next.Some?
      invariant stream.Valid()
      invariant Pending(all, seen, next, stream.segments, stream.position)
      invariant acc == Accumulated(seen)
      invariant shown == StrippedTexts(seen)
      decreases |stream.segments| - stream.position, next.Some?
    {
      acc, shown := ShowSegment(acc, shown, seen, next.value);
      ghost var before := stream.position;
      var current := next.value;
      next := stream.Next();
      PendingAdvance(all, seen, current, next, stream.segments, before, stream.position);
      seen := seen + [current];
    }
    assert seen == all;
  }

  /** Lines 74-82: print each segment, then strip the accumulated `full_text`. */
  method PrintAndAccumulate(stream: SegmentStream) returns (fullText: string, shown: seq<string>)
    requires stream.Valid()
    modifies stream
    ensures stream.Valid() && stream.Remaining() == []
    ensures shown == StrippedTexts(old(stream.Remaining()))
    ensures fullText == FullText(old(stream.Remaining()))
  {
    ghost var all := stream.Remaining();
    var acc;
    acc, shown := ShowAll(stream);
    StripAccumulated(all);
    fullText := Strip(acc);
  }

  /** Lines 98-100: list every segment the stream still yields, for the file. */
  method ListForFile(stream: SegmentStream) returns (lines: seq<string>)
    requires stream.Valid()
    modifies stream
    ensures stream.Valid() && stream.Remaining() == []
    ensures lines == StrippedTexts(old(stream.Remaining()))
  {
    ghost var all := stream.Remaining();
    ghost var seen: seq<Segment> := [];
    lines := [];
    ghost var first := stream.position;
    var next := stream.Next();
    PendingStart(all, next, stream.segments, first, stream.position);
    while next.Some?
      invariant stream.Valid()
      invariant Pending(all, seen, next, stream.segments, stream.position)
      invariant lines == StrippedTexts(seen)
      decreases |stream.segments| - stream.position, next.Some?
    {
      lines := lines + [Strip(next.value.text)];
      StrippedTextsSnoc(seen, next.value);
      ghost var before := stream.position;
      var current := next.value;
      next := stream.Next();
      PendingAdvance(all, seen, current, next, stream.segments, before, stream.position);
      seen := seen + [current];
    }
    assert seen == all;
  }

  /**
   * Where a loop over a stream stands: the `all` segments that were pending when it
   * began are those it has handled (`seen`), then the one in hand (`next`), then what
   * the stream (`segments`, its cursor at `position`) still holds. `next` is None only
   * once the stream is exhausted.
   */
  ghost predicate Pending(all: seq<Segment>, seen: seq<Segment>, next: Option<Segment>,
                          segments: seq<Segment>, position: int)
  {
    match next
    case None => seen == all && position == |segments|
    case Some(s) => 0 <= position <= |segments| && seen + [s] + segments[position..] == all
  }

  /** The first step of a loop: nothing seen, the first pending segment (if any) in hand. */
  lemma PendingStart(all: seq<Segment>, next: Option<Segment>, segments: seq<Segment>,
                     before: int, position: int)
    requires 0 <= before <= |segments| && all == segments[before..]
    requires before == |segments| ==> next == None && position == before
    requires before < |segments| ==> next == Some(segments[before]) && position == before + 1
    ensures Pending(all, [], next, segments, position)
  {
    if before < |segments| {
      assert segments[before..] == [segments[before]] + segments[before + 1..];
    }
  }

  /** Handling the segment in hand and taking the next one keeps `Pending`. */
  lemma PendingAdvance(all: seq<Segment>, seen: seq<Segment>, s: Segment, next: Option<Segment>,
                       segments: seq<Segment>, before: int, position: int)
    requires Pending(all, seen, Some(s), segments, before)
    requires before == |segments| ==> next == None && position == before
    requires before < |segments| ==> next == Some(segments[before]) && position == before + 1
    ensures Pending(all, seen + [s], next, segments, position)
  {
    if before < |segments| {
      assert segments[before..] == [segments[before]] + segments[before + 1..];
      assert seen + [s] + [segments[before]] + segments[before + 1..] == all;
    } else {
      assert seen + [s] + segments[before..] == seen + [s];
    }
  }

  /** `list(segments)`: everything the stream yields, in order. */
  method Collect(stream: SegmentStream) returns (items: seq<Segment>)
    requires stream.Valid()
    modifies stream
    ensures stream.Valid() && stream.Remaining() == []
    ensures items == old(stream.Remaining())
  {
    ghost var all := stream.Remaining();
    items := [];
    ghost var first := stream.position;
    var next := stream.Next();
    PendingStart(all, next, stream.segments, first, stream.position);
    while next.Some?
      invariant stream.Valid()
      invariant Pending(all, items, next, stream.segments, stream.position)
      decreases |stream.segments| - stream.position, next.Some?
    {
      ghost var before := stream.position;
      var current := next.value;
      next := stream.Next();
      PendingAdvance(all, items, current, next, stream.segments, before, stream.position);
      items := items + [current];
    }
    assert items == all;
  }

  /**
   * The report as the script builds it: the console loop and the file loop each
   * iterate the engine's result. A list starts afresh for the second loop; a
   * single-pass stream is already exhausted, so the file lists no segment at all.
   */
  method ReportAsWritten(segments: seq<Segment>, replayable: bool)
    returns (fullText: string, shown: seq<string>, fileLines: seq<string>)
    ensures fullText == FullText(segments)
    ensures shown == StrippedTexts(segments)
    ensures fileLines == (if replayable then shown else [])
  {
    var stream := new SegmentStream(segments);
    fullText, shown := PrintAndAccumulate(stream);
    if replayable {
      stream := new SegmentStream(segments);
    }
    fileLines := ListForFile(stream);
  }

  /**
   * The report with the segments materialised first (`segments = list(segments)`),
   * so that the file lists exactly the lines the console showed, whatever the engine returns.
   */
  method Report(segments: seq<Segment>)
    returns (fullText: string, shown: seq<string>, fileLines: seq<string>)
    ensures fullText == FullText(segments)
    ensures shown == StrippedTexts(segments)
    ensures fileLines == shown
  {
    var engine := new SegmentStream(segments);
    var items := Collect(engine);
    fullText, shown, fileLines := ReportAsWritten(items, true);
  }
}
