/** The decoder of the streamed chat-completion response in the API tester
    view: each complete line of the text stream is classified as a
    `data: ` frame or ignored, and the deltas of the frames are appended to
    two running accumulators, the answer and the reasoning ("thinking"). */
module StreamDecoder {
  import opened Wrappers
  import opened JsString

  /** The two fields of a frame's first choice that the view reads:
      `choices[0].delta.content` and `choices[0].delta.reasoning_content`.
      An absent, `null` or empty field is the empty string. */
  datatype Delta = Delta(content: string, reasoning: string)

  /** `JSON.parse` of a frame's payload followed by the lookup of its first
      choice's delta: `None` when parsing throws; a frame that parses but has
      no delta reads as `Some(Delta("", ""))`. */
  type Parser = string -> Option<Delta>

  /** The accumulated answer (`streamingContent`) and reasoning
      (`streamingThinking`). */
  datatype Acc = Acc(content: string, thinking: string)

  const Empty: Acc := Acc([], [])

  /** The prefix of an event-data line, and the sentinel payload that
      announces the end of the stream. */
  const DataPrefix: string := "data: "
  const DoneSentinel: string := "[DONE]"

  /** What one complete line of the stream turns out to be. */
  datatype LineKind =
    | Blank                        // nothing but whitespace
    | NotData                      // does not start with `data: ` once trimmed
    | DoneMarker                   // the payload is `[DONE]`
    | Malformed(payload: string)   // the payload does not parse
    | Frame(delta: Delta)          // a parsed delta frame

  /** Classifies a complete line as the read loop does: trim it, skip it when
      empty or without the data prefix, strip the prefix, skip the `[DONE]`
      sentinel, and parse what remains. */
  function Classify(line: string, parse: Parser): (k: LineKind)
    ensures k == Blank <==> Trim(line) == []
    ensures k != Blank && k != NotData ==> StartsWith(Trim(line), DataPrefix)
    ensures k.Malformed? ==> k.payload != DoneSentinel && parse(k.payload) == None
  {
    var trimmed := Trim(line);
    if trimmed == [] then Blank
    else if !StartsWith(trimmed, DataPrefix) then NotData
    else
      var payload := trimmed[|DataPrefix|..];
      if payload == DoneSentinel then DoneMarker
      else
        match parse(payload)
        case None => Malformed(payload)
        case Some(d) => Frame(d)
  }

  /** What each kind of line means: a line is blank exactly when it is all
      whitespace; it carries a payload exactly when, trimmed, it starts with
      `data: `; the payload after the prefix is the `[DONE]` sentinel, a
      payload the parser rejects, or the frame the parser returns. */
  lemma ClassifyMeaning(line: string, parse: Parser)
    ensures var k := Classify(line, parse);
            var t := Trim(line);
            && (k == Blank <==> AllWhitespace(line))
            && ((k.Frame? || k.Malformed? || k == DoneMarker) <==> StartsWith(t, DataPrefix))
            && (k == DoneMarker <==> StartsWith(t, DataPrefix) && t[|DataPrefix|..] == DoneSentinel)
            && (k.Malformed? ==>
                  k.payload == t[|DataPrefix|..] && k.payload != DoneSentinel && parse(k.payload) == None)
            && (k.Frame? ==>
                  t[|DataPrefix|..] != DoneSentinel && parse(t[|DataPrefix|..]) == Some(k.delta))
  {
    TrimSpec(line);
  }

  /** The effect of one line on the accumulators: a frame appends its
      non-empty reasoning to the reasoning and its non-empty content to the
      answer; every other kind of line leaves both alone. */
  function Step(acc: Acc, k: LineKind): (r: Acc)
    ensures k.Frame? ==> r == Acc(acc.content + k.delta.content, acc.thinking + k.delta.reasoning)
    ensures !k.Frame? ==> r == acc
  {
    match k
    case Frame(d) =>
      Acc(if d.content != [] then acc.content + d.content else acc.content,
          if d.reasoning != [] then acc.thinking + d.reasoning else acc.thinking)
    case _ => acc
  }

  /** The accumulators after the given kinds of lines, in order, starting
      from `acc`. */
  function Fold(acc: Acc, kinds: seq<LineKind>): Acc {
    if kinds == [] then acc
    else Step(Fold(acc, kinds[..|kinds| - 1]), kinds[|kinds| - 1])
  }

  /** The kind of each line, in order. */
  function Kinds(lines: seq<string>, parse: Parser): (r: seq<LineKind>)
    ensures |r| == |lines|
    ensures forall i :: 0 <= i < |lines| ==> r[i] == Classify(lines[i], parse)
  {
    seq(|lines|, i requires 0 <= i < |lines| => Classify(lines[i], parse))
  }

  /** The accumulators after processing `lines` in order, starting from `acc`. */
  function Accumulate(acc: Acc, lines: seq<string>, parse: Parser): Acc {
    Fold(acc, Kinds(lines, parse))
  }

  /** The text of a stream: its chunks in arrival order, concatenated. */
  function Concat(chunks: seq<string>): string {
    if chunks == [] then [] else Concat(chunks[..|chunks| - 1]) + chunks[|chunks| - 1]
  }

  /** The newline-terminated lines of a text; what follows the last newline
      is not a complete line. */
  function CompleteLines(s: string): seq<string> {
    Init(Split(s))
  }

  /** The accumulators a whole stream text decodes to. */
  function DecodeText(s: string, parse: Parser): Acc {
    Accumulate(Empty, CompleteLines(s), parse)
  }

  /** One more read of the stream: when the complete lines read so far and
      the held-back buffer are the split of the text so far, splitting the
      buffer with the next chunk appended gives the rest of the split of the
      longer text. */
  lemma ReadOneMore(chunks: seq<string>, i: nat, processed: seq<string>, buffer: string)
    requires i < |chunks|
    requires processed + [buffer] == Split(Concat(chunks[..i]))
    ensures Split(Concat(chunks[..i + 1])) == processed + Split(buffer + chunks[i])
  {
    var before := Split(Concat(chunks[..i]));
    assert Init(before) == processed && Last(before) == buffer;
    assert chunks[..i + 1][..i] == chunks[..i];
    SplitConcat(Concat(chunks[..i]), chunks[i]);
  }

  /** What the read loop holds back: when the processed lines followed by
      the buffer are the split of the text read so far, the processed lines
      are its complete lines and the buffer holds no newline. */
  lemma HeldBack(text: string, processed: seq<string>, buffer: string)
    requires processed + [buffer] == Split(text)
    ensures processed == CompleteLines(text) && NoNewline(buffer)
  {
    SplitPiecesNoNewline(text);
    assert Init(processed + [buffer]) == processed;
    assert Split(text)[|processed|] == buffer;
  }

  /** One read of the stream keeps the read loop's invariant: when the
      processed lines and the buffer split the text read so far and the
      accumulators hold the processing of those lines, then processing the
      complete lines of buffer plus chunk and keeping the last piece as the
      new buffer gives the same for the text with the chunk appended. */
  lemma ReadStep(chunks: seq<string>, i: nat, processed: seq<string>, buffer: string, rest: string,
                 start: Acc, before: Acc, after: Acc, parse: Parser)
    requires i < |chunks|
    requires processed + [buffer] == Split(Concat(chunks[..i]))
    requires before == Accumulate(start, processed, parse)
    requires Init(Split(buffer + chunks[i])) + [rest] == Split(buffer + chunks[i])
    requires after == Accumulate(before, Init(Split(buffer + chunks[i])), parse)
    ensures var processed' := processed + Init(Split(buffer + chunks[i]));
            && processed' + [rest] == Split(Concat(chunks[..i + 1]))
            && processed' == CompleteLines(Concat(chunks[..i + 1])) && NoNewline(rest)
            && after == Accumulate(start, processed', parse)
  {
    var complete := Init(Split(buffer + chunks[i]));
    ReadOneMore(chunks, i, processed, buffer);
    ConcatAssoc(processed, complete, [rest]);
    AccumulateAppend(start, processed, complete, parse);
    HeldBack(Concat(chunks[..i + 1]), processed + complete, rest);
  }

  /** Processing one more line after a run of lines. */
  lemma AccumulateSnoc(acc: Acc, lines: seq<string>, line: string, parse: Parser)
    ensures Accumulate(acc, lines + [line], parse)
            == Step(Accumulate(acc, lines, parse), Classify(line, parse))
  {
    var ks := Kinds(lines + [line], parse);
    assert ks[..|ks| - 1] == Kinds(lines, parse);
  }

  /** Folding two runs of kinds one after the other is folding their
      concatenation. */
  lemma {:induction false} FoldAppend(acc: Acc, a: seq<LineKind>, b: seq<LineKind>)
    ensures Fold(acc, a + b) == Fold(Fold(acc, a), b)
  {
    if b == [] {
      assert a + b == a;
    } else {
      var b' := b[..|b| - 1];
      FoldAppend(acc, a, b');
      assert (a + b)[..|a + b| - 1] == a + b';
    }
  }

  /** Processing two runs of lines one after the other is processing their
      concatenation. */
  lemma AccumulateAppend(acc: Acc, a: seq<string>, b: seq<string>, parse: Parser)
    ensures Accumulate(acc, a + b, parse) == Accumulate(Accumulate(acc, a, parse), b, parse)
  {
    assert Kinds(a + b, parse) == Kinds(a, parse) + Kinds(b, parse);
    FoldAppend(acc, Kinds(a, parse), Kinds(b, parse));
  }

  /** The accumulators only grow at their ends: what they held before a run
      of kinds is a prefix of what they hold after it. */
  lemma {:induction false} FoldOnlyAppends(acc: Acc, kinds: seq<LineKind>)
    ensures var r := Fold(acc, kinds);
            |acc.content| <= |r.content| && r.content[..|acc.content|] == acc.content
            && |acc.thinking| <= |r.thinking| && r.thinking[..|acc.thinking|] == acc.thinking
  {
    if kinds != [] {
      var prev := kinds[..|kinds| - 1];
      FoldOnlyAppends(acc, prev);
      var p := Fold(acc, prev);
      var r := Fold(acc, kinds);
      assert r.content[..|p.content|] == p.content;
      assert r.content[..|acc.content|] == p.content[..|acc.content|];
      assert r.thinking[..|p.thinking|] == p.thinking;
      assert r.thinking[..|acc.thinking|] == p.thinking[..|acc.thinking|];
    }
  }

  /** Once a line has been processed its contribution stays: the
      accumulators after a run of lines are prefixes of those after any
      longer run. */
  lemma EarlierIsPrefixOfLater(acc: Acc, a: seq<string>, b: seq<string>, parse: Parser)
    ensures var early := Accumulate(acc, a, parse);
            var late := Accumulate(acc, a + b, parse);
            |early.content| <= |late.content| && late.content[..|early.content|] == early.content
            && |early.thinking| <= |late.thinking| && late.thinking[..|early.thinking|] == early.thinking
  {
    AccumulateAppend(acc, a, b, parse);
    FoldOnlyAppends(Accumulate(acc, a, parse), Kinds(b, parse));
  }

  /** Kinds other than frames (blank lines, other fields, the `[DONE]`
      sentinel, malformed payloads) change nothing. */
  lemma {:induction false} NonFramesAreInert(acc: Acc, kinds: seq<LineKind>)
    requires forall i :: 0 <= i < |kinds| ==> !kinds[i].Frame?
    ensures Fold(acc, kinds) == acc
  {
    if kinds != [] {
      NonFramesAreInert(acc, kinds[..|kinds| - 1]);
    }
  }

  /** Removing non-frame lines from anywhere in the stream does not change
      the result, and the lines after them are still processed. */
  lemma NonFramesCanBeDropped(acc: Acc, pre: seq<string>, mid: seq<string>, post: seq<string>, parse: Parser)
    requires forall i :: 0 <= i < |mid| ==> !Classify(mid[i], parse).Frame?
    ensures Accumulate(acc, pre + mid + post, parse) == Accumulate(acc, pre + post, parse)
  {
    AccumulateAppend(acc, pre + mid, post, parse);
    AccumulateAppend(acc, pre, mid, parse);
    NonFramesAreInert(Accumulate(acc, pre, parse), Kinds(mid, parse));
    AccumulateAppend(acc, pre, post, parse);
  }

  /** A `data: ` line whose payload has no surrounding whitespace: the
      `[DONE]` sentinel is a `DoneMarker`, a payload that does not parse is
      `Malformed`, and any other payload is the frame it parses to. */
  lemma DataLine(payload: string, parse: Parser)
    requires payload != [] && !IsWhitespace(payload[|payload| - 1])
    ensures Classify(DataPrefix + payload, parse) ==
              if payload == DoneSentinel then DoneMarker
              else if parse(payload).None? then Malformed(payload)
              else Frame(parse(payload).value)
  {
    var line := DataPrefix + payload;
    assert line[|line| - 1] == payload[|payload| - 1];
    TrimUnchanged(line);
    assert line[..|DataPrefix|] == DataPrefix;
    assert line[|DataPrefix|..] == payload;
  }

  /** A trailing piece with no newline after it is never processed:
      appending it to the stream text changes nothing. */
  lemma TrailingSegmentIgnored(s: string, tail: string, parse: Parser)
    requires NoNewline(tail)
    ensures DecodeText(s + tail, parse) == DecodeText(s, parse)
  {
    SplitConcat(s, tail);
    SplitPiecesNoNewline(s);
    var last := Last(Split(s));
    assert NoNewline(last + tail) by {
      forall k | 0 <= k < |last + tail| ensures (last + tail)[k] != '\n' {
        if k < |last| { assert (last + tail)[k] == last[k]; }
        else { assert (last + tail)[k] == tail[k - |last|]; }
      }
    }
    SplitNoNewline(last + tail);
    assert Init(Split(s + tail)) == Init(Split(s));
  }

  /** A stream written as newline-terminated lines followed by an
      unterminated tail decodes to the result of processing exactly those
      lines. */
  lemma DecodeLines(lines: seq<string>, tail: string, parse: Parser)
    requires forall k :: 0 <= k < |lines| ==> NoNewline(lines[k])
    requires NoNewline(tail)
    ensures DecodeText(Join(lines + [tail]), parse) == Accumulate(Empty, lines, parse)
  {
    SplitJoinLines(lines, tail);
  }

  /** A `data: ` line whose payload does not parse is skipped, and the
      lines after it are still processed: the result is that of the stream
      without it. */
  lemma MalformedFrameSkipped(acc: Acc, pre: seq<string>, payload: string, post: seq<string>, parse: Parser)
    requires payload != [] && !IsWhitespace(payload[|payload| - 1])
    requires payload != DoneSentinel && parse(payload) == None
    ensures Accumulate(acc, pre + [DataPrefix + payload] + post, parse)
            == Accumulate(acc, pre + post, parse)
  {
    DataLine(payload, parse);
    NonFramesCanBeDropped(acc, pre, [DataPrefix + payload], post, parse);
  }

  /** The `[DONE]` sentinel does not end decoding: frames after it are still
      appended, exactly as if the sentinel line were absent. */
  lemma DoneDoesNotStopDecoding(acc: Acc, pre: seq<string>, post: seq<string>, parse: Parser)
    ensures Accumulate(acc, pre + [DataPrefix + DoneSentinel] + post, parse)
            == Accumulate(acc, pre + post, parse)
  {
    DataLine(DoneSentinel, parse);
    NonFramesCanBeDropped(acc, pre, [DataPrefix + DoneSentinel], post, parse);
  }

  /** Three complete lines joined with their terminating newlines. */
  lemma JoinThreeLines(l1: string, l2: string, l3: string)
    ensures Join([l1, l2, l3, []]) == l1 + "\n" + l2 + "\n" + l3 + "\n"
  {
    var all := [l1, l2, l3, []];
    assert all[1..] == [l2, l3, []];
    assert all[1..][1..] == [l3, []];
    assert all[1..][1..][1..] == [[]];
    var empty: string := [];
    assert Join([empty]) == empty;
    assert Join([l3, empty]) == l3 + "\n";
    assert Join([l2, l3, empty]) == l2 + "\n" + (l3 + "\n");
    assert Join(all) == l1 + "\n" + (l2 + "\n" + (l3 + "\n"));
  }

  /** A data line built from a newline-free payload holds no newline. */
  lemma DataLineNoNewline(payload: string)
    requires NoNewline(payload)
    ensures NoNewline(DataPrefix + payload)
  {
    var line := DataPrefix + payload;
    forall k | 0 <= k < |line| ensures line[k] != '\n' {
      if k >= |DataPrefix| { assert line[k] == payload[k - |DataPrefix|]; }
    }
  }

  /** Two content frames followed by the sentinel decode to the two pieces
      of content in order, with no reasoning. */
  lemma TwoFramesThenDone(p1: string, p2: string, c1: string, c2: string, parse: Parser)
    requires p1 != [] && p1[|p1| - 1] == '}' && NoNewline(p1)
    requires p2 != [] && p2[|p2| - 1] == '}' && NoNewline(p2)
    requires parse(p1) == Some(Delta(c1, [])) && parse(p2) == Some(Delta(c2, []))
    ensures DecodeText(DataPrefix + p1 + "\n" + DataPrefix + p2 + "\n" + DataPrefix + DoneSentinel + "\n", parse)
            == Acc(c1 + c2, [])
  {
    var l1, l2, l3 := DataPrefix + p1, DataPrefix + p2, DataPrefix + DoneSentinel;
    TwoFramesThenDoneText(p1, p2);
    DataLineNoNewline(p1);
    DataLineNoNewline(p2);
    DataLineNoNewline(DoneSentinel);
    DecodeLines([l1, l2, l3], [], parse);
    FramesThenDone(l1, l2, l3, p1, p2, c1, c2, parse);
  }

  /** The text of TwoFramesThenDone as three lines followed by an empty
      unterminated piece. */
  lemma TwoFramesThenDoneText(p1: string, p2: string)
    ensures var l1, l2, l3 := DataPrefix + p1, DataPrefix + p2, DataPrefix + DoneSentinel;
            DataPrefix + p1 + "\n" + DataPrefix + p2 + "\n" + DataPrefix + DoneSentinel + "\n"
            == Join([l1, l2, l3] + [[]])
  {
    var l1, l2, l3 := DataPrefix + p1, DataPrefix + p2, DataPrefix + DoneSentinel;
    JoinThreeLines(l1, l2, l3);
    assert [l1, l2, l3] + [[]] == [l1, l2, l3, []];
    assert DataPrefix + p1 + "\n" + DataPrefix + p2 + "\n" + DataPrefix + DoneSentinel + "\n"
        == l1 + "\n" + l2 + "\n" + l3 + "\n";
  }

  /** The accumulation half of TwoFramesThenDone. */
  lemma FramesThenDone(l1: string, l2: string, l3: string, p1: string, p2: string, c1: string, c2: string, parse: Parser)
    requires p1 != [] && p1[|p1| - 1] == '}' && p2 != [] && p2[|p2| - 1] == '}'
    requires l1 == DataPrefix + p1 && l2 == DataPrefix + p2 && l3 == DataPrefix + DoneSentinel
    requires parse(p1) == Some(Delta(c1, [])) && parse(p2) == Some(Delta(c2, []))
    ensures Accumulate(Empty, [l1, l2, l3], parse) == Acc(c1 + c2, [])
  {
    assert p1 != DoneSentinel && p2 != DoneSentinel;
    DataLine(p1, parse);
    DataLine(p2, parse);
    DataLine(DoneSentinel, parse);
    assert Kinds([], parse) == [];
    AccumulateSnoc(Empty, [], l1, parse);
    assert [] + [l1] == [l1];
    assert Accumulate(Empty, [l1], parse) == Acc(c1, []);
    AccumulateSnoc(Empty, [l1], l2, parse);
    assert [l1] + [l2] == [l1, l2];
    assert Accumulate(Empty, [l1, l2], parse) == Acc(c1 + c2, []);
    AccumulateSnoc(Empty, [l1, l2], l3, parse);
    assert [l1, l2] + [l3] == [l1, l2, l3];
  }
}
