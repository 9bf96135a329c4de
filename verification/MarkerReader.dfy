/**
 The chunked search of one interactive command's output for its end marker, against a
 search of the whole stream; and the loop that writes the command.
 The outside world is a script: what each poll and each read will answer.
 */
module MarkerReader {
  import opened Wrappers
  import opened Sequences

  type Byte = b: nat | b < 256

  const MAX_OUTPUT: nat := 4096
  const NEWLINE: Byte := 10

  /** One answer of read(); late says whether the deadline or a stop has come by the next look. */
  datatype Read =
    | Data(bytes: seq<Byte>, late: bool)   // no bytes is end of file
    | Interrupted
    | Failed
    | Stopped                              // a stop or the deadline is seen before the read

  /** One turn of the polling loop.  After the listed reads the descriptor would block. */
  datatype Poll =
    | Expired                              // deadline reached, stop requested or terminating
    | Idle
    | Broken
    | Ready(answers: seq<Read>, hangup: bool)

  datatype Chunk = Chunk(bytes: seq<Byte>, late: bool)

  // ----- Searching -----

  predicate OccursAt(text: seq<Byte>, pattern: seq<Byte>, i: int)
  {
    0 <= i && i + |pattern| <= |text| && text[i..i + |pattern|] == pattern
  }

  /** i is where pattern first occurs in text. */
  ghost predicate FirstAt(text: seq<Byte>, pattern: seq<Byte>, i: int)
  {
    OccursAt(text, pattern, i) && forall j :: 0 <= j < i ==> !OccursAt(text, pattern, j)
  }

  ghost predicate Occurs(text: seq<Byte>, pattern: seq<Byte>)
  {
    exists i :: OccursAt(text, pattern, i)
  }

  function FindFrom(text: seq<Byte>, pattern: seq<Byte>, from: nat): (r: Option<nat>)
    requires from <= |text|
    requires forall j :: 0 <= j < from ==> !OccursAt(text, pattern, j)
    ensures r.Some? ==> FirstAt(text, pattern, r.value)
    ensures r.None? ==> !Occurs(text, pattern)
    decreases |text| - from
  {
    if OccursAt(text, pattern, from) then Some(from)
    else if from == |text| then None
    else FindFrom(text, pattern, from + 1)
  }

  /** The leftmost occurrence, as std::string::find returns it. */
  function Find(text: seq<Byte>, pattern: seq<Byte>): (r: Option<nat>)
    ensures r.Some? ==> FirstAt(text, pattern, r.value)
    ensures r.None? <==> !Occurs(text, pattern)
  {
    FindFrom(text, pattern, 0)
  }

  lemma FirstIsUnique(text: seq<Byte>, pattern: seq<Byte>, i: int, j: int)
    requires FirstAt(text, pattern, i) && FirstAt(text, pattern, j)
    ensures i == j
  {
  }

  /** An occurrence stays where it is when bytes follow, and one that fits in the front was there before. */
  lemma OccursInFront(a: seq<Byte>, b: seq<Byte>, pattern: seq<Byte>, i: int)
    ensures OccursAt(a, pattern, i) ==> OccursAt(a + b, pattern, i)
    ensures OccursAt(a + b, pattern, i) && i + |pattern| <= |a| ==> OccursAt(a, pattern, i)
  {
    if 0 <= i && i + |pattern| <= |a| {
      assert (a + b)[i..i + |pattern|] == a[i..i + |pattern|];
    }
  }

  lemma OccursBehind(a: seq<Byte>, b: seq<Byte>, pattern: seq<Byte>, i: int)
    requires i >= |a|
    ensures OccursAt(a + b, pattern, i) <==> OccursAt(b, pattern, i - |a|)
  {
    if i + |pattern| <= |a + b| {
      assert (a + b)[i..i + |pattern|] == b[i - |a|..i - |a| + |pattern|];
    }
  }

  /** How much of a stream the reader holds back: the most that may start a marker still to come. */
  function Keep(size: nat, pattern: seq<Byte>): (r: nat)
    ensures r <= size
  {
    var most := if pattern == [] then 0 else |pattern| - 1;
    if size < most then size else most
  }

  /** What has been flushed plus what is held back is all that came, none of it a marker. */
  ghost predicate Carrying(flushed: seq<Byte>, carry: seq<Byte>, stream: seq<Byte>, pattern: seq<Byte>)
  {
    && flushed + carry == stream
    && |carry| == Keep(|stream|, pattern)
    && (stream == [] || !Occurs(stream, pattern))
  }

  /** A marker that starts in what was flushed would have been there before. */
  lemma NotInFlushed(flushed: seq<Byte>, carry: seq<Byte>, stream: seq<Byte>, pattern: seq<Byte>, fresh': seq<Byte>, j: nat)
    requires Carrying(flushed, carry, stream, pattern) && j < |flushed|
    ensures !OccursAt(stream + fresh', pattern, j)
  {
    OccursInFront(stream, fresh', pattern, j);
    hide OccursAt;
    assert j + |pattern| <= |stream|;
  }

  lemma OccursInPart(flushed: seq<Byte>, carry: seq<Byte>, stream: seq<Byte>, pattern: seq<Byte>, fresh': seq<Byte>, j: nat)
    requires flushed + carry == stream && j >= |flushed|
    ensures OccursAt(stream + fresh', pattern, j) <==> OccursAt(carry + fresh', pattern, j - |flushed|)
  {
    Regroup(flushed, carry, fresh');
    OccursBehind(flushed, carry + fresh', pattern, j);
  }

  lemma FirstInPart(flushed: seq<Byte>, carry: seq<Byte>, stream: seq<Byte>, pattern: seq<Byte>, fresh': seq<Byte>, k: nat)
    requires Carrying(flushed, carry, stream, pattern) && FirstAt(carry + fresh', pattern, k)
    ensures FirstAt(stream + fresh', pattern, |flushed| + k)
  {
    hide Carrying, OccursAt;
    assert flushed + carry == stream by { CarryingParts(flushed, carry, stream, pattern); }
    OccursInPart(flushed, carry, stream, pattern, fresh', |flushed| + k);
    forall j | 0 <= j < |flushed| + k ensures !OccursAt(stream + fresh', pattern, j) {
      if j < |flushed| {
        NotInFlushed(flushed, carry, stream, pattern, fresh', j);
      } else {
        OccursInPart(flushed, carry, stream, pattern, fresh', j);
      }
    }
  }

  lemma CarryingParts(flushed: seq<Byte>, carry: seq<Byte>, stream: seq<Byte>, pattern: seq<Byte>)
    requires Carrying(flushed, carry, stream, pattern)
    ensures flushed + carry == stream
  {
  }

  /** Searching only the held-back bytes and the new ones finds what a search of everything finds. */
  lemma CarryFindsTheSame(flushed: seq<Byte>, carry: seq<Byte>, stream: seq<Byte>, pattern: seq<Byte>, fresh': seq<Byte>)
    requires Carrying(flushed, carry, stream, pattern)
    ensures Find(stream + fresh', pattern).Some? <==> Find(carry + fresh', pattern).Some?
    ensures Find(carry + fresh', pattern).Some? ==>
              (stream + fresh')[..Find(stream + fresh', pattern).value]
              == flushed + (carry + fresh')[..Find(carry + fresh', pattern).value]
  {
    var all, part := stream + fresh', carry + fresh';
    CarryingParts(flushed, carry, stream, pattern);
    Regroup(flushed, carry, fresh');
    match Find(part, pattern)
    case Some(k) =>
      assert OccursAt(part, pattern, k) && k <= |part|;
      hide Carrying, OccursAt;
      FirstInPart(flushed, carry, stream, pattern, fresh', k);
      assert Occurs(all, pattern);
      FirstIsUnique(all, pattern, Find(all, pattern).value, |flushed| + k);
      assert (flushed + part)[..|flushed| + k] == flushed + part[..k];
    case None =>
      if i: nat :| OccursAt(all, pattern, i) {
        if i < |flushed| {
          NotInFlushed(flushed, carry, stream, pattern, fresh', i);
        } else {
          OccursInPart(flushed, carry, stream, pattern, fresh', i);
        }
      }
  }

  // ----- The bounded output -----

  /** At most the first MAX_OUTPUT bytes. */
  function Bounded(data: seq<Byte>): (r: seq<Byte>)
    ensures r <= data && |r| <= MAX_OUTPUT && (r == data <==> |data| <= MAX_OUTPUT)
  {
    if |data| <= MAX_OUTPUT then data else data[..MAX_OUTPUT]
  }

  /** What a user gets to see of the bytes before the marker. */
  function Shown(data: seq<Byte>, notice: seq<Byte>): (r: seq<Byte>)
    ensures |r| <= MAX_OUTPUT
    ensures |data| <= MAX_OUTPUT ==> r == data
    ensures |data| > MAX_OUTPUT ==> |r| == MAX_OUTPUT
    ensures |data| > MAX_OUTPUT && |notice| + 1 < MAX_OUTPUT ==>
              r[MAX_OUTPUT - |notice|..] == notice && r[..MAX_OUTPUT - |notice| - 1] <= data
  {
    var suffix := [NEWLINE] + notice;
    if |data| <= MAX_OUTPUT then data
    else if |suffix| >= MAX_OUTPUT then suffix[..MAX_OUTPUT]
    else
      var cut := data[..MAX_OUTPUT - |suffix|] + suffix;
      assert cut[MAX_OUTPUT - |notice|..] == notice;
      assert cut[..MAX_OUTPUT - |notice| - 1] == data[..MAX_OUTPUT - |suffix|];
      cut
  }

  method AppendLimited(output: seq<Byte>, data: seq<Byte>, truncated: bool, ghost flushed: seq<Byte>)
    returns (output': seq<Byte>, truncated': bool)
    requires output == Bounded(flushed) && truncated == (|flushed| > MAX_OUTPUT)
    ensures output' == Bounded(flushed + data) && truncated' == (|flushed + data| > MAX_OUTPUT)
  {
    var available := if |output| < MAX_OUTPUT then MAX_OUTPUT - |output| else 0;
    var copied := if available < |data| then available else |data|;
    output' := output + data[..copied];
    truncated' := truncated || copied != |data|;
  }

  method CutForNotice(output: seq<Byte>, truncated: bool, notice: seq<Byte>, ghost data: seq<Byte>)
    returns (shown: seq<Byte>)
    requires output == Bounded(data) && truncated == (|data| > MAX_OUTPUT)
    ensures shown == Shown(data, notice)
  {
    shown := output;
    if truncated {
      var suffix := [NEWLINE] + notice;
      if |suffix| >= MAX_OUTPUT {
        shown := suffix[..MAX_OUTPUT];
      } else {
        var room := MAX_OUTPUT - |suffix|;
        shown := shown[..if |shown| < room then |shown| else room] + suffix;
      }
    }
  }

  // ----- What a script delivers -----

  /** The chunks that one readable poll and then `after` deliver, unless an answer ends the loop. */
  function Round(answers: seq<Read>, hangup: bool, after: seq<Chunk>): seq<Chunk>
  {
    if answers == [] then if hangup then [] else after
    else match answers[0]
      case Interrupted => Round(answers[1..], hangup, after)
      case Failed => []
      case Stopped => []
      case Data(bytes, late) =>
        if bytes == [] then [] else [Chunk(bytes, late)] + Round(answers[1..], false, after)
  }

  /** Every chunk that a script delivers before the first answer that ends the loop. */
  function Delivered(polls: seq<Poll>): seq<Chunk>
  {
    if polls == [] then []
    else match polls[0]
      case Expired => []
      case Broken => []
      case Idle => Delivered(polls[1..])
      case Ready(answers, hangup) => Round(answers, hangup, Delivered(polls[1..]))
  }

  /** Answers after which a read is tried again. */
  predicate Quiet(answers: seq<Read>)
  {
    forall i :: 0 <= i < |answers| ==> answers[i].Interrupted? || (answers[i].Data? && answers[i].bytes != [])
  }

  /** The data among some answers, in order. */
  function DataOf(answers: seq<Read>): seq<Chunk>
  {
    if answers == [] then []
    else (if answers[0].Data? then [Chunk(answers[0].bytes, answers[0].late)] else []) + DataOf(answers[1..])
  }

  /**
   Interruptions are invisible and no data is lost: after quiet answers all their data is delivered and the
   round goes on.
   */
  lemma {:induction false} QuietAnswersDeliver(answers: seq<Read>, more: seq<Read>, hangup: bool, after: seq<Chunk>)
    requires Quiet(answers)
    ensures Round(answers + more, hangup, after)
            == DataOf(answers) + Round(more, hangup && DataOf(answers) == [], after)
    decreases |answers|
  {
    if answers == [] {
      assert answers + more == more;
    } else {
      assert (answers + more)[0] == answers[0] && (answers + more)[1..] == answers[1..] + more;
      assert Quiet(answers[..1]) && answers[..1] == [answers[0]];
      var rest := answers[1..];
      assert Quiet(rest) by {
        assert forall i :: 0 <= i < |rest| ==> rest[i] == answers[i + 1];
      }
      hide Quiet;
      QuietAnswersDeliver(rest, more, hangup && answers[0].Interrupted?, after);
      QuietAnswerFirst(answers[0], rest + more, hangup, after);
    }
  }

  lemma QuietAnswerFirst(answer: Read, more: seq<Read>, hangup: bool, after: seq<Chunk>)
    requires Quiet([answer])
    ensures Round([answer] + more, hangup, after)
            == if answer.Data? then [Chunk(answer.bytes, answer.late)] + Round(more, false, after) else Round(more, hangup, after)
  {
    assert ([answer] + more)[1..] == more && [answer][0] == answer;
  }

  /** Any other answer ends the whole loop. */
  lemma OtherAnswersEnd(answers: seq<Read>, hangup: bool, after: seq<Chunk>)
    requires answers != [] && !Quiet(answers[..1])
    ensures Round(answers, hangup, after) == []
  {
  }

  /** Polls after which the loop goes on: a hang-up is overlooked while there is still data. */
  predicate QuietPolls(polls: seq<Poll>)
  {
    forall i :: 0 <= i < |polls| ==>
      polls[i].Idle? || (polls[i].Ready? && Quiet(polls[i].answers) && (polls[i].hangup ==> DataOf(polls[i].answers) != []))
  }

  lemma NoMoreAnswers(after: seq<Chunk>)
    ensures Round([], false, after) == after
  {
  }

  function AllData(polls: seq<Poll>): seq<Chunk>
  {
    if polls == [] then [] else (if polls[0].Ready? then DataOf(polls[0].answers) else []) + AllData(polls[1..])
  }

  /** After quiet polls all their data is delivered and the loop goes on; a deadline, a stop or a broken pipe ends it. */
  lemma {:induction false} QuietPollsDeliver(polls: seq<Poll>, more: seq<Poll>)
    requires QuietPolls(polls)
    ensures Delivered(polls + more) == AllData(polls) + Delivered(more)
    ensures more != [] && (more[0].Expired? || more[0].Broken?) ==> Delivered(polls + more) == AllData(polls)
    decreases |polls|
  {
    if polls == [] {
      assert polls + more == more;
    } else {
      assert (polls + more)[0] == polls[0] && (polls + more)[1..] == polls[1..] + more;
      assert QuietPolls([polls[0]]) && QuietPolls(polls[1..]) by {
        assert forall i :: 0 <= i < |polls| - 1 ==> polls[1..][i] == polls[i + 1];
      }
      hide Quiet, Round, DataOf;
      QuietPollsDeliver(polls[1..], more);
      if polls[0].Ready? {
        var answers := polls[0].answers;
        var after := Delivered(polls[1..] + more);
        QuietAnswersDeliver(answers, [], polls[0].hangup, after);
        assert answers + [] == answers;
        NoMoreAnswers(after);
        Regroup(DataOf(answers), AllData(polls[1..]), Delivered(more));
      }
    }
  }

  function Join(chunks: seq<Chunk>): seq<Byte>
  {
    if chunks == [] then [] else chunks[0].bytes + Join(chunks[1..])
  }

  lemma {:induction false} JoinConcat(a: seq<Chunk>, b: seq<Chunk>)
    ensures Join(a + b) == Join(a) + Join(b)
  {
    if a == [] {
      assert a + b == b;
    } else {
      var rest := a[1..] + b;
      JoinConcat(a[1..], b);
      assert (a + b)[0] == a[0] && (a + b)[1..] == rest;
      Regroup(a[0].bytes, Join(a[1..]), Join(b));
    }
  }

  lemma JoinAppend(a: seq<Chunk>, c: Chunk)
    ensures Join(a + [c]) == Join(a) + c.bytes
  {
    JoinConcat(a, [c]);
    assert Join([c]) == c.bytes;
  }

  /** The reference: the whole stream is searched again after every chunk, with no carry. */
  function Outcome(stream: seq<Byte>, chunks: seq<Chunk>, marker: seq<Byte>, notice: seq<Byte>): Option<seq<Byte>>
    decreases |chunks|
  {
    if chunks == [] then None
    else
      var all := stream + chunks[0].bytes;
      match Find(all, marker)
      case Some(i) => if chunks[0].late then None else Some(Shown(all[..i], notice))
      case None => Outcome(all, chunks[1..], marker, notice)
  }

  lemma OutcomeStep(stream: seq<Byte>, c: Chunk, more: seq<Chunk>, marker: seq<Byte>, notice: seq<Byte>)
    ensures
      var all := stream + c.bytes;
      Outcome(stream, [c] + more, marker, notice) ==
      match Find(all, marker)
      case Some(i) => if c.late then None else Some(Shown(all[..i], notice))
      case None => Outcome(all, more, marker, notice)
  {
    assert ([c] + more)[1..] == more;
  }

  // ----- The reader -----

  datatype Buffers = Buffers(output: seq<Byte>, carry: seq<Byte>, truncated: bool)

  /** Nothing was found in the bytes so far; output and carry hold them, output only as far as it may. */
  ghost predicate Reading(seen: seq<Chunk>, flushed: seq<Byte>, b: Buffers, marker: seq<Byte>)
  {
    && Carrying(flushed, b.carry, Join(seen), marker)
    && b.output == Bounded(flushed)
    && b.truncated == (|flushed| > MAX_OUTPUT)
  }

  /** What is held back after one more chunk without a marker. */
  lemma CarryOn(flushed: seq<Byte>, carry: seq<Byte>, stream: seq<Byte>, pattern: seq<Byte>, bytes: seq<Byte>)
    requires Carrying(flushed, carry, stream, pattern)
    requires !Occurs(stream + bytes, pattern)
    ensures
      var combined := carry + bytes;
      var cut := |combined| - Keep(|combined|, pattern);
      Carrying(flushed + combined[..cut], combined[cut..], stream + bytes, pattern)
  {
    var combined := carry + bytes;
    var cut := |combined| - Keep(|combined|, pattern);
    assert (flushed + combined[..cut]) + combined[cut..] == flushed + combined == stream + bytes;
  }

  /** One successful read. */
  method TakeChunk(b: Buffers, chunk: Chunk, marker: seq<Byte>, notice: seq<Byte>,
                   ghost seen: seq<Chunk>, ghost flushed: seq<Byte>)
    returns (done: bool, r: Option<seq<Byte>>, b': Buffers, ghost flushed': seq<Byte>)
    requires Reading(seen, flushed, b, marker)
    ensures done <==> Occurs(Join(seen) + chunk.bytes, marker)
    ensures done ==>
              var all := Join(seen) + chunk.bytes;
              r == if chunk.late then None else Some(Shown(all[..Find(all, marker).value], notice))
    ensures !done ==> Reading(seen + [chunk], flushed', b', marker)
  {
    ghost var stream := Join(seen);
    CarryFindsTheSame(flushed, b.carry, stream, marker, chunk.bytes);
    JoinAppend(seen, chunk);
    r, b', flushed' := None, b, flushed;
    var combined := b.carry + chunk.bytes;
    match Find(combined, marker) {
      case Some(i) =>
        if chunk.late {
          return true, None, b, flushed;
        }
        var output, truncated := AppendLimited(b.output, combined[..i], b.truncated, flushed);
        var shown := CutForNotice(output, truncated, notice, flushed + combined[..i]);
        return true, Some(shown), b, flushed;
      case None =>
        var keep := Keep(|combined|, marker);
        CarryOn(flushed, b.carry, stream, marker, chunk.bytes);
        var output, truncated := AppendLimited(b.output, combined[..|combined| - keep], b.truncated, flushed);
        return false, None, Buffers(output, combined[|combined| - keep..], truncated), flushed + combined[..|combined| - keep];
    }
  }

  /** The inner loop: reads until the descriptor would block. */
  method ReadAvailable(answers: seq<Read>, hangup: bool, b: Buffers, marker: seq<Byte>, notice: seq<Byte>,
                       ghost seen: seq<Chunk>, ghost flushed: seq<Byte>, ghost after: seq<Chunk>)
    returns (done: bool, r: Option<seq<Byte>>, b': Buffers, ghost seen': seq<Chunk>, ghost flushed': seq<Byte>)
    requires Reading(seen, flushed, b, marker)
    ensures done ==> r == Outcome(Join(seen), Round(answers, hangup, after), marker, notice)
    ensures !done ==> Reading(seen', flushed', b', marker)
                      && Outcome(Join(seen), Round(answers, hangup, after), marker, notice)
                         == Outcome(Join(seen'), after, marker, notice)
  {
    hide Reading, Join, Find, FirstAt;
    done, r, b', seen', flushed' := false, None, b, seen, flushed;
    ghost var expected := Outcome(Join(seen), Round(answers, hangup, after), marker, notice);
    assert answers[0..] == answers;
    var readAny := false;
    var i := 0;
    while i < |answers|
      invariant 0 <= i <= |answers| && !done
      invariant Reading(seen', flushed', b', marker)
      invariant expected == Outcome(Join(seen'), Round(answers[i..], hangup && !readAny, after), marker, notice)
    {
      assert answers[i..][1..] == answers[i + 1..];
      match answers[i] {
        case Interrupted =>
        case Failed => return true, None, b', seen', flushed';
        case Stopped => return true, None, b', seen', flushed';
        case Data(bytes, late) =>
          if bytes == [] {
            return true, None, b', seen', flushed';
          }
          readAny := true;
          var chunk := Chunk(bytes, late);
          OutcomeStep(Join(seen'), chunk, Round(answers[i + 1..], false, after), marker, notice);
          done, r, b', flushed' := TakeChunk(b', chunk, marker, notice, seen', flushed');
          if done {
            return;
          }
          JoinAppend(seen', chunk);
          seen' := seen' + [chunk];
      }
      i := i + 1;
    }
    if !readAny && hangup {
      return true, None, b', seen', flushed';
    }
  }

  /** The reader: whatever the script, the result is that of the whole-stream search. */
  method ReadUntilMarker(polls: seq<Poll>, marker: seq<Byte>, notice: seq<Byte>) returns (r: Option<seq<Byte>>)
    ensures r == Outcome([], Delivered(polls), marker, notice)
  {
    var b := Buffers([], [], false);
    ghost var seen: seq<Chunk>, flushed: seq<Byte> := [], [];
    ghost var expected := Outcome([], Delivered(polls), marker, notice);
    assert polls[0..] == polls;
    var i := 0;
    while i < |polls|
      invariant 0 <= i <= |polls|
      invariant Reading(seen, flushed, b, marker)
      invariant expected == Outcome(Join(seen), Delivered(polls[i..]), marker, notice)
    {
      assert polls[i..][1..] == polls[i + 1..];
      match polls[i] {
        case Expired => return None;
        case Broken => return None;
        case Idle =>
        case Ready(answers, hangup) =>
          var done;
          done, r, b, seen, flushed :=
            ReadAvailable(answers, hangup, b, marker, notice, seen, flushed, Delivered(polls[i + 1..]));
          if done {
            return;
          }
      }
      i := i + 1;
    }
    return None;
  }

  // ----- What the result means -----

  /** The stream once the first k chunks have arrived. */
  function Arrived(stream: seq<Byte>, chunks: seq<Chunk>, k: nat): seq<Byte>
    requires k <= |chunks|
  {
    stream + Join(chunks[..k])
  }

  /** The marker is first complete once chunk k has arrived. */
  ghost predicate Completes(stream: seq<Byte>, chunks: seq<Chunk>, k: int, marker: seq<Byte>)
  {
    && 0 <= k < |chunks|
    && Occurs(Arrived(stream, chunks, k + 1), marker)
    && forall j :: 0 < j <= k ==> !Occurs(Arrived(stream, chunks, j), marker)
  }

  lemma FirstStaysFirst(a: seq<Byte>, b: seq<Byte>, marker: seq<Byte>, i: int)
    requires FirstAt(a, marker, i)
    ensures FirstAt(a + b, marker, i)
  {
    OccursInFront(a, b, marker, i);
    forall j | 0 <= j < i ensures !OccursAt(a + b, marker, j) {
      OccursInFront(a, b, marker, j);
    }
  }

  lemma {:induction false} OutcomeMeaning(stream: seq<Byte>, chunks: seq<Chunk>, marker: seq<Byte>, notice: seq<Byte>)
    ensures Outcome(stream, chunks, marker, notice).Some? ==>
              exists i ::
                && FirstAt(stream + Join(chunks), marker, i)
                && Outcome(stream, chunks, marker, notice).value == Shown((stream + Join(chunks))[..i], notice)
    ensures Outcome(stream, chunks, marker, notice).Some? <==>
              exists k :: Completes(stream, chunks, k, marker) && !chunks[k].late
    decreases |chunks|
  {
    if chunks != [] {
      var all := stream + chunks[0].bytes;
      var rest := Join(chunks[1..]);
      assert stream + Join(chunks) == all + rest;
      ArrivedLater(stream, chunks, 0);
      assert Arrived(all, chunks[1..], 0) == all;
      match Find(all, marker)
      case Some(i) =>
        FirstStaysFirst(all, rest, marker, i);
        assert (all + rest)[..i] == all[..i];
        if !chunks[0].late {
          assert Completes(stream, chunks, 0, marker);
        }
      case None =>
        OutcomeMeaning(all, chunks[1..], marker, notice);
        forall k
          ensures Completes(stream, chunks, k, marker) <==> k > 0 && Completes(all, chunks[1..], k - 1, marker)
        {
          CompletesLater(stream, chunks, k, marker);
        }
        assert forall k :: Completes(all, chunks[1..], k, marker) ==> Completes(stream, chunks, k + 1, marker);
    }
  }

  lemma ArrivedLater(stream: seq<Byte>, chunks: seq<Chunk>, k: nat)
    requires k < |chunks|
    ensures Arrived(stream, chunks, k + 1) == Arrived(stream + chunks[0].bytes, chunks[1..], k)
  {
    assert chunks[..k + 1] == [chunks[0]] + chunks[1..][..k];
    assert Join(chunks[..k + 1]) == chunks[0].bytes + Join(chunks[1..][..k]);
  }

  lemma CompletesLater(stream: seq<Byte>, chunks: seq<Chunk>, k: int, marker: seq<Byte>)
    requires chunks != [] && !Occurs(stream + chunks[0].bytes, marker)
    ensures Completes(stream, chunks, k, marker) <==>
            k > 0 && Completes(stream + chunks[0].bytes, chunks[1..], k - 1, marker)
  {
    var all := stream + chunks[0].bytes;
    assert Arrived(stream, chunks, 1) == all by {
      ArrivedLater(stream, chunks, 0);
    }
    if 0 < k < |chunks| {
      ArrivedLater(stream, chunks, k);
      forall j | 0 < j <= k
        ensures Arrived(stream, chunks, j) == Arrived(all, chunks[1..], j - 1)
      {
        ArrivedLater(stream, chunks, j - 1);
      }
      assert forall j :: 0 < j <= k - 1 ==> Arrived(all, chunks[1..], j) == Arrived(stream, chunks, j + 1);
    }
  }

  lemma FirstInPrefix(s: seq<Byte>, t: seq<Byte>, marker: seq<Byte>, i: nat, j: nat)
    requires s <= t && FirstAt(s, marker, i) && FirstAt(t, marker, j)
    ensures s[..i] == t[..j]
  {
    assert t == s + t[|s|..];
    FirstStaysFirst(s, t[|s|..], marker, i);
    FirstIsUnique(t, marker, i, j);
  }

  /**
   Chunk independence: two scripts that deliver the same bytes, cut up and interleaved with
   idle polls and interruptions in any way, give the same text if both succeed; it is enough
   that one stream starts with the other.
   */
  lemma ChunkIndependence(p: seq<Poll>, q: seq<Poll>, marker: seq<Byte>, notice: seq<Byte>)
    requires Join(Delivered(p)) <= Join(Delivered(q))
    ensures
      var a := Outcome([], Delivered(p), marker, notice);
      var b := Outcome([], Delivered(q), marker, notice);
      a.Some? && b.Some? ==> a == b
  {
    var a := Outcome([], Delivered(p), marker, notice);
    var b := Outcome([], Delivered(q), marker, notice);
    if a.Some? && b.Some? {
      var s, t := Join(Delivered(p)), Join(Delivered(q));
      var i := TextBefore(Delivered(p), marker, notice);
      var j := TextBefore(Delivered(q), marker, notice);
      FirstInPrefix(s, t, marker, i, j);
    }
  }

  lemma TextBefore(chunks: seq<Chunk>, marker: seq<Byte>, notice: seq<Byte>) returns (i: nat)
    requires Outcome([], chunks, marker, notice).Some?
    ensures FirstAt(Join(chunks), marker, i)
    ensures Outcome([], chunks, marker, notice).value == Shown(Join(chunks)[..i], notice)
  {
    OutcomeMeaning([], chunks, marker, notice);
    assert [] + Join(chunks) == Join(chunks);
    i :| FirstAt(Join(chunks), marker, i)
         && Outcome([], chunks, marker, notice).value == Shown(Join(chunks)[..i], notice);
  }

  /** A call that is never late succeeds exactly when the marker is in what was delivered. */
  lemma SucceedsWhenInTime(p: seq<Poll>, marker: seq<Byte>, notice: seq<Byte>)
    requires marker != []
    requires forall c :: c in Delivered(p) ==> !c.late
    ensures Outcome([], Delivered(p), marker, notice).Some? <==> Occurs(Join(Delivered(p)), marker)
  {
    SucceedsInTime([], Delivered(p), marker, notice);
    assert [] + Join(Delivered(p)) == Join(Delivered(p));
  }

  lemma {:induction false} SucceedsInTime(stream: seq<Byte>, chunks: seq<Chunk>, marker: seq<Byte>, notice: seq<Byte>)
    requires marker != [] && !Occurs(stream, marker)
    requires forall c :: c in chunks ==> !c.late
    ensures Outcome(stream, chunks, marker, notice).Some? <==> Occurs(stream + Join(chunks), marker)
    decreases |chunks|
  {
    if chunks == [] {
      assert stream + Join(chunks) == stream;
    } else {
      var all := stream + chunks[0].bytes;
      assert stream + Join(chunks) == all + Join(chunks[1..]);
      match Find(all, marker)
      case Some(i) => FirstStaysFirst(all, Join(chunks[1..]), marker, i);
      case None => SucceedsInTime(all, chunks[1..], marker, notice);
    }
  }

  // ----- Writing the command -----

  datatype Write =
    | Accepted(n: nat)
    | WouldBlock
    | NotYet
    | Refused

  /** How many of `size` bytes a script of writes takes before it is refused, and whether it was cut short. */
  function Taken(writes: seq<Write>, size: nat): (r: nat)
    ensures r <= size
  {
    if size == 0 || writes == [] then 0
    else match writes[0]
      case Refused => 0
      case WouldBlock => Taken(writes[1..], size)
      case NotYet => Taken(writes[1..], size)
      case Accepted(n) =>
        if n == 0 then 0 else if n >= size then size else n + Taken(writes[1..], size - n)
  }

  /** Writes that do not end the loop. */
  predicate Patient(writes: seq<Write>)
  {
    forall i :: 0 <= i < |writes| ==> !writes[i].Refused? && writes[i] != Accepted(0)
  }

  function Sum(writes: seq<Write>): nat
  {
    if writes == [] then 0 else (if writes[0].Accepted? then writes[0].n else 0) + Sum(writes[1..])
  }

  /** Waiting costs nothing: patient writes get rid of all that they accept, and any other one ends the loop. */
  lemma {:induction false} PatientWritesGoOn(writes: seq<Write>, more: seq<Write>, size: nat)
    requires Patient(writes)
    ensures Taken(writes + more, size)
            == if Sum(writes) >= size then size else Sum(writes) + Taken(more, size - Sum(writes))
    ensures more != [] && !Patient(more[..1]) ==>
              Taken(writes + more, size) == if Sum(writes) >= size then size else Sum(writes)
    decreases |writes|
  {
    if writes == [] {
      assert writes + more == more;
    } else {
      assert (writes + more)[0] == writes[0] && (writes + more)[1..] == writes[1..] + more;
      var n := if writes[0].Accepted? then writes[0].n else 0;
      if n < size {
        PatientWritesGoOn(writes[1..], more, size - n);
      }
    }
  }

  /** What reaches the child is the front of the payload, and success means all of it, each byte once. */
  method WriteAll(payload: seq<Byte>, writes: seq<Write>) returns (ok: bool, sent: seq<Byte>)
    ensures sent == payload[..Taken(writes, |payload|)]
    ensures ok <==> sent == payload
  {
    sent := [];
    var offset, i := 0, 0;
    while offset < |payload| && i < |writes|
      invariant 0 <= offset <= |payload| && 0 <= i <= |writes|
      invariant sent == payload[..offset]
      invariant offset + Taken(writes[i..], |payload| - offset) == Taken(writes, |payload|)
    {
      assert writes[i..][1..] == writes[i + 1..];
      match writes[i] {
        case Refused => return false, sent;
        case WouldBlock =>
        case NotYet =>
        case Accepted(n) =>
          if n == 0 {
            return false, sent;
          }
          var taken := if n < |payload| - offset then n else |payload| - offset;
          sent := sent + payload[offset..offset + taken];
          offset := offset + taken;
      }
      i := i + 1;
    }
    return offset == |payload|, sent;
  }
}
