/**
 * The fold over one session log (`parseSessionFile` in
 * server/src/services/claudeCodeService.ts): each line of a JSONL file is decoded,
 * assistant lines that carry a usage object and a request id not yet seen in this
 * file add their four token counters and one message to the file's total.
 */
module SessionLog {
  import opened Wrappers

  /** The `message.usage` object of an assistant line; `None` is a counter that is absent (or falsy). */
  datatype Usage = Usage(
    inputTokens: Option<int>,
    outputTokens: Option<int>,
    cacheCreationInputTokens: Option<int>,
    cacheReadInputTokens: Option<int>)

  /**
   * One line of a session log, already decoded. `Malformed` is a line on which
   * `JSON.parse` (or the field access after it) throws. `requestId` is `None` when
   * the field is absent.
   */
  datatype Line =
    | Malformed
    | Entry(entryType: string, usage: Option<Usage>, requestId: Option<string>)

  /**
   * A session log as the reader sees it: its lines and, optionally, the index of
   * the line whose read fails (a failure to open the file is a failure at 0).
   */
  datatype SessionFile = SessionFile(lines: seq<Line>, readFailure: Option<nat>)

  /** The per-file accumulator `SessionUsage`, also used for the live total. */
  datatype SessionUsage = SessionUsage(
    inputTokens: int,
    outputTokens: int,
    cacheCreationTokens: int,
    cacheReadTokens: int,
    messageCount: nat)

  const Zero := SessionUsage(0, 0, 0, 0, 0)

  /** Counter-wise sum of two totals. */
  function Plus(a: SessionUsage, b: SessionUsage): SessionUsage
  {
    SessionUsage(
      a.inputTokens + b.inputTokens,
      a.outputTokens + b.outputTokens,
      a.cacheCreationTokens + b.cacheCreationTokens,
      a.cacheReadTokens + b.cacheReadTokens,
      a.messageCount + b.messageCount)
  }

  /**
   * The request id under which a line is a candidate for counting: the line decodes,
   * its type is "assistant", it has a usage object and a truthy (non-empty) request id.
   */
  function CountedId(line: Line): Option<string>
  {
    if line.Entry? && line.entryType == "assistant" && line.usage.Some?
       && line.requestId.Some? && line.requestId.value != ""
    then Some(line.requestId.value)
    else None
  }

  /** What one counted line adds: its four counters, each missing one as 0, and one message. */
  function Contribution(u: Usage): SessionUsage
  {
    SessionUsage(
      u.inputTokens.GetOr(0),
      u.outputTokens.GetOr(0),
      u.cacheCreationInputTokens.GetOr(0),
      u.cacheReadInputTokens.GetOr(0),
      1)
  }

  /** The fold's state: the request ids seen so far in this file and the running total. */
  datatype FoldState = FoldState(seen: set<string>, usage: SessionUsage)

  function Step(st: FoldState, line: Line): FoldState
  {
    match CountedId(line)
    case None => st
    case Some(id) =>
      if id in st.seen then st
      else FoldState(st.seen + {id}, Plus(st.usage, Contribution(line.usage.value)))
  }

  /** The fold over a sequence of lines, starting from a fresh seen-set and a zero total. */
  function Scan(lines: seq<Line>): FoldState
  {
    if lines == [] then FoldState({}, Zero)
    else Step(Scan(lines[..|lines| - 1]), lines[|lines| - 1])
  }

  function SessionTotal(lines: seq<Line>): SessionUsage
  {
    Scan(lines).usage
  }

  /** The lines read before the read failure, if any. */
  function ReadableLines(file: SessionFile): seq<Line>
  {
    match file.readFailure
    case None => file.lines
    case Some(k) => if k < |file.lines| then file.lines[..k] else file.lines
  }

  /**
   * `parseSessionFile`: walks the lines with a fresh seen-set, skips malformed lines,
   * and on a read failure returns what it has accumulated so far.
   */
  method ParseSessionFile(file: SessionFile) returns (usage: SessionUsage)
    ensures usage == SessionTotal(ReadableLines(file))
  {
    usage := SessionUsage(0, 0, 0, 0, 0);
    var seenMessages: set<string> := {};
    ghost var readable := ReadableLines(file);
    var i := 0;
    while i < |file.lines|
      invariant i <= |readable| && readable <= file.lines
      invariant Scan(file.lines[..i]) == FoldState(seenMessages, usage)
    {
      if file.readFailure == Some(i) {
        break;
      }
      assert file.lines[..i + 1][..i] == file.lines[..i];
      assert Scan(file.lines[..i + 1]) == Step(Scan(file.lines[..i]), file.lines[i]);
      match file.lines[i] {
        case Malformed =>
        case Entry(entryType, msgUsage, requestId) =>
          if entryType == "assistant" && msgUsage.Some? {
            if requestId.Some? && requestId.value != "" && requestId.value !in seenMessages {
              seenMessages := seenMessages + {requestId.value};
              var u := msgUsage.value;
              usage := usage.(inputTokens := usage.inputTokens + u.inputTokens.GetOr(0));
              usage := usage.(outputTokens := usage.outputTokens + u.outputTokens.GetOr(0));
              usage := usage.(cacheCreationTokens := usage.cacheCreationTokens + u.cacheCreationInputTokens.GetOr(0));
              usage := usage.(cacheReadTokens := usage.cacheReadTokens + u.cacheReadInputTokens.GetOr(0));
              usage := usage.(messageCount := usage.messageCount + 1);
            }
          }
      }
      i := i + 1;
    }
    assert file.lines[..i] == readable;
  }

  /** The distinct request ids of the candidate lines of a file. */
  ghost function CountedIds(lines: seq<Line>): set<string>
  {
    set i | 0 <= i < |lines| && CountedId(lines[i]).Some? :: CountedId(lines[i]).value
  }

  lemma {:induction false} CountedIdsSnoc(lines: seq<Line>)
    requires lines != []
    ensures var n := |lines| - 1;
            CountedIds(lines) == CountedIds(lines[..n]) + (if CountedId(lines[n]).Some? then {CountedId(lines[n]).value} else {})
  {
    var n := |lines| - 1;
    var extra := if CountedId(lines[n]).Some? then {CountedId(lines[n]).value} else {};
    forall id | id in CountedIds(lines)
      ensures id in CountedIds(lines[..n]) + extra
    {
      var i :| 0 <= i < |lines| && CountedId(lines[i]).Some? && CountedId(lines[i]).value == id;
      if i < n {
        assert lines[..n][i] == lines[i];
      }
    }
    forall id | id in CountedIds(lines[..n])
      ensures id in CountedIds(lines)
    {
      var i :| 0 <= i < n && CountedId(lines[..n][i]).Some? && CountedId(lines[..n][i]).value == id;
      assert lines[..n][i] == lines[i];
    }
  }

  /** The seen-set after the fold holds exactly the counted ids, and there is one message per id. */
  lemma {:induction false} ScanSeenIsCountedIds(lines: seq<Line>)
    ensures Scan(lines).seen == CountedIds(lines)
    ensures Scan(lines).usage.messageCount == |Scan(lines).seen|
  {
    if lines != [] {
      ScanSeenIsCountedIds(lines[..|lines| - 1]);
      CountedIdsSnoc(lines);
    }
  }

  /** `messageCount` is the number of distinct request ids among the candidate lines. */
  lemma MessageCountIsDistinctIds(lines: seq<Line>)
    ensures SessionTotal(lines).messageCount == |CountedIds(lines)|
  {
    ScanSeenIsCountedIds(lines);
  }

  /** Line `i` is counted: it is a candidate and no earlier line carries the same request id. */
  predicate FirstOccurrence(lines: seq<Line>, i: nat)
    requires i < |lines|
  {
    CountedId(lines[i]).Some? && forall j :: 0 <= j < i ==> CountedId(lines[j]) != CountedId(lines[i])
  }

  /** Reference total: the contributions of the lines that first carry their request id. */
  function FirstOccurrenceTotal(lines: seq<Line>): SessionUsage
  {
    if lines == [] then Zero
    else
      var n := |lines| - 1;
      Plus(FirstOccurrenceTotal(lines[..n]),
           if FirstOccurrence(lines, n) then Contribution(lines[n].usage.value) else Zero)
  }

  /** For a candidate last line: its id was seen before exactly when it is not a first occurrence. */
  lemma {:induction false} SeenBeforeIffRepeated(lines: seq<Line>)
    requires lines != [] && CountedId(lines[|lines| - 1]).Some?
    ensures var n := |lines| - 1;
            CountedId(lines[n]).value in CountedIds(lines[..n]) <==> !FirstOccurrence(lines, n)
  {
    var n := |lines| - 1;
    var prefix := lines[..n];
    var id := CountedId(lines[n]).value;
    if id in CountedIds(prefix) {
      var j :| 0 <= j < n && CountedId(prefix[j]).Some? && CountedId(prefix[j]).value == id;
      assert prefix[j] == lines[j];
    } else {
      forall j | 0 <= j < n
        ensures CountedId(lines[j]) != CountedId(lines[n])
      {
        assert prefix[j] == lines[j];
      }
    }
  }

  /** The fold counts each request id once, with the counters of its first line. */
  lemma {:induction false} SessionTotalIsFirstOccurrenceTotal(lines: seq<Line>)
    ensures SessionTotal(lines) == FirstOccurrenceTotal(lines)
  {
    if lines != [] {
      var n := |lines| - 1;
      var prefix := lines[..n];
      SessionTotalIsFirstOccurrenceTotal(prefix);
      ScanSeenIsCountedIds(prefix);
      if CountedId(lines[n]).Some? {
        SeenBeforeIffRepeated(lines);
      }
    }
  }

  /**
   * A line that is not a candidate (malformed, not "assistant", no usage, no or empty
   * request id), or whose request id was already counted earlier in the file,
   * leaves the fold unchanged wherever it stands.
   */
  lemma {:induction false} IgnoredLineAnywhere(a: seq<Line>, line: Line, b: seq<Line>)
    requires CountedId(line).None? || CountedId(line).value in CountedIds(a)
    ensures Scan(a + [line] + b) == Scan(a + b)
    decreases |b|
  {
    if b == [] {
      assert a + [line] + b == a + [line];
      assert (a + [line])[..|a|] == a;
      assert a + b == a;
      ScanSeenIsCountedIds(a);
    } else {
      var m := |b| - 1;
      IgnoredLineAnywhere(a, line, b[..m]);
      assert (a + [line] + b)[..|a + [line] + b| - 1] == a + [line] + b[..m];
      assert (a + b)[..|a + b| - 1] == a + b[..m];
    }
  }

  /** A usage line without a truthy request id contributes nothing. */
  lemma UsageLineWithoutRequestIdIgnored(a: seq<Line>, u: Usage, requestId: Option<string>, b: seq<Line>)
    requires requestId == None || requestId == Some("")
    ensures SessionTotal(a + [Entry("assistant", Some(u), requestId)] + b) == SessionTotal(a + b)
  {
    IgnoredLineAnywhere(a, Entry("assistant", Some(u), requestId), b);
  }

  /** A second line with an already counted request id contributes nothing, whatever its counters. */
  lemma RepeatedRequestIdIgnored(a: seq<Line>, line: Line, b: seq<Line>)
    requires CountedId(line).Some?
    requires exists i :: 0 <= i < |a| && CountedId(a[i]) == CountedId(line)
    ensures SessionTotal(a + [line] + b) == SessionTotal(a + b)
  {
    IgnoredLineAnywhere(a, line, b);
  }

  /** A file holding one candidate line totals that line's contribution. */
  lemma SingleLineTotal(line: Line)
    requires CountedId(line).Some?
    ensures SessionTotal([line]) == Contribution(line.usage.value)
  {
    assert [line][..0] == [];
    var c := Contribution(line.usage.value);
    assert Scan([line]) == Step(FoldState({}, Zero), line);
    assert Step(FoldState({}, Zero), line).usage == Plus(Zero, c);
    assert Plus(Zero, c) == c;
  }

  /** Two streamed copies of one counted request with {in:10, out:5} count once. */
  lemma DuplicateRequestCountedOnce(line: Line)
    requires CountedId(line).Some? && line.usage == Some(Usage(Some(10), Some(5), None, None))
    ensures SessionTotal([line, line]) == SessionUsage(10, 5, 0, 0, 1)
  {
    assert CountedId([line][0]).Some?;
    IgnoredLineAnywhere([line], line, []);
    assert [line] + [line] + [] == [line, line];
    assert [line] + [] == [line];
    SingleLineTotal(line);
  }

  predicate NonNegativeCounters(line: Line)
  {
    line.Entry? && line.usage.Some? ==>
      var u := line.usage.value;
      u.inputTokens.GetOr(0) >= 0 && u.outputTokens.GetOr(0) >= 0
      && u.cacheCreationInputTokens.GetOr(0) >= 0 && u.cacheReadInputTokens.GetOr(0) >= 0
  }

  predicate NonNegativeUsage(u: SessionUsage)
  {
    u.inputTokens >= 0 && u.outputTokens >= 0 && u.cacheCreationTokens >= 0 && u.cacheReadTokens >= 0
  }

  /** With no negative counter in the file, the file's total has no negative counter. */
  lemma {:induction false} NonNegativeTotal(lines: seq<Line>)
    requires forall i :: 0 <= i < |lines| ==> NonNegativeCounters(lines[i])
    ensures NonNegativeUsage(SessionTotal(lines))
  {
    if lines != [] {
      var n := |lines| - 1;
      assert forall i :: 0 <= i < n ==> lines[..n][i] == lines[i];
      NonNegativeTotal(lines[..n]);
      assert NonNegativeCounters(lines[n]);
    }
  }

  /** The lines read before a failure are a prefix of the file, so they keep its counters' signs. */
  lemma NonNegativeReadable(file: SessionFile)
    requires forall i :: 0 <= i < |file.lines| ==> NonNegativeCounters(file.lines[i])
    ensures NonNegativeUsage(SessionTotal(ReadableLines(file)))
  {
    var readable := ReadableLines(file);
    assert forall i :: 0 <= i < |readable| ==> readable[i] == file.lines[i];
    NonNegativeTotal(readable);
  }

  /** A read failure can only lose messages: the partial count never exceeds the full file's. */
  lemma ReadFailureNeverOvercounts(file: SessionFile)
    ensures SessionTotal(ReadableLines(file)).messageCount <= SessionTotal(file.lines).messageCount
  {
    var readable := ReadableLines(file);
    MessageCountIsDistinctIds(readable);
    MessageCountIsDistinctIds(file.lines);
    assert readable <= file.lines;
    forall id | id in CountedIds(readable)
      ensures id in CountedIds(file.lines)
    {
      var i :| 0 <= i < |readable| && CountedId(readable[i]).Some? && CountedId(readable[i]).value == id;
      assert readable[i] == file.lines[i];
    }
    SubsetCardinality(CountedIds(readable), CountedIds(file.lines));
  }

  lemma {:induction false} SubsetCardinality<T>(a: set<T>, b: set<T>)
    requires a <= b
    ensures |a| <= |b|
    decreases |a|
  {
    if a != {} {
      var x :| x in a;
      SubsetCardinality(a - {x}, b - {x});
    }
  }
}
