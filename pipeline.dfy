/**
 * What one run of an agent does, as values: the scripted log messages, the page's
 * optional elements, the events a run produces in order (delays, log lines, stage and
 * connector marks, status, results), and the properties of that event sequence.
 * The agent class (module Agent) is proved to produce exactly these sequences.
 */
module Pipeline {
  import opened Wrappers

  /** One scripted log line: the stage it belongs to, its tag, its text and its optional delay. */
  datatype LogMessage = LogMessage(step: int, tag: string, text: string, delay: Option<int>)

  /** One entry of the live log (the wall-clock timestamp is not modelled). */
  datatype LogEntry = LogEntry(tag: string, text: string)

  /** What the page offers: the optional elements the agent looks up and checks before use. */
  datatype Page = Page(
    hasLiveLog: bool,    // #liveLog
    stepIcons: nat,      // .pipeline-step elements, each with its .step-icon
    connectors: nat,     // .step-connector elements
    hasStatus: bool,     // .processing-status
    hasResults: bool,    // #resultsSection
    insightCards: nat    // .insight-card elements
  )

  /** The observable effects of a run, in the order they happen. */
  datatype Event =
    | Delay(ms: int)                          // an awaited AgentUtils.delay(ms)
    | Log(tag: string, text: string)          // an entry appended to the live log
    | StageActive(stage: nat)                 // stage icon gets 'active'
    | StageCompleted(stage: nat)              // stage icon loses 'active', gets 'completed'
    | Connector(stage: nat)                   // connector after the stage gets 'completed'
    | StatusComplete                          // status indicator set to "Complete"
    | ResultsRevealed                         // results section shown
    | MetricsAnimated                         // the animateMetrics hook called
    | InsightScheduled(card: nat, offsetMs: nat)  // insight card reveal scheduled
    | ChartsCalled                            // the createCharts hook called

  const DefaultMessageDelay: int := 400
  const StageCompletionDelay: int := 800
  const ResultsDelay: int := 500
  const InsightStagger: nat := 300

  /** `msg.delay || 400`: an absent or zero delay becomes 400, any other value is kept. */
  function DelayOf(m: LogMessage): (ms: int)
    ensures ms != 0
    ensures ms == DefaultMessageDelay || m.delay == Some(ms)
    ensures m.delay.Some? && m.delay.value != 0 ==> ms == m.delay.value
  {
    match m.delay
    case None => DefaultMessageDelay
    case Some(d) => if d == 0 then DefaultMessageDelay else d
  }

  /**
   * `logMessages.filter(m => m.step === i)`: exactly the messages of stage i are kept.
   * They keep their declared order (StageMessagesAppend, StageMessagesPrefixStep).
   */
  function StageMessages(msgs: seq<LogMessage>, i: int): (r: seq<LogMessage>)
    ensures |r| <= |msgs|
    ensures forall k :: 0 <= k < |r| ==> r[k].step == i
    ensures forall m :: m in r <==> m in msgs && m.step == i
  {
    if msgs == [] then []
    else (if msgs[0].step == i then [msgs[0]] else []) + StageMessages(msgs[1..], i)
  }

  /** The messages whose stage lies in [0, n), in declared order. */
  function InRange(msgs: seq<LogMessage>, n: nat): seq<LogMessage> {
    if msgs == [] then []
    else (if 0 <= msgs[0].step < n then [msgs[0]] else []) + InRange(msgs[1..], n)
  }

  /** The messages in the order a run of n stages emits them: stage 0's, then stage 1's, ... */
  function Script(msgs: seq<LogMessage>, n: nat): seq<LogMessage> {
    if n == 0 then [] else Script(msgs, n - 1) + StageMessages(msgs, n - 1)
  }

  /** The log entries for a sequence of messages: entry k carries message k's tag and text. */
  function Entries(ms: seq<LogMessage>): (r: seq<LogEntry>)
    ensures |r| == |ms|
    ensures forall k :: 0 <= k < |ms| ==> r[k] == LogEntry(ms[k].tag, ms[k].text)
  {
    if ms == [] then [] else Entries(ms[..|ms| - 1]) + [LogEntry(ms[|ms| - 1].tag, ms[|ms| - 1].text)]
  }

  /** The entries a run of n stages appends to the live log (none without a live log). */
  function PipelineLog(msgs: seq<LogMessage>, n: nat, page: Page): seq<LogEntry> {
    if page.hasLiveLog then Entries(Script(msgs, n)) else []
  }

  /** One message: its delay, then its log line if the page has a live log. */
  function MessageStep(m: LogMessage, live: bool): seq<Event> {
    [Delay(DelayOf(m))] + (if live then [Log(m.tag, m.text)] else [])
  }

  /** The messages of one stage, one after another. */
  function MessageTrace(ms: seq<LogMessage>, live: bool): seq<Event> {
    if ms == [] then [] else MessageTrace(ms[..|ms| - 1], live) + MessageStep(ms[|ms| - 1], live)
  }

  /** Marking stage i active, when its icon exists. */
  function StageOpen(i: nat, page: Page): seq<Event> {
    if i < page.stepIcons then [StageActive(i)] else []
  }

  /** Marking stage i completed and then its connector, each when the element exists. */
  function StageClose(i: nat, page: Page): seq<Event> {
    (if i < page.stepIcons then [StageCompleted(i)] else [])
    + (if i < page.connectors then [Connector(i)] else [])
  }

  /** One iteration of the stage loop over the stage's messages `ms`: mark active, the messages, the 800 ms wait, mark completed. */
  function StageOf(i: nat, ms: seq<LogMessage>, page: Page): seq<Event> {
    StageOpen(i, page) + MessageTrace(ms, page.hasLiveLog) + [Delay(StageCompletionDelay)] + StageClose(i, page)
  }

  /** One iteration of the stage loop. */
  function StageTrace(msgs: seq<LogMessage>, i: nat, page: Page): seq<Event> {
    StageOf(i, StageMessages(msgs, i), page)
  }

  /** The first n iterations of the stage loop. */
  function StagesTrace(msgs: seq<LogMessage>, n: nat, page: Page): seq<Event> {
    if n == 0 then [] else StagesTrace(msgs, n - 1, page) + StageTrace(msgs, n - 1, page)
  }

  /** The status update after the loop, when the indicator exists. */
  function StatusTrace(page: Page): seq<Event> {
    if page.hasStatus then [StatusComplete] else []
  }

  /** Everything runPipeline does for n stages. */
  function PipelineTrace(msgs: seq<LogMessage>, n: nat, page: Page): seq<Event> {
    StagesTrace(msgs, n, page) + StatusTrace(page)
  }

  /** The reveals scheduled for the first k insight cards. */
  function InsightTrace(k: nat): seq<Event> {
    if k == 0 then [] else InsightTrace(k - 1) + [InsightScheduled(k - 1, InsightStagger * (k - 1))]
  }

  /** Everything showResults does. */
  function ResultsTrace(page: Page): seq<Event> {
    (if page.hasResults then [ResultsRevealed] else [])
    + [MetricsAnimated]
    + InsightTrace(page.insightCards)
    + [ChartsCalled]
  }

  /** Everything a started run does, after the guard has let it through. */
  function RunTrace(msgs: seq<LogMessage>, n: nat, page: Page): seq<Event> {
    PipelineTrace(msgs, n, page) + [Delay(ResultsDelay)] + ResultsTrace(page)
  }

  // ---------------------------------------------------------------------------
  // Observations of an event sequence

  /** The total time an event sequence waits. */
  function TotalDelay(t: seq<Event>): int {
    if t == [] then 0 else TotalDelay(t[..|t| - 1]) + (if t[|t| - 1].Delay? then t[|t| - 1].ms else 0)
  }

  predicate IsStageMark(e: Event) {
    e.StageActive? || e.StageCompleted?
  }

  /** The stage marks of an event sequence, in order. */
  function StageMarks(t: seq<Event>): seq<Event> {
    if t == [] then [] else StageMarks(t[..|t| - 1]) + (if IsStageMark(t[|t| - 1]) then [t[|t| - 1]] else [])
  }

  /** The connector marks of an event sequence, in order. */
  function ConnectorMarks(t: seq<Event>): seq<Event> {
    if t == [] then [] else ConnectorMarks(t[..|t| - 1]) + (if t[|t| - 1].Connector? then [t[|t| - 1]] else [])
  }

  /** The sum of the delays that precede the given messages. */
  function SumDelays(ms: seq<LogMessage>): int {
    if ms == [] then 0 else DelayOf(ms[0]) + SumDelays(ms[1..])
  }

  /** Reference order of stage marks: active 0, completed 0, active 1, completed 1, ... up to k. */
  function Alternating(k: nat): (r: seq<Event>)
    ensures |r| == 2 * k
  {
    seq(2 * k, j requires 0 <= j < 2 * k => if j % 2 == 0 then StageActive(j / 2) else StageCompleted(j / 2))
  }

  /** Reference order of connector marks: connector 0, 1, ..., k - 1. */
  function ConnectorsUpTo(k: nat): (r: seq<Event>)
    ensures |r| == k
  {
    seq(k, j requires 0 <= j < k => Connector(j))
  }

  /** Events that belong to the stage loop. */
  predicate IsStageWork(e: Event) {
    e.Log? || e.StageActive? || e.StageCompleted? || e.Connector?
  }

  /** Events that belong to finishing a run: the status and everything showResults does. */
  predicate IsFinishing(e: Event) {
    e.StatusComplete? || e.ResultsRevealed? || e.MetricsAnimated? || e.InsightScheduled? || e.ChartsCalled?
  }

  function Min(a: nat, b: nat): nat {
    if a <= b then a else b
  }

  // ---------------------------------------------------------------------------
  // The order in which messages are emitted

  /** No stage lies in [0, 0). */
  lemma {:induction false} InRangeZero(msgs: seq<LogMessage>)
    ensures InRange(msgs, 0) == []
  {
    if msgs != [] {
      InRangeZero(msgs[1..]);
    }
  }

  /** A run of no stages emits what lies in the empty range: nothing. */
  lemma ScriptZero(msgs: seq<LogMessage>)
    ensures Script(msgs, 0) == InRange(msgs, 0) == []
  {
    InRangeZero(msgs);
  }

  lemma {:induction false} InRangeStep(msgs: seq<LogMessage>, n: nat)
    ensures multiset(InRange(msgs, n + 1)) == multiset(InRange(msgs, n)) + multiset(StageMessages(msgs, n))
  {
    if msgs != [] {
      var m, rest := msgs[0], msgs[1..];
      InRangeStep(rest, n);
      var a, b, c := InRange(rest, n + 1), InRange(rest, n), StageMessages(rest, n);
      var x: seq<LogMessage> := if 0 <= m.step < n + 1 then [m] else [];
      var y: seq<LogMessage> := if 0 <= m.step < n then [m] else [];
      var z: seq<LogMessage> := if m.step == n then [m] else [];
      assert InRange(msgs, n + 1) == x + a;
      assert InRange(msgs, n) == y + b;
      assert StageMessages(msgs, n) == z + c;
      assert multiset(x) == multiset(y) + multiset(z);
      MultisetShuffle(multiset(x), multiset(y), multiset(z), multiset(a), multiset(b), multiset(c));
    }
  }

  lemma MultisetShuffle<T>(x: multiset<T>, y: multiset<T>, z: multiset<T>, a: multiset<T>, b: multiset<T>, c: multiset<T>)
    requires x == y + z && a == b + c
    ensures x + a == (y + b) + (z + c)
  {
  }

  lemma {:induction false} InRangeStepDelays(msgs: seq<LogMessage>, n: nat)
    ensures SumDelays(InRange(msgs, n + 1)) == SumDelays(InRange(msgs, n)) + SumDelays(StageMessages(msgs, n))
  {
    if msgs != [] {
      var m, rest := msgs[0], msgs[1..];
      InRangeStepDelays(rest, n);
      var x := if 0 <= m.step < n + 1 then [m] else [];
      var y := if 0 <= m.step < n then [m] else [];
      var z := if m.step == n then [m] else [];
      assert InRange(msgs, n + 1) == x + InRange(rest, n + 1);
      assert InRange(msgs, n) == y + InRange(rest, n);
      assert StageMessages(msgs, n) == z + StageMessages(rest, n);
      SumDelaysAppend(x, InRange(rest, n + 1));
      SumDelaysAppend(y, InRange(rest, n));
      SumDelaysAppend(z, StageMessages(rest, n));
      assert SumDelays(x) == SumDelays(y) + SumDelays(z);
    }
  }

  lemma {:induction false} SumDelaysAppend(a: seq<LogMessage>, b: seq<LogMessage>)
    ensures SumDelays(a + b) == SumDelays(a) + SumDelays(b)
  {
    if a != [] {
      assert (a + b)[0] == a[0];
      assert (a + b)[1..] == a[1..] + b;
      SumDelaysAppend(a[1..], b);
    } else {
      assert a + b == b;
    }
  }

  /**
   * The messages a run of n stages emits are exactly the in-range messages, each as
   * often as it is declared: the emitted sequence is a permutation of them.
   */
  lemma {:induction false} ScriptIsPermutation(msgs: seq<LogMessage>, n: nat)
    ensures multiset(Script(msgs, n)) == multiset(InRange(msgs, n))
  {
    if n > 0 {
      var k := n - 1;
      ScriptIsPermutation(msgs, k);
      InRangeStep(msgs, k);
      ScriptStep(msgs, k);
      PermutationStep(Script(msgs, k), StageMessages(msgs, k), InRange(msgs, k), InRange(msgs, n));
    } else {
      ScriptZero(msgs);
    }
  }

  /** One more stage appends that stage's messages to the script. */
  lemma ScriptStep(msgs: seq<LogMessage>, k: nat)
    ensures Script(msgs, k + 1) == Script(msgs, k) + StageMessages(msgs, k)
  {
  }

  lemma PermutationStep<T>(p: seq<T>, q: seq<T>, a: seq<T>, b: seq<T>)
    requires multiset(p) == multiset(a)
    requires multiset(b) == multiset(a) + multiset(q)
    ensures multiset(p + q) == multiset(b)
  {
    assert multiset(p + q) == multiset(p) + multiset(q);
  }

  /** Hence as many messages are emitted as there are in-range ones, with the same total delay. */
  lemma {:induction false} ScriptCountAndDelays(msgs: seq<LogMessage>, n: nat)
    ensures |Script(msgs, n)| == |InRange(msgs, n)|
    ensures SumDelays(Script(msgs, n)) == SumDelays(InRange(msgs, n))
  {
    ScriptIsPermutation(msgs, n);
    assert |multiset(Script(msgs, n))| == |multiset(InRange(msgs, n))|;
    ScriptDelays(msgs, n);
  }

  lemma {:induction false} ScriptDelays(msgs: seq<LogMessage>, n: nat)
    ensures SumDelays(Script(msgs, n)) == SumDelays(InRange(msgs, n))
  {
    if n > 0 {
      var k := n - 1;
      ScriptDelays(msgs, k);
      InRangeStepDelays(msgs, k);
      ScriptStep(msgs, k);
      SumDelaysAppend(Script(msgs, k), StageMessages(msgs, k));
    } else {
      ScriptZero(msgs);
    }
  }

  /**
   * The emitted messages are sorted by stage and all lie in [0, n): a message whose
   * stage is outside [0, n) is never emitted.
   */
  lemma {:induction false} ScriptIsSorted(msgs: seq<LogMessage>, n: nat)
    ensures forall k :: 0 <= k < |Script(msgs, n)| ==> 0 <= Script(msgs, n)[k].step < n
    ensures forall a, b :: 0 <= a < b < |Script(msgs, n)| ==> Script(msgs, n)[a].step <= Script(msgs, n)[b].step
  {
    if n > 0 {
      var k := n - 1;
      ScriptIsSorted(msgs, k);
      ScriptStep(msgs, k);
      SortedStep(Script(msgs, k), StageMessages(msgs, k), k);
    }
  }

  /** Messages sorted with steps in [0, k), then messages of step k, are sorted with steps in [0, k + 1). */
  lemma SortedStep(p: seq<LogMessage>, q: seq<LogMessage>, k: nat)
    requires forall j :: 0 <= j < |p| ==> 0 <= p[j].step < k
    requires forall a, b :: 0 <= a < b < |p| ==> p[a].step <= p[b].step
    requires forall j :: 0 <= j < |q| ==> q[j].step == k
    ensures forall j :: 0 <= j < |p + q| ==> 0 <= (p + q)[j].step < k + 1
    ensures forall a, b :: 0 <= a < b < |p + q| ==> (p + q)[a].step <= (p + q)[b].step
  {
    var s := p + q;
    forall j | 0 <= j < |s| ensures 0 <= s[j].step < k + 1 {
      if j >= |p| {
        assert s[j] == q[j - |p|];
      } else {
        assert s[j] == p[j];
      }
    }
    forall a, b | 0 <= a < b < |s| ensures s[a].step <= s[b].step {
      if b >= |p| {
        assert s[b] == q[b - |p|];
      } else {
        assert s[a] == p[a] && s[b] == p[b];
      }
    }
  }

  /** The stage filter distributes over concatenation. */
  lemma {:induction false} StageMessagesAppend(a: seq<LogMessage>, b: seq<LogMessage>, i: int)
    ensures StageMessages(a + b, i) == StageMessages(a, i) + StageMessages(b, i)
  {
    if a == [] {
      assert a + b == b;
    } else {
      assert (a + b)[0] == a[0];
      assert (a + b)[1..] == a[1..] + b;
      StageMessagesAppend(a[1..], b, i);
    }
  }

  /**
   * Scanning the messages in declared order, each one is appended to its stage's
   * messages exactly when its step is i.
   */
  lemma StageMessagesPrefixStep(msgs: seq<LogMessage>, j: nat, i: int)
    requires j < |msgs|
    ensures StageMessages(msgs[..j + 1], i)
         == StageMessages(msgs[..j], i) + (if msgs[j].step == i then [msgs[j]] else [])
  {
    assert msgs[..j + 1] == msgs[..j] + [msgs[j]];
    StageMessagesAppend(msgs[..j], [msgs[j]], i);
    assert [msgs[j]][1..] == [];
  }

  // ---------------------------------------------------------------------------
  // Observations distribute over concatenation

  lemma {:induction false} TotalDelayAppend(a: seq<Event>, b: seq<Event>)
    ensures TotalDelay(a + b) == TotalDelay(a) + TotalDelay(b)
    decreases |b|
  {
    if b != [] {
      assert (a + b)[..|a + b| - 1] == a + b[..|b| - 1];
      TotalDelayAppend(a, b[..|b| - 1]);
    } else {
      assert a + b == a;
    }
  }

  lemma {:induction false} StageMarksAppend(a: seq<Event>, b: seq<Event>)
    ensures StageMarks(a + b) == StageMarks(a) + StageMarks(b)
    decreases |b|
  {
    if b != [] {
      assert (a + b)[..|a + b| - 1] == a + b[..|b| - 1];
      StageMarksAppend(a, b[..|b| - 1]);
    } else {
      assert a + b == a;
    }
  }

  lemma {:induction false} ConnectorMarksAppend(a: seq<Event>, b: seq<Event>)
    ensures ConnectorMarks(a + b) == ConnectorMarks(a) + ConnectorMarks(b)
    decreases |b|
  {
    if b != [] {
      assert (a + b)[..|a + b| - 1] == a + b[..|b| - 1];
      ConnectorMarksAppend(a, b[..|b| - 1]);
    } else {
      assert a + b == a;
    }
  }

  lemma {:induction false} EntriesAppend(a: seq<LogMessage>, b: seq<LogMessage>)
    ensures Entries(a + b) == Entries(a) + Entries(b)
    decreases |b|
  {
    if b != [] {
      assert (a + b)[..|a + b| - 1] == a + b[..|b| - 1];
      EntriesAppend(a, b[..|b| - 1]);
    } else {
      assert a + b == a;
    }
  }

  // ---------------------------------------------------------------------------
  // One stage's messages

  /** The observations of a one-event sequence. */
  lemma SingleFacts(e: Event)
    ensures TotalDelay([e]) == if e.Delay? then e.ms else 0
    ensures StageMarks([e]) == if IsStageMark(e) then [e] else []
    ensures ConnectorMarks([e]) == if e.Connector? then [e] else []
  {
    assert [e][..0] == [];
  }

  lemma MessageStepFacts(m: LogMessage, live: bool)
    ensures TotalDelay(MessageStep(m, live)) == DelayOf(m)
    ensures StageMarks(MessageStep(m, live)) == []
    ensures ConnectorMarks(MessageStep(m, live)) == []
  {
    var d := [Delay(DelayOf(m))];
    var l := if live then [Log(m.tag, m.text)] else [];
    SingleFacts(Delay(DelayOf(m)));
    SingleFacts(Log(m.tag, m.text));
    TotalDelayAppend(d, l);
    StageMarksAppend(d, l);
    ConnectorMarksAppend(d, l);
  }

  lemma {:induction false} MessageTraceFacts(ms: seq<LogMessage>, live: bool)
    ensures TotalDelay(MessageTrace(ms, live)) == SumDelays(ms)
    ensures StageMarks(MessageTrace(ms, live)) == []
    ensures ConnectorMarks(MessageTrace(ms, live)) == []
  {
    if ms != [] {
      var init := ms[..|ms| - 1];
      var m := ms[|ms| - 1];
      var p, q := MessageTrace(init, live), MessageStep(m, live);
      assert MessageTrace(ms, live) == p + q;
      MessageTraceFacts(init, live);
      MessageStepFacts(m, live);
      TotalDelayAppend(p, q);
      StageMarksAppend(p, q);
      ConnectorMarksAppend(p, q);
      assert ms == init + [m];
      SumDelaysAppend(init, [m]);
    }
  }

  lemma AppendAssoc<T>(a: seq<T>, b: seq<T>, c: seq<T>)
    ensures a + (b + c) == (a + b) + c
  {
  }

  lemma AppendAssoc5<T>(a: seq<T>, b: seq<T>, c: seq<T>, d: seq<T>, e: seq<T>)
    ensures a + b + c + d + e == a + (b + c + d + e)
  {
  }

  /** Emitting one more message of a stage extends its trace and its entries by that message. */
  lemma MessagePrefixStep(ms: seq<LogMessage>, j: nat, live: bool)
    requires j < |ms|
    ensures MessageTrace(ms[..j + 1], live) == MessageTrace(ms[..j], live) + MessageStep(ms[j], live)
    ensures Entries(ms[..j + 1]) == Entries(ms[..j]) + [LogEntry(ms[j].tag, ms[j].text)]
  {
    assert ms[..j + 1][..j] == ms[..j];
  }

  // ---------------------------------------------------------------------------
  // One stage, all stages, a whole run

  lemma StageOpenFacts(i: nat, page: Page)
    ensures TotalDelay(StageOpen(i, page)) == 0
    ensures StageMarks(StageOpen(i, page)) == if i < page.stepIcons then [StageActive(i)] else []
    ensures ConnectorMarks(StageOpen(i, page)) == []
  {
    if i < page.stepIcons {
      SingleFacts(StageActive(i));
    }
  }

  lemma StageCloseFacts(i: nat, page: Page)
    ensures TotalDelay(StageClose(i, page)) == 0
    ensures StageMarks(StageClose(i, page)) == if i < page.stepIcons then [StageCompleted(i)] else []
    ensures ConnectorMarks(StageClose(i, page)) == if i < page.connectors then [Connector(i)] else []
  {
    var x: seq<Event> := if i < page.stepIcons then [StageCompleted(i)] else [];
    var y: seq<Event> := if i < page.connectors then [Connector(i)] else [];
    assert StageClose(i, page) == x + y;
    if i < page.stepIcons {
      SingleFacts(StageCompleted(i));
    }
    if i < page.connectors {
      SingleFacts(Connector(i));
    }
    TotalDelayAppend(x, y);
    StageMarksAppend(x, y);
    ConnectorMarksAppend(x, y);
  }

  /** One stage waits its messages' delays and then 800 ms. */
  lemma StageTraceDelay(msgs: seq<LogMessage>, i: nat, page: Page)
    ensures TotalDelay(StageTrace(msgs, i, page)) == SumDelays(StageMessages(msgs, i)) + StageCompletionDelay
  {
    StageOfDelay(i, StageMessages(msgs, i), page);
  }

  lemma StageOfDelay(i: nat, ms: seq<LogMessage>, page: Page)
    ensures TotalDelay(StageOf(i, ms, page)) == SumDelays(ms) + StageCompletionDelay
  {
    var o, m, d, c := StageOpen(i, page), MessageTrace(ms, page.hasLiveLog), [Delay(StageCompletionDelay)], StageClose(i, page);
    StageOpenFacts(i, page);
    MessageTraceFacts(ms, page.hasLiveLog);
    SingleFacts(Delay(StageCompletionDelay));
    StageCloseFacts(i, page);
    TotalDelayOfFour(o, m, d, c, SumDelays(ms));
  }

  /** One stage is marked active and then completed, when its icon exists. */
  lemma StageTraceMarks(msgs: seq<LogMessage>, i: nat, page: Page)
    ensures StageMarks(StageTrace(msgs, i, page)) == if i < page.stepIcons then [StageActive(i), StageCompleted(i)] else []
  {
    StageOfMarks(i, StageMessages(msgs, i), page);
  }

  lemma StageOfMarks(i: nat, ms: seq<LogMessage>, page: Page)
    ensures StageMarks(StageOf(i, ms, page)) == if i < page.stepIcons then [StageActive(i), StageCompleted(i)] else []
  {
    var o, m, d, c := StageOpen(i, page), MessageTrace(ms, page.hasLiveLog), [Delay(StageCompletionDelay)], StageClose(i, page);
    StageOpenFacts(i, page);
    MessageTraceFacts(ms, page.hasLiveLog);
    SingleFacts(Delay(StageCompletionDelay));
    StageCloseFacts(i, page);
    if i < page.stepIcons {
      StageMarksOfFour(o, m, d, c, [StageActive(i)], [StageCompleted(i)]);
    } else {
      StageMarksOfFour(o, m, d, c, [], []);
    }
  }

  /** One stage's connector is filled, when it exists. */
  lemma StageTraceConnectors(msgs: seq<LogMessage>, i: nat, page: Page)
    ensures ConnectorMarks(StageTrace(msgs, i, page)) == if i < page.connectors then [Connector(i)] else []
  {
    StageOfConnectors(i, StageMessages(msgs, i), page);
  }

  lemma StageOfConnectors(i: nat, ms: seq<LogMessage>, page: Page)
    ensures ConnectorMarks(StageOf(i, ms, page)) == if i < page.connectors then [Connector(i)] else []
  {
    var o, m, d, c := StageOpen(i, page), MessageTrace(ms, page.hasLiveLog), [Delay(StageCompletionDelay)], StageClose(i, page);
    StageOpenFacts(i, page);
    MessageTraceFacts(ms, page.hasLiveLog);
    SingleFacts(Delay(StageCompletionDelay));
    StageCloseFacts(i, page);
    ConnectorMarksOfFour(o, m, d, c);
  }

  lemma TotalDelayOfFour(a: seq<Event>, b: seq<Event>, c: seq<Event>, d: seq<Event>, x: int)
    requires TotalDelay(a) == 0 && TotalDelay(b) == x && TotalDelay(c) == StageCompletionDelay && TotalDelay(d) == 0
    ensures TotalDelay(a + b + c + d) == x + StageCompletionDelay
  {
    TotalDelayAppend(a, b);
    TotalDelayAppend(a + b, c);
    TotalDelayAppend(a + b + c, d);
  }

  lemma StageMarksOfFour(a: seq<Event>, b: seq<Event>, c: seq<Event>, d: seq<Event>, x: seq<Event>, y: seq<Event>)
    requires StageMarks(a) == x && StageMarks(b) == [] && StageMarks(c) == [] && StageMarks(d) == y
    ensures StageMarks(a + b + c + d) == x + y
  {
    StageMarksAppend(a, b);
    StageMarksAppend(a + b, c);
    StageMarksAppend(a + b + c, d);
  }

  lemma ConnectorMarksOfFour(a: seq<Event>, b: seq<Event>, c: seq<Event>, d: seq<Event>)
    requires ConnectorMarks(a) == [] && ConnectorMarks(b) == [] && ConnectorMarks(c) == []
    ensures ConnectorMarks(a + b + c + d) == ConnectorMarks(d)
  {
    ConnectorMarksAppend(a, b);
    ConnectorMarksAppend(a + b, c);
    ConnectorMarksAppend(a + b + c, d);
  }

  lemma AlternatingStep(k: nat)
    ensures Alternating(k + 1) == Alternating(k) + [StageActive(k), StageCompleted(k)]
  {
    var a, b := Alternating(k + 1), Alternating(k) + [StageActive(k), StageCompleted(k)];
    forall j | 0 <= j < |a| ensures a[j] == b[j] {
      if j < 2 * k {
        assert b[j] == Alternating(k)[j];
      }
    }
  }

  lemma ConnectorsUpToStep(k: nat)
    ensures ConnectorsUpTo(k + 1) == ConnectorsUpTo(k) + [Connector(k)]
  {
  }

  /** One more iteration of the stage loop appends that stage's events. */
  lemma StagesStep(msgs: seq<LogMessage>, k: nat, page: Page)
    ensures StagesTrace(msgs, k + 1, page) == StagesTrace(msgs, k, page) + StageTrace(msgs, k, page)
  {
  }

  /** The stage loop waits the script's delays plus 800 ms per stage. */
  lemma {:induction false} StagesDelay(msgs: seq<LogMessage>, n: nat, page: Page)
    ensures TotalDelay(StagesTrace(msgs, n, page)) == SumDelays(Script(msgs, n)) + StageCompletionDelay * n
  {
    if n > 0 {
      var k := n - 1;
      StagesDelay(msgs, k, page);
      StageTraceDelay(msgs, k, page);
      StagesStep(msgs, k, page);
      assert Script(msgs, n) == Script(msgs, k) + StageMessages(msgs, k);
      DelaysExtend(StagesTrace(msgs, k, page), StageTrace(msgs, k, page), Script(msgs, k), StageMessages(msgs, k), k);
    } else {
      ScriptZero(msgs);
    }
  }

  /** k stages' waits, then one more stage's messages and its 800 ms, are k + 1 stages' waits. */
  lemma DelaysExtend(p: seq<Event>, q: seq<Event>, a: seq<LogMessage>, b: seq<LogMessage>, k: nat)
    requires TotalDelay(p) == SumDelays(a) + StageCompletionDelay * k
    requires TotalDelay(q) == SumDelays(b) + StageCompletionDelay
    ensures TotalDelay(p + q) == SumDelays(a + b) + StageCompletionDelay * (k + 1)
  {
    TotalDelayAppend(p, q);
    SumDelaysAppend(a, b);
  }

  /**
   * The stage loop marks stages in strictly increasing order, each active and then
   * completed exactly once, as far as icons exist.
   */
  lemma {:induction false} StagesMarks(msgs: seq<LogMessage>, n: nat, page: Page)
    ensures StageMarks(StagesTrace(msgs, n, page)) == Alternating(Min(n, page.stepIcons))
  {
    if n > 0 {
      var k := n - 1;
      StagesMarks(msgs, k, page);
      StageTraceMarks(msgs, k, page);
      StagesStep(msgs, k, page);
      MarksExtend(StagesTrace(msgs, k, page), StageTrace(msgs, k, page), k, page.stepIcons);
    } else {
      assert Alternating(0) == [];
    }
  }

  /** Marks up to stage k, then stage k's own marks when it has an icon, are marks up to stage k + 1. */
  lemma MarksExtend(p: seq<Event>, q: seq<Event>, k: nat, icons: nat)
    requires StageMarks(p) == Alternating(Min(k, icons))
    requires StageMarks(q) == if k < icons then [StageActive(k), StageCompleted(k)] else []
    ensures StageMarks(p + q) == Alternating(Min(k + 1, icons))
  {
    StageMarksAppend(p, q);
    if k < icons {
      AlternatingStep(k);
    }
  }

  /** The stage loop fills connectors 0, 1, ... in order, as far as connectors exist. */
  lemma {:induction false} StagesConnectors(msgs: seq<LogMessage>, n: nat, page: Page)
    ensures ConnectorMarks(StagesTrace(msgs, n, page)) == ConnectorsUpTo(Min(n, page.connectors))
  {
    if n > 0 {
      var k := n - 1;
      StagesConnectors(msgs, k, page);
      StageTraceConnectors(msgs, k, page);
      StagesStep(msgs, k, page);
      ConnectorsExtend(StagesTrace(msgs, k, page), StageTrace(msgs, k, page), k, page.connectors);
    }
  }

  /** Connectors up to k, then connector k when it exists, are connectors up to k + 1. */
  lemma ConnectorsExtend(p: seq<Event>, q: seq<Event>, k: nat, connectors: nat)
    requires ConnectorMarks(p) == ConnectorsUpTo(Min(k, connectors))
    requires ConnectorMarks(q) == if k < connectors then [Connector(k)] else []
    ensures ConnectorMarks(p + q) == ConnectorsUpTo(Min(k + 1, connectors))
  {
    ConnectorMarksAppend(p, q);
    if k < connectors {
      ConnectorsUpToStep(k);
    }
  }

  /** Every reveal is scheduled 300 ms after the previous one: card j at j * 300 ms. */
  lemma {:induction false} InsightTraceSpec(k: nat)
    ensures |InsightTrace(k)| == k
    ensures forall j :: 0 <= j < k ==> InsightTrace(k)[j] == InsightScheduled(j, InsightStagger * j)
  {
    if k > 0 {
      InsightTraceSpec(k - 1);
      var p := InsightTrace(k - 1);
      assert InsightTrace(k) == p + [InsightScheduled(k - 1, InsightStagger * (k - 1))];
    }
  }

  /** The events after the stage loop: status, the 500 ms wait, and showResults. */
  function Tail(page: Page): seq<Event> {
    StatusTrace(page) + [Delay(ResultsDelay)] + ResultsTrace(page)
  }

  /** After the stage loop nothing is marked, and nothing is waited for but the 500 ms before the results. */
  lemma TailFacts(page: Page)
    ensures TotalDelay(Tail(page)) == ResultsDelay
    ensures StageMarks(Tail(page)) == [] && ConnectorMarks(Tail(page)) == []
  {
    var t := Tail(page);
    forall k | 0 <= k < |t| ensures !IsStageWork(t[k]) && (t[k].Delay? ==> k == |StatusTrace(page)| && t[k].ms == ResultsDelay) {
      TailAt(page, k);
    }
    QuietFacts(t, |StatusTrace(page)|);
  }

  lemma TailAt(page: Page, k: nat)
    requires k < |Tail(page)|
    ensures !IsStageWork(Tail(page)[k])
    ensures Tail(page)[k].Delay? ==> k == |StatusTrace(page)| && Tail(page)[k].ms == ResultsDelay
    ensures Tail(page)[k] == ChartsCalled <==> k == |Tail(page)| - 1
  {
    var st := StatusTrace(page);
    var sr: seq<Event> := if page.hasResults then [ResultsRevealed] else [];
    var ins := InsightTrace(page.insightCards);
    assert Tail(page) == st + [Delay(ResultsDelay)] + sr + [MetricsAnimated] + ins + [ChartsCalled];
    InsightTraceSpec(page.insightCards);
  }

  /** The status indicator and the results section are updated exactly when they exist. */
  lemma TailMembers(page: Page)
    ensures StatusComplete in Tail(page) <==> page.hasStatus
    ensures ResultsRevealed in Tail(page) <==> page.hasResults
    ensures MetricsAnimated in Tail(page)
  {
    var st := StatusTrace(page);
    var sr: seq<Event> := if page.hasResults then [ResultsRevealed] else [];
    var ins := InsightTrace(page.insightCards);
    assert Tail(page) == st + [Delay(ResultsDelay)] + sr + [MetricsAnimated] + ins + [ChartsCalled];
    InsightTraceSpec(page.insightCards);
    assert StatusComplete !in ins && ResultsRevealed !in ins;
  }

  /**
   * A sequence without stage work marks nothing, and waits only at its one delay
   * position `p`, if any.
   */
  lemma {:induction false} QuietFacts(t: seq<Event>, p: nat)
    requires forall k :: 0 <= k < |t| ==> !IsStageWork(t[k])
    requires forall k :: 0 <= k < |t| && t[k].Delay? ==> k == p
    ensures StageMarks(t) == [] && ConnectorMarks(t) == []
    ensures TotalDelay(t) == if p < |t| && t[p].Delay? then t[p].ms else 0
  {
    if t != [] {
      QuietFacts(t[..|t| - 1], p);
    }
  }

  /** One more stage appends that stage's entries to the run's log. */
  lemma PipelineLogStep(msgs: seq<LogMessage>, i: nat, page: Page)
    ensures PipelineLog(msgs, i + 1, page)
         == PipelineLog(msgs, i, page) + (if page.hasLiveLog then Entries(StageMessages(msgs, i)) else [])
  {
    EntriesAppend(Script(msgs, i), StageMessages(msgs, i));
  }

  /** A run is its stage loop followed by the tail. */
  lemma RunTraceSplit(msgs: seq<LogMessage>, n: nat, page: Page)
    ensures RunTrace(msgs, n, page) == StagesTrace(msgs, n, page) + Tail(page)
  {
    var s, st, r := StagesTrace(msgs, n, page), StatusTrace(page), ResultsTrace(page);
    AppendAssoc(s, st, [Delay(ResultsDelay)]);
    AppendAssoc(s, st + [Delay(ResultsDelay)], r);
  }

  /** Appending a sequence that marks nothing adds only its delays. */
  lemma QuietSuffix(s: seq<Event>, t: seq<Event>)
    requires StageMarks(t) == [] && ConnectorMarks(t) == []
    ensures TotalDelay(s + t) == TotalDelay(s) + TotalDelay(t)
    ensures StageMarks(s + t) == StageMarks(s)
    ensures ConnectorMarks(s + t) == ConnectorMarks(s)
  {
    TotalDelayAppend(s, t);
    StageMarksAppend(s, t);
    ConnectorMarksAppend(s, t);
  }

  /** What a run shows is what its stage loop shows, plus the 500 ms wait before the results. */
  lemma RunSplit(msgs: seq<LogMessage>, n: nat, page: Page)
    ensures TotalDelay(RunTrace(msgs, n, page)) == TotalDelay(StagesTrace(msgs, n, page)) + ResultsDelay
    ensures StageMarks(RunTrace(msgs, n, page)) == StageMarks(StagesTrace(msgs, n, page))
    ensures ConnectorMarks(RunTrace(msgs, n, page)) == ConnectorMarks(StagesTrace(msgs, n, page))
  {
    RunTraceSplit(msgs, n, page);
    TailFacts(page);
    QuietSuffix(StagesTrace(msgs, n, page), Tail(page));
  }

  /**
   * A run appends one live-log entry per in-range message, none without a live
   * log; messages whose stage lies outside [0, n) add nothing.
   */
  lemma RunLog(msgs: seq<LogMessage>, n: nat, page: Page)
    ensures |PipelineLog(msgs, n, page)| == if page.hasLiveLog then |InRange(msgs, n)| else 0
  {
    ScriptCountAndDelays(msgs, n);
  }

  /** A run waits the sum of its in-range messages' delays, 800 ms per stage and 500 ms before the results. */
  lemma RunDelay(msgs: seq<LogMessage>, n: nat, page: Page)
    ensures TotalDelay(RunTrace(msgs, n, page))
         == SumDelays(InRange(msgs, n)) + StageCompletionDelay * n + ResultsDelay
  {
    RunSplit(msgs, n, page);
    StagesDelay(msgs, n, page);
    ScriptCountAndDelays(msgs, n);
  }

  /** A run's stage and connector marks, in order: see StagesMarks and StagesConnectors. */
  lemma RunMarks(msgs: seq<LogMessage>, n: nat, page: Page)
    ensures StageMarks(RunTrace(msgs, n, page)) == Alternating(Min(n, page.stepIcons))
    ensures ConnectorMarks(RunTrace(msgs, n, page)) == ConnectorsUpTo(Min(n, page.connectors))
  {
    RunSplit(msgs, n, page);
    StagesMarks(msgs, n, page);
    StagesConnectors(msgs, n, page);
  }

  // ---------------------------------------------------------------------------
  // Order of events in a run

  /** No event of `t` belongs to finishing a run. */
  predicate Unfinished(t: seq<Event>) {
    forall k :: 0 <= k < |t| ==> !IsFinishing(t[k])
  }

  lemma UnfinishedAppend(a: seq<Event>, b: seq<Event>)
    requires Unfinished(a) && Unfinished(b)
    ensures Unfinished(a + b)
  {
    var t := a + b;
    forall k | 0 <= k < |t| ensures !IsFinishing(t[k]) {
      if k < |a| {
        assert t[k] == a[k];
      } else {
        assert t[k] == b[k - |a|];
      }
    }
  }

  lemma {:induction false} MessageTraceWork(ms: seq<LogMessage>, live: bool)
    ensures Unfinished(MessageTrace(ms, live))
  {
    if ms != [] {
      var init := ms[..|ms| - 1];
      MessageTraceWork(init, live);
      var p, q := MessageTrace(init, live), MessageStep(ms[|ms| - 1], live);
      assert MessageTrace(ms, live) == p + q;
      UnfinishedAppend(p, q);
    }
  }

  lemma StageTraceWork(msgs: seq<LogMessage>, i: nat, page: Page)
    ensures Unfinished(StageTrace(msgs, i, page))
  {
    var o, m, d, c := StageOpen(i, page), MessageTrace(StageMessages(msgs, i), page.hasLiveLog),
                      [Delay(StageCompletionDelay)], StageClose(i, page);
    assert StageTrace(msgs, i, page) == o + m + d + c;
    MessageTraceWork(StageMessages(msgs, i), page.hasLiveLog);
    assert Unfinished(o) && Unfinished(d) && Unfinished(c);
    UnfinishedAppend(o, m);
    UnfinishedAppend(o + m, d);
    UnfinishedAppend(o + m + d, c);
  }

  /** The stage loop does nothing that belongs to finishing the run. */
  lemma {:induction false} StagesWork(msgs: seq<LogMessage>, n: nat, page: Page)
    ensures Unfinished(StagesTrace(msgs, n, page))
  {
    if n > 0 {
      var k := n - 1;
      StagesWork(msgs, k, page);
      StageTraceWork(msgs, k, page);
      var p, q := StagesTrace(msgs, k, page), StageTrace(msgs, k, page);
      StagesStep(msgs, k, page);
      UnfinishedAppend(p, q);
    }
  }

  /** With its icon and connector present, stage i's iteration ends by completing the stage and then its connector. */
  lemma StageEndsWithConnector(msgs: seq<LogMessage>, i: nat, page: Page)
    requires i < page.stepIcons && i < page.connectors
    ensures |StagesTrace(msgs, i + 1, page)| >= 2
    ensures StagesTrace(msgs, i + 1, page)[|StagesTrace(msgs, i + 1, page)| - 2] == StageCompleted(i)
    ensures StagesTrace(msgs, i + 1, page)[|StagesTrace(msgs, i + 1, page)| - 1] == Connector(i)
  {
    var o, m, d := StageOpen(i, page), MessageTrace(StageMessages(msgs, i), page.hasLiveLog), [Delay(StageCompletionDelay)];
    var c := StageClose(i, page);
    assert c == [StageCompleted(i), Connector(i)];
    AppendAssoc(StagesTrace(msgs, i, page), o + m + d, c);
  }

  /** An earlier stage loop is a prefix of a later one. */
  lemma {:induction false} StagesPrefix(msgs: seq<LogMessage>, m: nat, n: nat, page: Page)
    requires m <= n
    ensures |StagesTrace(msgs, m, page)| <= |StagesTrace(msgs, n, page)|
    ensures StagesTrace(msgs, n, page)[..|StagesTrace(msgs, m, page)|] == StagesTrace(msgs, m, page)
  {
    if m < n {
      var k := n - 1;
      StagesPrefix(msgs, m, k, page);
      StagesStep(msgs, k, page);
      PrefixExtend(StagesTrace(msgs, m, page), StagesTrace(msgs, k, page), StageTrace(msgs, k, page));
    }
  }

  /** A prefix of p is a prefix of p + q. */
  lemma PrefixExtend<T>(r: seq<T>, p: seq<T>, q: seq<T>)
    requires |r| <= |p| && p[..|r|] == r
    ensures |r| <= |p + q| && (p + q)[..|r|] == r
  {
    assert (p + q)[..|r|] == p[..|r|];
  }

  /**
   * Every logged line, stage mark and connector mark of a run comes before the status
   * update and before everything showResults does.
   */
  lemma RunOrder(msgs: seq<LogMessage>, n: nat, page: Page, a: nat, b: nat)
    requires a < |RunTrace(msgs, n, page)| && b < |RunTrace(msgs, n, page)|
    requires IsStageWork(RunTrace(msgs, n, page)[a])
    requires IsFinishing(RunTrace(msgs, n, page)[b])
    ensures a < b
  {
    var s := StagesTrace(msgs, n, page);
    RunTraceSplit(msgs, n, page);
    StagesWork(msgs, n, page);
    if a >= |s| {
      TailAt(page, a - |s|);
      assert false;
    }
    if b < |s| {
      assert false;
    }
  }

  /** The createCharts hook is called exactly once, as the last event of a run. */
  lemma ChartsOnceAtEnd(msgs: seq<LogMessage>, n: nat, page: Page)
    ensures |RunTrace(msgs, n, page)| > 0
    ensures forall k :: 0 <= k < |RunTrace(msgs, n, page)| ==>
              (RunTrace(msgs, n, page)[k] == ChartsCalled <==> k == |RunTrace(msgs, n, page)| - 1)
  {
    RunTraceSplit(msgs, n, page);
    StagesWork(msgs, n, page);
    TailChartsOnce(page);
    ChartsOnceAfter(StagesTrace(msgs, n, page), Tail(page));
  }

  /** The tail calls createCharts once, as its last event. */
  lemma TailChartsOnce(page: Page)
    ensures |Tail(page)| > 0
    ensures forall k :: 0 <= k < |Tail(page)| ==> (Tail(page)[k] == ChartsCalled <==> k == |Tail(page)| - 1)
  {
    forall k | 0 <= k < |Tail(page)| ensures Tail(page)[k] == ChartsCalled <==> k == |Tail(page)| - 1 {
      TailAt(page, k);
    }
  }

  /** Work that finishes nothing, followed by a sequence calling createCharts once at its end. */
  lemma ChartsOnceAfter(s: seq<Event>, t: seq<Event>)
    requires Unfinished(s)
    requires |t| > 0
    requires forall k :: 0 <= k < |t| ==> (t[k] == ChartsCalled <==> k == |t| - 1)
    ensures forall k :: 0 <= k < |s + t| ==> ((s + t)[k] == ChartsCalled <==> k == |s + t| - 1)
  {
    forall k | 0 <= k < |s + t| ensures (s + t)[k] == ChartsCalled <==> k == |s + t| - 1 {
      if k >= |s| {
        assert (s + t)[k] == t[k - |s|];
      } else {
        assert (s + t)[k] == s[k] && !IsFinishing(s[k]);
      }
    }
  }

  /** A run sets the status exactly when the indicator exists, and shows results exactly when the section exists. */
  lemma RunFinishing(msgs: seq<LogMessage>, n: nat, page: Page)
    ensures StatusComplete in RunTrace(msgs, n, page) <==> page.hasStatus
    ensures ResultsRevealed in RunTrace(msgs, n, page) <==> page.hasResults
    ensures MetricsAnimated in RunTrace(msgs, n, page)
  {
    var s := StagesTrace(msgs, n, page);
    RunTraceSplit(msgs, n, page);
    StagesWork(msgs, n, page);
    TailMembers(page);
    assert StatusComplete !in s && ResultsRevealed !in s;
  }

  /** When stage i's icon and connector exist, the connector is filled right after the stage completes. */
  lemma ConnectorFollowsStage(msgs: seq<LogMessage>, n: nat, page: Page, i: nat)
    requires i < n && i < page.stepIcons && i < page.connectors
    ensures exists j :: 0 <= j < |RunTrace(msgs, n, page)| - 1
              && RunTrace(msgs, n, page)[j] == StageCompleted(i) && RunTrace(msgs, n, page)[j + 1] == Connector(i)
  {
    var t := RunTrace(msgs, n, page);
    var s := StagesTrace(msgs, n, page);
    var p := StagesTrace(msgs, i + 1, page);
    StagesPrefix(msgs, i + 1, n, page);
    StageEndsWithConnector(msgs, i, page);
    RunPrefix(msgs, n, page);
    var j := |p| - 2;
    assert t[j] == s[j] == p[j];
    assert t[j + 1] == s[j + 1] == p[j + 1];
  }

  lemma RunPrefix(msgs: seq<LogMessage>, n: nat, page: Page)
    ensures |StagesTrace(msgs, n, page)| <= |RunTrace(msgs, n, page)|
    ensures forall k :: 0 <= k < |StagesTrace(msgs, n, page)| ==> RunTrace(msgs, n, page)[k] == StagesTrace(msgs, n, page)[k]
  {
    RunTraceSplit(msgs, n, page);
  }
}
