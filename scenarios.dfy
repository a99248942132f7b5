/**
 * The demand-forecasting agent, the first of the concrete agents: its six steps and
 * nineteen scripted messages, and what a run of BaseAgent with that configuration
 * produces.
 */
module Scenarios {
  import opened Wrappers
  import opened Pipeline
  import opened JsString
  import Csv
  import Agent

  const DemandSteps: seq<string> := [
    "Data Ingestion",
    "Feature Engineering",
    "Seasonality Analysis",
    "Trend Detection",
    "Model Training",
    "Forecast Generation"
  ]

  /** The texts of the nineteen scripted messages, in declared order. */
  const DemandTexts: seq<string> := [
    "Loading CSV data... 165 records found",
    "Validating data schema: 16 columns detected",
    "Data quality check: 99.2% completeness",
    "Extracting temporal features: day_of_week, month, quarter",
    "Computing lag features: 7-day, 14-day, 30-day rolling averages",
    "Encoding categorical variables: 5 categories, 50 SKUs",
    "Detecting seasonal patterns across warehouses...",
    "Festival calendar loaded: Wedding season Feb-Mar identified",
    "\U{1F4C8} Seasonality detected: +67% ethnic wear demand in Q1",
    "Analyzing social media trends via API...",
    "Instagram hashtag correlation: #WeddingSeason +234%",
    "\U{1F525} Trend alert: Quiet luxury fashion rising +52%",
    "Training ensemble model: XGBoost + LSTM hybrid",
    "Hyperparameter tuning: learning_rate=0.05, depth=8",
    "5-fold cross-validation in progress...",
    "\U{2713} Model validation accuracy: 96.8%",
    "Generating 90-day forecasts for all SKUs...",
    "\U{2713} Forecast complete: 2,450 predictions generated",
    "\U{1F4B0} Revenue protection potential: \U{20B9}18.5Cr identified"
  ]

  /**
   * The scripted messages of step i, as the configuration lists them, with message
   * k's text taken from texts[k]. Keeping the texts apart lets the proofs about steps
   * and delays leave the long string literals alone.
   */
  function DemandStage(i: nat, texts: seq<string>): seq<LogMessage>
    requires |texts| == 19
  {
    match i
    case 0 => [
        LogMessage(0, "DATA", texts[0], Some(300)),
        LogMessage(0, "DATA", texts[1], Some(400)),
        LogMessage(0, "DATA", texts[2], Some(350))
      ]
    case 1 => [
        LogMessage(1, "MODEL", texts[3], Some(400)),
        LogMessage(1, "MODEL", texts[4], Some(450)),
        LogMessage(1, "MODEL", texts[5], Some(400))
      ]
    case 2 => [
        LogMessage(2, "ANALYSIS", texts[6], Some(500)),
        LogMessage(2, "ANALYSIS", texts[7], Some(400)),
        LogMessage(2, "INSIGHT", texts[8], Some(450))
      ]
    case 3 => [
        LogMessage(3, "ANALYSIS", texts[9], Some(400)),
        LogMessage(3, "ANALYSIS", texts[10], Some(450)),
        LogMessage(3, "INSIGHT", texts[11], Some(400))
      ]
    case 4 => [
        LogMessage(4, "MODEL", texts[12], Some(500)),
        LogMessage(4, "MODEL", texts[13], Some(450)),
        LogMessage(4, "MODEL", texts[14], Some(500)),
        LogMessage(4, "SUCCESS", texts[15], Some(400))
      ]
    case 5 => [
        LogMessage(5, "SUCCESS", texts[16], Some(450)),
        LogMessage(5, "SUCCESS", texts[17], Some(400)),
        LogMessage(5, "INSIGHT", texts[18], Some(350))
      ]
    case _ => []
  }

  /** The script with the given texts: the six steps' blocks one after another. */
  function DemandScriptOf(texts: seq<string>): seq<LogMessage>
    requires |texts| == 19
  {
    DemandStage(0, texts) + DemandStage(1, texts) + DemandStage(2, texts)
    + DemandStage(3, texts) + DemandStage(4, texts) + DemandStage(5, texts)
  }

  /** The nineteen scripted messages of the demand-forecasting agent. */
  const DemandMessages: seq<LogMessage> := DemandScriptOf(DemandTexts)

  /** The configuration the demand-forecasting agent passes to BaseAgent. */
  const DemandConfig: Agent.AgentConfig :=
    Agent.AgentConfig("Demand Forecasting Agent", Some(DemandSteps), Some(DemandMessages))

  /** The blocks one after another. */
  function Concat(blocks: seq<seq<LogMessage>>): seq<LogMessage> {
    if blocks == [] then [] else Concat(blocks[..|blocks| - 1]) + blocks[|blocks| - 1]
  }

  /** A configuration that lists its messages stage by stage: block i holds step i's messages. */
  predicate StageBlocks(blocks: seq<seq<LogMessage>>) {
    forall i, k :: 0 <= i < |blocks| && 0 <= k < |blocks[i]| ==> blocks[i][k].step == i
  }

  /** The range filter distributes over concatenation. */
  lemma {:induction false} InRangeAppend(a: seq<LogMessage>, b: seq<LogMessage>, n: nat)
    ensures InRange(a + b, n) == InRange(a, n) + InRange(b, n)
  {
    if a == [] {
      assert a + b == b;
    } else {
      assert (a + b)[0] == a[0];
      assert (a + b)[1..] == a[1..] + b;
      InRangeAppend(a[1..], b, n);
    }
  }

  /** A block whose messages all belong to step j is all of step j's messages and none of another's. */
  lemma {:induction false} StageMessagesOfBlock(ms: seq<LogMessage>, j: int, i: int)
    requires forall k :: 0 <= k < |ms| ==> ms[k].step == j
    ensures StageMessages(ms, i) == if i == j then ms else []
  {
    if ms != [] {
      assert ms[0].step == j;
      StageMessagesOfBlock(ms[1..], j, i);
      if i == j {
        assert ms == [ms[0]] + ms[1..];
      }
    }
  }

  /** Messages whose steps all lie in [0, n) are all in range. */
  lemma {:induction false} InRangeAll(ms: seq<LogMessage>, n: nat)
    requires forall k :: 0 <= k < |ms| ==> 0 <= ms[k].step < n
    ensures InRange(ms, n) == ms
  {
    if ms != [] {
      assert 0 <= ms[0].step < n;
      InRangeAll(ms[1..], n);
      assert ms == [ms[0]] + ms[1..];
    }
  }

  /** Step i's messages among the first m blocks: block i when i < m, none otherwise. */
  lemma {:induction false} StageMessagesOfPrefix(blocks: seq<seq<LogMessage>>, m: nat, i: int)
    requires m <= |blocks| && StageBlocks(blocks)
    ensures StageMessages(Concat(blocks[..m]), i) == if 0 <= i < m then blocks[i] else []
  {
    if m > 0 {
      var k := m - 1;
      var front := blocks[..m];
      assert front[..k] == blocks[..k];
      assert Concat(front) == Concat(blocks[..k]) + blocks[k];
      StageMessagesOfPrefix(blocks, k, i);
      StageMessagesAppend(Concat(blocks[..k]), blocks[k], i);
      StageMessagesOfBlock(blocks[k], k, i);
    } else {
      assert blocks[..0] == [];
    }
  }

  /** All messages of the first m blocks are in range for n >= m stages. */
  lemma {:induction false} InRangeOfPrefix(blocks: seq<seq<LogMessage>>, m: nat, n: nat)
    requires m <= |blocks| <= n && StageBlocks(blocks)
    ensures InRange(Concat(blocks[..m]), n) == Concat(blocks[..m])
  {
    if m > 0 {
      var k := m - 1;
      var front := blocks[..m];
      assert front[..k] == blocks[..k];
      assert Concat(front) == Concat(blocks[..k]) + blocks[k];
      InRangeOfPrefix(blocks, k, n);
      InRangeAppend(Concat(blocks[..k]), blocks[k], n);
      InRangeAll(blocks[k], n);
    } else {
      assert blocks[..0] == [];
    }
  }

  /** The first m stages of a run over stage-ordered blocks emit the first m blocks. */
  lemma {:induction false} ScriptOfPrefix(blocks: seq<seq<LogMessage>>, m: nat)
    requires m <= |blocks| && StageBlocks(blocks)
    ensures Script(Concat(blocks), m) == Concat(blocks[..m])
  {
    var all := Concat(blocks);
    assert blocks[..|blocks|] == blocks;
    if m > 0 {
      var k := m - 1;
      var front := blocks[..m];
      assert front[..k] == blocks[..k];
      assert Concat(front) == Concat(blocks[..k]) + blocks[k];
      ScriptOfPrefix(blocks, k);
      StageMessagesOfPrefix(blocks, |blocks|, k);
      assert Script(all, m) == Script(all, k) + StageMessages(all, k);
    } else {
      assert blocks[..0] == [];
    }
  }

  /**
   * Messages listed stage by stage, block i holding step i's, are all in range and
   * are emitted, and so logged, in exactly their declared order.
   */
  lemma StageOrderedScript(blocks: seq<seq<LogMessage>>)
    requires StageBlocks(blocks)
    ensures InRange(Concat(blocks), |blocks|) == Concat(blocks)
    ensures Script(Concat(blocks), |blocks|) == Concat(blocks)
  {
    assert blocks[..|blocks|] == blocks;
    InRangeOfPrefix(blocks, |blocks|, |blocks|);
    ScriptOfPrefix(blocks, |blocks|);
  }
  lemma SumDelaysOfThree(x: LogMessage, y: LogMessage, z: LogMessage)
    ensures SumDelays([x, y, z]) == DelayOf(x) + DelayOf(y) + DelayOf(z)
  {
    assert [x, y, z][1..] == [y, z] && [y, z][1..] == [z] && [z][1..] == [];
    assert SumDelays([z]) == DelayOf(z);
    assert SumDelays([y, z]) == DelayOf(y) + DelayOf(z);
  }

  lemma SumDelaysOfFour(w: LogMessage, x: LogMessage, y: LogMessage, z: LogMessage)
    ensures SumDelays([w, x, y, z]) == DelayOf(w) + DelayOf(x) + DelayOf(y) + DelayOf(z)
  {
    assert [w, x, y, z][1..] == [x, y, z];
    SumDelaysOfThree(x, y, z);
  }

  /** Block i holds only step i's messages; the blocks' delays sum to 1050, 1250, 1350, 1250, 1850 and 1200 ms. */
  lemma DemandStageFacts(i: nat, texts: seq<string>)
    requires i < 6 && |texts| == 19
    ensures forall k :: 0 <= k < |DemandStage(i, texts)| ==> DemandStage(i, texts)[k].step == i
    ensures SumDelays(DemandStage(i, texts)) == [1050, 1250, 1350, 1250, 1850, 1200][i]
  {
    var b := DemandStage(i, texts);
    if i == 4 {
      SumDelaysOfFour(b[0], b[1], b[2], b[3]);
      assert b == [b[0], b[1], b[2], b[3]];
    } else {
      SumDelaysOfThree(b[0], b[1], b[2]);
      assert b == [b[0], b[1], b[2]];
    }
  }
  /** The six blocks of the script, block i holding step i's messages. */
  function DemandBlocks(texts: seq<string>): seq<seq<LogMessage>>
    requires |texts| == 19
  {
    seq(6, i requires 0 <= i < 6 => DemandStage(i, texts))
  }

  lemma ConcatSix(a: seq<LogMessage>, b: seq<LogMessage>, c: seq<LogMessage>,
                  d: seq<LogMessage>, e: seq<LogMessage>, f: seq<LogMessage>)
    ensures Concat([a, b, c, d, e, f]) == a + b + c + d + e + f
  {
    var bs := [a, b, c, d, e, f];
    assert bs[..5] == [a, b, c, d, e] && [a, b, c, d, e][..4] == [a, b, c, d];
    assert [a, b, c, d][..3] == [a, b, c] && [a, b, c][..2] == [a, b];
    assert [a, b][..1] == [a] && [a][..0] == [];
    assert Concat([a]) == a;
    assert Concat([a, b]) == a + b;
    assert Concat([a, b, c]) == a + b + c;
    assert Concat([a, b, c, d]) == a + b + c + d;
  }

  lemma SumDelaysSix(a: seq<LogMessage>, b: seq<LogMessage>, c: seq<LogMessage>,
                     d: seq<LogMessage>, e: seq<LogMessage>, f: seq<LogMessage>)
    ensures SumDelays(a + b + c + d + e + f)
         == SumDelays(a) + SumDelays(b) + SumDelays(c) + SumDelays(d) + SumDelays(e) + SumDelays(f)
  {
    SumDelaysAppend(a, b);
    SumDelaysAppend(a + b, c);
    SumDelaysAppend(a + b + c, d);
    SumDelaysAppend(a + b + c + d, e);
    SumDelaysAppend(a + b + c + d + e, f);
  }

  /**
   * Whatever the texts, the script lists its nineteen messages stage by stage, so a
   * six-step run emits them all, in declared order, and waits 7950 ms on them.
   */
  lemma DemandScriptShape(texts: seq<string>)
    requires |texts| == 19
    ensures StageBlocks(DemandBlocks(texts))
    ensures Concat(DemandBlocks(texts)) == DemandScriptOf(texts)
    ensures InRange(DemandScriptOf(texts), 6) == DemandScriptOf(texts)
    ensures Script(DemandScriptOf(texts), 6) == DemandScriptOf(texts)
    ensures |DemandScriptOf(texts)| == 19
    ensures SumDelays(DemandScriptOf(texts)) == 7950
  {
    var blocks := DemandBlocks(texts);
    forall i | 0 <= i < 6 {
      DemandStageFacts(i, texts);
    }
    var a, b, c := DemandStage(0, texts), DemandStage(1, texts), DemandStage(2, texts);
    var d, e, f := DemandStage(3, texts), DemandStage(4, texts), DemandStage(5, texts);
    assert blocks == [a, b, c, d, e, f];
    ConcatSix(a, b, c, d, e, f);
    SumDelaysSix(a, b, c, d, e, f);
    StageOrderedScript(blocks);
  }

  /**
   * The demand-forecasting agent's run: the log receives its nineteen messages in
   * declared order when the page has a live log (none otherwise), and the run waits
   * 7950 + 6 * 800 + 500 = 13250 ms in all.
   */
  lemma DemandRun(page: Page)
    ensures |DemandSteps| == 6 && |DemandMessages| == 19
    ensures PipelineLog(DemandMessages, |DemandSteps|, page) == if page.hasLiveLog then Entries(DemandMessages) else []
    ensures |PipelineLog(DemandMessages, |DemandSteps|, page)| == if page.hasLiveLog then 19 else 0
    ensures TotalDelay(RunTrace(DemandMessages, |DemandSteps|, page)) == 13250
  {
    DemandScriptShape(DemandTexts);
    RunDelay(DemandMessages, 6, page);
  }

  /**
   * A session on the demand-forecasting page: a new agent, the user choosing the file
   * `name` with contents `text`, the read completing, and a click on the process
   * button. A CSV file yields its parsed table and the full run; any other file is
   * refused, and the click then does nothing.
   */
  method DemandSession(page: Page, name: string, text: string)
    returns (data: Option<Csv.Table>, log: seq<LogEntry>, trace: seq<Event>)
    ensures EndsWith(name, ".csv") ==> data == Some(Csv.Parse(text))
    ensures EndsWith(name, ".csv") ==> trace == RunTrace(DemandMessages, |DemandSteps|, page)
    ensures EndsWith(name, ".csv") ==> log == if page.hasLiveLog then Entries(DemandMessages) else []
    ensures EndsWith(name, ".csv") ==> |log| == (if page.hasLiveLog then 19 else 0) && TotalDelay(trace) == 13250
    ensures !EndsWith(name, ".csv") ==> data == None && log == [] && trace == []
  {
    var agent := new Agent.BaseAgent(DemandConfig, page);
    agent.HandleFileSelect(Some(Agent.File(name, text)));
    if EndsWith(name, ".csv") {
      agent.FileLoaded(0);
    }
    agent.StartProcessing();
    DemandRun(page);
    data, log, trace := agent.csvData, agent.log, agent.trace;
  }
}
