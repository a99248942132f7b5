/**
 * The `BaseAgent` controller shared by every agent page: it gates the chosen file on
 * its extension, reads it as CSV once loading completes, and on "process" runs the
 * staged pipeline (log lines, stage and connector marks, status) and then shows the
 * results. Every run's observable effects are appended to `trace`; the properties of
 * that sequence are proved in module Pipeline.
 *
 * The run is modelled as one atomic step: JavaScript's awaits are recorded as
 * `Delay` events and nothing else interleaves with them.
 */
module Agent {
  import opened Wrappers
  import opened JsString
  import Csv
  import opened Pipeline

  /** The object a concrete agent passes to `super(config)`; a missing array is `None`. */
  datatype AgentConfig = AgentConfig(name: string, steps: Option<seq<string>>, logMessages: Option<seq<LogMessage>>)

  /** A file chosen in the file input: its name, and the text the reader will deliver. */
  datatype File = File(name: string, text: string)

  /** The classes 'active' and 'completed' of one stage icon. */
  datatype StageMark = StageMark(active: bool, completed: bool)

  /** The icon of stage i, when it exists, gains 'active' and keeps its 'completed'. */
  function Activate(marks: seq<StageMark>, i: nat): (r: seq<StageMark>)
    ensures |r| == |marks|
    ensures forall k :: 0 <= k < |r| ==> r[k] == if k == i then StageMark(true, marks[k].completed) else marks[k]
  {
    if i < |marks| then marks[i := StageMark(true, marks[i].completed)] else marks
  }

  /** The icon of stage i, when it exists, loses 'active' and gains 'completed'. */
  function CompleteAt(marks: seq<StageMark>, i: nat): (r: seq<StageMark>)
    ensures |r| == |marks|
    ensures forall k :: 0 <= k < |r| ==> r[k] == if k == i then StageMark(false, true) else marks[k]
  {
    if i < |marks| then marks[i := StageMark(false, true)] else marks
  }

  /** Connector i, when it exists, gains 'completed'. */
  function FillAt(done: seq<bool>, i: nat): (r: seq<bool>)
    ensures |r| == |done|
    ensures forall k :: 0 <= k < |r| ==> r[k] == (k == i || done[k])
  {
    if i < |done| then done[i := true] else done
  }

  /** The icons after stages 0 .. n - 1 have run: those read completed, the rest are as before. */
  function CompletedUpTo(marks: seq<StageMark>, n: nat): (r: seq<StageMark>)
    ensures |r| == |marks|
    ensures forall k :: 0 <= k < |r| ==> r[k] == if k < n then StageMark(false, true) else marks[k]
  {
    seq(|marks|, k requires 0 <= k < |marks| => if k < n then StageMark(false, true) else marks[k])
  }

  /** The connectors after stages 0 .. n - 1 have run: those are filled, the rest are as before. */
  function FilledUpTo(done: seq<bool>, n: nat): (r: seq<bool>)
    ensures |r| == |done|
    ensures forall k :: 0 <= k < |r| ==> r[k] == (k < n || done[k])
  {
    seq(|done|, k requires 0 <= k < |done| => k < n || done[k])
  }

  /** Completing an icon after activating it is completing it. */
  lemma CompleteAfterActivate(marks: seq<StageMark>, i: nat)
    ensures CompleteAt(Activate(marks, i), i) == CompleteAt(marks, i)
  {
  }

  /** One more stage: icon n completes on top of the first n. */
  lemma CompletedStep(marks: seq<StageMark>, n: nat)
    ensures CompleteAt(CompletedUpTo(marks, n), n) == CompletedUpTo(marks, n + 1)
  {
  }

  /** One more stage: connector n fills on top of the first n. */
  lemma FilledStep(done: seq<bool>, n: nat)
    ensures FillAt(FilledUpTo(done, n), n) == FilledUpTo(done, n + 1)
  {
  }

  class BaseAgent {
    const name: string
    const steps: seq<string>
    const logMessages: seq<LogMessage>
    /** The page the agent runs on: which optional elements exist, and how many. */
    const page: Page
    /** The classes of the step icons, one per `.pipeline-step` with an icon. */
    const stageMarks: array<StageMark>
    /** Whether each `.step-connector` has the class 'completed'. */
    const connectorDone: array<bool>

    var currentStep: int
    var isProcessing: bool
    /** The parsed file, `null` until a read completes. */
    var csvData: Option<Csv.Table>
    /** The texts of accepted files whose read has started but not completed. */
    var pendingReads: seq<string>
    /** The file name shown in the file label, once a file has been accepted. */
    var fileLabel: Option<string>
    /** The classes 'loaded' on the label and 'file-loaded' on the upload section. */
    var fileLoaded: bool
    /** The class 'show' on the process button. */
    var buttonShown: bool
    var buttonDisabled: bool
    /** The class 'show' on the processing section. */
    var processingShown: bool
    /** The live log's entries. */
    var log: seq<LogEntry>
    /** Whether the status indicator reads "Complete". */
    var statusComplete: bool
    /** The class 'show' on the results section. */
    var resultsShown: bool
    /** Everything observable the agent has done, in order. */
    var trace: seq<Event>

    predicate Valid()
      reads this
    {
      stageMarks.Length == page.stepIcons && connectorDone.Length == page.connectors
    }

    /** The loaded data and the file controls are as they were. */
    twostate predicate InputUnchanged()
      reads this
    {
      old(csvData) == csvData && old(pendingReads) == pendingReads && old(fileLabel) == fileLabel
      && old(fileLoaded) == fileLoaded && old(buttonShown) == buttonShown
    }

    /** The processing flag, the step counter and the processing controls are as they were. */
    twostate predicate ControlsUnchanged()
      reads this
    {
      old(currentStep) == currentStep && old(isProcessing) == isProcessing
      && old(buttonDisabled) == buttonDisabled && old(processingShown) == processingShown
    }

    /** The status indicator and the results section are as they were. */
    twostate predicate OutcomeUnchanged()
      reads this
    {
      old(statusComplete) == statusComplete && old(resultsShown) == resultsShown
    }

    /**
     * `new BaseAgent(config)` on a page: missing steps or messages become empty,
     * nothing is loaded or running, and no mark, log entry or event exists yet.
     */
    constructor (config: AgentConfig, page: Page)
      ensures Valid()
      ensures name == config.name && steps == config.steps.GetOr([]) && logMessages == config.logMessages.GetOr([])
      ensures this.page == page && currentStep == 0 && !isProcessing && csvData == None
      ensures pendingReads == [] && fileLabel == None && !fileLoaded && !buttonShown
      ensures !buttonDisabled && !processingShown && log == [] && !statusComplete && !resultsShown && trace == []
      ensures forall i :: 0 <= i < stageMarks.Length ==> stageMarks[i] == StageMark(false, false)
      ensures forall i :: 0 <= i < connectorDone.Length ==> !connectorDone[i]
      ensures fresh(stageMarks) && fresh(connectorDone)
    {
      name := config.name;
      steps := config.steps.GetOr([]);
      logMessages := config.logMessages.GetOr([]);
      this.page := page;
      stageMarks := new StageMark[page.stepIcons](_ => StageMark(false, false));
      connectorDone := new bool[page.connectors](_ => false);
      currentStep := 0;
      isProcessing := false;
      csvData := None;
      pendingReads := [];
      fileLabel := None;
      fileLoaded := false;
      buttonShown := false;
      buttonDisabled := false;
      processingShown := false;
      log := [];
      statusComplete := false;
      resultsShown := false;
      trace := [];
    }

    /**
     * The file input's change handler. A file whose name ends in ".csv" (case
     * sensitive) is shown in the label, unlocks the process button and starts a read;
     * any other choice, or none, changes nothing.
     */
    method HandleFileSelect(file: Option<File>)
      modifies this
      ensures ControlsUnchanged() && OutcomeUnchanged() && log == old(log) && trace == old(trace)
      ensures csvData == old(csvData)
      ensures file.Some? && EndsWith(file.value.name, ".csv") ==>
                fileLabel == Some(file.value.name) && fileLoaded && buttonShown
                && pendingReads == old(pendingReads) + [file.value.text]
      ensures !(file.Some? && EndsWith(file.value.name, ".csv")) ==> unchanged(this)
    {
      if file.Some? && EndsWith(file.value.name, ".csv") {
        fileLabel := Some(file.value.name);
        fileLoaded := true;
        buttonShown := true;
        pendingReads := pendingReads + [file.value.text];
      }
    }

    /**
     * The reader's load callback for the k-th pending read: the table parsed from its
     * text replaces any earlier one. Reads may complete in any order.
     */
    method FileLoaded(k: nat)
      requires k < |pendingReads|
      modifies this
      ensures csvData == Some(Csv.Parse(old(pendingReads[k])))
      ensures pendingReads == old(pendingReads[..k] + pendingReads[k + 1..])
      ensures fileLabel == old(fileLabel) && fileLoaded == old(fileLoaded) && buttonShown == old(buttonShown)
      ensures ControlsUnchanged() && OutcomeUnchanged() && log == old(log) && trace == old(trace)
    {
      var table := Csv.ParseCsv(pendingReads[k]);
      csvData := Some(table);
      pendingReads := pendingReads[..k] + pendingReads[k + 1..];
    }

    /** `await AgentUtils.delay(ms)`: the wait is recorded, nothing else happens. */
    method AwaitDelay(ms: int)
      modifies this
      ensures trace == old(trace) + [Delay(ms)]
      ensures InputUnchanged() && ControlsUnchanged() && OutcomeUnchanged() && log == old(log)
    {
      trace := trace + [Delay(ms)];
    }

    /**
     * Appends one entry at the end of the live log, leaving the earlier ones in place;
     * without a live log element it does nothing.
     */
    method AddLogEntry(tag: string, text: string)
      modifies this
      ensures log == old(log) + (if page.hasLiveLog then [LogEntry(tag, text)] else [])
      ensures trace == old(trace) + (if page.hasLiveLog then [Log(tag, text)] else [])
      ensures InputUnchanged() && ControlsUnchanged() && OutcomeUnchanged()
    {
      if page.hasLiveLog {
        log := log + [LogEntry(tag, text)];
        trace := trace + [Log(tag, text)];
      }
    }

    /** One scripted message: wait `msg.delay || 400`, then add its log entry. */
    method EmitMessage(msg: LogMessage)
      modifies this
      ensures trace == old(trace) + MessageStep(msg, page.hasLiveLog)
      ensures log == old(log) + (if page.hasLiveLog then [LogEntry(msg.tag, msg.text)] else [])
      ensures InputUnchanged() && ControlsUnchanged() && OutcomeUnchanged()
    {
      AwaitDelay(DelayOf(msg));
      AddLogEntry(msg.tag, msg.text);
    }

    /**
     * The inner loop of `runPipeline()` for stage i: its messages in declared order.
     * The trace grows by their `MessageTrace` and the log by their entries.
     */
    method LogStageMessages(i: nat)
      modifies this
      ensures trace == old(trace) + MessageTrace(StageMessages(logMessages, i), page.hasLiveLog)
      ensures log == old(log) + (if page.hasLiveLog then Entries(StageMessages(logMessages, i)) else [])
      ensures InputUnchanged() && ControlsUnchanged() && OutcomeUnchanged()
    {
      var stepMessages := StageMessages(logMessages, i);
      var j := 0;
      while j < |stepMessages|
        invariant 0 <= j <= |stepMessages|
        invariant trace == old(trace) + MessageTrace(stepMessages[..j], page.hasLiveLog)
        invariant log == old(log) + (if page.hasLiveLog then Entries(stepMessages[..j]) else [])
        invariant InputUnchanged() && ControlsUnchanged() && OutcomeUnchanged()
      {
        EmitMessage(stepMessages[j]);
        MessagePrefixStep(stepMessages, j, page.hasLiveLog);
        AppendAssoc(old(trace), MessageTrace(stepMessages[..j], page.hasLiveLog), MessageStep(stepMessages[j], page.hasLiveLog));
        if page.hasLiveLog {
          AppendAssoc(old(log), Entries(stepMessages[..j]), [LogEntry(stepMessages[j].tag, stepMessages[j].text)]);
        }
        j := j + 1;
      }
      assert stepMessages[..j] == stepMessages;
    }

    /** Marks stage i's icon active, when it exists. */
    method OpenStage(i: nat)
      requires Valid()
      modifies this, stageMarks
      ensures Valid()
      ensures trace == old(trace) + StageOpen(i, page)
      ensures stageMarks[..] == Activate(old(stageMarks[..]), i)
      ensures InputUnchanged() && ControlsUnchanged() && OutcomeUnchanged() && log == old(log)
    {
      if i < stageMarks.Length {
        stageMarks[i] := StageMark(true, stageMarks[i].completed);
        trace := trace + [StageActive(i)];
      }
    }

    /** Marks stage i's icon completed and then fills connector i, each when it exists. */
    method CloseStage(i: nat)
      requires Valid()
      modifies this, stageMarks, connectorDone
      ensures Valid()
      ensures trace == old(trace) + StageClose(i, page)
      ensures stageMarks[..] == CompleteAt(old(stageMarks[..]), i)
      ensures connectorDone[..] == FillAt(old(connectorDone[..]), i)
      ensures InputUnchanged() && ControlsUnchanged() && OutcomeUnchanged() && log == old(log)
    {
      ghost var start := trace;
      if i < stageMarks.Length {
        stageMarks[i] := StageMark(false, true);
        trace := trace + [StageCompleted(i)];
      }
      if i < connectorDone.Length {
        connectorDone[i] := true;
        trace := trace + [Connector(i)];
      }
      ghost var completedPart: seq<Event> := if i < stageMarks.Length then [StageCompleted(i)] else [];
      ghost var connectorPart: seq<Event> := if i < connectorDone.Length then [Connector(i)] else [];
      AppendAssoc(start, completedPart, connectorPart);
    }

    /**
     * One iteration of the stage loop: mark the icon active, log the stage's
     * messages, wait 800 ms, mark the icon completed and fill the connector.
     */
    method RunStage(i: nat)
      requires Valid()
      modifies this, stageMarks, connectorDone
      ensures Valid()
      ensures trace == old(trace) + StageTrace(logMessages, i, page)
      ensures log == old(log) + (if page.hasLiveLog then Entries(StageMessages(logMessages, i)) else [])
      ensures stageMarks[..] == CompleteAt(old(stageMarks[..]), i)
      ensures connectorDone[..] == FillAt(old(connectorDone[..]), i)
      ensures InputUnchanged() && ControlsUnchanged() && OutcomeUnchanged()
    {
      ghost var start := trace;
      CompleteAfterActivate(stageMarks[..], i);
      OpenStage(i);
      LogStageMessages(i);
      AwaitDelay(StageCompletionDelay);
      CloseStage(i);
      AppendAssoc5(start, StageOpen(i, page), MessageTrace(StageMessages(logMessages, i), page.hasLiveLog),
                   [Delay(StageCompletionDelay)], StageClose(i, page));
    }

    /**
     * The stage loop's step: with stages 0 .. i - 1 done since the state (t0, l0, m0,
     * d0), running stage i leaves stages 0 .. i done.
     */
    method AdvanceStage(i: nat, ghost t0: seq<Event>, ghost l0: seq<LogEntry>, ghost m0: seq<StageMark>, ghost d0: seq<bool>)
      requires Valid()
      requires trace == t0 + StagesTrace(logMessages, i, page)
      requires log == l0 + PipelineLog(logMessages, i, page)
      requires stageMarks[..] == CompletedUpTo(m0, i) && connectorDone[..] == FilledUpTo(d0, i)
      modifies this, stageMarks, connectorDone
      ensures Valid()
      ensures trace == t0 + StagesTrace(logMessages, i + 1, page)
      ensures log == l0 + PipelineLog(logMessages, i + 1, page)
      ensures stageMarks[..] == CompletedUpTo(m0, i + 1) && connectorDone[..] == FilledUpTo(d0, i + 1)
      ensures InputUnchanged() && ControlsUnchanged() && OutcomeUnchanged()
    {
      RunStage(i);
      CompletedStep(m0, i);
      FilledStep(d0, i);
      AppendAssoc(t0, StagesTrace(logMessages, i, page), StageTrace(logMessages, i, page));
      PipelineLogStep(logMessages, i, page);
      if page.hasLiveLog {
        AppendAssoc(l0, PipelineLog(logMessages, i, page), Entries(StageMessages(logMessages, i)));
      }
    }

    /** The stage loop of `runPipeline()`: stages 0 .. n - 1 in order. */
    method RunStages(n: nat)
      requires Valid()
      modifies this, stageMarks, connectorDone
      ensures Valid()
      ensures trace == old(trace) + StagesTrace(logMessages, n, page)
      ensures log == old(log) + PipelineLog(logMessages, n, page)
      ensures stageMarks[..] == CompletedUpTo(old(stageMarks[..]), n)
      ensures connectorDone[..] == FilledUpTo(old(connectorDone[..]), n)
      ensures InputUnchanged() && ControlsUnchanged() && OutcomeUnchanged()
    {
      var i := 0;
      while i < n
        invariant 0 <= i <= n
        invariant Valid()
        invariant trace == old(trace) + StagesTrace(logMessages, i, page)
        invariant log == old(log) + PipelineLog(logMessages, i, page)
        invariant stageMarks[..] == CompletedUpTo(old(stageMarks[..]), i)
        invariant connectorDone[..] == FilledUpTo(old(connectorDone[..]), i)
        invariant InputUnchanged() && ControlsUnchanged() && OutcomeUnchanged()
      {
        AdvanceStage(i, old(trace), old(log), old(stageMarks[..]), old(connectorDone[..]));
        i := i + 1;
      }
    }

    /**
     * `runPipeline()`: for each step i in order, mark its icon active, log its
     * messages, wait 800 ms, mark the icon completed and fill connector i (each mark
     * only where the element exists); then set the status when the indicator exists.
     */
    method RunPipeline()
      requires Valid()
      modifies this, stageMarks, connectorDone
      ensures Valid()
      ensures trace == old(trace) + PipelineTrace(logMessages, |steps|, page)
      ensures log == old(log) + PipelineLog(logMessages, |steps|, page)
      ensures statusComplete == (old(statusComplete) || page.hasStatus) && resultsShown == old(resultsShown)
      ensures stageMarks[..] == CompletedUpTo(old(stageMarks[..]), |steps|)
      ensures connectorDone[..] == FilledUpTo(old(connectorDone[..]), |steps|)
      ensures InputUnchanged() && ControlsUnchanged()
    {
      RunStages(|steps|);
      ghost var looped := trace;
      if page.hasStatus {
        statusComplete := true;
        trace := trace + [StatusComplete];
      }
      assert trace == looped + StatusTrace(page);
      AppendAssoc(old(trace), StagesTrace(logMessages, |steps|, page), StatusTrace(page));
    }

    /** The `insightCards.forEach` of `showResults()`: card k's reveal is scheduled at k * 300 ms. */
    method ScheduleInsights()
      modifies this
      ensures trace == old(trace) + InsightTrace(page.insightCards)
      ensures InputUnchanged() && ControlsUnchanged() && OutcomeUnchanged() && log == old(log)
    {
      var k := 0;
      while k < page.insightCards
        invariant 0 <= k <= page.insightCards
        invariant trace == old(trace) + InsightTrace(k)
        invariant InputUnchanged() && ControlsUnchanged() && OutcomeUnchanged() && log == old(log)
      {
        trace := trace + [InsightScheduled(k, InsightStagger * k)];
        AppendAssoc(old(trace), InsightTrace(k), [InsightScheduled(k, InsightStagger * k)]);
        k := k + 1;
      }
    }

    /**
     * `showResults()`: show the results section when it exists, call the metrics
     * hook, schedule the insight cards' reveals, and call the charts hook.
     */
    method ShowResults()
      modifies this
      ensures trace == old(trace) + ResultsTrace(page)
      ensures resultsShown == (old(resultsShown) || page.hasResults) && statusComplete == old(statusComplete)
      ensures InputUnchanged() && ControlsUnchanged() && log == old(log)
    {
      if page.hasResults {
        resultsShown := true;
        trace := trace + [ResultsRevealed];
      }
      trace := trace + [MetricsAnimated];
      ScheduleInsights();
      trace := trace + [ChartsCalled];
    }

    /**
     * The process button's click handler. While a run is in progress, or before any
     * table has loaded, it does nothing at all. Otherwise it sets the processing
     * flag, disables the button, shows the processing section, runs the pipeline,
     * waits 500 ms, shows the results and clears the flag: the trace grows by exactly
     * `RunTrace` and the log by exactly `PipelineLog`.
     */
    method StartProcessing()
      requires Valid()
      modifies this, stageMarks, connectorDone
      ensures Valid()
      ensures old(isProcessing) || old(csvData).None? ==>
                unchanged(this) && unchanged(stageMarks) && unchanged(connectorDone)
      ensures !old(isProcessing) && old(csvData).Some? ==>
                trace == old(trace) + RunTrace(logMessages, |steps|, page)
                && log == old(log) + PipelineLog(logMessages, |steps|, page)
                && !isProcessing && buttonDisabled && processingShown
                && statusComplete == (old(statusComplete) || page.hasStatus)
                && resultsShown == (old(resultsShown) || page.hasResults)
                && stageMarks[..] == CompletedUpTo(old(stageMarks[..]), |steps|)
                && connectorDone[..] == FilledUpTo(old(connectorDone[..]), |steps|)
      ensures InputUnchanged() && currentStep == old(currentStep)
    {
      if isProcessing || csvData.None? {
        return;
      }
      isProcessing := true;
      buttonDisabled := true;
      processingShown := true;
      RunPipeline();
      assert isProcessing;
      AwaitDelay(ResultsDelay);
      ShowResults();
      isProcessing := false;
      AppendAssoc(old(trace), PipelineTrace(logMessages, |steps|, page), [Delay(ResultsDelay)]);
      AppendAssoc(old(trace), PipelineTrace(logMessages, |steps|, page) + [Delay(ResultsDelay)], ResultsTrace(page));
    }
  }
}
