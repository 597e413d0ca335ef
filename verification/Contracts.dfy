/** The value types shared by the harness: evidence, policies, decisions and exceptions. */
module Contracts {

  datatype Option<+T> = None | Some(value: T)

  datatype TerminalState = Succeeded | Partial | NoOp | Blocked | Exhausted | Failed

  /** Per-run limits; the bounds are those the policy schema accepts. */
  datatype HarnessPolicy = HarnessPolicy(
    maxIterations: nat,
    maxModelCalls: nat,
    maxToolCalls: nat,
    maxEvidenceFrames: nat,
    maxWallSeconds: nat)
  {
    ghost predicate Valid() {
      && 1 <= maxIterations <= 3
      && maxModelCalls <= 12
      && maxToolCalls <= 6
      && 1 <= maxEvidenceFrames <= 96
      && 1 <= maxWallSeconds <= 900
    }
  }

  datatype MediaProbe = MediaProbe(durationSeconds: real, hasAudio: bool)

  datatype Modality = Frame | Transcript | OtherModality

  datatype BudgetClass = DirectBaseline | ModelSelected

  datatype Evidence = Evidence(
    id: string,
    startSeconds: real,
    endSeconds: real,
    modality: Modality,
    content: Option<string>,
    hasArtifact: bool,
    budgetClass: BudgetClass)

  /** The time range the evidence schema accepts. */
  predicate ValidRange(startSeconds: real, endSeconds: real) {
    0.0 <= startSeconds <= endSeconds
  }

  datatype Claim = Claim(text: string, evidence: seq<string>)

  datatype AnalysisResult = AnalysisResult(
    summary: string,
    claims: seq<Claim>,
    requiredSections: map<string, string>)

  /** What a task may return: a video analysis, or some other task's opaque result. */
  datatype Output = Analysis(result: AnalysisResult) | OtherOutput(payload: nat)

  datatype Usage = Usage(modelCalls: nat, inputBytes: nat, inputTokens: nat, outputTokens: nat, reported: bool)
  {
    function Plus(other: Usage): Usage {
      Usage(modelCalls + other.modelCalls, inputBytes + other.inputBytes,
            inputTokens + other.inputTokens, outputTokens + other.outputTokens,
            reported && other.reported)
    }
  }

  const ZERO_USAGE := Usage(0, 0, 0, 0, true)

  /**
   The exceptions that steer a run. Cancelled and Exit are not subclasses of Python's Exception:
   Cancelled is asyncio.CancelledError; Exit stands for KeyboardInterrupt, SystemExit and the like.
   */
  datatype Kind =
    | Cancelled
    | Exit
    | WallClock
    | ToolCallBudget
    | ModelCallBudget
    | IterationBudget
    | FrameHeadroom
    | FrameOverflow
    | OtherBudget
    | Unavailable
    | DecisionFormat
    | OtherProvider
    | UnknownTool
    | InvalidArguments
    | DuplicateCall
    | WindowEscapes
    | ValidationFailure
    | RuntimeFailure
    | OtherFailure
  {
    predicate IsBudget() {
      WallClock? || ToolCallBudget? || ModelCallBudget? || IterationBudget? || FrameHeadroom?
      || FrameOverflow? || OtherBudget?
    }

    /** Caught by an `except Exception` clause. */
    predicate IsOrdinary() {
      !Cancelled? && !Exit?
    }
  }

  /** Exceptions the kernel raises itself carry kinds that no outside party can forge. */
  predicate IsForeign(kind: Kind) {
    !kind.WallClock? && !kind.ToolCallBudget? && !kind.ModelCallBudget? && !kind.IterationBudget?
    && !kind.FrameHeadroom? && !kind.FrameOverflow? && !kind.UnknownTool? && !kind.InvalidArguments?
    && !kind.DuplicateCall? && !kind.WindowEscapes?
  }

  /** An exception and the aggregate counters a failed provider attempt attached to it, if any. */
  datatype Exn = Exn(kind: Kind, counters: Option<Usage>)

  function Raise(kind: Kind): Exn {
    Exn(kind, None)
  }

  datatype Outcome<+T> = Ok(value: T) | Raised(exn: Exn)

  datatype Window = Window(startSeconds: real, endSeconds: real)

  datatype Gate =
    | SchemaValid
    | TimestampsInBounds
    | EvidenceExists
    | ClaimsSupported
    | SectionsCovered
    | OtherGate(tag: nat)

  /** The outcome a task's deterministic verifier reports. */
  datatype Verification = Verification(passed: bool, failedGates: seq<Gate>, targetedWindows: seq<Window>)

  /** Repair feedback sent to the agent: failed gates and numeric windows only. */
  datatype Feedback = Feedback(failedGates: seq<Gate>, targetedWindows: seq<Window>)

  /** Tool arguments as requested, before a tool's input schema has judged them. */
  datatype RawArguments = RawArguments(
    windows: Option<seq<Window>>,
    maxFrames: Option<int>,
    wellFormed: bool,
    rest: nat)

  const NO_ARGUMENTS := RawArguments(None, None, true, 0)

  /** `^[a-z][a-z0-9_]*$`, at most 128 characters. */
  predicate ValidToolName(name: string) {
    && 1 <= |name| <= 128 && 'a' <= name[0] <= 'z'
    && forall i :: 0 <= i < |name| ==> 'a' <= name[i] <= 'z' || '0' <= name[i] <= '9' || name[i] == '_'
  }

  datatype ToolCall = ToolCall(name: string, arguments: RawArguments)

  /** One agent step: one or two tool calls, or a final payload. */
  datatype Decision = ToolCalls(calls: seq<ToolCall>) | Final(payload: nat)
  {
    predicate Valid() {
      ToolCalls? ==> 1 <= |calls| <= 2 && forall k :: 0 <= k < |calls| ==> ValidToolName(calls[k].name)
    }
  }

  /** Whether the JSON schema of an input or output model can be generated: always, never, or not every time. */
  datatype Schema = Generates | NeverGenerates | MayRaise

  datatype ToolStatus = ToolCompleted | ToolSkipped | ToolFailed

  datatype ToolResult = ToolResult(status: ToolStatus, evidenceIds: seq<string>, frameCount: Option<nat>, usage: Usage)

  function FrameCount(evidence: seq<Evidence>): nat {
    if |evidence| == 0 then 0
    else FrameCount(evidence[..|evidence| - 1]) + (if evidence[|evidence| - 1].modality.Frame? then 1 else 0)
  }

  lemma FrameCountAppend(evidence: seq<Evidence>, item: Evidence)
    ensures FrameCount(evidence + [item]) == FrameCount(evidence) + (if item.modality.Frame? then 1 else 0)
  {
    assert (evidence + [item])[..|evidence|] == evidence;
  }

  lemma {:induction false} FrameCountMonotone(shorter: seq<Evidence>, longer: seq<Evidence>)
    requires shorter <= longer
    ensures FrameCount(shorter) <= FrameCount(longer)
    decreases |longer|
  {
    if |shorter| == |longer| {
      assert shorter == longer;
    } else {
      FrameCountMonotone(shorter, longer[..|longer| - 1]);
    }
  }

  function Count(condition: bool): nat {
    if condition then 1 else 0
  }
}
