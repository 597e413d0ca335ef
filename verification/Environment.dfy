/**
 Everything outside the kernel: media, models, plugins of other authors, the result writer and the
 operating system. Each method answers arbitrarily, so what is proved holds whatever they do.
 */
module Environments {
  import opened Contracts
  import opened EvidenceIds
  import opened Sampling
  import opened Sorting

  ghost predicate IsAnswer<T>(r: Outcome<T>) {
    r.Raised? ==> IsForeign(r.exn.kind)
  }

  function Foreign(exn: Exn): (e: Exn)
    ensures IsForeign(e.kind) && (IsForeign(exn.kind) ==> e == exn)
  {
    if IsForeign(exn.kind) then exn else Raise(OtherFailure)
  }

  datatype ExtractedFrame = ExtractedFrame(timestamp: real)

  /** One frame for each candidate, at the candidate's own time, in time order. */
  function FramesOf(selected: seq<FrameCandidate>): (frames: seq<ExtractedFrame>)
    ensures |frames| == |selected|
  {
    FramesAt(Sort(selected, NoLater))
  }

  /** The frames are those of the selected candidates, each once, in time order. */
  lemma FramesOrdered(selected: seq<FrameCandidate>)
    ensures forall i, j :: 0 <= i < j < |selected| ==>
      FramesOf(selected)[i].timestamp <= FramesOf(selected)[j].timestamp
    ensures exists ordered :: IsOrderOf(ordered, selected) && FramesOf(selected) == FramesAt(ordered)
  {
    var ordered := Sort(selected, NoLater);
    SortSorted(selected, NoLater);
    assert forall i, j :: 0 <= i < j < |ordered| ==> NoLater(ordered[i], ordered[j]);
    assert IsOrderOf(ordered, selected);
  }

  /** The same candidates, as often, in some order. */
  ghost predicate IsOrderOf(ordered: seq<FrameCandidate>, selected: seq<FrameCandidate>) {
    multiset(ordered) == multiset(selected)
  }

  /** One frame for each candidate, in their order. */
  function FramesAt(candidates: seq<FrameCandidate>): (frames: seq<ExtractedFrame>)
    ensures |frames| == |candidates|
  {
    seq(|candidates|, k requires 0 <= k < |candidates| => ExtractedFrame(candidates[k].timestamp))
  }

  /** So every frame lies at the time of some selected candidate. */
  lemma FrameHasCandidate(selected: seq<FrameCandidate>, k: nat)
    requires k < |selected|
    ensures exists c :: c in selected && FramesOf(selected)[k].timestamp == c.timestamp
  {
    hide FramesOf;
    FramesOrdered(selected);
    var ordered :| IsOrderOf(ordered, selected) && FramesOf(selected) == FramesAt(ordered);
    assert ordered[k] in multiset(ordered);
  }

  datatype Transcription = Transcription(text: string, usage: Usage)

  /** What a plugin may ask of the evidence sink. */
  datatype SinkRequest = AllocateId(prefix: IdPrefix) | Store(item: Evidence, artifactOk: bool)

  class Environment {
    /** How many answers were an exception that no handler of the kernel absorbs. */
    ghost var exits: nat
    /** How many times a model was invoked. */
    ghost var modelInvocations: nat
    /** The outputs the result writer persisted. */
    ghost var saved: seq<Output>

    constructor ()
      ensures exits == 0 && modelInvocations == 0 && saved == []
    {
      exits, modelInvocations, saved := 0, 0, [];
    }

    /** Any answer at all. */
    method Answer<T>(candidate: Outcome<T>) returns (r: Outcome<T>)
      modifies `exits
      ensures IsAnswer(r)
      ensures r.Ok? ==> r == candidate
      ensures exits == old(exits) + (if r.Raised? && r.exn.kind.Exit? then 1 else 0)
    {
      r := candidate;
      if r.Raised? {
        r := Raised(Foreign(r.exn));
        if r.exn.kind.Exit? {
          exits := exits + 1;
        }
      }
    }

    method ReadIdentity() returns (r: Outcome<nat>)
      modifies `exits
      ensures IsAnswer(r) && exits == old(exits) + (if r.Raised? && r.exn.kind.Exit? then 1 else 0)
    {
      var any: Outcome<nat> := *;
      r := Answer(any);
    }

    method ProbeMedia() returns (r: Outcome<MediaProbe>)
      modifies `exits
      ensures IsAnswer(r) && exits == old(exits) + (if r.Raised? && r.exn.kind.Exit? then 1 else 0)
    {
      var any: Outcome<MediaProbe> := *;
      r := Answer(any);
    }

    method RequestFinal() returns (r: Outcome<(Output, Usage)>)
      modifies `exits, `modelInvocations
      ensures IsAnswer(r) && exits == old(exits) + (if r.Raised? && r.exn.kind.Exit? then 1 else 0)
      ensures modelInvocations == old(modelInvocations) + 1
    {
      modelInvocations := modelInvocations + 1;
      var any: Outcome<(Output, Usage)> := *;
      r := Answer(any);
    }

    /** One agent decision; the decision schema guarantees its shape. */
    method DecideNext() returns (r: Outcome<(Decision, Usage)>)
      modifies `exits, `modelInvocations
      ensures IsAnswer(r) && exits == old(exits) + (if r.Raised? && r.exn.kind.Exit? then 1 else 0)
      ensures r.Ok? ==> r.value.0.Valid()
      ensures modelInvocations == old(modelInvocations) + 1
    {
      modelInvocations := modelInvocations + 1;
      var any: Outcome<(Decision, Usage)> := *;
      if any.Ok? && !any.value.0.Valid() {
        any := Raised(Raise(DecisionFormat));
      }
      r := Answer(any);
    }

    /** Generate one model's JSON schema for a decision request. */
    method GenerateSchema(schema: Schema) returns (e: Option<Exn>)
      modifies `exits
      ensures schema.Generates? ==> e.None?
      ensures schema.NeverGenerates? ==> e.Some?
      ensures e.Some? ==> IsForeign(e.value.kind) && !e.value.kind.DecisionFormat?
      ensures exits == old(exits) + Count(e.Some? && e.value.kind.Exit?)
    {
      var raises: bool, exn: Exn := *, *;
      if schema.Generates? || (schema.MayRaise? && !raises) {
        return None;
      }
      if !IsForeign(exn.kind) || exn.kind.DecisionFormat? {
        exn := Raise(OtherFailure);
      }
      if exn.kind.Exit? {
        exits := exits + 1;
      }
      return Some(exn);
    }

    /** Another author's input model judges a call; it may raise more than a validation error. */
    method JudgeInput() returns (e: Option<Exn>)
      modifies `exits
      ensures e.Some? ==> IsForeign(e.value.kind)
      ensures exits == old(exits) + Count(e.Some? && e.value.kind.Exit?)
    {
      var any: Outcome<bool> := *;
      var r := Answer(any);
      e := if r.Raised? then Some(r.exn) else None;
    }

    method VisualCandidates() returns (r: Outcome<seq<FrameCandidate>>)
      modifies `exits
      ensures IsAnswer(r) && exits == old(exits) + (if r.Raised? && r.exn.kind.Exit? then 1 else 0)
    {
      var any: Outcome<seq<FrameCandidate>> := *;
      r := Answer(any);
    }

    /** The media port extracts the selected frames and no others, or fails as a whole. */
    method ExtractFrames(selected: seq<FrameCandidate>) returns (r: Outcome<seq<ExtractedFrame>>)
      modifies `exits
      ensures IsAnswer(r) && exits == old(exits) + (if r.Raised? && r.exn.kind.Exit? then 1 else 0)
      ensures r.Ok? ==> r.value == FramesOf(selected)
    {
      var any: Outcome<seq<ExtractedFrame>> := *;
      r := Answer(if any.Ok? then Ok(FramesOf(selected)) else any);
    }

    method ExtractTimeline() returns (r: Outcome<seq<ExtractedFrame>>)
      modifies `exits
      ensures IsAnswer(r) && exits == old(exits) + (if r.Raised? && r.exn.kind.Exit? then 1 else 0)
    {
      var any: Outcome<seq<ExtractedFrame>> := *;
      r := Answer(any);
    }

    /** Extract one window's audio and recognise every segment of it. */
    method Transcribe(window: Window) returns (r: Outcome<Transcription>)
      modifies `exits
      ensures IsAnswer(r) && exits == old(exits) + (if r.Raised? && r.exn.kind.Exit? then 1 else 0)
    {
      var any: Outcome<Transcription> := *;
      r := Answer(any);
    }

    /** Another author's plugin: any requests to the evidence sink, then any outcome. */
    method RunPlugin() returns (requests: seq<SinkRequest>, r: Outcome<ToolResult>)
      modifies `exits
      ensures IsAnswer(r) && exits == old(exits) + (if r.Raised? && r.exn.kind.Exit? then 1 else 0)
    {
      requests := *;
      var any: Outcome<ToolResult> := *;
      r := Answer(any);
    }

    /** Persist a result, or raise anything; only ordinary exceptions are absorbed by the caller. */
    method WriteResult(output: Output) returns (r: Outcome<bool>)
      modifies `exits, `saved
      ensures IsAnswer(r) && exits == old(exits) + (if r.Raised? && !r.exn.kind.IsOrdinary() then 1 else 0)
      ensures saved == if r.Ok? then old(saved) + [output] else old(saved)
    {
      var any: Outcome<bool> := *;
      r := Answer(any);
      if r.Raised? && r.exn.kind.Cancelled? {
        exits := exits + 1;
      }
      if r.Ok? {
        saved := saved + [output];
      }
    }

    method ArtifactExists() returns (ok: bool)
    {
      ok := *;
    }

    /** The kernel's own clock; it need not be monotone. */
    method ReadClock() returns (now: real)
    {
      now := *;
    }
  }
}
