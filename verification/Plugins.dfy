/** Plugin manifests, the two built-in tools' input schemas, and tool lookup in a resolved registry. */
module Plugins {
  import opened Contracts
  import opened Ledger

  datatype PluginKind = ToolKind | PolicyKind | TaskKind | ObserverKind

  datatype Manifest = Manifest(
    id: string,
    kind: PluginKind,
    offers: seq<string>,
    needs: seq<string>,
    modelVisible: bool)

  /** How a tool runs: a built-in, or some other plugin. */
  datatype ToolBody = SampleEvidenceBody | TranscribeAudioBody | CustomBody

  datatype ToolFacet = ToolFacet(name: string, body: ToolBody, schema: Schema)

  /** A plugin; `facet` is present when it satisfies the tool protocol. */
  datatype Plugin = Plugin(manifest: Manifest, facet: Option<ToolFacet>)

  /** Only such tools can be called. */
  predicate IsVisibleTool(plugin: Plugin) {
    plugin.manifest.kind.ToolKind? && plugin.facet.Some? && plugin.manifest.modelVisible
  }

  /** The first visible tool of that name. */
  function ToolByName(resolved: seq<Plugin>, name: string): Option<ToolFacet> {
    if |resolved| == 0 then None
    else if IsVisibleTool(resolved[0]) && resolved[0].facet.value.name == name then resolved[0].facet
    else ToolByName(resolved[1..], name)
  }

  const SAMPLE_PLUGIN := Plugin(
    Manifest("vidsnap.tool.sample_evidence", ToolKind, [], [], true),
    Some(ToolFacet(SAMPLE_EVIDENCE, SampleEvidenceBody, Generates)))

  const TRANSCRIBE_PLUGIN := Plugin(
    Manifest("vidsnap.tool.transcribe_audio", ToolKind, [], [], true),
    Some(ToolFacet(TRANSCRIBE_AUDIO, TranscribeAudioBody, Generates)))

  const DEFAULT_PLUGINS := [SAMPLE_PLUGIN, TRANSCRIBE_PLUGIN]

  /** The schemas a decision request describes the visible tools by, in order. */
  function ToolSchemas(resolved: seq<Plugin>): seq<Schema> {
    if |resolved| == 0 then []
    else (if IsVisibleTool(resolved[0]) then [resolved[0].facet.value.schema] else []) + ToolSchemas(resolved[1..])
  }

  predicate AllGenerate(schemas: seq<Schema>) {
    forall k :: 0 <= k < |schemas| ==> schemas[k].Generates?
  }

  predicate SomeNever(schemas: seq<Schema>) {
    exists k :: 0 <= k < |schemas| && schemas[k].NeverGenerates?
  }

  /** The built-in tools are what their own names resolve to. */
  predicate HasBuiltins(plugins: seq<Plugin>) {
    && ToolByName(plugins, SAMPLE_EVIDENCE) == Some(ToolFacet(SAMPLE_EVIDENCE, SampleEvidenceBody, Generates))
    && ToolByName(plugins, TRANSCRIBE_AUDIO) == Some(ToolFacet(TRANSCRIBE_AUDIO, TranscribeAudioBody, Generates))
  }

  lemma DefaultPluginsHaveBuiltins()
    ensures HasBuiltins(DEFAULT_PLUGINS)
  {
    assert |SAMPLE_EVIDENCE| == 15 && |TRANSCRIBE_AUDIO| == 16;
    assert DEFAULT_PLUGINS[1..] == [TRANSCRIBE_PLUGIN];
    assert ToolByName(DEFAULT_PLUGINS, TRANSCRIBE_AUDIO) == ToolByName([TRANSCRIBE_PLUGIN], TRANSCRIBE_AUDIO);
  }

  /** One positive, ordered span, as the tools' schema accepts it. */
  predicate ValidWindow(w: Window) {
    0.0 <= w.startSeconds && 0.0 < w.endSeconds && w.startSeconds < w.endSeconds
  }

  predicate ValidWindows(windows: seq<Window>) {
    |windows| <= 3 && forall i :: 0 <= i < |windows| ==> ValidWindow(windows[i])
  }

  predicate WithinDuration(windows: seq<Window>, duration: real) {
    forall i :: 0 <= i < |windows| ==> windows[i].startSeconds < duration && windows[i].endSeconds <= duration
  }

  /** A tool's strict input schema: the validated arguments, or rejection. */
  function Validate(body: ToolBody, raw: RawArguments): Option<ToolArguments> {
    var windows := if raw.windows.Some? then raw.windows.value else [];
    match body
    case SampleEvidenceBody =>
      var frames := if raw.maxFrames.Some? then raw.maxFrames.value else 12;
      if raw.wellFormed && ValidWindows(windows) && 1 <= frames <= 96
      then Some(SampleArguments(windows, frames)) else None
    case TranscribeAudioBody =>
      if raw.wellFormed && raw.maxFrames.None? && ValidWindows(windows)
      then Some(AudioArguments(windows)) else None
    case CustomBody =>
      if raw.wellFormed then Some(CustomArguments(raw.rest)) else None
  }
}
