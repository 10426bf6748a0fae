/**
 * `convert_audio_to_text` and `main`: the order of the pipeline's steps, where
 * it stops, and what reaches the engine and the transcript file. Model loading,
 * decoding, transcription and file writing are collaborators whose outcome is
 * given by a `World`; each either delivers its result or raises.
 */
module Driver {
  import opened Wrappers
  import Cli
  import Samples
  import Naming
  import Transcript

  const BeamSize: nat := 5
  const BestOf: nat := 5
  const Temperature: real := 0.0

  /** The integer samples pydub hands back after resampling to 16 kHz mono. */
  datatype DecodedAudio = DecodedAudio(sampleWidth: int, samples: seq<int>)

  /**
   * What the engine yields: the segments and the language it reports. `replayable`
   * says whether the segments can be iterated a second time (a list) or only once
   * (a lazy generator).
   */
  datatype Transcription = Transcription(
    segments: seq<Transcript.Segment>, language: string, probability: real, replayable: bool)

  /**
   * The outside world of one run: which paths exist, and for each collaborator
   * either its result or (false / None) that it raises.
   */
  datatype World = World(
    existing: set<string>,
    modelLoads: bool,
    audio: Option<DecodedAudio>,
    engine: Option<Transcription>,
    writable: bool)

  /** The steps guarded by the blanket `except Exception`. */
  datatype Stage = LoadModel | DecodeAudio | Transcribe | WriteReport

  /** The fields of the transcript file (the timestamp line is not modelled). */
  datatype TranscriptFile = TranscriptFile(
    source: string, language: string, probability: real, model: string,
    listing: seq<string>, fullText: string)

  /** What a run does that can be observed, in order. */
  datatype Event =
    | UsageShown
    | FileNotFound(path: string)
    | Started(path: string, model: string, language: Option<string>)
    | ModelLoaded(model: string)
    | AudioPrepared(sampleCount: nat)
    | EngineCalled(samples: seq<real>, language: Option<string>, beamSize: nat, bestOf: nat,
                   temperature: real)
    | TranscriptShown(lines: seq<string>, fullText: string)
    | FileWritten(name: string, contents: TranscriptFile)
    | Failed(stage: Stage)

  /** No transcript file is written anywhere in `events`. */
  predicate NothingWritten(events: seq<Event>) {
    forall i :: 0 <= i < |events| ==> !events[i].FileWritten?
  }

  /** The console report of a transcription: one line per segment, then the full text. */
  function Shown(t: Transcription): Event {
    TranscriptShown(Transcript.StrippedTexts(t.segments), Transcript.FullText(t.segments))
  }

  /**
   * The event that ends a run in which every collaborator delivers. The file's
   * segment listing comes from a second pass over the engine's result, so it is
   * empty unless that result can be iterated again.
   */
  function Written(path: string, model: string, t: Transcription): Event {
    FileWritten(
      Naming.OutputFileName(path),
      TranscriptFile(path, t.language, t.probability, model,
                     if t.replayable then Transcript.StrippedTexts(t.segments) else [],
                     Transcript.FullText(t.segments)))
  }

  /** The call the engine receives for `audio`. */
  function EngineCall(audio: DecodedAudio, language: Option<string>): Event {
    EngineCalled(Samples.Scaled(audio.samples, audio.sampleWidth), language,
                 BeamSize, BestOf, Temperature)
  }

  /** Loading and decoding deliver, so the engine is called. */
  predicate ReachesEngine(world: World) {
    world.modelLoads && world.audio.Some?
  }

  /** Every collaborator delivers. */
  predicate AllDeliver(world: World) {
    world.modelLoads && world.audio.Some? && world.engine.Some? && world.writable
  }

  /** The first collaborator that raises. */
  function FirstFailure(world: World): Stage
    requires !AllDeliver(world)
  {
    if !world.modelLoads then LoadModel
    else if world.audio.None? then DecodeAudio
    else if world.engine.None? then Transcribe
    else WriteReport
  }

  /**
   * The trace of the `try` block, stage by stage: load the model, decode and scale
   * the audio, call the engine, report on the console, write the file. The first
   * collaborator that raises ends the trace with its failure.
   */
  function Steps(world: World, path: string, model: string, language: Option<string>): seq<Event> {
    if !world.modelLoads then [Failed(LoadModel)]
    else if world.audio.None? then [ModelLoaded(model), Failed(DecodeAudio)]
    else
      var loaded := ModelLoaded(model);
      var prepared := AudioPrepared(|world.audio.value.samples|);
      var called := EngineCall(world.audio.value, language);
      if world.engine.None? then [loaded, prepared, called, Failed(Transcribe)]
      else
        var shown := Shown(world.engine.value);
        if !world.writable then [loaded, prepared, called, shown, Failed(WriteReport)]
        else [loaded, prepared, called, shown, Written(path, model, world.engine.value)]
  }

  /** A run writes the transcript file exactly when every collaborator delivers, and
      otherwise ends with the first failure; no failure comes before the end. */
  lemma StepsEndAtFirstFailure(world: World, path: string, model: string, language: Option<string>)
    ensures Steps(world, path, model, language) != []
    ensures AllDeliver(world) ==>
              var steps := Steps(world, path, model, language);
              steps[|steps| - 1] == Written(path, model, world.engine.value)
    ensures !AllDeliver(world) ==>
              var steps := Steps(world, path, model, language);
              NothingWritten(steps) && steps[|steps| - 1] == Failed(FirstFailure(world))
    ensures var steps := Steps(world, path, model, language);
            forall i :: 0 <= i < |steps| - 1 ==> !steps[i].Failed?
  {
    if !world.modelLoads {
    } else if world.audio.None? {
    } else if world.engine.None? {
    } else if !world.writable {
    } else {
    }
  }

  /** Each stage happens exactly when every stage before it delivers: the model is
      loaded when loading delivers, the engine is called (with the scaled samples) when
      decoding also delivers, and the console report appears when the engine also does. */
  lemma StepsStages(world: World, path: string, model: string, language: Option<string>)
    ensures ModelLoaded(model) in Steps(world, path, model, language) <==> world.modelLoads
    ensures ReachesEngine(world) ==>
              EngineCall(world.audio.value, language) in Steps(world, path, model, language)
    ensures var steps := Steps(world, path, model, language);
            forall i :: 0 <= i < |steps| && steps[i].EngineCalled? ==>
              ReachesEngine(world) && steps[i] == EngineCall(world.audio.value, language)
    ensures ReachesEngine(world) && world.engine.Some? ==>
              Shown(world.engine.value) in Steps(world, path, model, language)
    ensures var steps := Steps(world, path, model, language);
            forall i :: 0 <= i < |steps| && steps[i].TranscriptShown? ==>
              ReachesEngine(world) && world.engine.Some? && steps[i] == Shown(world.engine.value)
  {
    if !world.modelLoads {
    } else if world.audio.None? {
    } else if world.engine.None? {
    } else if !world.writable {
    } else {
    }
  }

  /** The steps after the existence check (the `try` block): load, decode, scale,
      transcribe, report, write; the first collaborator that raises ends them. */
  method Pipeline(world: World, path: string, model: string, language: Option<string>)
    returns (steps: seq<Event>)
    ensures steps == Steps(world, path, model, language)
  {
    if !world.modelLoads {
      return [Failed(LoadModel)];
    }
    var loaded := ModelLoaded(model);
    if world.audio.None? {
      return [loaded, Failed(DecodeAudio)];
    }
    var audio := world.audio.value;
    var samples := Samples.Normalize(audio.samples, audio.sampleWidth);
    var prepared := AudioPrepared(samples.Length);
    var call := EngineCalled(samples[..], language, BeamSize, BestOf, Temperature);
    assert call == EngineCall(audio, language);
    if world.engine.None? {
      return [loaded, prepared, call, Failed(Transcribe)];
    }
    var info := world.engine.value;
    var fullText, shown, listing := Transcript.ReportAsWritten(info.segments, info.replayable);
    var reported := TranscriptShown(shown, fullText);
    assert reported == Shown(info);
    if !world.writable {
      return [loaded, prepared, call, reported, Failed(WriteReport)];
    }
    var contents := TranscriptFile(path, info.language, info.probability, model, listing, fullText);
    var written := FileWritten(Naming.OutputFileName(path), contents);
    assert written == Written(path, model, info);
    return [loaded, prepared, call, reported, written];
  }

  /** `convert_audio_to_text(audio_file_path, model_size, language)`: a missing path
      is reported and nothing else happens; otherwise the run starts and the
      pipeline's steps follow. */
  method ConvertAudioToText(world: World, path: string, model: string, language: Option<string>)
    returns (events: seq<Event>)
    ensures path !in world.existing ==> events == [FileNotFound(path)]
    ensures path in world.existing ==>
              events == [Started(path, model, language)] + Steps(world, path, model, language)
  {
    if path !in world.existing {
      return [FileNotFound(path)];
    }
    var steps := Pipeline(world, path, model, language);
    events := [Started(path, model, language)] + steps;
  }

  /** `main()`: usage without a file argument, otherwise one conversion with the
      resolved model and language. */
  method RunMain(world: World, argv: seq<string>) returns (events: seq<Event>)
    ensures |argv| < 2 ==> events == [UsageShown]
    ensures |argv| >= 2 && argv[1] !in world.existing ==> events == [FileNotFound(argv[1])]
    ensures |argv| >= 2 && argv[1] in world.existing ==>
              var run := Cli.Resolve(argv);
              events == [Started(argv[1], run.model, run.language)] +
                        Steps(world, argv[1], run.model, run.language)
  {
    match Cli.Resolve(argv)
    case Usage =>
      events := [UsageShown];
    case Run(file, model, language) =>
      events := ConvertAudioToText(world, file, model, language);
  }

  /** A run whose file exists and whose collaborators all deliver ends by writing the
      transcript of `argv[1]`, named after it, with the resolved model. */
  lemma MainWritesTranscript(world: World, argv: seq<string>)
    requires |argv| >= 2 && argv[1] in world.existing && AllDeliver(world)
    ensures var run := Cli.Resolve(argv);
            var events := [Started(argv[1], run.model, run.language)] +
                          Steps(world, argv[1], run.model, run.language);
            events[|events| - 1] == Written(argv[1], run.model, world.engine.value) &&
            events[|events| - 1].name == Naming.OutputFileName(argv[1])
  {
  }
}
