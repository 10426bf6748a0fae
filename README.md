# speech-to-text-lite: a Dafny model of `audio_to_text.py`

`audio_to_text.py` is a command-line wrapper around a speech-recognition engine.
`main()` resolves `sys.argv` into an audio path, a model size and a language.
`convert_audio_to_text` then checks that the path exists and loads a Whisper model.
It decodes the audio to 16 kHz mono, scales the integer samples by their sample width and calls the engine.
It prints one line per segment while building `full_text`.
Last, it writes `<stem>_transcript.txt` into the working directory.

The model covers the logic that belongs to the script itself:

- `cli.dfy` (module `Cli`): `main()`'s argument resolution. This covers the usage path, the defaults `"tiny"` and `"zh"`, and the auto-detect words `auto` / `none` / `detect` in any case.
- `samples.dfy` (module `Samples`): the sample-width scaling. Width 2 divides by 32768 and width 4 by 2147483648; any other width is left as is. This is an array method proved against a function on sequences.
- `transcript.dfy` (module `Transcript`): the engine's segments as a single-pass stream (a class with a cursor). It holds the `full_text` loop with its invariant, the second loop that lists segments in the file, and the closed form of the full text.
- `naming.dfy` (module `Naming`): `Path(p).stem + "_transcript.txt"` under POSIX `pathlib` rules.
- `text.dfy` (module `Text`): `str.strip()`, `" ".join`, `str.rfind` and ASCII `str.lower()`.
- `driver.dfy` (module `Driver`): `convert_audio_to_text` and `main` as methods that return the trace of observable events. Model loading, decoding, transcription and file writing are collaborators. A `World` value says, for each one, whether it delivers a result or raises.
- `wrappers.dfy` (module `Wrappers`): the `Option` type that stands for Python's `None`.

Notes on the modelling choices:

- Whitespace in `Text.IsSpace` is Python's full `str.isspace()` set. That is the ASCII controls `\t`..`\r` and `\x1c`..`\x1f`, the space, and the Unicode separators U+0085, U+00A0, U+1680, U+2000..U+200A, U+2028, U+2029, U+202F, U+205F and U+3000.
- `Text.AsciiLower` lower-cases only `A`..`Z`. This is exact for the sentinel test at audio_to_text.py:136. The only non-ASCII characters whose Unicode lower case contains an ASCII letter produce `k` (KELVIN SIGN) or `i` followed by a combining dot (U+0130), and none of `auto`, `none`, `detect` contains `k` or `i`.
- The script passes the model size on verbatim. It does not check it against the five sizes its usage text lists, so the model does not check it either.
- An unrecognised sample width leaves the samples unscaled, as the code does. The model does not raise an error in that case.

## Model

| member | source | states |
|---|---|---|
| `Cli.Resolve` | audio_to_text.py:118-139 | usage exactly when argv has fewer than two entries; otherwise the file is `argv[1]`, the model is `argv[2]` or `"tiny"`, and the language is the resolution of `argv[3]` or `"zh"` |
| `Cli.IsAutoDetect` | audio_to_text.py:136 | the lower-cased argument is one of the three words exactly when the argument is `auto`, `none` or `detect` written in any case |
| `Cli.ResolveLanguage` | audio_to_text.py:135-137 | `None` exactly when the lower-cased language is one of the three auto-detect words; otherwise the language string itself |
| `Cli.LowerMatchesAnyCase` | audio_to_text.py:136 | for a lower-case word, lower-casing a string gives that word iff the string equals the word letter by letter in any case |
| `Cli.LanguageResolution` | audio_to_text.py:136-137 | auto-detect iff the argument is `auto`, `none` or `detect` in any casing; every other string reaches the engine unchanged, case included |
| `Cli.Defaults` | audio_to_text.py:118-133 | argv of length 0 or 1 gives usage; a file alone gives model `"tiny"` and language `"zh"` |
| `Cli.SentinelExamples` | audio_to_text.py:131-137 | `AUTO` and `Detect` select auto-detection; `EN` is passed as `"EN"` |
| `Text.TrimStartSpec` | audio_to_text.py:77 | the left strip removes a whitespace prefix, keeps the rest as a suffix of the input, and leaves no leading whitespace |
| `Text.TrimEndSpec` | audio_to_text.py:77 | the right strip removes a whitespace suffix, keeps the rest as a prefix of the input, and leaves no trailing whitespace |
| `Text.Strip` | audio_to_text.py:77 | the stripped text is no longer than the input and neither starts nor ends with whitespace |
| `Text.StripIsInfix` | audio_to_text.py:77 | the stripped text is the infix of the input between a whitespace-only prefix and a whitespace-only suffix |
| `Text.StripDropsTrailingSpace` | audio_to_text.py:79-82 | a whitespace character appended at the end does not change the stripped result |
| `Text.StripOfStripped` | audio_to_text.py:82 | a string without whitespace at either end is its own strip |
| `Text.JoinSpace` | audio_to_text.py:74-82 | joining no parts gives the empty string; joining one part gives that part |
| `Text.JoinSpaceSnoc` | audio_to_text.py:74-82 | joining one more part appends one space and the part |
| `Text.LastIndexOf` | audio_to_text.py:90 | `rfind`: -1 when the character is absent, otherwise an index holding it with no later occurrence |
| `Text.AsciiLower` | audio_to_text.py:136 | same length; each `A`..`Z` becomes its lower-case letter and every other character is kept |
| `Samples.FullScale` | audio_to_text.py:50-53 | the divisor is 32768 for width 2, 2147483648 for width 4, and 1 (no scaling) otherwise |
| `Samples.Scaled` | audio_to_text.py:49-53 | length is preserved; width 2 maps x to x/32768 and width 4 maps x to x/2147483648; other widths keep every value; samples in a width's signed range land in [-1, 1) |
| `Samples.DivideAll` | audio_to_text.py:51-53 | every array element is replaced by itself divided by the divisor |
| `Samples.Normalize` | audio_to_text.py:49-53 | the new sample array is exactly the scaled raw samples |
| `Naming.Name` | audio_to_text.py:90 | the name holds no `/` and is never `"."` |
| `Naming.NameIsLastPart` | audio_to_text.py:90 | the name is the last path component that is neither empty nor `"."`; every component after it is empty or `"."`; it is empty only when all components are |
| `Naming.NameIgnoresTrailingParts` | audio_to_text.py:90 | a trailing `/` or `/.` does not change the name |
| `Naming.NameOfLastComponent` | audio_to_text.py:90 | a real last component is the name, with or without a directory in front |
| `Naming.Stem` | audio_to_text.py:90 | the stem is a prefix of the name; it is shorter only when a dot with characters on both sides starts the last suffix; otherwise the name has no such dot |
| `Naming.StemDropsExtension` | audio_to_text.py:90 | the stem of `base.ext` is `base` when `base` is non-empty and `ext` is dot-free |
| `Naming.StemKeepsLeadingDot` | audio_to_text.py:90 | a hidden-file name whose only dot leads it keeps its whole name |
| `Naming.OutputFileName` | audio_to_text.py:90 | the stem of the path's name followed by `_transcript.txt` (name and stem each characterised by their own contracts); so it holds no `/` and lands in the working directory |
| `Naming.StemIsWholeName` | audio_to_text.py:90 | the stem is the whole name exactly when the name is empty, ends in a dot, or has no dot after its first character |
| `Naming.OutputFileNameKeepsWholeName` | audio_to_text.py:90 | the transcript is named after the whole path name plus `_transcript.txt` exactly when the name has no suffix to drop |
| `Naming.OutputFileNameOfDotFreeFile` | audio_to_text.py:90 | `dir/recording` gives `recording_transcript.txt` |
| `Naming.OutputFileNameOfTrailingDot` | audio_to_text.py:90 | `dir/a.b.` gives `a.b._transcript.txt` |
| `Naming.RootExample` | audio_to_text.py:90 | `/` has no name and gives `_transcript.txt` |
| `Naming.OutputFileNameDropsExtension` | audio_to_text.py:90 | a name `base.ext` gives `base_transcript.txt` |
| `Naming.OutputFileNameKeepsHiddenName` | audio_to_text.py:90 | a name `.rest` gives `.rest_transcript.txt` |
| `Naming.OutputFileNameOfFile` | audio_to_text.py:90 | a file `base.ext`, alone or under any directory, gives `base_transcript.txt` |
| `Naming.OutputFileNameOfHiddenFile` | audio_to_text.py:90 | a dot-file `.rest` under any directory gives `.rest_transcript.txt` |
| `Naming.PlainFileExample` | audio_to_text.py:90 | `sample.wav` gives `sample_transcript.txt` |
| `Naming.InnerDotsExample` | audio_to_text.py:90 | `dir/a.b.mp4` gives `a.b_transcript.txt` |
| `Naming.HiddenFileExample` | audio_to_text.py:90 | `/home/u/.hidden` gives `.hidden_transcript.txt` |
| `Transcript.SegmentStream.Next` | audio_to_text.py:75 | yields the next pending segment and advances, or yields nothing once exhausted |
| `Transcript.StrippedTexts` | audio_to_text.py:77-78 | one stripped text per segment, in segment order |
| `Transcript.Accumulated` | audio_to_text.py:74-79 | `full_text` after the loop has seen some segments: empty exactly when no segment was seen, and otherwise ending in the space line 79 appends |
| `Transcript.AccumulatedSnoc` | audio_to_text.py:79 | one more segment appends its stripped text and one space to `full_text` |
| `Transcript.AccumulatedLength` | audio_to_text.py:74-79 | after k segments `full_text` has grown by the stripped text length plus one per segment |
| `Transcript.AccumulatedIsJoinPlusSpace` | audio_to_text.py:74-79 | the loop's `full_text` is the stripped texts joined by single spaces plus one trailing space, or empty for no segments |
| `Transcript.FullText` | audio_to_text.py:82 | zero segments give `""`; the result never starts or ends with whitespace |
| `Transcript.StripAccumulated` | audio_to_text.py:74-82 | stripping the loop's string equals `strip(" ".join(strip(t) for t in texts))` |
| `Transcript.EmptySegmentLeavesDoubleSpace` | audio_to_text.py:74-82 | an empty segment between two non-empty ones is not skipped: it leaves two spaces between them |
| `Transcript.ShowSegment` | audio_to_text.py:77-79 | one loop step: the shown lines gain the segment's stripped text, and `full_text` is the accumulation of the segments seen so far plus this one |
| `Transcript.ShowAll` | audio_to_text.py:74-80 | consumes the stream; the shown lines are the stripped texts of every pending segment, and `full_text` is their accumulation |
| `Transcript.PrintAndAccumulate` | audio_to_text.py:74-82 | consumes the stream; the shown lines are the stripped texts and the reported text is the closed form |
| `Transcript.ListForFile` | audio_to_text.py:98-100 | lists the stripped text of every segment the stream still yields, and exhausts it |
| `Transcript.ReportAsWritten` | audio_to_text.py:74-100 | as written: console lines are every segment's stripped text and the full text is the closed form; the file listing repeats the console lines when the engine's result can be iterated again, and is empty when it is a single-pass stream |
| `Transcript.Report` | audio_to_text.py:74-100 | corrected: the segments are first gathered into a list (`list(segments)`), after which the file listing equals the console lines and the full text is the closed form, whatever the engine returns |
| `Driver.StepsEndAtFirstFailure` | audio_to_text.py:35-110 | the trace is never empty; it ends by writing `OutputFileName(path)` exactly when every collaborator delivers, and otherwise writes nothing and ends with the first failing stage; no failure comes before the last event |
| `Driver.StepsStages` | audio_to_text.py:36-82 | the model is loaded iff loading delivers; the engine is called iff loading and decoding deliver, and only with the scaled samples, the language, beam 5, best-of 5 and temperature 0; the console report (stripped lines, closed-form text) appears iff the engine also delivers, and only with those contents |
| `Driver.Pipeline` | audio_to_text.py:35-110 | the trace is exactly `Steps`: model loaded, audio prepared with its sample count, engine called, report shown, file written, in that order, cut at the first collaborator that raises by that stage's failure; the file's segment listing is present only when the engine's result can be iterated again |
| `Driver.ConvertAudioToText` | audio_to_text.py:15-110 | a missing path yields only the not-found report; an existing one yields `Started` with the path, model and language, followed by exactly the pipeline's `Steps` |
| `Driver.RunMain` | audio_to_text.py:112-139 | fewer than two argv entries show only usage; otherwise a missing file is reported, and an existing one yields exactly one conversion of `argv[1]` with the resolved model and language: `Started` followed by that conversion's `Steps` |
| `Driver.MainWritesTranscript` | audio_to_text.py:90-139 | when the file exists and every collaborator delivers, `main` ends by writing the transcript of `argv[1]`, named `OutputFileName(argv[1])`, with the resolved model |

## Findings

| source | as written | input that shows it | evidently intended | confidence | as-written member | corrected member |
|---|---|---|---|---|---|---|
| audio_to_text.py:98-100 | the file loop iterates `segments` a second time, after the console loop at line 75 has consumed it | any run where the engine returns its segments as a single-pass generator with at least one segment, e.g. one segment with text `"hi"`: the console shows `hi`, and the file lists no segment | the file lists the same segments, in the same order, as the console | medium, not executed; depends on the engine returning a single-pass generator | `Transcript.ReportAsWritten` | `Transcript.Report` |

`Driver.Pipeline` follows the script as written (`Transcript.ReportAsWritten`): a `Transcription` records whether the engine's result can be iterated again, and the file's segment listing is empty when it cannot. `Transcript.Report` is the corrected report.

## Left out

- Loading the Whisper model and running `model.transcribe` (audio_to_text.py:38, 62-68) are foreign library calls. The model replaces them with the `World` collaborator outcomes and records only the arguments the engine receives.
- Decoding, resampling to 16000 Hz and down-mixing (audio_to_text.py:43-49) are opaque library work. `World.audio` gives their integer result, and the duration claim cannot be checked from this code.
- Samples.Scaled: values are exact reals; the float32 conversion and division of the script round, and that rounding is not modelled. In particular the bound `-1.0 <= r[i] < 1.0` holds over exact reals only: in float32 the largest 32-bit sample 2147483647 rounds to 2147483648.0, so width 4 maps it to exactly 1.0.
- Float formatting is not modelled: the `:.1f` timestamps, the `:.2%` probability, the duration and the elapsed time (audio_to_text.py:55, 76, 84-87, 94, 99). Segment lines are modelled by their stripped text only.
- Clock reads are not modelled: `time.time()` and `time.strftime` (audio_to_text.py:60, 84, 93). The transcript file's timestamp line is absent from `Driver.TranscriptFile`.
- The console messages and the separator lines are not modelled, and neither are the printing of `traceback.print_exc()` or the exit status (audio_to_text.py:27, 30-33, 71-72, 81, 96, 102, 105-110, 114-128). The model records which event happens, not its text.
- Driver.Pipeline: an engine failure is all-or-nothing. A lazy engine that raises part-way through iteration, after printing some segments, is not distinguished from one that raises before the first segment.
- Driver.Pipeline: a write that fails part-way, leaving a partial file, is modelled as no file written.
- Naming.Name: only POSIX paths are modelled (`/` as the only separator). Windows drive letters and `\` separators are not.
- Naming.Stem: follows the `pathlib` rule that a name ending in a dot has no suffix. Newer Python releases may treat a trailing dot differently.
- Cli.IsAutoDetect: `str.lower()` is modelled on ASCII letters only. As noted above, this gives the same answer as Unicode lower-casing for the three auto-detect words.
