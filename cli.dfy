/**
 * Command-line resolution of `main()`: how `sys.argv` becomes either the usage
 * text or one call of `convert_audio_to_text(file, model_size, language)`.
 */
module Cli {
  import opened Wrappers
  import opened Text

  const DefaultModel: string := "tiny"
  const DefaultLanguage: string := "zh"

  /** The language arguments that ask the engine to detect the language itself. */
  const AutoDetectWords: seq<string> := ["auto", "none", "detect"]

  /** What `main()` does with its argument vector; `language == None` is auto-detect. */
  datatype Invocation =
    | Usage
    | Run(file: string, model: string, language: Option<string>)

  /** `language.lower() in ["auto", "none", "detect"]`: one of the three words in any case. */
  function IsAutoDetect(language: string): (r: bool)
    ensures r <==> EqualsAnyCase(language, "auto") || EqualsAnyCase(language, "none") ||
                   EqualsAnyCase(language, "detect")
  {
    LowerMatchesAnyCase(language, "auto");
    LowerMatchesAnyCase(language, "none");
    LowerMatchesAnyCase(language, "detect");
    AsciiLower(language) in AutoDetectWords
  }

  /** The language handed to the engine: None for a sentinel, the argument itself otherwise. */
  function ResolveLanguage(language: string): (r: Option<string>)
    ensures r == None <==> IsAutoDetect(language)
    ensures r != None ==> r == Some(language)
  {
    if IsAutoDetect(language) then None else Some(language)
  }

  /** `main()` on `argv` (argv[0] is the script name; entries past the fourth are ignored). */
  function Resolve(argv: seq<string>): (r: Invocation)
    ensures r.Usage? <==> |argv| < 2
    ensures r.Run? ==> r.file == argv[1]
    ensures r.Run? ==> r.model == (if |argv| > 2 then argv[2] else DefaultModel)
    ensures r.Run? ==> r.language == ResolveLanguage(if |argv| > 3 then argv[3] else DefaultLanguage)
  {
    if |argv| < 2 then Usage
    else
      var model := if |argv| > 2 then argv[2] else DefaultModel;
      var language := if |argv| > 3 then argv[3] else DefaultLanguage;
      Run(argv[1], model, ResolveLanguage(language))
  }

  /** Two characters that are equal once ASCII letters are compared without case. */
  predicate SameLetterAnyCase(x: char, y: char) {
    x == y ||
    ('A' <= x <= 'Z' && x as int + 32 == y as int) ||
    ('A' <= y <= 'Z' && y as int + 32 == x as int)
  }

  /** Case-insensitive (ASCII) string equality, stated character by character. */
  predicate EqualsAnyCase(a: string, b: string) {
    |a| == |b| && forall k :: 0 <= k < |a| ==> SameLetterAnyCase(a[k], b[k])
  }

  predicate LowerAsciiWord(w: string) {
    forall k :: 0 <= k < |w| ==> 'a' <= w[k] <= 'z'
  }

  /** Lower-casing to a lower-case word is the same as matching it in any case. */
  lemma {:induction false} LowerMatchesAnyCase(s: string, w: string)
    requires LowerAsciiWord(w)
    ensures AsciiLower(s) == w <==> EqualsAnyCase(s, w)
  {
    if EqualsAnyCase(s, w) {
      var l := AsciiLower(s);
      forall k | 0 <= k < |w| ensures l[k] == w[k] {
        assert SameLetterAnyCase(s[k], w[k]);
      }
    }
  }

  /** Auto-detection is chosen exactly by "auto", "none" or "detect" written in any case;
      every other language string reaches the engine unchanged, case included. */
  lemma LanguageResolution(language: string)
    ensures ResolveLanguage(language) == None <==>
            (EqualsAnyCase(language, "auto") || EqualsAnyCase(language, "none") ||
             EqualsAnyCase(language, "detect"))
    ensures ResolveLanguage(language) != None ==> ResolveLanguage(language) == Some(language)
  {
  }

  /** With no file argument there is nothing to run; with one, both defaults apply. */
  lemma Defaults(script: string, file: string)
    ensures Resolve([script]) == Usage && Resolve([]) == Usage
    ensures Resolve([script, file]) == Run(file, "tiny", Some("zh"))
  {
    assert AsciiLower("zh") == "zh";
  }

  /** Mixed-case sentinels select auto-detection; other codes keep their case. */
  lemma SentinelExamples(script: string, file: string)
    ensures Resolve([script, file, "base", "AUTO"]) == Run(file, "base", None)
    ensures Resolve([script, file, "small", "Detect"]) == Run(file, "small", None)
    ensures Resolve([script, file, "tiny", "EN"]) == Run(file, "tiny", Some("EN"))
  {
    LanguageResolution("AUTO");
    LanguageResolution("Detect");
    LanguageResolution("EN");
    assert !EqualsAnyCase("EN", "auto") && !EqualsAnyCase("EN", "none");
    assert !SameLetterAnyCase("EN"[0], "detect"[0]);
  }
}
