/**
 * The inference worker (`ModelThread.run`): the prompt handed to the language model and the way
 * the answer is cut out of the decoded output. Loading the model, tokenising, generating and
 * decoding are foreign calls; they are represented by a function parameter.
 */
module Inference {

  import opened Wrappers
  import opened Text

  /** The cue that ends the prompt and is expected to precede the model's answer. */
  const Cue: string := "Markdown:"

  /** The fixed instruction placed before the HTML. It contains the cue itself. */
  const Instruction: string := "Convert the following HTML to Markdown:\n\n"

  /** The prompt: the instruction, the HTML, a blank line and the cue. */
  function Prompt(html: string): (p: string)
    ensures |p| == |Instruction| + |html| + 2 + |Cue|
    ensures p[..|Instruction|] == Instruction && p[|Instruction|..|Instruction| + |html|] == html
    ensures p[|p| - |Cue|..] == Cue
  {
    Instruction + html + "\n\n" + Cue
  }

  /** The answer cut from the decoded output: the last piece of a split on the cue, stripped. */
  function Extract(decoded: string): (r: string)
    ensures ContainsNo(r, Cue)
    ensures Trimmed(r)
  {
    var piece := SplitLast(decoded, Cue);
    StripKeepsNo(piece, Cue);
    Strip(piece)
  }

  /** The cue cannot overlap itself, because its first letter occurs nowhere else in it. */
  lemma CueNoSelfOverlap()
    ensures NoSelfOverlap(Cue)
  {
    forall k | 0 < k < |Cue|
      ensures Cue[k..|Cue|] != Cue[0..|Cue| - k]
    {
      assert Cue[k..|Cue|][0] == Cue[k] != 'M';
    }
  }

  /** The answer is the stripped text after the LAST cue in the decoded output. */
  lemma ExtractIsAfterLast(decoded: string)
    ensures Extract(decoded) == Strip(AfterLast(decoded, Cue))
  {
    CueNoSelfOverlap();
    SplitLastIsAfterLast(decoded, Cue);
  }

  /** Without any cue the whole decoded output is returned, stripped (not verbatim). */
  lemma ExtractWithoutCue(decoded: string)
    requires ContainsNo(decoded, Cue)
    ensures Extract(decoded) == Strip(decoded)
  {
    ExtractIsAfterLast(decoded);
    assert RFind(decoded, Cue) == -1;
  }

  /**
   * Whatever precedes a cue, if nothing after it contains another cue, the answer is the
   * stripped text after it.
   */
  lemma ExtractAfterCue(before: string, answer: string)
    requires ContainsNo(answer, Cue)
    ensures Extract(before + Cue + answer) == Strip(answer)
  {
    var s := before + Cue + answer;
    var p := |before|;
    CueNoSelfOverlap();
    assert Occurs(s, Cue, p) by {
      assert s[p..p + |Cue|] == Cue;
    }
    var t := p + |Cue|;
    assert s[t..] == answer;
    forall i | p < i
      ensures !Occurs(s, Cue, i)
    {
      if Occurs(s, Cue, i) {
        OccurrencesApart(s, Cue, p, i);
        OccursInSuffix(s, Cue, t, i);
      }
    }
    assert RFind(s, Cue) == p;
    ExtractIsAfterLast(s);
    assert s[p + |Cue|..] == answer;
  }

  /**
   * If the model echoes the prompt and continues with cue-free text, the answer is that text,
   * stripped, whatever the HTML contained (the instruction and the HTML may hold cues of their own).
   */
  lemma ExtractAfterPrompt(html: string, continuation: string)
    requires ContainsNo(continuation, Cue)
    ensures Extract(Prompt(html) + continuation) == Strip(continuation)
  {
    var before := Instruction + html + "\n\n";
    assert Prompt(html) + continuation == before + Cue + continuation;
    ExtractAfterCue(before, continuation);
  }

  /** If the decoded output is only the echoed prompt, the answer is empty. */
  lemma ExtractOfPrompt(html: string)
    ensures Extract(Prompt(html)) == ""
  {
    ExtractAfterPrompt(html, "");
    assert Prompt(html) + "" == Prompt(html);
  }

  /** The generation controls handed to `generate`, read from the parameter widgets. */
  datatype Params = Params(
    maxNewTokens: int,
    temperature: real,
    doSample: bool,
    topP: real,
    repetitionPenalty: real,
    numReturnSequences: int)

  /** One conversion request: the HTML (after optional style removal), model path, device, controls. */
  datatype Job = Job(html: string, modelPath: string, device: string, params: Params)

  /** What the worker emits: `finished` with the answer, or `error` with the exception's text. */
  datatype Outcome = Finished(markdown: string) | Error(message: string)

  /**
   * The foreign part of the worker, from loading the tokenizer to decoding the first returned
   * sequence: given model path, device, prompt and controls it yields the decoded text, or the
   * text of the exception it raised.
   */
  type Generator = (string, string, string, Params) -> Result<string, string>

  /**
   * `ModelThread.run`: build the prompt, generate, cut the answer out. Exactly one outcome is
   * emitted; an error carries the exception text unchanged, and no partial output escapes.
   */
  function Run(job: Job, generate: Generator): (o: Outcome)
    ensures o.Error? <==> generate(job.modelPath, job.device, Prompt(job.html), job.params).Failure?
    ensures o.Error? ==> o.message == generate(job.modelPath, job.device, Prompt(job.html), job.params).error
    ensures o.Finished? ==> ContainsNo(o.markdown, Cue) && Trimmed(o.markdown)
    ensures generate(job.modelPath, job.device, Prompt(job.html), job.params).Success? ==>
      o == Finished(Extract(generate(job.modelPath, job.device, Prompt(job.html), job.params).value))
  {
    match generate(job.modelPath, job.device, Prompt(job.html), job.params)
    case Success(decoded) => Finished(Extract(decoded))
    case Failure(message) => Error(message)
  }

  /**
   * When the decoded text is the echoed prompt followed by cue-free text, the worker delivers
   * that text stripped.
   */
  lemma RunOfEcho(job: Job, generate: Generator, continuation: string)
    requires generate(job.modelPath, job.device, Prompt(job.html), job.params) == Success(Prompt(job.html) + continuation)
    requires ContainsNo(continuation, Cue)
    ensures Run(job, generate) == Finished(Strip(continuation))
  {
    ExtractAfterPrompt(job.html, continuation);
  }
}
