/** The offline parts of the language-model engine: the keyword fallback
    reply used when no model answers, the system prompt, the status flags
    the analysis prompt and the fallback analysis when a reply is not
    JSON. The OpenAI client, JSON parsing and the persona's own prompt text
    and styling are outside the model: what they produce is a parameter. */
module LlmEngine {
  import opened Text

  /** The persona collaborator, known only by the prompt it contributes. */
  datatype PersonaHook = PersonaHook(systemPrompt: string)

  /** The engine's configuration: which collaborators are present. */
  datatype Engine = Engine(personality: Option<PersonaHook>, openaiClient: bool, localModel: bool)

  datatype EngineStatus = EngineStatus(openaiAvailable: bool, localModelAvailable: bool, personalityActive: bool)

  datatype Analysis = Analysis(issues: seq<string>, suggestions: seq<string>, fixes: seq<string>)

  const BasePrompt: string := "You are STARKAI, an advanced AI assistant."

  const GreetingReply: string := "Hello! I'm STARKAI, though I'm running on limited systems right now."
  const HelpReply: string := "I'd love to help, but my main AI capabilities are currently offline. Try again later."
  const CannedReplies: seq<string> := [
    "I'm processing that request, but my main AI systems are offline.",
    "Let me think about that... My neural networks are currently limited.",
    "That's an interesting question. I'll need to work with reduced capabilities.",
    "I hear you, but I'm running on backup systems right now."]

  const GreetingWords: seq<string> := ["hello", "hi", "hey"]
  const HelpWords: seq<string> := ["help", "what", "how"]

  /** `_fallback_response`: greeting words win over help words, matched as
      substrings of the lower-cased prompt; otherwise one of the canned
      replies, the one `pick` names standing for the random choice. */
  function FallbackResponse(prompt: string, pick: nat): (r: string)
    requires pick < |CannedReplies|
    ensures Mentions(Lower(prompt), GreetingWords) ==> r == GreetingReply
    ensures !Mentions(Lower(prompt), GreetingWords) && Mentions(Lower(prompt), HelpWords) ==> r == HelpReply
    ensures !Mentions(Lower(prompt), GreetingWords) && !Mentions(Lower(prompt), HelpWords) ==> r in CannedReplies
  {
    var l := Lower(prompt);
    if AnyIn(l, GreetingWords) then GreetingReply
    else if AnyIn(l, HelpWords) then HelpReply
    else CannedReplies[pick]
  }

  /** Upper- or lower-case, a prompt gets the same fallback reply. */
  lemma FallbackIgnoresCase(prompt: string, pick: nat)
    requires pick < |CannedReplies|
    ensures FallbackResponse(Upper(prompt), pick) == FallbackResponse(prompt, pick)
  {
    LowerOfUpper(prompt);
  }

  /** Keywords are matched inside words: "this" holds "hi", so a help
      question that mentions it is answered with the greeting. */
  lemma GreetingInsideWord()
    ensures FallbackResponse("What is this?", 0) == GreetingReply
  {
    assert OccursAt(Lower("What is this?"), "hi", 9);
    ContainsAt(Lower("What is this?"), "hi");
    assert Mentions(Lower("What is this?"), GreetingWords) by {
      assert GreetingWords[1] == "hi";
    }
  }

  /** `_get_system_prompt`: the base prompt, followed by a space and the
      persona's prompt when there is a persona. */
  function SystemPrompt(e: Engine): (r: string)
    ensures e.personality.None? ==> r == BasePrompt
    ensures e.personality.Some? ==> r == BasePrompt + " " + e.personality.value.systemPrompt
    ensures StartsWith(r, BasePrompt)
  {
    match e.personality
    case None => BasePrompt
    case Some(p) => BasePrompt + " " + p.systemPrompt
  }

  /** The prompt `generate_response` works with: the caller's prompt, or
      what the persona's `apply_personality` makes of it (`styled`) when
      there is a persona. */
  function PromptUsed(e: Engine, prompt: string, styled: string): (r: string)
    ensures e.personality.None? ==> r == prompt
    ensures e.personality.Some? ==> r == styled
  {
    if e.personality.Some? then styled else prompt
  }

  /** `generate_response`: the model's stripped reply when a client is
      configured and answered (`completion`), else the fallback for the
      prompt as the persona left it. */
  function GenerateResponse(e: Engine, prompt: string, styled: string, completion: Option<string>, pick: nat): (r: string)
    requires pick < |CannedReplies|
    ensures e.openaiClient && completion.Some? ==> r == Strip(completion.value)
    ensures !e.openaiClient || completion.None? ==> r == FallbackResponse(PromptUsed(e, prompt, styled), pick)
  {
    if e.openaiClient && completion.Some? then Strip(completion.value)
    else FallbackResponse(PromptUsed(e, prompt, styled), pick)
  }

  const FallbackAnalysis: Analysis :=
    Analysis(["Could not analyze code properly"], ["Manual review recommended"], [])

  /** The newline and eight spaces between the lines of an indented
      triple-quoted string. */
  const Indent := "\n        "

  /** A triple-quoted string whose lines after the first are indented by
      eight spaces: the lines joined by `Indent`. */
  function Indented(lines: seq<string>): (r: string)
    ensures |lines| > 0 ==> StartsWith(r, lines[0])
    ensures |lines| > 1 ==> r == lines[0] + Indent + Indented(lines[1..])
    decreases |lines|
  {
    if |lines| == 0 then ""
    else if |lines| == 1 then lines[0]
    else lines[0] + Indent + Indented(lines[1..])
  }

  const AnalysisRequest := " code for issues, improvements, and potential fixes:"
  const AnalysisFormat := "Provide analysis in JSON format with: issues, suggestions, fixes"

  /** The prompt `analyze_code` sends: the instruction, the code in a fenced
      block tagged with the language, and the requested JSON fields. */
  function AnalysisPrompt(code: string, language: string): (r: string)
    ensures StartsWith(r, Indent + "Analyze this " + language)
  {
    var lines := ["", "Analyze this " + language + AnalysisRequest, "",
                  "```" + language, code, "```", "", AnalysisFormat, ""];
    var rest := Indented(lines[1..]);
    assert lines[1..][0] == lines[1];
    StartsWithPrefix(rest, "Analyze this " + language, AnalysisRequest);
    StartsWithPrepend(Indent, rest, "Analyze this " + language);
    AppendAssoc(Indent, "Analyze this ", language);
    assert "" + Indent == Indent;
    Indented(lines)
  }

  /** `analyze_code`: the parsed reply, or the fixed fallback analysis when
      the reply is not JSON (`parse` gives None). */
  function AnalyzeCode(e: Engine, code: string, language: string, styled: string, completion: Option<string>,
                       pick: nat, parse: string -> Option<Analysis>): (r: Analysis)
    requires pick < |CannedReplies|
    ensures parse(GenerateResponse(e, AnalysisPrompt(code, language), styled, completion, pick)).None? ==>
              r == FallbackAnalysis
    ensures parse(GenerateResponse(e, AnalysisPrompt(code, language), styled, completion, pick)).Some? ==>
              r == parse(GenerateResponse(e, AnalysisPrompt(code, language), styled, completion, pick)).value
  {
    match parse(GenerateResponse(e, AnalysisPrompt(code, language), styled, completion, pick))
    case Some(a) => a
    case None => FallbackAnalysis
  }

  /** A prompt that opens like the analysis prompt mentions a greeting
      word: "Analyze this" holds "hi". */
  lemma AnalyzeThisGreets(p: string, language: string)
    requires StartsWith(p, Indent + "Analyze this " + language)
    ensures Mentions(Lower(p), GreetingWords)
  {
    var l := Lower(p);
    assert p[18..20] == "hi" by {
      assert p[18] == (Indent + "Analyze this " + language)[18];
      assert p[19] == (Indent + "Analyze this " + language)[19];
    }
    assert l[18..20] == "hi" by {
      assert l[18] == LowerChar(p[18]) && l[19] == LowerChar(p[19]);
    }
    assert OccursAt(l, "hi", 18);
    ContainsAt(l, "hi");
    assert GreetingWords[1] == "hi";
  }

  /** With no model answering and no persona, the analysis prompt always
      gets the greeting reply, whatever the code. The analysis is then
      whatever parsing the greeting gives, which is the fixed fallback
      analysis unless the greeting parses. */
  lemma OfflineAnalysisIsGreeting(e: Engine, code: string, language: string, styled: string,
                                  completion: Option<string>, pick: nat, parse: string -> Option<Analysis>)
    requires pick < |CannedReplies|
    requires e.personality.None? && (!e.openaiClient || completion.None?)
    ensures GenerateResponse(e, AnalysisPrompt(code, language), styled, completion, pick) == GreetingReply
    ensures parse(GreetingReply).None? ==> AnalyzeCode(e, code, language, styled, completion, pick, parse) == FallbackAnalysis
  {
    AnalyzeThisGreets(AnalysisPrompt(code, language), language);
  }

  /** `get_status`: each flag says whether that collaborator is present. */
  function GetStatus(e: Engine): (s: EngineStatus)
    ensures s.openaiAvailable <==> e.openaiClient
    ensures s.localModelAvailable <==> e.localModel
    ensures s.personalityActive <==> e.personality.Some?
  {
    EngineStatus(e.openaiClient, e.localModel, e.personality.Some?)
  }
}
