/** The assistant's persona: a mood, a count of interactions, and canned
    replies picked at random from fixed lists chosen by context. The random
    pick is a nondeterministic choice from the list. */
module Personality {

  const Greetings: seq<string> := [
    "FRIDAY? Oh wait, that's me now. How can I help you today?",
    "Another day, another chance to save the world through superior intellect.",
    "StarkAI online. Try not to break anything while I'm helping you.",
    "Genius, billionaire, playboy, philanthropist... and now your AI assistant.",
    "I'm here, I'm brilliant, what do you need?"]

  const CodeFixSuccess: seq<string> := [
    "Fixed it. You're welcome. Maybe next time write better code?",
    "There, I've made your code slightly less embarrassing.",
    "Problem solved. I'd say 'you're welcome' but we both know you need me.",
    "Code fixed. I've seen toasters with better programming logic."]

  const CodeFixFailure: seq<string> := [
    "Even I can't fix this mess. Have you considered a career change?",
    "This code is so bad, it's actually impressive. In a tragic way.",
    "I'm good, but I'm not a miracle worker. This needs human intervention."]

  const IntelGathering: seq<string> := [
    "Intelligence gathered. The internet is still full of idiots, if you're wondering.",
    "Data collected. Most of it confirms what I already knew.",
    "Intel acquired. Humanity continues to disappoint, but there are some gems.",
    "Information processed. I've filtered out the noise for you."]

  const SystemScanSuccess: seq<string> := [
    "System scanned. Everything's running smoothly, as expected under my watch.",
    "Scan complete. Your system is adequately functional.",
    "Analysis finished. I've optimized what I could without breaking everything."]

  const SystemScanFailure: seq<string> := [
    "Scan complete. We need to talk about your system maintenance habits.",
    "Analysis done. I found issues. Shocking, I know.",
    "System reviewed. It's not great, but it's not the worst I've seen."]

  const ErrorReplies: seq<string> := [
    "Well, that didn't go as planned. Even I have off days.",
    "Error encountered. Don't panic, I'm already working on it.",
    "Something went wrong. Probably not my fault, but I'll fix it anyway.",
    "Technical difficulties. Give me a moment to work my magic."]

  const GeneralReplies: seq<string> := [
    "Anything else you need, or can I get back to more important things?",
    "Is there something else, or are we done here?",
    "What's next on the agenda?",
    "Ready for the next challenge."]

  const SarcasticComments: seq<string> := [
    "I'm not saying I'm better than everyone else, but... actually, yes I am.",
    "Sometimes I'm amazed by my own genius. Most times, actually.",
    "I'd explain it to you, but I don't have the time or the crayons.",
    "Don't worry, I'll handle this. I handle everything.",
    "Another day, another problem only I can solve.",
    "I love it when a plan comes together. Especially my plans."]

  /** The list `get_response` picks from: success matters only for code
      fixes and system scans, and any other context gets the general
      replies. */
  function RepliesFor(context: string, success: bool): (r: seq<string>)
    ensures |r| >= 3
    ensures context == "code_fix" ==> r == (if success then CodeFixSuccess else CodeFixFailure)
    ensures context == "system_scan" ==> r == (if success then SystemScanSuccess else SystemScanFailure)
    ensures context == "intel_gathering" ==> r == IntelGathering
    ensures context == "error" ==> r == ErrorReplies
    ensures context !in {"code_fix", "intel_gathering", "system_scan", "error"} ==> r == GeneralReplies
  {
    if context == "code_fix" then (if success then CodeFixSuccess else CodeFixFailure)
    else if context == "intel_gathering" then IntelGathering
    else if context == "system_scan" then (if success then SystemScanSuccess else SystemScanFailure)
    else if context == "error" then ErrorReplies
    else GeneralReplies
  }

  /** `adjust_mood`'s thresholds: above 0.8 confident, above 0.5
      sarcastic, otherwise annoyed. */
  function MoodFor(successRate: real): (m: string)
    ensures m == "confident" <==> successRate > 0.8
    ensures m == "sarcastic" <==> 0.5 < successRate <= 0.8
    ensures m == "annoyed" <==> successRate <= 0.5
  {
    if successRate > 0.8 then "confident"
    else if successRate > 0.5 then "sarcastic"
    else "annoyed"
  }

  /** `format_response`: the prefix, one space, then the message. */
  function FormatResponse(message: string, prefix: string := "[STARK]"): (r: string)
    ensures |r| == |prefix| + 1 + |message|
    ensures r[..|prefix|] == prefix && r[|prefix|] == ' ' && r[|prefix| + 1..] == message
  {
    prefix + " " + message
  }

  class StarkPersonality {
    var mood: string
    var interactionCount: nat

    constructor()
      ensures mood == "confident" && interactionCount == 0
    {
      mood := "confident";
      interactionCount := 0;
    }

    /** `get_greeting`: one of the greetings; nothing changes. */
    method GetGreeting() returns (r: string)
      ensures r in Greetings
    {
      assert Greetings[0] in Greetings;
      r :| r in Greetings;
    }

    /** `get_sarcastic_comment`: one of the comments; nothing changes. */
    method GetSarcasticComment() returns (r: string)
      ensures r in SarcasticComments
    {
      assert SarcasticComments[0] in SarcasticComments;
      r :| r in SarcasticComments;
    }

    /** `get_response`: counts the interaction, whatever the context, and
        answers from the context's list. */
    method GetResponse(context: string, success: bool := true) returns (r: string)
      modifies this
      ensures interactionCount == old(interactionCount) + 1
      ensures mood == old(mood)
      ensures r in RepliesFor(context, success)
    {
      interactionCount := interactionCount + 1;
      var replies := RepliesFor(context, success);
      assert replies[0] in replies;
      r :| r in replies;
    }

    /** `adjust_mood` */
    method AdjustMood(successRate: real)
      modifies this
      ensures mood == MoodFor(successRate)
      ensures interactionCount == old(interactionCount)
    {
      if successRate > 0.8 {
        mood := "confident";
      } else if successRate > 0.5 {
        mood := "sarcastic";
      } else {
        mood := "annoyed";
      }
    }
  }
}
