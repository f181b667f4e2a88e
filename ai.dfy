/**
 * The offline reply of the assistant cog (cogs/ai.py, `simple_reply`): a keyword test on
 * the lower-cased text that picks one of three fixed answers.
 */
module AI {
  import opened Text

  const GREETING: string := "Hello. Monitoring channel.…"
  const HELP_REPLY: string := "Describe the issue and I will route it mentally to the admin."
  const NOTED: string := "Noted. Adding to threat database."

  /** Whether the lower-cased text asks for the greeting: "hello" or "hi" occurs in it. */
  predicate Greets(t: string)
  {
    Contains(t, "hello") || Contains(t, "hi")
  }

  /** `simple_reply`: the greeting for "hello" or "hi", then the help answer for "help",
      else the acknowledgement; all tests are substring tests on the lower-cased text. */
  function SimpleReply(text: string): (reply: string)
    ensures reply == GREETING || reply == HELP_REPLY || reply == NOTED
  {
    var t := Lower(text);
    if Greets(t) then GREETING
    else if Contains(t, "help") then HELP_REPLY
    else NOTED
  }

  /** The three answers are different texts. */
  lemma RepliesDistinct()
    ensures GREETING != HELP_REPLY && GREETING != NOTED && HELP_REPLY != NOTED
  {
    assert |GREETING| == 27 && |NOTED| == 33 && |HELP_REPLY| == 61;
  }

  /** Which answer a text gets, in both directions: the greeting exactly when "hello" or
      "hi" occurs (even together with "help"), the help answer exactly when "help" occurs
      without either, and the acknowledgement otherwise. */
  lemma ReplyCases(text: string)
    ensures SimpleReply(text) == GREETING <==> Greets(Lower(text))
    ensures SimpleReply(text) == HELP_REPLY <==> !Greets(Lower(text)) && Contains(Lower(text), "help")
    ensures SimpleReply(text) == NOTED <==> !Greets(Lower(text)) && !Contains(Lower(text), "help")
  {
    RepliesDistinct();
  }

  /** The answer does not depend on letter case. */
  lemma SimpleReplyIgnoresCase(text: string)
    ensures SimpleReply(Lower(text)) == SimpleReply(text)
  {
    LowerIdempotent(text);
  }

  /** "hi" is matched anywhere, also inside words: "This needs HELP" gets the greeting,
      not the help answer. */
  lemma GreetingInsideWord()
    ensures SimpleReply("This needs HELP") == GREETING
  {
    var t := Lower("This needs HELP");
    assert t == "this needs help";
    assert OccursAt(t, "hi", 1);
    ContainsAt(t, "hi");
  }
}
