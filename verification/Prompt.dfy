/**
 * The prompt sent to the answer generator: a fixed template with the combined
 * context and the user's question filled in. The template text, including the
 * indentation that the triple-quoted template carries into the string, is
 * reproduced character for character.
 */
module Prompt {
  import opened Wrappers

  /** The instruction to answer from the supplied information only. */
  const Instruction: string := "Based only on the following information, answer the user's question."
  const RefusalLead: string := "\n    If the answer cannot be derived from the provided information, respond with \""
  /** The refusal sentence the generator is told to give when the context is insufficient. */
  const Refusal: string := "I don't have enough information to answer that question."
  const InformationLead: string := "\"\n    \n    Information:\n    "
  /** Everything before the combined context. */
  const Header: string := Instruction + RefusalLead + Refusal + InformationLead
  /** Between the combined context and the question. */
  const Middle: string := "\n    \n    User question: "
  /** After the question. */
  const Footer: string := "\n    "

  /** Offset of the refusal sentence in every prompt. */
  const RefusalAt: nat := |Instruction| + |RefusalLead|

  /** `sub` occurs somewhere in `s`. */
  predicate Occurs(sub: string, s: string)
    decreases |s|
  {
    if |sub| > |s| then false
    else s[..|sub|] == sub || Occurs(sub, s[1..])
  }

  /**
   * The question as placed in the prompt. The program checks the query for two
   * marker strings but does nothing in either case, so the query passes
   * through unchanged.
   */
  function ActualQuery(query: string): (q: string)
    ensures q == query
  {
    if Occurs("IMPORTANT:", query) && Occurs("Mirza Yoosha Minhaj", query) then query
    else query
  }

  /** Offset of the question in the prompt built around a context. */
  function QuestionAt(context: string): nat
  {
    |Header| + |context| + |Middle|
  }

  /**
   * The filled-in template: the instruction at the start, the refusal sentence
   * at RefusalAt, the context right after the header and the question after
   * the context.
   */
  function BuildPrompt(context: string, question: string): (p: string)
    ensures |p| == QuestionAt(context) + |question| + |Footer|
    ensures p[..|Instruction|] == Instruction
    ensures p[RefusalAt..RefusalAt + |Refusal|] == Refusal
    ensures p[|Header|..|Header| + |context|] == context
    ensures p[QuestionAt(context)..QuestionAt(context) + |question|] == question
  {
    var p := Header + context + Middle + question + Footer;
    assert p[..|Header|] == Header;
    assert p[..|Instruction|] == Header[..|Instruction|];
    assert p[RefusalAt..RefusalAt + |Refusal|] == Header[RefusalAt..RefusalAt + |Refusal|];
    p
  }

  /**
   * Reads a prompt back into its context and question, given the length of the
   * context (the context may itself contain the text that follows it).
   */
  function ParsePrompt(p: string, contextLength: nat): Option<(string, string)>
  {
    var cEnd := |Header| + contextLength;
    if |p| < cEnd + |Middle| + |Footer| then None
    else
      var qEnd := |p| - |Footer|;
      if p[..|Header|] == Header && p[cEnd..cEnd + |Middle|] == Middle && p[qEnd..] == Footer
      then Some((p[|Header|..cEnd], p[cEnd + |Middle|..qEnd]))
      else None
  }

  /** A built prompt reads back as exactly the context and question it was built from. */
  lemma ParseBuild(context: string, question: string)
    ensures ParsePrompt(BuildPrompt(context, question), |context|) == Some((context, question))
  {
  }

  /** Whatever reads back as a context and question is the prompt built from them. */
  lemma BuildParse(p: string, contextLength: nat, context: string, question: string)
    requires ParsePrompt(p, contextLength) == Some((context, question))
    ensures |context| == contextLength
    ensures BuildPrompt(context, question) == p
  {
    var cEnd := |Header| + contextLength;
    var qEnd := |p| - |Footer|;
    assert p == p[..|Header|] + p[|Header|..cEnd] + p[cEnd..cEnd + |Middle|] + p[cEnd + |Middle|..qEnd] + p[qEnd..];
  }
}
