/** Iterative answer synthesis (search-api/api/llm.py): the ranked passages are cut into
    consecutive groups; the first group yields an answer from an initial prompt, and every later
    group refines the running answer with a refine prompt, after a rate-limit wait. Each
    generation call makes at most three attempts. */
module Llm {
  import opened Wrappers
  import opened Text
  import opened Slicing
  import opened Models

  /** The answer given when there are no passages at all. */
  const NoInformation := "関連する情報が見つかりませんでした。"

  /** Attempts per generation call before giving up. */
  const MaxAttempts := 3

  /** What one attempt at generation gives: the generated text, or the error it raised. */
  datatype Reply = Generated(text: string) | Fault(message: string) {
    /** The generated text, or nothing for an error. */
    function Output(): string {
      if Generated? then text else ""
    }
  }

  /** Why a synthesis fails: a group size of 0 (a `range` step of 0), or a generation call that
      failed on all of its attempts (the retry decorator's `RetryError` around the last error). */
  datatype SynthesisError = InvalidGroupSize | RetryError(lastMessage: string)

  /** One generation call as it happened: the wait made just before it (none for the first group),
      its prompt, the number of attempts it took and the reply of its last attempt. */
  datatype Call = Call(wait: Option<real>, prompt: string, attempts: nat, reply: Reply)

  /** The outcome of a synthesis together with every call it made, in order. */
  datatype Run = Run(outcome: Result<string, SynthesisError>, calls: seq<Call>)

  // ---------------------------------------------------------------------------------------------
  // Retry

  /** The attempt number at which retrying stops, starting at attempt `attempt`, whose reply is
      `generate(prompt, next)`: the first attempt that succeeds, or the last one allowed. */
  function RetryFrom(generate: (string, nat) -> Reply, prompt: string, next: nat, attempt: nat): (n: nat)
    requires 1 <= attempt <= MaxAttempts
    ensures attempt <= n <= MaxAttempts
    decreases MaxAttempts - attempt
  {
    if generate(prompt, next).Generated? || attempt == MaxAttempts then attempt
    else RetryFrom(generate, prompt, next + 1, attempt + 1)
  }

  /** The number of attempts one generation call makes when `next` attempts were made before it. */
  function Attempts(generate: (string, nat) -> Reply, prompt: string, next: nat): nat {
    RetryFrom(generate, prompt, next, 1)
  }

  /** Retrying stops at the first success among the first three attempts; when all three fail
      the call fails with the third attempt's error. */
  lemma AttemptsSpec(generate: (string, nat) -> Reply, prompt: string, next: nat)
    ensures 1 <= Attempts(generate, prompt, next) <= MaxAttempts
    ensures forall a :: next <= a < next + Attempts(generate, prompt, next) - 1 ==> generate(prompt, a).Fault?
    ensures generate(prompt, next + Attempts(generate, prompt, next) - 1).Fault? <==>
      (forall a :: next <= a < next + MaxAttempts ==> generate(prompt, a).Fault?)
    ensures generate(prompt, next + Attempts(generate, prompt, next) - 1).Fault? ==>
      Attempts(generate, prompt, next) == MaxAttempts
  {
    var n := Attempts(generate, prompt, next);
    if generate(prompt, next).Generated? {
      assert n == 1;
    } else if generate(prompt, next + 1).Generated? {
      assert n == RetryFrom(generate, prompt, next + 1, 2) == 2;
    } else {
      assert n == RetryFrom(generate, prompt, next + 2, 3) == 3;
    }
  }

  /** Calls the generator for `prompt` up to three times, stopping at the first success. `next`
      counts the attempts made before, so that `generate` can answer each attempt differently. */
  method GenerateWithRetry(generate: (string, nat) -> Reply, prompt: string, next: nat)
    returns (reply: Reply, attempts: nat)
    ensures attempts == Attempts(generate, prompt, next)
    ensures reply == generate(prompt, next + attempts - 1)
  {
    attempts := 1;
    reply := generate(prompt, next);
    while reply.Fault? && attempts < MaxAttempts
      invariant 1 <= attempts <= MaxAttempts
      invariant reply == generate(prompt, next + attempts - 1)
      invariant Attempts(generate, prompt, next) == RetryFrom(generate, prompt, next + attempts - 1, attempts)
      decreases MaxAttempts - attempts
    {
      attempts := attempts + 1;
      reply := generate(prompt, next + attempts - 1);
    }
  }

  // ---------------------------------------------------------------------------------------------
  // Grouping

  /** The passages cut into consecutive groups of `size` (`contexts[i:i+size]` for every `i` in
      `range(0, len(contexts), size)`); a negative size gives an empty range. */
  function Groups(contexts: seq<SearchResult>, size: int): seq<seq<SearchResult>>
    requires size != 0
  {
    if size < 0 then []
    else
      var step: nat := size;
      seq(CeilDiv(|contexts|, step), k requires 0 <= k => Slice(contexts, k * step, k * step + step))
  }

  /** The groups are the windows of `size` passages that do not overlap. */
  lemma GroupsAreWindows(contexts: seq<SearchResult>, size: nat)
    requires size > 0
    ensures Groups(contexts, size) == Windows(contexts, size, 0)
  {
    var gs := Groups(contexts, size);
    var ws := Windows(contexts, size, 0);
    WindowsCount(contexts, size, 0);
    if |contexts| > 0 {
      assert |gs| == |ws|;
      forall k | 0 <= k < |ws| ensures gs[k] == ws[k] {
        WindowAt(contexts, size, 0, k);
        assert size - 0 == size;
      }
    }
  }

  /** There are ceil(n / size) groups, none empty, all but the last exactly `size` long, and
      putting them end to end gives back the passages in their order. */
  lemma GroupsSpec(contexts: seq<SearchResult>, size: nat)
    requires size > 0
    ensures |Groups(contexts, size)| == CeilDiv(|contexts|, size)
    ensures forall k :: 0 <= k < |Groups(contexts, size)| ==> 0 < |Groups(contexts, size)[k]| <= size
    ensures forall k :: 0 <= k < |Groups(contexts, size)| - 1 ==> |Groups(contexts, size)[k]| == size
    ensures Flatten(Groups(contexts, size)) == contexts
  {
    var gs := Groups(contexts, size);
    GroupsAreWindows(contexts, size);
    forall k | 0 <= k < |gs| ensures 0 < |gs[k]| <= size {
      WindowAt(contexts, size, 0, k);
    }
    forall k | 0 <= k < |gs| - 1 ensures |gs[k]| == size {
      WindowsFull(contexts, size, 0, k);
    }
    WindowsReassemble(contexts, size, 0);
    ReassembleNoOverlap(gs);
  }

  // ---------------------------------------------------------------------------------------------
  // Prompts

  const Persona := "あなたはScrapboxの知識を熟知したアシスタントです。\n"
  const AnswerOnlyFromContext := "提供されたコンテキスト情報のみを使用して、ユーザーの質問に回答してください。\n"
  const CiteSources := "回答の最後には、参考にしたページのタイトルとURLを記載してください。\n\n"
  const RefineInstructions :=
    "既存の回答を、新しく追加されたコンテキスト情報を用いて更新・改善してください。\n"
    + "必要に応じて情報を追加し、矛盾がある場合は新しい情報を優先してください。\n"
    + "回答の最後には、これまでに参考にしたすべてのページのタイトルとURLを記載してください。\n\n"
  const ContextHeading := "# コンテキスト\n"
  const QuestionHeading := "# ユーザーの質問\n"
  const AnswerHeading := "# 既存の回答\n"
  const AddedContextHeading := "# 追加のコンテキスト\n"

  /** The fixed text of the two prompt templates, line by line. */
  datatype Template = Template(persona: string, answerOnlyFromContext: string, citeSources: string,
                               refineInstructions: string, contextHeading: string, questionHeading: string,
                               answerHeading: string, addedContextHeading: string)

  /** The templates the synthesis uses. */
  const Prompts := Template(Persona, AnswerOnlyFromContext, CiteSources, RefineInstructions, ContextHeading,
                            QuestionHeading, AnswerHeading, AddedContextHeading)

  /** How one passage is shown to the model: a source line with its title and URL, then its text. */
  function SourceParts(c: SearchResult): seq<string> {
    ["--- Source: ", c.title, " (", c.url, ") ---\n", c.text]
  }

  function RenderSource(c: SearchResult): string {
    Flatten(SourceParts(c))
  }

  /** A group's passages, rendered in order and separated by blank lines. */
  function ContextText(group: seq<SearchResult>): string {
    Join("\n\n", seq(|group|, i requires 0 <= i < |group| => RenderSource(group[i])))
  }

  /** The pieces of the prompt for the first group: instructions, the passages, the question. */
  function InitialParts(t: Template, contextText: string, query: string): seq<string> {
    [t.persona, t.answerOnlyFromContext, t.citeSources, t.contextHeading, contextText, "\n\n", t.questionHeading,
     query, "\n"]
  }

  function InitialPrompt(t: Template, contextText: string, query: string): string {
    Flatten(InitialParts(t, contextText, query))
  }

  /** The pieces of the prompt for every later group: instructions, the question, the running
      answer and the new passages. */
  function RefineParts(t: Template, query: string, answer: string, contextText: string): seq<string> {
    [t.persona, t.refineInstructions, t.questionHeading, query, "\n\n", t.answerHeading, answer, "\n\n",
     t.addedContextHeading, contextText, "\n"]
  }

  function RefinePrompt(t: Template, query: string, answer: string, contextText: string): string {
    Flatten(RefineParts(t, query, answer, contextText))
  }

  /** The prompt for group `i` given the running answer. */
  function PromptFor(t: Template, query: string, group: seq<SearchResult>, i: nat, answer: string): string {
    if i == 0 then InitialPrompt(t, ContextText(group), query) else RefinePrompt(t, query, answer, ContextText(group))
  }

  /** Every passage of a group appears in the group's context text with its title, URL and text. */
  lemma ContextTextHasPassage(group: seq<SearchResult>, k: nat)
    requires k < |group|
    ensures IsInfix(RenderSource(group[k]), ContextText(group))
    ensures IsInfix(group[k].title, ContextText(group))
    ensures IsInfix(group[k].url, ContextText(group))
    ensures IsInfix(group[k].text, ContextText(group))
  {
    var parts := seq(|group|, i requires 0 <= i < |group| => RenderSource(group[i]));
    JoinHasPart("\n\n", parts, k);
    var r := RenderSource(group[k]);
    FlattenHasPieces(SourceParts(group[k]), 1);
    FlattenHasPieces(SourceParts(group[k]), 3);
    FlattenHasPieces(SourceParts(group[k]), 5);
    InfixTransitive(group[k].title, r, ContextText(group));
    InfixTransitive(group[k].url, r, ContextText(group));
    InfixTransitive(group[k].text, r, ContextText(group));
  }

  /** A character of a group's context text comes from a source line's fixed text, the blank line
      between passages, or a passage's title, URL or text. */
  lemma ContextTextMembers(group: seq<SearchResult>, c: char)
    requires c in ContextText(group)
    ensures c in "--- Source: " || c in " (" || c in ") ---\n" || c in "\n\n"
      || exists j :: 0 <= j < |group| && (c in group[j].title || c in group[j].url || c in group[j].text)
  {
    var parts := seq(|group|, i requires 0 <= i < |group| => RenderSource(group[i]));
    JoinMembers("\n\n", parts, c);
    if c !in "\n\n" {
      var j :| 0 <= j < |parts| && c in parts[j];
      FlattenMembers(SourceParts(group[j]), c);
    }
  }

  /** The initial prompt holds the passages under the context heading and the question under the
      question heading, and any character in it comes from the template lines it uses, the
      passages or the question. */
  lemma InitialPromptContents(t: Template, contextText: string, query: string, c: char)
    ensures IsInfix(t.contextHeading + contextText, InitialPrompt(t, contextText, query))
    ensures IsInfix(t.questionHeading + query, InitialPrompt(t, contextText, query))
    ensures c in InitialPrompt(t, contextText, query) ==>
      c in t.persona || c in t.answerOnlyFromContext || c in t.citeSources || c in t.contextHeading
      || c in contextText || c in "\n" || c in t.questionHeading || c in query
  {
    var parts := InitialParts(t, contextText, query);
    FlattenHasPieces(parts, 3);
    FlattenHasPieces(parts, 6);
    if c in Flatten(parts) {
      FlattenMembers(parts, c);
    }
  }

  /** A refine prompt holds the question, the running answer under the answer heading and the new
      passages under the added-context heading. */
  lemma RefinePromptContents(t: Template, query: string, answer: string, contextText: string)
    ensures IsInfix(t.questionHeading + query, RefinePrompt(t, query, answer, contextText))
    ensures IsInfix(t.answerHeading + answer, RefinePrompt(t, query, answer, contextText))
    ensures IsInfix(t.addedContextHeading + contextText, RefinePrompt(t, query, answer, contextText))
  {
    var parts := RefineParts(t, query, answer, contextText);
    FlattenHasPieces(parts, 2);
    FlattenHasPieces(parts, 5);
    FlattenHasPieces(parts, 8);
  }

  // The lines of the initial template have no 既, the first character of 既存 ("existing").
  lemma PersonaLacksExisting() ensures '既' !in Persona {}
  lemma AnswerOnlyFromContextLacksExisting() ensures '既' !in AnswerOnlyFromContext {}
  lemma CiteSourcesLacksExisting() ensures '既' !in CiteSources {}
  lemma ContextHeadingLacksExisting() ensures '既' !in ContextHeading {}
  lemma QuestionHeadingLacksExisting() ensures '既' !in QuestionHeading {}
  lemma SourceLineLacksExisting() ensures '既' !in "--- Source: " && '既' !in " (" && '既' !in ") ---\n" && '既' !in "\n\n" {}

  /** When neither the passages nor the question contain the character 既, the initial prompt has
      no "# 既存の回答" (existing answer) heading: only refine prompts carry a running answer. */
  lemma InitialPromptLacksAnswer(contextText: string, query: string)
    requires '既' !in contextText && '既' !in query
    ensures !IsInfix(AnswerHeading, InitialPrompt(Prompts, contextText, query))
  {
    InitialPromptContents(Prompts, contextText, query, '既');
    if IsInfix(AnswerHeading, InitialPrompt(Prompts, contextText, query)) {
      assert AnswerHeading[2] == '既';
      InfixMembers(AnswerHeading, InitialPrompt(Prompts, contextText, query), '既');
      PersonaLacksExisting();
      AnswerOnlyFromContextLacksExisting();
      CiteSourcesLacksExisting();
      ContextHeadingLacksExisting();
      QuestionHeadingLacksExisting();
      assert false;
    }
  }

  /** No initial prompt is a refine prompt: the two templates part after their common first line. */
  lemma PromptModesDiffer(contextText: string, query: string, query': string, answer: string, contextText': string)
    ensures InitialPrompt(Prompts, contextText, query) != RefinePrompt(Prompts, query', answer, contextText')
  {
    var n := |Persona|;
    var ip := InitialParts(Prompts, contextText, query);
    var rp := RefineParts(Prompts, query', answer, contextText');
    assert Flatten(ip) == Persona + (AnswerOnlyFromContext + Flatten(ip[2..]));
    assert Flatten(rp) == Persona + (RefineInstructions + Flatten(rp[2..]));
    assert Flatten(ip)[n] == AnswerOnlyFromContext[0] == '提';
    assert Flatten(rp)[n] == RefineInstructions[0] == '既';
  }

  // ---------------------------------------------------------------------------------------------
  // Synthesis

  /** The call made for group `i`, given the running answer and `next` attempts made before. */
  function CallFor(t: Template, query: string, group: seq<SearchResult>, i: nat, answer: string, delay: real,
                   generate: (string, nat) -> Reply, next: nat): Call
  {
    var prompt := PromptFor(t, query, group, i, answer);
    var n := Attempts(generate, prompt, next);
    Call(if i == 0 then None else Some(delay), prompt, n, generate(prompt, next + n - 1))
  }

  /** The call for a group as a function of the group, its index, the running answer and the
      attempts made before. */
  type Step = (seq<SearchResult>, nat, string, nat) -> Call

  function GroupStep(t: Template, query: string, delay: real, generate: (string, nat) -> Reply): Step {
    (group: seq<SearchResult>, i: nat, answer: string, next: nat) => CallFor(t, query, group, i, answer, delay, generate, next)
  }

  /** The synthesis from group `i` on, with running answer `answer`, `next` attempts made before
      and the calls `done` made for the earlier groups: the call for each group is made in turn,
      its reply becoming the running answer; a call whose attempts all failed ends the synthesis
      with its last error. */
  function RefineFrom(step: Step, groups: seq<seq<SearchResult>>, i: nat, answer: string, next: nat, done: seq<Call>): Run
    requires i <= |groups|
    decreases |groups| - i
  {
    if i == |groups| then Run(Success(answer), done)
    else
      var call := step(groups[i], i, answer, next);
      match call.reply
      case Fault(message) => Run(Failure(RetryError(message)), done + [call])
      case Generated(text) => RefineFrom(step, groups, i + 1, text, next + call.attempts, done + [call])
  }

  /** The answer to `query` from the ranked `contexts`, cut into groups of `groupSize`, waiting
      `delay` seconds before every group but the first. */
  function Synthesis(query: string, contexts: seq<SearchResult>, groupSize: int, delay: real,
                     generate: (string, nat) -> Reply): Run
  {
    if |contexts| == 0 then Run(Success(NoInformation), [])
    else if groupSize == 0 then Run(Failure(InvalidGroupSize), [])
    else RefineFrom(GroupStep(Prompts, query, delay, generate), Groups(contexts, groupSize), 0, "", 0, [])
  }

  /** The attempts made by `calls` together. */
  function Spent(calls: seq<Call>): nat
    decreases |calls|
  {
    if |calls| == 0 then 0 else calls[0].attempts + Spent(calls[1..])
  }

  /** Answers `query` from `contexts`: groups of `groupSize` passages, the first answered and
      every later one refining the answer, each call retried up to three times. */
  method GenerateAnswer(query: string, contexts: seq<SearchResult>, groupSize: int, delay: real,
                        generate: (string, nat) -> Reply)
    returns (outcome: Result<string, SynthesisError>, calls: seq<Call>)
    ensures Run(outcome, calls) == Synthesis(query, contexts, groupSize, delay, generate)
    ensures |contexts| == 0 ==> outcome == Success(NoInformation) && calls == []
    ensures |contexts| > 0 && groupSize == 0 ==> outcome == Failure(InvalidGroupSize) && calls == []
    ensures |contexts| > 0 && groupSize < 0 ==> outcome == Success("") && calls == []
  {
    if |contexts| == 0 {
      return Success(NoInformation), [];
    }
    if groupSize == 0 {
      return Failure(InvalidGroupSize), [];
    }
    var groups := Groups(contexts, groupSize);
    outcome, calls := RefineGroups(Prompts, query, groups, delay, generate);
  }

  /** One step of the synthesis: the call for group `i` either fails and ends it, or its reply
      becomes the running answer for the next group. */
  lemma RefineStep(step: Step, groups: seq<seq<SearchResult>>, i: nat, answer: string, next: nat, done: seq<Call>,
                   call: Call)
    requires i < |groups| && call == step(groups[i], i, answer, next)
    ensures call.reply.Fault? ==>
      RefineFrom(step, groups, i, answer, next, done) == Run(Failure(RetryError(call.reply.message)), done + [call])
    ensures call.reply.Generated? ==>
      RefineFrom(step, groups, i, answer, next, done)
      == RefineFrom(step, groups, i + 1, call.reply.text, next + call.attempts, done + [call])
  {
  }

  /** Makes the call for group `i`: waits `delay` unless it is the first group, renders the
      group's passages into its prompt and generates with retries. The result is CallFor's call;
      it is stated through `step`, which is GroupStep, so that the loop calling this method
      reasons about the call without unfolding the prompt. */
  method CallGroup(t: Template, query: string, group: seq<SearchResult>, i: nat, answer: string, delay: real,
                   generate: (string, nat) -> Reply, next: nat, ghost step: Step)
    returns (call: Call)
    requires step == GroupStep(t, query, delay, generate)
    ensures call == step(group, i, answer, next)
  {
    var wait := if i > 0 then Some(delay) else None;
    var contextText := ContextText(group);
    var prompt := if i == 0 then InitialPrompt(t, contextText, query) else RefinePrompt(t, query, answer, contextText);
    var reply, attempts := GenerateWithRetry(generate, prompt, next);
    call := Call(wait, prompt, attempts, reply);
  }

  /** The loop over the groups: the first group is answered, every later one refines the running
      answer; a call that fails three times ends the loop with its error. */
  method RefineGroups(t: Template, query: string, groups: seq<seq<SearchResult>>, delay: real,
                      generate: (string, nat) -> Reply)
    returns (outcome: Result<string, SynthesisError>, calls: seq<Call>)
    ensures Run(outcome, calls) == RefineFrom(GroupStep(t, query, delay, generate), groups, 0, "", 0, [])
  {
    var answer := "";
    var next: nat := 0;
    calls := [];
    ghost var step := GroupStep(t, query, delay, generate);
    ghost var target := RefineFrom(step, groups, 0, answer, next, calls);
    for i := 0 to |groups|
      invariant RefineFrom(step, groups, i, answer, next, calls) == target
    {
      var call := CallGroup(t, query, groups[i], i, answer, delay, generate, next, step);
      RefineStep(step, groups, i, answer, next, calls, call);
      calls := calls + [call];
      if call.reply.Fault? {
        return Failure(RetryError(call.reply.message)), calls;
      }
      assert RefineFrom(step, groups, i + 1, call.reply.text, next + call.attempts, calls) == target;
      answer := call.reply.text;
      next := next + call.attempts;
    }
    outcome := Success(answer);
  }

  /** A synthesis from group `i` keeps the calls `done` made before and adds at most one call per
      remaining group, the first of them the call for group `i`; it succeeds with a call for every
      remaining group and the last reply as the answer (the running answer when none remain), and
      fails only on a call that failed, with that call's last error. */
  lemma {:induction false} RefineShape(step: Step, groups: seq<seq<SearchResult>>, i: nat, answer: string, next: nat,
                                       done: seq<Call>, run: Run)
    requires i <= |groups|
    requires run == RefineFrom(step, groups, i, answer, next, done)
    ensures |done| <= |run.calls| <= |done| + (|groups| - i) && run.calls[..|done|] == done
    ensures i < |groups| ==> |done| < |run.calls| && run.calls[|done|] == step(groups[i], i, answer, next)
    ensures run.outcome.Success? ==>
      && |run.calls| == |done| + (|groups| - i)
      && (i < |groups| ==> run.calls[|run.calls| - 1].reply.Generated?)
      && run.outcome.value == (if i == |groups| then answer else run.calls[|run.calls| - 1].reply.Output())
    ensures run.outcome.Failure? ==>
      && |done| < |run.calls|
      && run.calls[|run.calls| - 1].reply.Fault?
      && run.outcome.error == RetryError(run.calls[|run.calls| - 1].reply.message)
    decreases |groups| - i
  {
    if i < |groups| {
      var call := step(groups[i], i, answer, next);
      if call.reply.Generated? {
        RefineShape(step, groups, i + 1, call.reply.text, next + call.attempts, done + [call], run);
        assert run.calls[..|done| + 1][..|done|] == run.calls[..|done|];
        assert run.calls[..|done| + 1][|done|] == run.calls[|done|];
      } else {
        assert run.calls == done + [call];
      }
    }
  }

  /** A call waits only when it is not the first, and its reply is the generator's answer to its
      last attempt. */
  lemma CallWaitAndReply(t: Template, query: string, group: seq<SearchResult>, i: nat, answer: string,
                         delay: real, generate: (string, nat) -> Reply, next: nat, call: Call)
    requires call == CallFor(t, query, group, i, answer, delay, generate, next)
    ensures call.wait == (if i == 0 then None else Some(delay))
    ensures call.reply == generate(call.prompt, next + call.attempts - 1)
  {
  }

  /** A call fails only after all three attempts. */
  lemma CallFaultExhausts(t: Template, query: string, group: seq<SearchResult>, i: nat, answer: string,
                          delay: real, generate: (string, nat) -> Reply, next: nat, call: Call)
    requires call == CallFor(t, query, group, i, answer, delay, generate, next)
    ensures call.reply.Fault? ==> call.attempts == MaxAttempts
  {
    AttemptsSpec(generate, call.prompt, next);
  }

  /** Every call of a synthesis is the call for its group, made with the previous reply as the
      running answer and after the attempts of the calls before it; every call but the last got a
      generated reply. */
  lemma RefineTrace(step: Step, groups: seq<seq<SearchResult>>, answer: string, run: Run)
    requires run == RefineFrom(step, groups, 0, answer, 0, [])
    ensures |run.calls| <= |groups|
    ensures 0 < |run.calls| ==> run.calls[0] == step(groups[0], 0, answer, 0)
    ensures forall k :: 0 < k < |run.calls| ==>
      run.calls[k] == step(groups[k], k, run.calls[k - 1].reply.Output(), Spent(run.calls[..k]))
    ensures forall k :: 0 <= k < |run.calls| - 1 ==> run.calls[k].reply.Generated?
  {
    RefineShape(step, groups, 0, answer, 0, [], run);
    forall k | 0 < k < |run.calls|
      ensures run.calls[k] == step(groups[k], k, run.calls[k - 1].reply.Output(), Spent(run.calls[..k]))
    {
      RefineCallAt(step, groups, 0, answer, 0, [], run, k);
      assert run.calls[0..k] == run.calls[..k];
    }
    forall k | 0 <= k < |run.calls| - 1
      ensures run.calls[k].reply.Generated?
    {
      RefineCallAt(step, groups, 0, answer, 0, [], run, k + 1);
    }
  }

  /** Call k of a synthesis from group `i` (k > i) was made after call k - 1 succeeded, for group
      k, with the reply of call k - 1 as the running answer and the attempts spent since group `i`
      added to `next`. */
  lemma {:induction false} RefineCallAt(step: Step, groups: seq<seq<SearchResult>>, i: nat, answer: string,
                                        next: nat, done: seq<Call>, run: Run, k: nat)
    requires i <= |groups| && |done| == i
    requires run == RefineFrom(step, groups, i, answer, next, done)
    requires i < k < |run.calls|
    ensures k < |groups|
    ensures run.calls[k - 1].reply.Generated?
    ensures run.calls[k] == step(groups[k], k, run.calls[k - 1].reply.Output(), next + Spent(run.calls[i..k]))
    decreases |groups| - i
  {
    RefineShape(step, groups, i, answer, next, done, run);
    var call := step(groups[i], i, answer, next);
    if call.reply.Fault? {
      assert false;
    }
    var rest := RefineFrom(step, groups, i + 1, call.reply.text, next + call.attempts, done + [call]);
    assert run == rest;
    var s := run.calls[i..k];
    assert s[0] == call && s[1..] == run.calls[i + 1..k];
    assert Spent(s) == call.attempts + Spent(run.calls[i + 1..k]);
    if k == i + 1 {
      RefineShape(step, groups, i + 1, call.reply.text, next + call.attempts, done + [call], run);
      assert run.calls[i + 1..k] == [];
    } else {
      RefineCallAt(step, groups, i + 1, call.reply.text, next + call.attempts, done + [call], run, k);
    }
  }


  /** The call for group `i`: no wait for the first group and a wait of `delay` for every other;
      the first prompt holds the group's passages and the question, every later one the question,
      the running answer and the group's passages; the retry policy makes one to three attempts,
      the reply is that of the last, the attempts before it failed, and the call fails only when
      all three attempts failed. */
  lemma CallForSpec(t: Template, query: string, group: seq<SearchResult>, i: nat, answer: string, delay: real,
                    generate: (string, nat) -> Reply, next: nat, call: Call)
    requires call == CallFor(t, query, group, i, answer, delay, generate, next)
    ensures call.wait == (if i == 0 then None else Some(delay))
    ensures i == 0 ==> IsInfix(t.contextHeading + ContextText(group), call.prompt)
    ensures i > 0 ==>
      IsInfix(t.answerHeading + answer, call.prompt) && IsInfix(t.addedContextHeading + ContextText(group), call.prompt)
    ensures IsInfix(t.questionHeading + query, call.prompt)
    ensures forall j :: 0 <= j < |group| ==> IsInfix(RenderSource(group[j]), call.prompt)
    ensures 1 <= call.attempts <= MaxAttempts
    ensures call.reply == generate(call.prompt, next + call.attempts - 1)
    ensures forall a :: next <= a < next + call.attempts - 1 ==> generate(call.prompt, a).Fault?
    ensures call.reply.Fault? <==> forall a :: next <= a < next + MaxAttempts ==> generate(call.prompt, a).Fault?
    ensures call.reply.Fault? ==> call.attempts == MaxAttempts
  {
    var ctx := ContextText(group);
    AttemptsSpec(generate, call.prompt, next);
    if i == 0 {
      InitialPromptContents(t, ctx, query, ' ');
      forall j | 0 <= j < |group| ensures IsInfix(RenderSource(group[j]), call.prompt) {
        ContextTextHasPassage(group, j);
        InfixOfConcat(t.contextHeading, ctx, []);
        assert t.contextHeading + ctx + [] == t.contextHeading + ctx;
        InfixTransitive(RenderSource(group[j]), ctx, t.contextHeading + ctx);
        InfixTransitive(RenderSource(group[j]), t.contextHeading + ctx, call.prompt);
      }
    } else {
      RefinePromptContents(t, query, answer, ctx);
      forall j | 0 <= j < |group| ensures IsInfix(RenderSource(group[j]), call.prompt) {
        ContextTextHasPassage(group, j);
        InfixOfConcat(t.addedContextHeading, ctx, []);
        assert t.addedContextHeading + ctx + [] == t.addedContextHeading + ctx;
        InfixTransitive(RenderSource(group[j]), ctx, t.addedContextHeading + ctx);
        InfixTransitive(RenderSource(group[j]), t.addedContextHeading + ctx, call.prompt);
      }
    }
  }

  /** A synthesis over passages in groups of `size` makes one call per group until one fails:
      the first with the initial prompt and no running answer, every later one with the reply
      before it as the running answer, each after the attempts of the calls before it. It
      succeeds with a call for every group and the last reply as the answer, or fails on the
      first call whose three attempts all failed, with that call's last error. */
  lemma SynthesisTrace(query: string, contexts: seq<SearchResult>, size: nat, delay: real,
                       generate: (string, nat) -> Reply, run: Run)
    requires |contexts| > 0 && size > 0
    requires run == Synthesis(query, contexts, size, delay, generate)
    ensures 0 < |run.calls| <= CeilDiv(|contexts|, size) == |Groups(contexts, size)|
    ensures run.calls[0] == GroupStep(Prompts, query, delay, generate)(Groups(contexts, size)[0], 0, "", 0)
    ensures forall k :: 0 < k < |run.calls| ==>
      run.calls[k] == GroupStep(Prompts, query, delay, generate)(Groups(contexts, size)[k], k,
                                                                run.calls[k - 1].reply.Output(), Spent(run.calls[..k]))
    ensures forall k :: 0 <= k < |run.calls| - 1 ==> run.calls[k].reply.Generated?
    ensures run.outcome.Success? ==>
      && |run.calls| == CeilDiv(|contexts|, size)
      && run.calls[|run.calls| - 1].reply.Generated?
      && run.outcome.value == run.calls[|run.calls| - 1].reply.text
    ensures run.outcome.Failure? ==>
      && run.calls[|run.calls| - 1].reply.Fault?
      && run.calls[|run.calls| - 1].attempts == MaxAttempts
      && run.outcome.error == RetryError(run.calls[|run.calls| - 1].reply.message)
  {
    var gs := Groups(contexts, size);
    var step := GroupStep(Prompts, query, delay, generate);
    assert run == RefineFrom(step, gs, 0, "", 0, []);
    RefineShape(step, gs, 0, "", 0, [], run);
    RefineTrace(step, gs, "", run);
    if run.outcome.Failure? {
      var last := |run.calls| - 1;
      if last == 0 {
        CallFaultExhausts(Prompts, query, gs[0], 0, "", delay, generate, 0, run.calls[0]);
      } else {
        CallFaultExhausts(Prompts, query, gs[last], last, run.calls[last - 1].reply.Output(), delay, generate,
                          Spent(run.calls[..last]), run.calls[last]);
      }
    }
  }

  /** The prompt of call `k` of a synthesis holds the question and every passage of group `k`,
      and, after the first call, the reply before it under the answer heading. */
  lemma SynthesisCallPrompt(query: string, contexts: seq<SearchResult>, size: nat, delay: real,
                            generate: (string, nat) -> Reply, run: Run, k: nat)
    requires |contexts| > 0 && size > 0
    requires run == Synthesis(query, contexts, size, delay, generate)
    requires k < |run.calls|
    ensures k < |Groups(contexts, size)|
    ensures IsInfix(Prompts.questionHeading + query, run.calls[k].prompt)
    ensures k == 0 ==> IsInfix(Prompts.contextHeading + ContextText(Groups(contexts, size)[0]), run.calls[0].prompt)
    ensures forall j :: 0 <= j < |Groups(contexts, size)[k]| ==>
      IsInfix(RenderSource(Groups(contexts, size)[k][j]), run.calls[k].prompt)
    ensures k > 0 ==> IsInfix(Prompts.answerHeading + run.calls[k - 1].reply.Output(), run.calls[k].prompt)
  {
    var gs := Groups(contexts, size);
    SynthesisTrace(query, contexts, size, delay, generate, run);
    if k == 0 {
      CallForSpec(Prompts, query, gs[0], 0, "", delay, generate, 0, run.calls[0]);
    } else {
      CallForSpec(Prompts, query, gs[k], k, run.calls[k - 1].reply.Output(), delay, generate,
                  Spent(run.calls[..k]), run.calls[k]);
    }
  }

  /** The first call of a synthesis uses the initial prompt over the first group. */
  lemma FirstCallPrompt(query: string, contexts: seq<SearchResult>, size: nat, delay: real,
                        generate: (string, nat) -> Reply, run: Run)
    requires |contexts| > 0 && size > 0
    requires run == Synthesis(query, contexts, size, delay, generate)
    ensures 0 < |run.calls| && 0 < |Groups(contexts, size)|
    ensures run.calls[0].prompt == InitialPrompt(Prompts, ContextText(Groups(contexts, size)[0]), query)
  {
    SynthesisTrace(query, contexts, size, delay, generate, run);
  }

  /** The first group's passages are the first passages of the contexts. */
  lemma FirstGroupIsPrefix(contexts: seq<SearchResult>, size: nat)
    requires |contexts| > 0 && size > 0
    ensures 0 < |Groups(contexts, size)|
    ensures forall j :: 0 <= j < |Groups(contexts, size)[0]| ==> j < |contexts| && Groups(contexts, size)[0][j] == contexts[j]
  {
    var g := Groups(contexts, size)[0];
    assert g == Slice(contexts, 0 * size, 0 * size + size);
  }

  /** A group whose passages have no 既 in their titles, URLs and texts gives a context text
      without 既. */
  lemma ContextTextLacksExisting(group: seq<SearchResult>)
    requires forall j :: 0 <= j < |group| ==> '既' !in group[j].title && '既' !in group[j].url && '既' !in group[j].text
    ensures '既' !in ContextText(group)
  {
    if '既' in ContextText(group) {
      ContextTextMembers(group, '既');
      SourceLineLacksExisting();
      assert false;
    }
  }

  /** The first call's prompt is the initial prompt over the first group: it has the context
      heading and, when neither the question nor any passage contains the character 既, no
      "# 既存の回答" (existing answer) heading. */
  lemma FirstPromptIsInitial(query: string, contexts: seq<SearchResult>, size: nat, delay: real,
                             generate: (string, nat) -> Reply, run: Run)
    requires |contexts| > 0 && size > 0
    requires run == Synthesis(query, contexts, size, delay, generate)
    ensures 0 < |run.calls|
    ensures run.calls[0].prompt == InitialPrompt(Prompts, ContextText(Groups(contexts, size)[0]), query)
    ensures IsInfix(ContextHeading, run.calls[0].prompt)
    ensures ('既' !in query && forall p :: p in contexts ==> '既' !in p.title && '既' !in p.url && '既' !in p.text) ==>
      !IsInfix(AnswerHeading, run.calls[0].prompt)
  {
    FirstCallPrompt(query, contexts, size, delay, generate, run);
    var ctx := ContextText(Groups(contexts, size)[0]);
    InitialPromptHasContextHeading(ctx, query);
    if '既' !in query && forall p :: p in contexts ==> '既' !in p.title && '既' !in p.url && '既' !in p.text {
      FirstGroupLacksExisting(contexts, size);
      InitialPromptLacksAnswer(ctx, query);
    }
  }

  /** An initial prompt carries the context heading. */
  lemma InitialPromptHasContextHeading(contextText: string, query: string)
    ensures IsInfix(ContextHeading, InitialPrompt(Prompts, contextText, query))
  {
    var parts := InitialParts(Prompts, contextText, query);
    FlattenHasPieces(parts, 3);
    assert parts[3] == ContextHeading;
  }

  /** When no passage contains '既', neither does the context text of the first group. */
  lemma FirstGroupLacksExisting(contexts: seq<SearchResult>, size: nat)
    requires |contexts| > 0 && size > 0
    requires forall p :: p in contexts ==> '既' !in p.title && '既' !in p.url && '既' !in p.text
    ensures 0 < |Groups(contexts, size)|
    ensures '既' !in ContextText(Groups(contexts, size)[0])
  {
    FirstGroupIsPrefix(contexts, size);
    var g := Groups(contexts, size)[0];
    forall j | 0 <= j < |g| ensures '既' !in g[j].title && '既' !in g[j].url && '既' !in g[j].text {
      assert g[j] in contexts;
    }
    ContextTextLacksExisting(g);
  }

  /** Passage k * size + r of the contexts is passage r of group k. */
  lemma PassageInGroup(contexts: seq<SearchResult>, size: nat, k: nat, r: nat)
    requires r < size && k * size + r < |contexts|
    ensures k < |Groups(contexts, size)|
    ensures r < |Groups(contexts, size)[k]|
    ensures Groups(contexts, size)[k][r] == contexts[k * size + r]
  {
    CeilDivIsCeiling(|contexts|, size);
    var c := CeilDiv(|contexts|, size);
    assert k < c by {
      if k >= c {
        MulMonotone(c, k, size);
      }
    }
  }

  /** Passage k * size + r is shown to the model in the k-th call, and when the synthesis
      succeeds that call was made: every passage has been shown. */
  lemma PassageShown(query: string, contexts: seq<SearchResult>, size: nat, delay: real,
                     generate: (string, nat) -> Reply, run: Run, k: nat, r: nat)
    requires size > 0 && r < size && k * size + r < |contexts|
    requires run == Synthesis(query, contexts, size, delay, generate)
    ensures run.outcome.Success? ==> k < |run.calls|
    ensures k < |run.calls| ==> IsInfix(RenderSource(contexts[k * size + r]), run.calls[k].prompt)
  {
    PassageInGroup(contexts, size, k, r);
    SuccessCallsEveryGroup(query, contexts, size, delay, generate, run);
    if k < |run.calls| {
      SynthesisCallPrompt(query, contexts, size, delay, generate, run, k);
    }
  }

  lemma SuccessCallsEveryGroup(query: string, contexts: seq<SearchResult>, size: nat, delay: real,
                               generate: (string, nat) -> Reply, run: Run)
    requires |contexts| > 0 && size > 0
    requires run == Synthesis(query, contexts, size, delay, generate)
    ensures run.outcome.Success? ==> |run.calls| == |Groups(contexts, size)|
  {
    SynthesisTrace(query, contexts, size, delay, generate, run);
  }

  lemma MulMonotone(a: nat, b: nat, m: nat)
    requires a <= b
    ensures a * m <= b * m
  {
  }

  /** The call for the first group is made without waiting, and every later call after a wait of
      `delay`: a synthesis that succeeds waits once per group but the first. */
  lemma SynthesisCallWait(query: string, contexts: seq<SearchResult>, size: nat, delay: real,
                          generate: (string, nat) -> Reply, run: Run, k: nat)
    requires |contexts| > 0 && size > 0
    requires run == Synthesis(query, contexts, size, delay, generate)
    requires k < |run.calls|
    ensures run.calls[k].wait == (if k == 0 then None else Some(delay))
  {
    var gs := Groups(contexts, size);
    SynthesisTrace(query, contexts, size, delay, generate, run);
    if k == 0 {
      CallWaitAndReply(Prompts, query, gs[0], 0, "", delay, generate, 0, run.calls[0]);
    } else {
      CallWaitAndReply(Prompts, query, gs[k], k, run.calls[k - 1].reply.Output(), delay, generate,
                  Spent(run.calls[..k]), run.calls[k]);
    }
  }

  /** When the generator never fails, the synthesis succeeds with exactly one call per group. */
  lemma SynthesisNeverFails(query: string, contexts: seq<SearchResult>, size: nat, delay: real,
                            generate: (string, nat) -> Reply, run: Run)
    requires |contexts| > 0 && size > 0
    requires forall prompt, a :: generate(prompt, a).Generated?
    requires run == Synthesis(query, contexts, size, delay, generate)
    ensures run.outcome.Success? && |run.calls| == CeilDiv(|contexts|, size)
  {
    var gs := Groups(contexts, size);
    SynthesisTrace(query, contexts, size, delay, generate, run);
    var last := |run.calls| - 1;
    if last == 0 {
      CallWaitAndReply(Prompts, query, gs[0], 0, "", delay, generate, 0, run.calls[0]);
    } else {
      CallWaitAndReply(Prompts, query, gs[last], last, run.calls[last - 1].reply.Output(), delay, generate,
                  Spent(run.calls[..last]), run.calls[last]);
    }
  }

  /** Four passages in groups of three: two calls, the second after one wait, and the answer is
      the second call's reply. */
  lemma FourPassagesTwoCalls(query: string, contexts: seq<SearchResult>, delay: real,
                             generate: (string, nat) -> Reply, run: Run)
    requires |contexts| == 4
    requires forall prompt, a :: generate(prompt, a).Generated?
    requires run == Synthesis(query, contexts, 3, delay, generate)
    ensures |run.calls| == 2
    ensures run.calls[0].wait == None && run.calls[1].wait == Some(delay)
    ensures run.outcome == Success(run.calls[1].reply.Output())
  {
    SynthesisNeverFails(query, contexts, 3, delay, generate, run);
    assert CeilDiv(4, 3) == 2;
    SynthesisTrace(query, contexts, 3, delay, generate, run);
    SynthesisCallWait(query, contexts, 3, delay, generate, run, 0);
    SynthesisCallWait(query, contexts, 3, delay, generate, run, 1);
  }

  /** Four passages in groups of three: the first prompt shows passages 0 to 2 under the context
      heading, and has no existing-answer heading unless the question or a passage brings the
      character 既. */
  lemma FourPassagesFirstPrompt(query: string, contexts: seq<SearchResult>, delay: real,
                                generate: (string, nat) -> Reply, run: Run)
    requires |contexts| == 4
    requires forall prompt, a :: generate(prompt, a).Generated?
    requires run == Synthesis(query, contexts, 3, delay, generate)
    ensures 0 < |run.calls|
    ensures forall j :: 0 <= j < 3 ==> IsInfix(RenderSource(contexts[j]), run.calls[0].prompt)
    ensures IsInfix(ContextHeading, run.calls[0].prompt)
    ensures ('既' !in query && forall p :: p in contexts ==> '既' !in p.title && '既' !in p.url && '既' !in p.text) ==>
      !IsInfix(AnswerHeading, run.calls[0].prompt)
  {
    FirstPromptIsInitial(query, contexts, 3, delay, generate, run);
    SynthesisNeverFails(query, contexts, 3, delay, generate, run);
    forall j | 0 <= j < 3 ensures IsInfix(RenderSource(contexts[j]), run.calls[0].prompt) {
      PassageShown(query, contexts, 3, delay, generate, run, 0, j);
      assert 0 * 3 + j == j;
    }
  }

  /** Four passages in groups of three: the second prompt shows passage 3 and the first call's
      answer under the existing-answer heading. */
  lemma FourPassagesSecondPrompt(query: string, contexts: seq<SearchResult>, delay: real,
                                 generate: (string, nat) -> Reply, run: Run)
    requires |contexts| == 4
    requires forall prompt, a :: generate(prompt, a).Generated?
    requires run == Synthesis(query, contexts, 3, delay, generate)
    ensures |run.calls| == 2
    ensures IsInfix(RenderSource(contexts[3]), run.calls[1].prompt)
    ensures IsInfix(Prompts.answerHeading + run.calls[0].reply.Output(), run.calls[1].prompt)
  {
    SynthesisNeverFails(query, contexts, 3, delay, generate, run);
    assert CeilDiv(4, 3) == 2;
    SecondGroupShown(query, contexts, 3, delay, generate, run);
    SynthesisCallPrompt(query, contexts, 3, delay, generate, run, 1);
  }

  /** The second call's prompt shows the first passage of the second group. */
  lemma SecondGroupShown(query: string, contexts: seq<SearchResult>, size: nat, delay: real,
                         generate: (string, nat) -> Reply, run: Run)
    requires size > 0 && size < |contexts|
    requires run == Synthesis(query, contexts, size, delay, generate)
    requires 1 < |run.calls|
    ensures IsInfix(RenderSource(contexts[size]), run.calls[1].prompt)
  {
    assert 1 * size + 0 == size;
    PassageShown(query, contexts, size, delay, generate, run, 1, 0);
  }
}
