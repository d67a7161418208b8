/**
 * The repair step (`impl/RepairImpl.java`): a rule-based rewrite of a
 * candidate test, and one round of model-based repair that runs the test,
 * regenerates the prompt within the token budget, asks the chat model and
 * extracts new code from its answer.
 */
module Repairs {
  import opened Wrappers
  import opened JavaLang
  import opened Dto
  import opened Prompts

  /**
   * `RepairImpl`. The collaborators whose bodies are outside the model are
   * constant function values: `runTest` is `MethodRunner.runTest` (given the
   * full test name, the prompt info and the round), `askChat` is the chat
   * model (`None` for a null response), `extractCode` is
   * `extractCodeByResponse`, and the last three are the rule-based rewrites.
   */
  class RepairImpl {
    const pc: PromptConstructorImpl
    const runTest: (Option<string>, PromptInfoValue, int) -> bool
    const askChat: seq<Message> -> Option<string>
    const extractCode: string -> string
    const changeTestName: (string, Option<string>) -> string
    const repairPackage: (string, string) -> string
    const repairImports: (string, seq<string>) -> string
    var success: bool
    /** Every message list sent to the chat model, in order. */
    ghost var chatRequests: seq<seq<Message>>

    /** `new RepairImpl(config, promptConstructorImpl)`: not yet successful, nothing asked. */
    constructor (pc: PromptConstructorImpl,
                 runTest: (Option<string>, PromptInfoValue, int) -> bool,
                 askChat: seq<Message> -> Option<string>,
                 extractCode: string -> string,
                 changeTestName: (string, Option<string>) -> string,
                 repairPackage: (string, string) -> string,
                 repairImports: (string, seq<string>) -> string)
      ensures this.pc == pc && this.runTest == runTest && this.askChat == askChat && this.extractCode == extractCode
      ensures this.changeTestName == changeTestName && this.repairPackage == repairPackage && this.repairImports == repairImports
      ensures !success && chatRequests == []
    {
      this.pc := pc;
      this.runTest := runTest;
      this.askChat := askChat;
      this.extractCode := extractCode;
      this.changeTestName := changeTestName;
      this.repairPackage := repairPackage;
      this.repairImports := repairImports;
      success := false;
      chatRequests := [];
    }

    /**
     * `ruleBasedRepair(code)`: rename the test class, then fix the package
     * declaration, then the imports, in that order, from the constructor's
     * test name and the class under test. Without prompt info the package
     * lookup dereferences null.
     */
    function RuleBasedRepair(code: string): (r: Result<string, Exception>)
      reads pc
      ensures r.Failure? <==> pc.promptInfo == null
      ensures r.Failure? ==> r.error == NullPointer
      ensures r.Success? ==>
        var renamed := changeTestName(code, pc.testName);
        var packaged := repairPackage(renamed, pc.promptInfo.classInfo.packageName);
        r.value == repairImports(packaged, pc.promptInfo.classInfo.imports)
    {
      var renamed := changeTestName(code, pc.testName);
      if pc.promptInfo == null then Failure(NullPointer)
      else
        var classInfo := pc.promptInfo.classInfo;
        Success(repairImports(repairPackage(renamed, classInfo.packageName), classInfo.imports))
    }

    /**
     * What one chat exchange about `messages` yields: no answer throws;
     * otherwise the extracted code, or `code` again when nothing was
     * extracted. Either way a successful result is `code` or non-empty.
     */
    function Answer(code: string, messages: seq<Message>): (r: Result<string, Exception>)
      ensures r.Failure? <==> askChat(messages).None?
      ensures r.Failure? ==> r.error == NoResponse
      ensures r.Success? ==> r.value == code || r.value != ""
      ensures r.Success? && extractCode(askChat(messages).value) != "" ==> r.value == extractCode(askChat(messages).value)
      ensures askChat(messages).Some? && extractCode(askChat(messages).value) == "" ==> r == Success(code)
    {
      match askChat(messages)
      case None => Failure(NoResponse)
      case Some(response) =>
        var newCode := extractCode(response);
        if newCode == "" then Success(code) else Success(newCode)
    }

    /** `ChatGenerator.chat(config, messages)`: one request; a null response throws. */
    method Chat(messages: seq<Message>) returns (r: Result<string, Exception>)
      modifies this`chatRequests
      ensures chatRequests == old(chatRequests) + [messages]
      ensures r.Failure? <==> askChat(messages).None?
      ensures r.Failure? ==> r.error == NoResponse
      ensures r.Success? ==> Some(r.value) == askChat(messages)
    {
      chatRequests := chatRequests + [messages];
      var response := askChat(messages);
      if response.None? {
        return Failure(NoResponse);
      }
      return Success(response.value);
    }

    /**
     * The common tail of both `LLMBasedRepair` variants: regenerate the
     * prompt, give up with `code` over the token ceiling, otherwise ask the
     * chat model and keep the extracted code unless it is empty.
     */
    method RegenerateAndAsk(code: string) returns (r: Result<string, Exception>)
      requires pc.Valid() && pc.promptInfo != null
      modifies this`chatRequests, pc`messages, pc`tokenCount
      ensures pc.Valid()
      ensures
        var m := pc.generateMessages(pc.promptInfo.Snapshot());
        && pc.messages == Some(m)
        && pc.tokenCount == Accumulate(old(pc.tokenCount), m, pc.countToken)
        && (pc.IsExceedMaxTokens() ==> r == Success(code) && chatRequests == old(chatRequests))
        && (!pc.IsExceedMaxTokens() ==> chatRequests == old(chatRequests) + [m] && r == Answer(code, m))
    {
      var generated := pc.Generate();
      if pc.IsExceedMaxTokens() {
        return Success(code);
      }
      var response := Chat(pc.messages.value);
      if response.Failure? {
        return Failure(response.error);
      }
      var newCode := extractCode(response.value);
      if newCode == "" {
        return Success(code);
      }
      return Success(newCode);
    }

    /**
     * `LLMBasedRepair(code, rounds)`: stores `code` as the candidate test and
     * runs it; a passing test sets `success` and returns `code` with no new
     * prompt and no chat request; otherwise one regenerate-and-ask round.
     */
    method LLMBasedRepair(code: string, rounds: int) returns (r: Result<string, Exception>)
      requires pc.Valid()
      modifies this`success, this`chatRequests, pc`messages, pc`tokenCount, pc.promptInfo
      ensures pc.Valid()
      ensures old(pc.promptInfo) == null ==> r == Failure(NullPointer) && unchanged(this) && unchanged(pc)
      ensures old(pc.promptInfo) != null ==>
        var info := old(pc.promptInfo.Snapshot()).(unitTest := Some(code));
        var passed := runTest(old(pc.fullTestName), info, rounds);
        var m := pc.generateMessages(info);
        && pc.promptInfo.Snapshot() == info
        && success == (old(success) || passed)
        && (passed ==> r == Success(code) && unchanged(pc) && chatRequests == old(chatRequests))
        && (!passed ==> pc.messages == Some(m) && pc.tokenCount == Accumulate(old(pc.tokenCount), m, pc.countToken))
        && (!passed && pc.IsExceedMaxTokens() ==> r == Success(code) && chatRequests == old(chatRequests))
        && (!passed && !pc.IsExceedMaxTokens() ==> chatRequests == old(chatRequests) + [m] && r == Answer(code, m))
      ensures old(success) ==> success
      ensures r.Success? ==> r.value == code || r.value != ""
    {
      var info := pc.promptInfo;
      if info == null {
        return Failure(NullPointer);
      }
      info.SetUnitTest(code);
      if runTest(pc.fullTestName, info.Snapshot(), rounds) {
        success := true;
        return Success(code);
      }
      r := RegenerateAndAsk(code);
    }

    /**
     * `LLMBasedRepair(code)`: the same round with the test run as round 0,
     * except that a passing test only returns `code`: `success` is never set.
     */
    method LLMBasedRepairFirstRound(code: string) returns (r: Result<string, Exception>)
      requires pc.Valid()
      modifies this`chatRequests, pc`messages, pc`tokenCount, pc.promptInfo
      ensures pc.Valid()
      ensures old(pc.promptInfo) == null ==> r == Failure(NullPointer) && unchanged(this) && unchanged(pc)
      ensures old(pc.promptInfo) != null ==>
        var info := old(pc.promptInfo.Snapshot()).(unitTest := Some(code));
        var passed := runTest(old(pc.fullTestName), info, 0);
        var m := pc.generateMessages(info);
        && pc.promptInfo.Snapshot() == info
        && (passed ==> r == Success(code) && unchanged(pc) && chatRequests == old(chatRequests))
        && (!passed ==> pc.messages == Some(m) && pc.tokenCount == Accumulate(old(pc.tokenCount), m, pc.countToken))
        && (!passed && pc.IsExceedMaxTokens() ==> r == Success(code) && chatRequests == old(chatRequests))
        && (!passed && !pc.IsExceedMaxTokens() ==> chatRequests == old(chatRequests) + [m] && r == Answer(code, m))
      ensures success == old(success)
      ensures r.Success? ==> r.value == code || r.value != ""
    {
      var info := pc.promptInfo;
      if info == null {
        return Failure(NullPointer);
      }
      info.SetUnitTest(code);
      if runTest(pc.fullTestName, info.Snapshot(), 0) {
        return Success(code);
      }
      r := RegenerateAndAsk(code);
    }
  }
}
