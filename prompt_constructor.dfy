/**
 * The prompt constructor (`impl/PromptConstructorImpl.java`) and the part of
 * the per-job `PromptInfo` it touches: the current candidate test and the
 * fully-qualified test name. The constructor renders the prompt messages,
 * accumulates their token estimate into a Java `int` and compares it with the
 * configured ceiling.
 */
module Prompts {
  import opened Wrappers
  import opened JavaLang
  import opened Dto

  /** A value a Java `int` can hold. */
  predicate IsInt32(x: int)
  {
    -0x8000_0000 <= x < 0x8000_0000
  }

  /** Java `int` arithmetic: the mathematical value wrapped into the 32-bit range. */
  function Wrap32(x: int): (r: int)
    ensures IsInt32(r)
    ensures IsInt32(x) ==> r == x
  {
    ((x + 0x8000_0000) % 0x1_0000_0000) - 0x8000_0000
  }

  /** Adding a multiple of 2^32 does not change the wrapped value. */
  lemma Wrap32Shift(x: int, k: int)
    ensures Wrap32(x + k * 0x1_0000_0000) == Wrap32(x)
  {
    var q := (x + 0x8000_0000) / 0x1_0000_0000;
    var m := (x + 0x8000_0000) % 0x1_0000_0000;
    assert x + 0x8000_0000 + k * 0x1_0000_0000 == (q + k) * 0x1_0000_0000 + m;
    ModOfDecomposition(x + 0x8000_0000 + k * 0x1_0000_0000, q + k, m);
  }

  /** Euclidean remainder by 2^32, read off a decomposition. */
  lemma ModOfDecomposition(a: int, q: int, m: int)
    requires 0 <= m < 0x1_0000_0000 && a == q * 0x1_0000_0000 + m
    ensures a % 0x1_0000_0000 == m
  {
  }

  /** Wrapping an intermediate sum changes nothing: `int` addition is addition modulo 2^32. */
  lemma Wrap32Absorb(a: int, b: int)
    ensures Wrap32(Wrap32(a) + b) == Wrap32(a + b)
  {
    var q := (a + 0x8000_0000) / 0x1_0000_0000;
    assert Wrap32(a) == a - q * 0x1_0000_0000;
    Wrap32Shift(a + b, -q);
    assert a + b + (-q) * 0x1_0000_0000 == Wrap32(a) + b;
  }

  /** `TokenCounter.countToken` summed over the contents of `messages`, without wrapping. */
  function SumTokens(messages: seq<Message>, countToken: string -> nat): (r: nat)
    ensures messages == [] ==> r == 0
  {
    if messages == [] then 0
    else SumTokens(messages[..|messages| - 1], countToken) + countToken(messages[|messages| - 1].content)
  }

  /** The sum over two lists is the sum of the sums. */
  lemma {:induction false} SumTokensAppend(a: seq<Message>, b: seq<Message>, countToken: string -> nat)
    ensures SumTokens(a + b, countToken) == SumTokens(a, countToken) + SumTokens(b, countToken)
    decreases |b|
  {
    if b == [] {
      assert a + b == a;
    } else {
      var b' := b[..|b| - 1];
      SumTokensAppend(a, b', countToken);
      assert (a + b)[..|a + b| - 1] == a + b';
      assert (a + b)[|a + b| - 1] == b[|b| - 1];
    }
  }

  /**
   * What the loop of `countToken` leaves in `tokenCount` when it starts at
   * `start`: each message's count added in turn with `int` wrap-around. `CountToken` computes it in place.
   */
  function Accumulate(start: int, messages: seq<Message>, countToken: string -> nat): (r: int)
    ensures messages == [] ==> r == start
    ensures IsInt32(start) ==> IsInt32(r)
  {
    if messages == [] then start
    else Wrap32(Accumulate(start, messages[..|messages| - 1], countToken) + countToken(messages[|messages| - 1].content))
  }

  /** Adding the counts one by one is adding their sum once, modulo 2^32. */
  lemma {:induction false} AccumulateIsWrappedSum(start: int, messages: seq<Message>, countToken: string -> nat)
    requires IsInt32(start)
    ensures Accumulate(start, messages, countToken) == Wrap32(start + SumTokens(messages, countToken))
    decreases |messages|
  {
    if messages != [] {
      var init := messages[..|messages| - 1];
      AccumulateIsWrappedSum(start, init, countToken);
      Wrap32Absorb(start + SumTokens(init, countToken), countToken(messages[|messages| - 1].content));
    }
  }

  /**
   * While the total stays within `int`, the counter is its old value plus the
   * sum of the per-message counts, so it never decreases and a count over
   * the ceiling stays over it.
   */
  lemma AccumulateWithoutOverflow(start: int, messages: seq<Message>, countToken: string -> nat, maxPromptTokens: int)
    requires IsInt32(start) && start + SumTokens(messages, countToken) < 0x8000_0000
    ensures Accumulate(start, messages, countToken) == start + SumTokens(messages, countToken)
    ensures Accumulate(start, messages, countToken) >= start
    ensures start > maxPromptTokens ==> Accumulate(start, messages, countToken) > maxPromptTokens
  {
    AccumulateIsWrappedSum(start, messages, countToken);
  }

  /** Running the loop over two lists in turn is running it over their concatenation. */
  lemma {:induction false} AccumulateAppend(start: int, a: seq<Message>, b: seq<Message>, countToken: string -> nat)
    ensures Accumulate(Accumulate(start, a, countToken), b, countToken) == Accumulate(start, a + b, countToken)
    decreases |b|
  {
    if b == [] {
      assert a + b == a;
    } else {
      var b' := b[..|b| - 1];
      AccumulateAppend(start, a, b', countToken);
      assert (a + b)[..|a + b| - 1] == a + b';
      assert (a + b)[|a + b| - 1] == b[|b| - 1];
    }
  }

  /** Two successive generations add the total of both message lists: the counter is never reset. */
  lemma AccumulateTwice(start: int, first: seq<Message>, second: seq<Message>, countToken: string -> nat)
    requires IsInt32(start)
    ensures Accumulate(Accumulate(start, first, countToken), second, countToken)
            == Wrap32(start + SumTokens(first + second, countToken))
  {
    AccumulateAppend(start, first, second, countToken);
    AccumulateIsWrappedSum(start, first + second, countToken);
  }

  /** A snapshot of a `PromptInfo`, the input of the prompt generator and of the test runner. */
  datatype PromptInfoValue = PromptInfoValue(
    classInfo: ClassInfo,
    methodName: string,
    unitTest: Option<string>,
    fullTestName: Option<string>)

  /** The per-job prompt context; the repair loop rewrites its candidate test. */
  class PromptInfo {
    const classInfo: ClassInfo
    /** `methodInfo.methodName`. */
    const methodName: string
    var unitTest: Option<string>
    var fullTestName: Option<string>

    constructor (classInfo: ClassInfo, methodName: string)
      ensures this.classInfo == classInfo && this.methodName == methodName
      ensures unitTest == None && fullTestName == None
    {
      this.classInfo := classInfo;
      this.methodName := methodName;
      unitTest := None;
      fullTestName := None;
    }

    function Snapshot(): PromptInfoValue
      reads this
    {
      PromptInfoValue(classInfo, methodName, unitTest, fullTestName)
    }

    /** `setUnitTest(code)`. */
    method SetUnitTest(code: string)
      modifies this
      ensures Snapshot() == old(Snapshot()).(unitTest := Some(code))
    {
      unitTest := Some(code);
    }

    /** `setFullTestName(name)`. */
    method SetFullTestName(name: string)
      modifies this
      ensures Snapshot() == old(Snapshot()).(fullTestName := Some(name))
    {
      fullTestName := Some(name);
    }
  }

  /**
   * `PromptConstructorImpl`. `maxPromptTokens` is the configured ceiling,
   * `generateMessages` stands for `new PromptGenerator(config).generateMessages`
   * and `countToken` for `TokenCounter.countToken`.
   */
  class PromptConstructorImpl {
    const maxPromptTokens: int
    const generateMessages: PromptInfoValue -> seq<Message>
    const countToken: string -> nat
    var promptInfo: PromptInfo?
    var messages: Option<seq<Message>>
    var tokenCount: int
    var testName: Option<string>
    var fullTestName: Option<string>

    /** `new PromptConstructorImpl(config)`: no prompt info, no messages, a zero count. */
    constructor (maxPromptTokens: int, generateMessages: PromptInfoValue -> seq<Message>, countToken: string -> nat)
      ensures this.maxPromptTokens == maxPromptTokens
      ensures this.generateMessages == generateMessages && this.countToken == countToken
      ensures promptInfo == null && messages == None && tokenCount == 0
      ensures testName == None && fullTestName == None
    {
      this.maxPromptTokens := maxPromptTokens;
      this.generateMessages := generateMessages;
      this.countToken := countToken;
      promptInfo := null;
      messages := None;
      tokenCount := 0;
      testName := None;
      fullTestName := None;
    }

    /** The counter holds a Java `int`. */
    ghost predicate Valid()
      reads this
    {
      IsInt32(tokenCount)
    }

    /** The Lombok setter `setPromptInfo`, the way a job installs its prompt info. */
    method SetPromptInfo(info: PromptInfo?)
      modifies this`promptInfo
      ensures promptInfo == info
    {
      promptInfo := info;
    }

    /**
     * `generate()`: without prompt info it throws and changes nothing;
     * otherwise it stores the freshly generated messages and adds their
     * token counts to the running total.
     */
    method Generate() returns (r: Result<seq<Message>, Exception>)
      requires Valid()
      modifies this`messages, this`tokenCount
      ensures Valid()
      ensures old(promptInfo) == null ==> r == Failure(PromptInfoNotInitialized) && unchanged(this)
      ensures old(promptInfo) != null ==>
        var m := generateMessages(promptInfo.Snapshot());
        && r == Success(m)
        && messages == Some(m)
        && tokenCount == Accumulate(old(tokenCount), m, countToken)
        && tokenCount == Wrap32(old(tokenCount) + SumTokens(m, countToken))
    {
      if promptInfo == null {
        return Failure(PromptInfoNotInitialized);
      }
      var m := generateMessages(promptInfo.Snapshot());
      messages := Some(m);
      var outcome := CountToken();
      AccumulateIsWrappedSum(old(tokenCount), m, countToken);
      return Success(m);
    }

    /**
     * `countToken()`: adds the count of every message's content to
     * `tokenCount`, one message at a time; a null message list throws.
     */
    method CountToken() returns (outcome: Outcome)
      requires Valid()
      modifies this`tokenCount
      ensures Valid()
      ensures old(messages).None? ==> outcome == Threw(NullPointer) && tokenCount == old(tokenCount)
      ensures old(messages).Some? ==> outcome == Returned && tokenCount == Accumulate(old(tokenCount), messages.value, countToken)
    {
      if messages.None? {
        return Threw(NullPointer);
      }
      var ms := messages.value;
      for i := 0 to |ms|
        invariant tokenCount == Accumulate(old(tokenCount), ms[..i], countToken)
        invariant IsInt32(tokenCount)
      {
        assert ms[..i + 1][..i] == ms[..i];
        tokenCount := Wrap32(tokenCount + countToken(ms[i].content));
      }
      assert ms[..|ms|] == ms;
      return Returned;
    }

    /** `isExceedMaxTokens()`: strictly over the ceiling; reaching it exactly is not exceeding. */
    predicate IsExceedMaxTokens(): (r: bool)
      reads this
      ensures r <==> tokenCount > maxPromptTokens
      ensures tokenCount == maxPromptTokens ==> !r
    {
      tokenCount > maxPromptTokens
    }

    /**
     * `setFullTestName(f)`: records `f`, takes the simple test name after the
     * last `.`, and hands `f` to the prompt info, which throws when there is none.
     */
    method SetFullTestName(f: string) returns (outcome: Outcome)
      modifies this`fullTestName, this`testName, promptInfo
      ensures fullTestName == Some(f)
      ensures testName == Some(AfterLast(f, '.'))
      ensures '.' !in f ==> testName == Some(f)
      ensures old(promptInfo) == null ==> outcome == Threw(NullPointer)
      ensures promptInfo == old(promptInfo)
      ensures old(promptInfo) != null ==> outcome == Returned && old(promptInfo).Snapshot() == old(promptInfo.Snapshot()).(fullTestName := Some(f))
    {
      var simple := AfterLast(f, '.');
      fullTestName := Some(f);
      testName := Some(simple);
      var info := promptInfo;
      if info == null {
        return Threw(NullPointer);
      }
      info.SetFullTestName(f);
      return Returned;
    }

    /** `setTestName(t)`: only the simple name changes. */
    method SetTestName(t: string)
      modifies this`testName
      ensures testName == Some(t)
    {
      testName := Some(t);
    }
  }

  /** The simple test name of a qualified name `pkg.Name` is `Name`. */
  lemma SimpleTestName(pkg: string, name: string)
    requires '.' !in name
    ensures AfterLast(pkg + "." + name, '.') == name
  {
    assert pkg + "." + name == pkg + ['.'] + name;
    AfterLastOfJoin(pkg, '.', name);
  }
}
