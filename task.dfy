/**
 * The task orchestrator (`api/Task.java`): resolves the class named on the
 * command line, selects methods by id or by name, walks the project's source
 * paths, and hands each selected class or method to the runner. The runner,
 * the parser and the files the task reads are given as an environment value,
 * and what the task logs or asks the runner to do is returned as a list of
 * events.
 */
module Tasks {
  import opened Wrappers
  import opened JavaLang
  import opened Dto

  /**
   * What the task reads. `classMap` is the simple-name -> qualified-names
   * index (`None` when its file cannot be read); `classInfos` is what
   * `AbstractRunner.getClassInfo` finds (an absent name is an IOException);
   * `getMethodInfo` answers null for the signatures in `missingMethodInfo`;
   * `runMethod` throws for the pairs in `failingMethods` and `runClass` for
   * the names in `failingClasses`; `testable` is `Counter.filter`;
   * `classPaths` is `ProjectParser.scanSourceDirectory`.
   */
  datatype Env = Env(
    packaging: string,
    buildPathExists: bool,
    classMap: Option<map<string, seq<string>>>,
    classInfos: map<string, ClassInfo>,
    missingMethodInfo: set<string>,
    failingMethods: set<(string, string)>,
    failingClasses: set<string>,
    testable: ClassInfo -> bool,
    classPaths: seq<string>,
    multithreading: bool)

  /** What the task logs, and the runner calls it makes, in order. */
  datatype Event =
    | CheckFailed                                      // "The project is not compiled to the target directory"
    | SkipPom                                          // "Skip pom-packaging ..."
    | Parsed                                           // `new ProjectParser(config).parse()`
    | Generating(className: string)                    // "Generating tests for class < ... >"
    | RunMethod(fullClassName: string, signature: string)
    | RunMethodFailed(signature: string)               // an exception out of `runMethod`, logged
    | MethodNotFound                                   // "Method not found: ..."
    | RunClass(fullClassName: string)
    | ClassNotFound(className: string)                 // "Class not found: ..."
    | SkipClass(classPath: string)                     // "Skip class: ..."
    | ClassFailed(className: string)                   // "Generate tests for class ... failed"
    | ProjectJob(classPaths: seq<string>)              // the classes handed to the worker pool
    | Finished                                         // "Generation finished"

  /** How a selection loop ended: ran to the end, hit "not found", or let an exception escape. */
  datatype Flow = Done | NotFound | Escape(exception: Exception)

  /** `isFullName(name)`: the name is qualified. */
  function IsFullName(name: string): (r: bool)
    ensures r <==> '.' in name
  {
    ContainsChar(name, '.');
    Contains(name, ".")
  }

  /**
   * `getFullClassName(config, name)`: a qualified name is returned as it is;
   * a simple name is looked up in the class map: several candidates are
   * ambiguous, an empty list fails at `get(0)`, one candidate is the answer
   * and an unknown name is returned as it is.
   */
  function GetFullClassName(name: string, classMap: Option<map<string, seq<string>>>): (r: Result<string, Exception>)
    ensures IsFullName(name) ==> r == Success(name)
    ensures !IsFullName(name) && classMap.None? ==> r == Failure(IOFailure)
    ensures r.Success? ==> r.value == name || (classMap.Some? && name in classMap.value && classMap.value[name] == [r.value])
    ensures r.Failure? && r.error.AmbiguousClassName? <==>
              !IsFullName(name) && classMap.Some? && name in classMap.value && |classMap.value[name]| > 1
    ensures r == Failure(IndexOutOfBounds) <==>
              !IsFullName(name) && classMap.Some? && name in classMap.value && classMap.value[name] == []
    ensures !IsFullName(name) && classMap.Some? && name in classMap.value && |classMap.value[name]| == 1 ==>
              r == Success(classMap.value[name][0])
    ensures !IsFullName(name) && classMap.Some? && name !in classMap.value ==> r == Success(name)
  {
    if IsFullName(name) then Success(name)
    else if classMap.None? then Failure(IOFailure)
    else if name in classMap.value then
      var candidates := classMap.value[name];
      if |candidates| > 1 then Failure(AmbiguousClassName(name, candidates))
      else if |candidates| == 0 then Failure(IndexOutOfBounds)
      else Success(candidates[0])
    else Success(name)
  }

  /** An ambiguous simple name is never resolved to any of its candidates. */
  lemma AmbiguousNeverGuessed(name: string, classMap: map<string, seq<string>>)
    requires '.' !in name && name in classMap && |classMap[name]| > 1
    ensures GetFullClassName(name, Some(classMap)) == Failure(AmbiguousClassName(name, classMap[name]))
    ensures forall c :: c in classMap[name] ==> GetFullClassName(name, Some(classMap)) != Success(c)
  {
  }

  /**
   * Resolution succeeds exactly for a qualified name, or for a simple name
   * when the map is readable and holds no entry or a single candidate for it.
   */
  lemma GetFullClassNameSucceeds(name: string, classMap: Option<map<string, seq<string>>>)
    ensures GetFullClassName(name, classMap).Success? <==>
              '.' in name || (classMap.Some? && (name !in classMap.value || |classMap.value[name]| == 1))
  {
  }

  /** Resolving a qualified result again gives it back, without reading the map. */
  lemma ResolvedNameIsStable(name: string, classMap: Option<map<string, seq<string>>>)
    requires GetFullClassName(name, classMap).Success?
    requires '.' in GetFullClassName(name, classMap).value
    ensures GetFullClassName(GetFullClassName(name, classMap).value, None) == GetFullClassName(name, classMap)
  {
  }

  /** `checkTargetFolder(project)` does not throw: a `pom` project, or one whose build path exists. */
  function CheckTargetFolder(env: Env): (r: bool)
    ensures env.packaging == "pom" ==> r
    ensures env.packaging != "pom" ==> (r <==> env.buildPathExists)
  {
    env.packaging == "pom" || env.buildPathExists
  }

  /** `s.matches("\\d+")`: one or more ASCII digits. */
  function IsDigits(s: string): (r: bool)
    ensures r <==> |s| > 0 && forall i :: 0 <= i < |s| ==> '0' <= s[i] <= '9'
  {
    |s| > 0 && ('0' <= s[0] <= '9') && (|s| == 1 || IsDigits(s[1..]))
  }

  /** There is a dot after the last separator exactly when the last dot comes after the last separator. */
  lemma DotAfterLastSeparator(classPath: string)
    ensures '.' in AfterLast(classPath, '/') <==> LastIndexOf(classPath, '/') < LastIndexOf(classPath, '.')
  {
    var b, e := LastIndexOf(classPath, '/'), LastIndexOf(classPath, '.');
    var tail := AfterLast(classPath, '/');
    assert tail == classPath[b + 1..];
    if b < e {
      assert tail[e - b - 1] == classPath[e] == '.';
    }
    forall m | e < m < |classPath| ensures classPath[m] != '.' {
      assert classPath[m] in classPath[e + 1..];
    }
    if '.' in tail {
      var j :| 0 <= j < |tail| && tail[j] == '.';
      assert classPath[b + 1 + j] == '.';
    }
  }

  /**
   * `classPath.substring(classPath.lastIndexOf(File.separator) + 1,
   * classPath.lastIndexOf("."))`, with `/` as the separator: the text between
   * the last separator and the last dot. Without a dot after the last
   * separator the bounds are reversed and `substring` throws.
   */
  function ClassNameOf(classPath: string): (r: Result<string, Exception>)
    ensures r.Failure? ==> r.error == IndexOutOfBounds
    ensures r.Success? ==> '/' !in r.value && |r.value| < |classPath|
  {
    var begin := LastIndexOf(classPath, '/') + 1;
    var end := LastIndexOf(classPath, '.');
    if end < begin then Failure(IndexOutOfBounds)
    else
      var name := classPath[begin..end];
      assert forall i :: 0 <= i < |name| ==> name[i] == classPath[begin..][i];
      Success(name)
  }

  /** The class name is missing exactly when no dot follows the last separator. */
  lemma ClassNameOfFails(classPath: string)
    ensures ClassNameOf(classPath).Failure? <==> '.' !in AfterLast(classPath, '/')
  {
    DotAfterLastSeparator(classPath);
  }

  /** A source path `dir/Name.ext` names the class `Name`. */
  lemma ClassNameOfSourcePath(dir: string, name: string, ext: string)
    requires '/' !in name && '.' !in name && '/' !in ext && '.' !in ext
    ensures ClassNameOf(dir + "/" + name + "." + ext) == Success(name)
  {
    var path := dir + "/" + name + "." + ext;
    var slash, dot := |dir|, |dir| + 1 + |name|;
    assert path[slash] == '/' && path[dot] == '.';
    assert path[slash + 1..] == name + "." + ext;
    assert path[dot + 1..] == ext;
    LastIndexOfUnique(path, '/', slash);
    LastIndexOfUnique(path, '.', dot);
    assert path[slash + 1..dot] == name;
  }

  /**
   * `mSig.split("\\(")[0]`: the method name part of a signature. A signature
   * made only of `(` leaves `split` with no piece and the index throws.
   */
  function SigHead(signature: string): (r: Result<string, Exception>)
    ensures r.Failure? <==> signature != "" && AllChar(signature, '(')
    ensures r.Failure? ==> r.error == IndexOutOfBounds
    ensures r.Success? ==> r.value == BeforeFirst(signature, '(')
  {
    var parts := Split(signature, '(');
    if parts == [] then Failure(IndexOutOfBounds) else Success(parts[0])
  }

  /** The head of `name(params)` is `name`. */
  lemma SigHeadOfSignature(name: string, params: string)
    requires name != "" && '(' !in name
    ensures SigHead(name + "(" + params) == Success(name)
  {
    var signature := name + "(" + params;
    assert signature == name + ['('] + params;
    assert signature[0] == name[0] != '(';
    BeforeFirstOfJoin(name, '(', params);
  }

  /** The first position whose id is `id`, if any; `FindMethodById` computes it with the source's loop. */
  function FirstWithId(sigs: seq<(string, string)>, id: string): (r: Option<nat>)
    ensures r.Some? ==> r.value < |sigs| && sigs[r.value].1 == id && forall j :: 0 <= j < r.value ==> sigs[j].1 != id
    ensures r.None? <==> forall j :: 0 <= j < |sigs| ==> sigs[j].1 != id
  {
    if sigs == [] then None
    else if sigs[0].1 == id then Some(0)
    else
      var rest := FirstWithId(sigs[1..], id);
      assert forall j :: 1 <= j < |sigs| ==> sigs[j] == sigs[1..][j - 1];
      if rest.None? then None else Some(rest.value + 1)
  }

  /** The id loop of `startMethodTask`: stops at the first signature whose id matches. */
  method FindMethodById(sigs: seq<(string, string)>, id: string) returns (k: Option<nat>)
    ensures k == FirstWithId(sigs, id)
  {
    k := None;
    var i := 0;
    while i < |sigs|
      invariant 0 <= i <= |sigs|
      invariant forall j :: 0 <= j < i ==> sigs[j].1 != id
    {
      if sigs[i].1 == id {
        k := Some(i);
        break;
      }
      i := i + 1;
    }
  }

  /** One `runMethod` call, and its logged failure when the runner throws. */
  function RunOnce(fullClassName: string, signature: string, env: Env): (r: seq<Event>)
    ensures |r| == (if (fullClassName, signature) in env.failingMethods then 2 else 1)
    ensures r[0] == RunMethod(fullClassName, signature)
    ensures |r| == 2 ==> r[1] == RunMethodFailed(signature)
  {
    [RunMethod(fullClassName, signature)] + if (fullClassName, signature) in env.failingMethods then [RunMethodFailed(signature)] else []
  }

  /**
   * The passes of a selection loop, run in order: the events of each pass
   * are appended until a pass ends in something other than `Done`, which
   * ends the loop.
   */
  function Chain(passes: seq<(seq<Event>, Flow)>): (seq<Event>, Flow)
  {
    if passes == [] then ([], Done)
    else
      var prev := Chain(passes[..|passes| - 1]);
      if prev.1 != Done then prev
      else (prev.0 + passes[|passes| - 1].0, passes[|passes| - 1].1)
  }

  /** One more pass after a prefix that ran to its end. */
  lemma ChainStep(passes: seq<(seq<Event>, Flow)>, i: nat)
    requires i < |passes| && Chain(passes[..i]).1 == Done
    ensures Chain(passes[..i + 1]) == (Chain(passes[..i]).0 + passes[i].0, passes[i].1)
  {
    assert passes[..i + 1][..i] == passes[..i];
  }

  /** Once a prefix has stopped, the later passes change nothing. */
  lemma {:induction false} ChainStops(passes: seq<(seq<Event>, Flow)>, i: nat)
    requires i <= |passes| && Chain(passes[..i]).1 != Done
    ensures Chain(passes) == Chain(passes[..i])
    decreases |passes| - i
  {
    if i < |passes| {
      assert passes[..|passes| - 1][..i] == passes[..i];
      ChainStops(passes[..|passes| - 1], i);
    } else {
      assert passes[..i] == passes;
    }
  }

  /** The loop runs to its end exactly when every pass does. */
  lemma {:induction false} ChainDone(passes: seq<(seq<Event>, Flow)>)
    ensures Chain(passes).1 == Done <==> forall i :: 0 <= i < |passes| ==> passes[i].1 == Done
    decreases |passes|
  {
    if passes != [] {
      var init := passes[..|passes| - 1];
      ChainDone(init);
      if Chain(init).1 == Done {
        assert forall i :: 0 <= i < |init| ==> init[i] == passes[i];
      } else {
        var j :| 0 <= j < |init| && init[j].1 != Done;
        assert passes[j] == init[j];
      }
    }
  }

  /** Every event of the loop comes from one of its passes. */
  lemma {:induction false} ChainEventsFromPasses(passes: seq<(seq<Event>, Flow)>, e: Event)
    requires e in Chain(passes).0
    ensures exists i :: 0 <= i < |passes| && e in passes[i].0
    decreases |passes|
  {
    var init := passes[..|passes| - 1];
    var prev := Chain(init);
    if e in prev.0 {
      ChainEventsFromPasses(init, e);
      var i :| 0 <= i < |init| && e in init[i].0;
      assert passes[i] == init[i];
    }
  }

  /** When the loop runs to its end, every event of every pass is among its events. */
  lemma {:induction false} ChainKeepsEvents(passes: seq<(seq<Event>, Flow)>, i: nat, e: Event)
    requires Chain(passes).1 == Done && i < |passes| && e in passes[i].0
    ensures e in Chain(passes).0
    decreases |passes|
  {
    var init := passes[..|passes| - 1];
    if Chain(init).1 == Done && i < |passes| - 1 {
      assert init[i] == passes[i];
      ChainKeepsEvents(init, i, e);
    }
  }

  /** One pass of the name loop: skip another method, stop on a null method info, or run the overload; `RunOverload` is its imperative form. */
  function OverloadStep(fullClassName: string, signature: string, name: string, env: Env): (seq<Event>, Flow)
  {
    match SigHead(signature)
    case Failure(e) => ([], Escape(e))
    case Success(head) =>
      if head != name then ([], Done)
      else if signature in env.missingMethodInfo then ([], NotFound)
      else (RunOnce(fullClassName, signature, env), Done)
  }

  /** The passes of the name loop over `sigs`. */
  function OverloadPasses(fullClassName: string, sigs: seq<(string, string)>, name: string, env: Env): (r: seq<(seq<Event>, Flow)>)
    ensures |r| == |sigs|
    ensures forall i :: 0 <= i < |sigs| ==> r[i] == OverloadStep(fullClassName, sigs[i].0, name, env)
  {
    seq(|sigs|, i requires 0 <= i < |sigs| => OverloadStep(fullClassName, sigs[i].0, name, env))
  }

  /**
   * The body of the name loop for one signature: skip another method, stop
   * on a null method info, otherwise call `runMethod`; an exception from the
   * runner is logged and the loop goes on.
   */
  method RunOverload(fullClassName: string, signature: string, name: string, env: Env) returns (events: seq<Event>, flow: Flow)
    ensures (events, flow) == OverloadStep(fullClassName, signature, name, env)
  {
    var head := SigHead(signature);
    if head.Failure? {
      return [], Escape(head.error);
    }
    if head.value != name {
      return [], Done;
    }
    if signature in env.missingMethodInfo {
      return [], NotFound;
    }
    events := [RunMethod(fullClassName, signature)];
    if (fullClassName, signature) in env.failingMethods {
      events := events + [RunMethodFailed(signature)];
    }
    assert events == RunOnce(fullClassName, signature, env);
    flow := Done;
  }

  /** The name loop: every signature whose head is `name` is run, in order. */
  method RunOverloads(fullClassName: string, sigs: seq<(string, string)>, name: string, env: Env) returns (events: seq<Event>, flow: Flow)
    ensures (events, flow) == Chain(OverloadPasses(fullClassName, sigs, name, env))
  {
    ghost var passes := OverloadPasses(fullClassName, sigs, name, env);
    events := [];
    for i := 0 to |sigs|
      invariant (events, Done) == Chain(passes[..i])
    {
      ChainStep(passes, i);
      assert passes[i] == OverloadStep(fullClassName, sigs[i].0, name, env);
      var stepEvents, stepFlow := RunOverload(fullClassName, sigs[i].0, name, env);
      events := events + stepEvents;
      if stepFlow != Done {
        ChainStops(passes, i + 1);
        return events, stepFlow;
      }
    }
    assert passes[..|sigs|] == passes;
    flow := Done;
  }

  /** The signatures the runner is asked for, in order. */
  function Runs(events: seq<Event>): (r: seq<string>)
    ensures |r| <= |events|
    ensures (forall i :: 0 <= i < |events| ==> !events[i].RunMethod?) ==> r == []
  {
    if events == [] then []
    else Runs(events[..|events| - 1]) + if events[|events| - 1].RunMethod? then [events[|events| - 1].signature] else []
  }

  lemma {:induction false} RunsAppend(a: seq<Event>, b: seq<Event>)
    ensures Runs(a + b) == Runs(a) + Runs(b)
    decreases |b|
  {
    if b == [] {
      assert a + b == a;
    } else {
      var init, last := b[..|b| - 1], b[|b| - 1];
      var ab := a + b;
      assert ab[..|ab| - 1] == a + init && ab[|ab| - 1] == last;
      RunsAppend(a, init);
      var tail := if last.RunMethod? then [last.signature] else [];
      assert Runs(ab) == Runs(a + init) + tail;
      assert Runs(b) == Runs(init) + tail;
    }
  }

  /** A single `runMethod` call asks for its one signature. */
  lemma RunsOfRunOnce(fullClassName: string, signature: string, env: Env)
    ensures Runs(RunOnce(fullClassName, signature, env)) == [signature]
  {
    var once := RunOnce(fullClassName, signature, env);
    var first := [RunMethod(fullClassName, signature)];
    assert once == first + once[1..];
    RunsAppend(first, once[1..]);
    assert first[..0] == [];
  }

  /** The signatures, in order, whose head is `name`. */
  function Matching(sigs: seq<(string, string)>, name: string): (r: seq<string>)
    ensures |r| <= |sigs|
  {
    if sigs == [] then []
    else Matching(sigs[..|sigs| - 1], name) + if SigHead(sigs[|sigs| - 1].0) == Success(name) then [sigs[|sigs| - 1].0] else []
  }

  /** `Matching` holds exactly the signatures whose head is the name. */
  lemma {:induction false} MatchingMembers(sigs: seq<(string, string)>, name: string, s: string)
    ensures s in Matching(sigs, name) <==> SigHead(s) == Success(name) && exists i :: 0 <= i < |sigs| && sigs[i].0 == s
    decreases |sigs|
  {
    if sigs != [] {
      var n := |sigs| - 1;
      var init, last := sigs[..n], sigs[n].0;
      assert Matching(sigs, name) == Matching(init, name) + if SigHead(last) == Success(name) then [last] else [];
      MatchingMembers(init, name, s);
      SignatureInInit(sigs, init, s);
    }
  }

  /** A signature occurs in a non-empty list exactly when it occurs in all but the last entry or is the last one. */
  lemma SignatureInInit(sigs: seq<(string, string)>, init: seq<(string, string)>, s: string)
    requires sigs != [] && init == sigs[..|sigs| - 1]
    ensures (exists i :: 0 <= i < |sigs| && sigs[i].0 == s) <==>
            (exists i :: 0 <= i < |init| && init[i].0 == s) || sigs[|sigs| - 1].0 == s
  {
    if exists i :: 0 <= i < |sigs| && sigs[i].0 == s {
      var i :| 0 <= i < |sigs| && sigs[i].0 == s;
      if i < |init| {
        assert init[i] == sigs[i];
      }
    }
    if exists i :: 0 <= i < |init| && init[i].0 == s {
      var i :| 0 <= i < |init| && init[i].0 == s;
      assert sigs[i] == init[i];
    }
  }

  /** No signature's head throws and every matching signature has method info. */
  ghost predicate CleanOverloads(sigs: seq<(string, string)>, name: string, env: Env)
  {
    forall i :: 0 <= i < |sigs| ==> SigHead(sigs[i].0).Success? && (SigHead(sigs[i].0) == Success(name) ==> sigs[i].0 !in env.missingMethodInfo)
  }

  /**
   * Over well-formed signatures the name loop runs to the end and asks the
   * runner for exactly the matching overloads, in order, whatever the
   * runner does with each.
   */
  lemma {:induction false} OverloadsRunMatching(fullClassName: string, sigs: seq<(string, string)>, name: string, env: Env)
    requires CleanOverloads(sigs, name, env)
    ensures Chain(OverloadPasses(fullClassName, sigs, name, env)).1 == Done
    ensures Runs(Chain(OverloadPasses(fullClassName, sigs, name, env)).0) == Matching(sigs, name)
    decreases |sigs|
  {
    if sigs != [] {
      var n := |sigs| - 1;
      var init, last := sigs[..n], sigs[n].0;
      var passes := OverloadPasses(fullClassName, sigs, name, env);
      CleanOverloadsPrefix(sigs, name, env, n);
      assert passes[..n] == OverloadPasses(fullClassName, init, name, env);
      OverloadsRunMatching(fullClassName, init, name, env);
      var prev := Chain(passes[..n]);
      var step := OverloadStep(fullClassName, last, name, env);
      assert passes[n] == step;
      ChainStep(passes, n);
      assert passes[..n + 1] == passes;
      RunsAppend(prev.0, step.0);
      OverloadStepRuns(fullClassName, last, name, env);
    }
  }

  /** A prefix of well-formed signatures is well-formed, and so is each signature on its own. */
  lemma CleanOverloadsPrefix(sigs: seq<(string, string)>, name: string, env: Env, n: nat)
    requires CleanOverloads(sigs, name, env) && n < |sigs|
    ensures CleanOverloads(sigs[..n], name, env)
    ensures SigHead(sigs[n].0).Success? && (SigHead(sigs[n].0) == Success(name) ==> sigs[n].0 !in env.missingMethodInfo)
  {
    forall i | 0 <= i < n ensures sigs[..n][i] == sigs[i] { }
  }

  /** A pass over a well-formed signature goes on, and runs the signature exactly when it matches. */
  lemma OverloadStepRuns(fullClassName: string, signature: string, name: string, env: Env)
    requires SigHead(signature).Success? && (SigHead(signature) == Success(name) ==> signature !in env.missingMethodInfo)
    ensures OverloadStep(fullClassName, signature, name, env).1 == Done
    ensures Runs(OverloadStep(fullClassName, signature, name, env).0) == if SigHead(signature) == Success(name) then [signature] else []
  {
    if SigHead(signature) == Success(name) {
      RunsOfRunOnce(fullClassName, signature, env);
    }
  }

  /** `startMethodTask(className, methodName)`, as the events it produces and how it ends. */
  function MethodTask(env: Env, className: string, methodName: string): (r: (seq<Event>, Outcome))
    ensures !CheckTargetFolder(env) ==> r == ([CheckFailed], Returned)
    ensures CheckTargetFolder(env) && env.packaging == "pom" ==> r == ([SkipPom], Returned)
  {
    if !CheckTargetFolder(env) then ([CheckFailed], Returned)
    else if env.packaging == "pom" then ([SkipPom], Returned)
    else
      var pre := [Parsed, Generating(className)];
      match GetFullClassName(className, env.classMap)
      case Failure(e) => if e == IOFailure then (pre + [MethodNotFound], Returned) else (pre, Threw(e))
      case Success(full) => MethodSelection(env, pre, full, methodName)
  }

  /** The part of `startMethodTask` after the class is resolved: selection by id or by name. */
  function MethodSelection(env: Env, pre: seq<Event>, full: string, methodName: string): (r: (seq<Event>, Outcome))
  {
    if full !in env.classInfos then (pre + [MethodNotFound], Returned)
    else
      var sigs := env.classInfos[full].methodSigs;
      if IsDigits(methodName) then
        match FirstWithId(sigs, methodName)
        case None => (pre + [MethodNotFound], Returned)
        case Some(k) =>
          if sigs[k].0 in env.missingMethodInfo then (pre + [MethodNotFound], Returned)
          else (pre + RunOnce(full, sigs[k].0, env) + [Finished], Returned)
      else
        var run := Chain(OverloadPasses(full, sigs, methodName, env));
        match run.1
        case Done => (pre + run.0 + [Finished], Returned)
        case NotFound => (pre + run.0 + [MethodNotFound], Returned)
        case Escape(e) => (pre + run.0, Threw(e))
  }

  /** The events before the class is resolved ask the runner for nothing. */
  lemma RunsOfPrelude(className: string)
    ensures Runs([Parsed, Generating(className)]) == []
  {
  }

  /** Only a resolved class's methods are ever run. */
  lemma MethodTaskRunsOnlyResolved(env: Env, className: string, methodName: string)
    requires Runs(MethodTask(env, className, methodName).0) != []
    ensures CheckTargetFolder(env) && env.packaging != "pom"
    ensures GetFullClassName(className, env.classMap).Success?
    ensures GetFullClassName(className, env.classMap).value in env.classInfos
  {
    var pre := [Parsed, Generating(className)];
    RunsOfPrelude(className);
    RunsAppend(pre, [MethodNotFound]);
  }

  /**
   * Selection by id runs at most one method: the first signature carrying
   * that id, and only when its method info exists; otherwise the task ends
   * with "Method not found" and no "Generation finished".
   */
  lemma MethodTaskById(env: Env, className: string, methodName: string, full: string)
    requires CheckTargetFolder(env) && env.packaging != "pom" && IsDigits(methodName)
    requires GetFullClassName(className, env.classMap) == Success(full) && full in env.classInfos
    ensures var r := MethodTask(env, className, methodName);
            var sigs := env.classInfos[full].methodSigs;
            var k := FirstWithId(sigs, methodName);
            && r.1 == Returned && |r.0| > 0
            && (k.Some? && sigs[k.value].0 !in env.missingMethodInfo ==> Runs(r.0) == [sigs[k.value].0] && r.0[|r.0| - 1] == Finished)
            && (k.None? || sigs[k.value].0 in env.missingMethodInfo ==> Runs(r.0) == [] && r.0[|r.0| - 1] == MethodNotFound)
  {
    var pre := [Parsed, Generating(className)];
    RunsOfPrelude(className);
    assert MethodTask(env, className, methodName) == MethodSelection(env, pre, full, methodName);
    var sigs := env.classInfos[full].methodSigs;
    var k := FirstWithId(sigs, methodName);
    if k.Some? && sigs[k.value].0 !in env.missingMethodInfo {
      var once := RunOnce(full, sigs[k.value].0, env);
      RunsOfRunOnce(full, sigs[k.value].0, env);
      RunsAppend(pre, once);
      RunsAppend(pre + once, [Finished]);
    } else {
      RunsAppend(pre, [MethodNotFound]);
    }
  }

  /**
   * Selection by name over well-formed signatures runs every matching
   * overload once, in order, and ends with "Generation finished".
   */
  lemma MethodTaskByName(env: Env, className: string, methodName: string, full: string)
    requires CheckTargetFolder(env) && env.packaging != "pom" && !IsDigits(methodName)
    requires GetFullClassName(className, env.classMap) == Success(full) && full in env.classInfos
    requires CleanOverloads(env.classInfos[full].methodSigs, methodName, env)
    ensures var r := MethodTask(env, className, methodName);
            && r.1 == Returned && |r.0| > 0
            && Runs(r.0) == Matching(env.classInfos[full].methodSigs, methodName)
            && r.0[|r.0| - 1] == Finished
  {
    var pre := [Parsed, Generating(className)];
    RunsOfPrelude(className);
    assert MethodTask(env, className, methodName) == MethodSelection(env, pre, full, methodName);
    var sigs := env.classInfos[full].methodSigs;
    OverloadsRunMatching(full, sigs, methodName, env);
    var run := Chain(OverloadPasses(full, sigs, methodName, env));
    RunsAppend(pre, run.0);
    RunsAppend(pre + run.0, [Finished]);
  }

  /** `startMethodTask(className, methodName)`. */
  method StartMethodTask(env: Env, className: string, methodName: string) returns (events: seq<Event>, outcome: Outcome)
    ensures (events, outcome) == MethodTask(env, className, methodName)
  {
    if !CheckTargetFolder(env) {
      return [CheckFailed], Returned;
    }
    if env.packaging == "pom" {
      return [SkipPom], Returned;
    }
    events := [Parsed, Generating(className)];
    var full := GetFullClassName(className, env.classMap);
    if full.Failure? {
      if full.error == IOFailure {
        return events + [MethodNotFound], Returned;
      }
      return events, Threw(full.error);
    }
    assert MethodTask(env, className, methodName) == MethodSelection(env, events, full.value, methodName);
    if full.value !in env.classInfos {
      return events + [MethodNotFound], Returned;
    }
    var sigs := env.classInfos[full.value].methodSigs;
    if IsDigits(methodName) {
      var k := FindMethodById(sigs, methodName);
      if k.None? || sigs[k.value].0 in env.missingMethodInfo {
        return events + [MethodNotFound], Returned;
      }
      ghost var pre := events;
      events := events + [RunMethod(full.value, sigs[k.value].0)];
      if (full.value, sigs[k.value].0) in env.failingMethods {
        events := events + [RunMethodFailed(sigs[k.value].0)];
      }
      assert events == pre + RunOnce(full.value, sigs[k.value].0, env);
    } else {
      var run, flow := RunOverloads(full.value, sigs, methodName, env);
      events := events + run;
      if flow == NotFound {
        return events + [MethodNotFound], Returned;
      }
      if flow.Escape? {
        return events, Threw(flow.exception);
      }
    }
    events := events + [Finished];
    outcome := Returned;
  }

  /**
   * `startClassTask(className)`: an unreadable class map is logged as "Class
   * not found" and the task still finishes; an ambiguous name or a failing
   * `runClass` escapes.
   */
  function StartClassTask(env: Env, className: string): (r: (seq<Event>, Outcome))
    ensures !CheckTargetFolder(env) ==> r == ([CheckFailed], Returned)
    ensures CheckTargetFolder(env) && env.packaging == "pom" ==> r == ([SkipPom], Returned)
    ensures forall c :: RunClass(c) in r.0 ==>
              CheckTargetFolder(env) && env.packaging != "pom" && GetFullClassName(className, env.classMap) == Success(c)
    ensures r.1.Threw? ==> r.1.exception.RunnerFailure? || GetFullClassName(className, env.classMap) == Failure(r.1.exception)
    ensures r.1 == Returned ==> |r.0| > 0 && r.0[|r.0| - 1] in {CheckFailed, SkipPom, Finished}
    ensures CheckTargetFolder(env) && env.packaging != "pom" && GetFullClassName(className, env.classMap).Success? ==>
              RunClass(GetFullClassName(className, env.classMap).value) in r.0
    ensures CheckTargetFolder(env) && env.packaging != "pom" && GetFullClassName(className, env.classMap) == Failure(IOFailure) ==>
              r == ([Parsed, Generating(className), ClassNotFound(className), Finished], Returned)
  {
    if !CheckTargetFolder(env) then ([CheckFailed], Returned)
    else if env.packaging == "pom" then ([SkipPom], Returned)
    else
      var pre := [Parsed, Generating(className)];
      match GetFullClassName(className, env.classMap)
      case Failure(e) =>
        if e == IOFailure then
          assert pre + [ClassNotFound(className), Finished] == [Parsed, Generating(className), ClassNotFound(className), Finished];
          (pre + [ClassNotFound(className), Finished], Returned)
        else (pre, Threw(e))
      case Success(full) =>
        if full in env.failingClasses then (pre + [RunClass(full)], Threw(RunnerFailure(full)))
        else (pre + [RunClass(full), Finished], Returned)
  }

  /** The class task runs a class exactly when it is the one the name resolves to, after the checks pass. */
  lemma ClassTaskRunsExactlyResolved(env: Env, className: string, c: string)
    ensures RunClass(c) in StartClassTask(env, className).0 <==>
              CheckTargetFolder(env) && env.packaging != "pom" && GetFullClassName(className, env.classMap) == Success(c)
  {
    var r := StartClassTask(env, className);
    if CheckTargetFolder(env) && env.packaging != "pom" && GetFullClassName(className, env.classMap).Success? {
      var full := GetFullClassName(className, env.classMap).value;
      assert RunClass(c) in r.0 ==> c == full by {
        assert r.0 == [Parsed, Generating(className), RunClass(full)] || r.0 == [Parsed, Generating(className), RunClass(full), Finished];
      }
    }
  }

  /**
   * One pass of the sequential project loop over `classPath`: derive the
   * class name, resolve it, look up its class info, skip it when the filter
   * rejects it, otherwise run it. IOExceptions are logged and the loop goes
   * on; anything else escapes. `RunProjectClass` is its imperative form.
   */
  function ProjectStep(classPath: string, env: Env): (r: (seq<Event>, Flow))
    ensures forall c :: RunClass(c) in r.0 ==>
              && ClassNameOf(classPath).Success?
              && GetFullClassName(ClassNameOf(classPath).value, env.classMap) == Success(c)
              && c in env.classInfos && env.testable(env.classInfos[c])
    ensures r.1 != NotFound
  {
    match ClassNameOf(classPath)
    case Failure(e) => ([], Escape(e))
    case Success(className) =>
      match GetFullClassName(className, env.classMap)
      case Failure(e) => if e == IOFailure then ([ClassFailed(className)], Done) else ([], Escape(e))
      case Success(full) => ResolvedClassStep(classPath, className, full, env)
  }

  /** The rest of a project pass once `classPath` has resolved to `full`. */
  function ResolvedClassStep(classPath: string, className: string, full: string, env: Env): (r: (seq<Event>, Flow))
    ensures forall c :: RunClass(c) in r.0 <==> c == full && full in env.classInfos && env.testable(env.classInfos[full])
    ensures r.1 != NotFound
  {
    if full !in env.classInfos then ([Generating(className), ClassFailed(className)], Done)
    else if !env.testable(env.classInfos[full]) then ([Generating(className), SkipClass(classPath)], Done)
    else if full in env.failingClasses then ([Generating(className), RunClass(full)], Escape(RunnerFailure(full)))
    else ([Generating(className), RunClass(full)], Done)
  }

  /** The passes of the project loop over `paths`. */
  function ProjectPasses(paths: seq<string>, env: Env): (r: seq<(seq<Event>, Flow)>)
    ensures |r| == |paths|
    ensures forall i :: 0 <= i < |paths| ==> r[i] == ProjectStep(paths[i], env)
  {
    seq(|paths|, i requires 0 <= i < |paths| => ProjectStep(paths[i], env))
  }

  /** The sequential project loop only runs classes the filter accepts, each taken from one of the paths. */
  lemma ProjectRunsOnlyTestable(paths: seq<string>, env: Env, full: string)
    requires RunClass(full) in Chain(ProjectPasses(paths, env)).0
    ensures full in env.classInfos && env.testable(env.classInfos[full])
    ensures exists i :: 0 <= i < |paths| && ClassNameOf(paths[i]).Success? &&
              GetFullClassName(ClassNameOf(paths[i]).value, env.classMap) == Success(full)
  {
    var passes := ProjectPasses(paths, env);
    ChainEventsFromPasses(passes, RunClass(full));
    var i :| 0 <= i < |passes| && RunClass(full) in passes[i].0;
    assert passes[i] == ProjectStep(paths[i], env);
  }

  /**
   * When the loop runs to the end, every path whose class resolves to a
   * known class the filter accepts has been run.
   */
  lemma ProjectRunsEveryTestable(paths: seq<string>, env: Env, i: nat, full: string)
    requires Chain(ProjectPasses(paths, env)).1 == Done && i < |paths|
    requires ClassNameOf(paths[i]).Success?
    requires GetFullClassName(ClassNameOf(paths[i]).value, env.classMap) == Success(full)
    requires full in env.classInfos && env.testable(env.classInfos[full])
    ensures RunClass(full) in Chain(ProjectPasses(paths, env)).0
  {
    var passes := ProjectPasses(paths, env);
    var className := ClassNameOf(paths[i]).value;
    assert passes[i] == ProjectStep(paths[i], env) == ResolvedClassStep(paths[i], className, full, env);
    ChainKeepsEvents(passes, i, RunClass(full));
  }

  /** `startProjectTask()`, as the events it produces and how it ends. */
  function ProjectTask(env: Env): (r: (seq<Event>, Outcome))
    ensures !CheckTargetFolder(env) ==> r == ([CheckFailed], Returned)
    ensures CheckTargetFolder(env) && env.packaging == "pom" ==> r == ([SkipPom], Returned)
    ensures CheckTargetFolder(env) && env.packaging != "pom" && env.multithreading ==>
              r == ([Parsed, ProjectJob(env.classPaths), Finished], Returned)
  {
    if !CheckTargetFolder(env) then ([CheckFailed], Returned)
    else if env.packaging == "pom" then ([SkipPom], Returned)
    else if env.multithreading then ([Parsed, ProjectJob(env.classPaths), Finished], Returned)
    else
      var run := Chain(ProjectPasses(env.classPaths, env));
      if run.1.Escape? then ([Parsed] + run.0, Threw(run.1.exception))
      else ([Parsed] + run.0 + [Finished], Returned)
  }

  /**
   * The body of the sequential project loop for one path. IOExceptions are
   * logged and the loop goes on (`continue`); anything else escapes.
   */
  method RunProjectClass(classPath: string, env: Env) returns (events: seq<Event>, flow: Flow)
    ensures (events, flow) == ProjectStep(classPath, env)
  {
    var className := ClassNameOf(classPath);
    if className.Failure? {
      return [], Escape(className.error);
    }
    var full := GetFullClassName(className.value, env.classMap);
    if full.Failure? {
      if full.error != IOFailure {
        return [], Escape(full.error);
      }
      return [ClassFailed(className.value)], Done;
    }
    if full.value !in env.classInfos {
      return [Generating(className.value), ClassFailed(className.value)], Done;
    }
    if !env.testable(env.classInfos[full.value]) {
      return [Generating(className.value), SkipClass(classPath)], Done;
    }
    events := [Generating(className.value), RunClass(full.value)];
    if full.value in env.failingClasses {
      return events, Escape(RunnerFailure(full.value));
    }
    flow := Done;
  }

  /** The sequential project loop over `paths`, in order, until a pass escapes. */
  method RunProjectClasses(paths: seq<string>, env: Env) returns (run: seq<Event>, flow: Flow)
    ensures (run, flow) == Chain(ProjectPasses(paths, env))
  {
    ghost var passes := ProjectPasses(paths, env);
    run := [];
    for i := 0 to |paths|
      invariant (run, Done) == Chain(passes[..i])
    {
      ChainStep(passes, i);
      assert passes[i] == ProjectStep(paths[i], env);
      var stepEvents, stepFlow := RunProjectClass(paths[i], env);
      run := run + stepEvents;
      if stepFlow != Done {
        ChainStops(passes, i + 1);
        return run, stepFlow;
      }
    }
    assert passes[..|paths|] == passes;
    flow := Done;
  }

  /** `startProjectTask()`: the sequential loop over the source paths, or the worker pool. */
  method StartProjectTask(env: Env) returns (events: seq<Event>, outcome: Outcome)
    ensures (events, outcome) == ProjectTask(env)
  {
    if !CheckTargetFolder(env) {
      return [CheckFailed], Returned;
    }
    if env.packaging == "pom" {
      return [SkipPom], Returned;
    }
    if env.multithreading {
      return [Parsed, ProjectJob(env.classPaths), Finished], Returned;
    }
    var run, flow := RunProjectClasses(env.classPaths, env);
    if flow.Escape? {
      return [Parsed] + run, Threw(flow.exception);
    }
    return [Parsed] + run + [Finished], Returned;
  }
}
