/**
 * The symbol frame of one class (`obfuscator/frame/SymbolFrame.java`): the
 * class, super-class and interface names plus six sets of symbols (field,
 * variable and method definitions and uses), with the group filter that keeps
 * only the project's own symbols and the collection of names to obfuscate.
 */
module SymbolFrames {
  import opened Wrappers
  import opened JavaLang
  import opened Symbols

  /** The six symbol sets of a frame, as one value. */
  datatype SymbolSets = SymbolSets(
    fieldDef: set<Symbol>, fieldUse: set<Symbol>,
    varDef: set<Symbol>, varUse: set<Symbol>,
    methodDef: set<Symbol>, methodUse: set<Symbol>)
  {
    /** Every symbol of the six sets. */
    function All(): set<Symbol>
    {
      fieldDef + fieldUse + varDef + varUse + methodDef + methodUse
    }

    /** Set-by-set union, what `merge` does to the receiver. */
    function Union(other: SymbolSets): SymbolSets
    {
      SymbolSets(fieldDef + other.fieldDef, fieldUse + other.fieldUse,
                 varDef + other.varDef, varUse + other.varUse,
                 methodDef + other.methodDef, methodUse + other.methodUse)
    }

    /** Set-by-set restriction to the symbols `IsInGroup(targets)` accepts. */
    function Restrict(targets: seq<string>): SymbolSets
    {
      SymbolSets(Kept(fieldDef, targets), Kept(fieldUse, targets),
                 Kept(varDef, targets), Kept(varUse, targets),
                 Kept(methodDef, targets), Kept(methodUse, targets))
    }

    /**
     * Each set of `after` lies within the same set of `this` and still holds
     * every symbol of it that is in the group.
     */
    ghost predicate ShrinksTo(after: SymbolSets, targets: seq<string>)
    {
      && Between(fieldDef, after.fieldDef, targets) && Between(fieldUse, after.fieldUse, targets)
      && Between(varDef, after.varDef, targets) && Between(varUse, after.varUse, targets)
      && Between(methodDef, after.methodDef, targets) && Between(methodUse, after.methodUse, targets)
    }
  }

  /** The symbols of `syms` that are in the group. */
  function Kept(syms: set<Symbol>, targets: seq<string>): set<Symbol>
  {
    set s | s in syms && IsInGroup(s, targets) == Success(true)
  }

  /** `after` is `before` with some out-of-group symbols removed. */
  ghost predicate Between(before: set<Symbol>, after: set<Symbol>, targets: seq<string>)
  {
    Kept(before, targets) <= after <= before
  }

  /** Some symbol of `syms` makes `isInGroup(targets)` throw. */
  ghost predicate SomeThrows(syms: set<Symbol>, targets: seq<string>)
  {
    exists s :: s in syms && IsInGroup(s, targets).Failure?
  }

  /** Merging the same frame a second time adds nothing. */
  lemma MergeIdempotent(a: SymbolSets, b: SymbolSets)
    ensures a.Union(b).Union(b) == a.Union(b)
  {
  }

  /** Filtering a merged frame is merging the filtered frames. */
  lemma RestrictDistributesOverUnion(a: SymbolSets, b: SymbolSets, targets: seq<string>)
    ensures a.Union(b).Restrict(targets) == a.Restrict(targets).Union(b.Restrict(targets))
  {
  }

  /** The static `SymbolFrame.isInGroup(str, groupIds)`: some id is a substring of `str`. */
  predicate StringInGroup(str: string, groupIds: seq<string>): (r: bool)
    ensures groupIds == [] ==> !r
    ensures r ==> exists k :: 0 <= k < |groupIds| && Contains(str, groupIds[k])
  {
    if groupIds == [] then false
    else if Contains(str, groupIds[0]) then true
    else
      var rest := StringInGroup(str, groupIds[1..]);
      assert rest ==> exists k :: 1 <= k < |groupIds| && Contains(str, groupIds[k]) by {
        if rest {
          var k :| 0 <= k < |groupIds[1..]| && Contains(str, groupIds[1..][k]);
          assert groupIds[1..][k] == groupIds[k + 1];
        }
      }
      rest
  }

  /** `StringInGroup` holds exactly when one of the ids occurs in the string. */
  lemma {:induction false} StringInGroupIff(str: string, groupIds: seq<string>)
    ensures StringInGroup(str, groupIds) <==> exists k :: 0 <= k < |groupIds| && Contains(str, groupIds[k])
    decreases |groupIds|
  {
    if groupIds != [] {
      StringInGroupIff(str, groupIds[1..]);
      if exists k :: 0 <= k < |groupIds| && Contains(str, groupIds[k]) {
        var k :| 0 <= k < |groupIds| && Contains(str, groupIds[k]);
        if k > 0 {
          assert groupIds[1..][k - 1] == groupIds[k];
        }
      }
      if StringInGroup(str, groupIds[1..]) {
        var k :| 0 <= k < |groupIds[1..]| && Contains(str, groupIds[1..][k]);
        assert groupIds[1..][k] == groupIds[k + 1];
      }
    }
  }

  /** A group id as a path: `id.replace(".", "/")`. */
  function AsPath(id: string): (r: string)
    ensures '.' !in r && |r| == |id|
  {
    Replace(id, '.', '/')
  }

  /** `groupIds.stream().map(id -> id.replace(".", "/"))`: the group ids as paths, in order. */
  function Targets(groupIds: seq<string>): (r: seq<string>)
    ensures |r| == |groupIds|
    ensures forall k :: 0 <= k < |groupIds| ==> r[k] == AsPath(groupIds[k])
  {
    if groupIds == [] then [] else [AsPath(groupIds[0])] + Targets(groupIds[1..])
  }

  /** `isClassInGroup(fullClassName, groupIds)`: some id, dots made slashes, is a substring of the name. */
  predicate IsClassInGroup(fullClassName: string, groupIds: seq<string>): (r: bool)
    ensures groupIds == [] ==> !r
    ensures r ==> exists k :: 0 <= k < |groupIds| && Contains(fullClassName, AsPath(groupIds[k]))
  {
    if groupIds == [] then false
    else if Contains(fullClassName, AsPath(groupIds[0])) then true
    else
      var rest := IsClassInGroup(fullClassName, groupIds[1..]);
      assert rest ==> exists k :: 1 <= k < |groupIds| && Contains(fullClassName, AsPath(groupIds[k])) by {
        if rest {
          var k :| 0 <= k < |groupIds[1..]| && Contains(fullClassName, AsPath(groupIds[1..][k]));
          assert groupIds[1..][k] == groupIds[k + 1];
        }
      }
      rest
  }

  /**
   * A name is in the group iff it contains one of the path-form ids; in
   * particular no name is in the group of an empty id list.
   */
  lemma {:induction false} IsClassInGroupIff(fullClassName: string, groupIds: seq<string>)
    ensures IsClassInGroup(fullClassName, groupIds) <==> StringInGroup(fullClassName, Targets(groupIds))
    ensures IsClassInGroup(fullClassName, groupIds) <==> exists k :: 0 <= k < |groupIds| && Contains(fullClassName, AsPath(groupIds[k]))
    ensures groupIds == [] ==> !IsClassInGroup(fullClassName, groupIds)
    decreases |groupIds|
  {
    StringInGroupIff(fullClassName, Targets(groupIds));
    if groupIds != [] {
      IsClassInGroupIff(fullClassName, groupIds[1..]);
      assert Targets(groupIds)[1..] == Targets(groupIds[1..]);
      if exists k :: 0 <= k < |groupIds| && Contains(fullClassName, AsPath(groupIds[k])) {
        var k :| 0 <= k < |groupIds| && Contains(fullClassName, AsPath(groupIds[k]));
        if k > 0 {
          assert groupIds[1..][k - 1] == groupIds[k];
        }
      }
    }
  }

  /**
   * The class-name test of the filter and the symbol test of the filter agree:
   * a symbol with a descriptor is in the group of the path-form ids iff its
   * owner or its descriptor is a class in the group.
   */
  lemma SymbolInGroupIffClassInGroup(sym: Symbol, groupIds: seq<string>)
    requires sym.descriptor.Some?
    ensures IsInGroup(sym, Targets(groupIds)) == Success(IsClassInGroup(sym.owner, groupIds) || IsClassInGroup(sym.descriptor.value, groupIds))
  {
    IsInGroupIff(sym, Targets(groupIds));
    IsClassInGroupIff(sym.owner, groupIds);
    IsClassInGroupIff(sym.descriptor.value, groupIds);
  }

  /**
   * The tail of `splitTypeName` applied to the last `/`-piece: the text after
   * its last `$` if it has one, then the text before the first `;` if it has one.
   */
  function SimpleName(piece: string): (r: string)
    ensures '$' !in r && ';' !in r
    ensures forall ch :: ch in r ==> ch in piece
    ensures '$' !in piece && ';' !in piece ==> r == piece
  {
    var inner := if '$' in piece then AfterLast(piece, '$') else piece;
    assert forall ch :: ch in inner ==> ch in piece by {
      forall ch | ch in inner ensures ch in piece {
        var j :| 0 <= j < |inner| && inner[j] == ch;
        assert piece[|piece| - |inner| + j] == ch;
      }
    }
    if ';' in inner then BeforeFirst(inner, ';') else inner
  }

  /**
   * `splitTypeName(type, groupIds)`: "" for a null, empty or out-of-group type;
   * otherwise `SimpleName` of the last `/`-separated piece. A type made only of
   * slashes leaves `split("/")` with no piece, and indexing it throws.
   */
  function SplitTypeName(typeName: Option<string>, groupIds: seq<string>): (r: Result<string, Exception>)
    ensures r.Failure? <==> typeName.Some? && typeName.value != "" && IsClassInGroup(typeName.value, groupIds) && AllChar(typeName.value, '/')
    ensures r.Failure? ==> r.error == IndexOutOfBounds
    ensures typeName.None? || typeName.value == "" || !IsClassInGroup(typeName.value, groupIds) ==> r == Success("")
    ensures r.Success? ==> '/' !in r.value && '$' !in r.value && ';' !in r.value
  {
    if typeName.None? || typeName.value == "" || !IsClassInGroup(typeName.value, groupIds) then Success("")
    else
      var parts := Split(typeName.value, '/');
      if |parts| == 0 then Failure(IndexOutOfBounds)
      else
        assert parts[|parts| - 1] in parts;
        Success(SimpleName(parts[|parts| - 1]))
  }

  /** For an in-group type `prefix/last`, the last piece is `last`. */
  lemma SplitTypeNameOfJoin(t: string, prefix: string, last: string, groupIds: seq<string>)
    requires t == prefix + ['/'] + last
    requires last != "" && '/' !in last
    requires IsClassInGroup(t, groupIds)
    ensures SplitTypeName(Some(t), groupIds) == Success(SimpleName(last))
  {
    AfterLastOfJoin(prefix, '/', last);
    assert t[|t| - 1] == last[|last| - 1];
  }

  /** `SimpleName` of `Simple` or `Simple;` is `Simple`. */
  lemma SimpleNameOfClass(simple: string, suffix: string)
    requires '$' !in simple && ';' !in simple
    requires suffix == "" || suffix == ";"
    ensures SimpleName(simple + suffix) == simple
  {
    if suffix == ";" {
      assert simple + suffix == simple + [';'] + "";
      BeforeFirstOfJoin(simple, ';', "");
    } else {
      assert simple + suffix == simple;
    }
  }

  /** `SimpleName` of `Outer$Inner` or `Outer$Inner;` is `Inner`. */
  lemma SimpleNameOfNestedClass(outer: string, inner: string, suffix: string)
    requires '$' !in inner && ';' !in inner
    requires suffix == "" || suffix == ";"
    ensures SimpleName(outer + "$" + inner + suffix) == inner
  {
    var tail := inner + suffix;
    assert outer + "$" + inner + suffix == outer + ['$'] + tail;
    assert '$' in outer + ['$'] + tail;
    assert '$' !in tail;
    AfterLastOfJoin(outer, '$', tail);
    SimpleNameOfClass(inner, suffix);
  }

  /**
   * The simple name of an in-group class: for a type `prefix/Simple` or a
   * descriptor `prefix/Simple;` the result is `Simple`.
   */
  lemma SplitTypeNameOfClass(prefix: string, simple: string, suffix: string, groupIds: seq<string>)
    requires simple != "" && '/' !in simple && '$' !in simple && ';' !in simple
    requires suffix == "" || suffix == ";"
    requires IsClassInGroup(prefix + "/" + simple + suffix, groupIds)
    ensures SplitTypeName(Some(prefix + "/" + simple + suffix), groupIds) == Success(simple)
  {
    var last := simple + suffix;
    assert prefix + "/" + simple + suffix == prefix + ['/'] + last;
    SplitTypeNameOfJoin(prefix + "/" + simple + suffix, prefix, last, groupIds);
    SimpleNameOfClass(simple, suffix);
  }

  /**
   * The simple name of an in-group nested class: for `prefix/Outer$Inner` or
   * `prefix/Outer$Inner;` the result is `Inner`.
   */
  lemma SplitTypeNameOfNestedClass(prefix: string, outer: string, inner: string, suffix: string, groupIds: seq<string>)
    requires '/' !in outer
    requires inner != "" && '/' !in inner && '$' !in inner && ';' !in inner
    requires suffix == "" || suffix == ";"
    requires IsClassInGroup(prefix + "/" + outer + "$" + inner + suffix, groupIds)
    ensures SplitTypeName(Some(prefix + "/" + outer + "$" + inner + suffix), groupIds) == Success(inner)
  {
    var last := outer + "$" + inner + suffix;
    assert prefix + "/" + outer + "$" + inner + suffix == prefix + ['/'] + last;
    SplitTypeNameOfJoin(prefix + "/" + outer + "$" + inner + suffix, prefix, last, groupIds);
    SimpleNameOfNestedClass(outer, inner, suffix);
  }

  /**
   * The interface names the filter keeps, in their original order, each cut
   * to the text after its last `/`.
   */
  function ShortenInGroup(names: seq<string>, groupIds: seq<string>): (r: seq<string>)
    ensures |r| <= |names|
    ensures forall x :: x in r ==> '/' !in x
  {
    if names == [] then []
    else
      var init := ShortenInGroup(names[..|names| - 1], groupIds);
      var last := names[|names| - 1];
      if IsClassInGroup(last, groupIds) then init + [AfterLast(last, '/')] else init
  }

  /** `name` is in the group and `x` is what is left of it after its last `/`. */
  ghost predicate ShortensTo(name: string, groupIds: seq<string>, x: string)
  {
    IsClassInGroup(name, groupIds) && AfterLast(name, '/') == x
  }

  /** One step of `ShortenInGroup`: the last name is kept, shortened, exactly when it is in the group. */
  lemma ShortenInGroupLast(names: seq<string>, groupIds: seq<string>, x: string)
    requires names != []
    ensures x in ShortenInGroup(names, groupIds) <==>
            x in ShortenInGroup(names[..|names| - 1], groupIds) || ShortensTo(names[|names| - 1], groupIds, x)
  {
  }

  /** A kept name is the shortened form of an in-group name, and every in-group name is kept. */
  lemma {:induction false} ShortenInGroupMembers(names: seq<string>, groupIds: seq<string>, x: string)
    ensures x in ShortenInGroup(names, groupIds) <==> exists i :: 0 <= i < |names| && ShortensTo(names[i], groupIds, x)
    decreases |names|
  {
    if names != [] {
      var init := names[..|names| - 1];
      ShortenInGroupMembers(init, groupIds, x);
      ShortenInGroupLast(names, groupIds, x);
      if exists i :: 0 <= i < |names| && ShortensTo(names[i], groupIds, x) {
        var i :| 0 <= i < |names| && ShortensTo(names[i], groupIds, x);
        if i < |names| - 1 {
          assert init[i] == names[i];
        }
      }
      if exists i :: 0 <= i < |init| && ShortensTo(init[i], groupIds, x) {
        var i :| 0 <= i < |init| && ShortensTo(init[i], groupIds, x);
        assert names[i] == init[i];
      }
    }
  }

  /** Shortening keeps the order: the result for `a + b` is the result for `a` followed by that for `b`. */
  lemma {:induction false} ShortenInGroupAppend(a: seq<string>, b: seq<string>, groupIds: seq<string>)
    ensures ShortenInGroup(a + b, groupIds) == ShortenInGroup(a, groupIds) + ShortenInGroup(b, groupIds)
    decreases |b|
  {
    if b != [] {
      var b' := b[..|b| - 1];
      ShortenInGroupAppend(a, b', groupIds);
      assert (a + b)[..|a + b| - 1] == a + b';
      assert (a + b)[|a + b| - 1] == b[|b| - 1];
    } else {
      assert a + b == a;
    }
  }

  /** `cond ? name.substring(name.lastIndexOf("/") + 1) : null` with `cond` the group test. */
  function ShortenClass(name: string, groupIds: seq<string>): (r: Option<string>)
    ensures r.Some? <==> IsClassInGroup(name, groupIds)
    ensures r.Some? ==> '/' !in r.value && |r.value| <= |name| && r.value == name[|name| - |r.value|..]
  {
    if IsClassInGroup(name, groupIds) then Some(AfterLast(name, '/')) else None
  }

  /** `list.set(i, x)` seen from both sides of `i`. */
  lemma SetKeepsSplit(list: seq<string>, i: nat, x: string)
    requires i < |list|
    ensures list[i := x][..i + 1] == list[..i] + [x]
    ensures list[i := x][i + 1..] == list[i + 1..]
  {
  }

  /** `list.remove(i)` seen from both sides of `i`. */
  lemma RemoveKeepsSplit(list: seq<string>, i: nat)
    requires i < |list|
    ensures (list[..i] + list[i + 1..])[..i] == list[..i]
    ensures (list[..i] + list[i + 1..])[i..] == list[i + 1..]
  {
  }

  /** One more name: shortened and appended when in the group, dropped otherwise. */
  lemma ShortenInGroupStep(names: seq<string>, k: nat, groupIds: seq<string>)
    requires k < |names|
    ensures ShortenInGroup(names[..k + 1], groupIds) ==
              ShortenInGroup(names[..k], groupIds) + if IsClassInGroup(names[k], groupIds) then [AfterLast(names[k], '/')] else []
  {
    assert names[..k + 1][..k] == names[..k];
  }

  /**
   * The interface loop of `filterSymbolsByGroupId`: walks the list by index,
   * replacing an in-group name by its text after the last `/` and removing
   * (and stepping back over) any other name.
   */
  method FilterInterfaces(names: seq<string>, groupIds: seq<string>) returns (list: seq<string>)
    ensures list == ShortenInGroup(names, groupIds)
  {
    list := names;
    ghost var visited := 0;
    var i: int := 0;
    while i < |list|
      invariant 0 <= i <= |list|
      invariant 0 <= visited <= |names|
      invariant list[..i] == ShortenInGroup(names[..visited], groupIds)
      invariant list[i..] == names[visited..]
      decreases |list| - i
    {
      var interfaceName := list[i];
      ghost var done := ShortenInGroup(names[..visited], groupIds);
      ghost var rest := list[i + 1..];
      assert names[visited] == interfaceName && rest == names[visited + 1..] by {
        assert list[i..][0] == interfaceName && list[i..][1..] == rest;
      }
      ShortenInGroupStep(names, visited, groupIds);
      if IsClassInGroup(interfaceName, groupIds) {
        var shortName := AfterLast(interfaceName, '/');
        SetKeepsSplit(list, i, shortName);
        list := list[i := shortName];
      } else {
        RemoveKeepsSplit(list, i);
        list := list[..i] + list[i + 1..];
        i := i - 1;
      }
      i := i + 1;
      visited := visited + 1;
    }
    assert list[i..] == [] && list[..i] == list;
    assert names[..visited] == names;
  }

  /**
   * `syms.removeIf(symbol -> !symbol.isInGroup(targets))` on a hash set: the
   * symbols are visited in no particular order, out-of-group ones are removed,
   * and a symbol whose test throws ends the call with the set partly filtered.
   */
  method RemoveIfNotInGroup(syms: set<Symbol>, targets: seq<string>) returns (kept: set<Symbol>, outcome: Outcome)
    ensures outcome == Returned <==> !SomeThrows(syms, targets)
    ensures outcome == Returned ==> kept == Kept(syms, targets)
    ensures outcome.Threw? ==> outcome.exception == NullPointer
    ensures Between(syms, kept, targets)
  {
    kept := syms;
    var todo := syms;
    while todo != {}
      invariant todo <= kept <= syms
      invariant forall s :: s in syms && s !in todo ==> (s in kept <==> IsInGroup(s, targets) == Success(true))
      invariant forall s :: s in syms && s !in todo ==> IsInGroup(s, targets).Success?
      decreases todo
    {
      var s :| s in todo;
      var inGroup := IsInGroup(s, targets);
      if inGroup.Failure? {
        return kept, Threw(inGroup.error);
      }
      if !inGroup.value {
        kept := kept - {s};
      }
      todo := todo - {s};
    }
    outcome := Returned;
  }

  /** Splitting the owner or the descriptor of `s` throws. */
  predicate SplitThrows(s: Symbol, groupIds: seq<string>)
  {
    SplitTypeName(Some(s.owner), groupIds).Failure? || SplitTypeName(s.descriptor, groupIds).Failure?
  }

  /** `x` is the name, the split owner or the split descriptor of `s`. */
  ghost predicate NameOf(s: Symbol, groupIds: seq<string>, x: string)
  {
    x == s.name || SplitTypeName(Some(s.owner), groupIds) == Success(x) || SplitTypeName(s.descriptor, groupIds) == Success(x)
  }

  /** The names one symbol contributes to `toObNames`. */
  function NamesOfSymbol(s: Symbol, groupIds: seq<string>): (r: set<string>)
    requires !SplitThrows(s, groupIds)
    ensures forall x :: x in r <==> NameOf(s, groupIds, x)
  {
    {s.name, SplitTypeName(Some(s.owner), groupIds).value, SplitTypeName(s.descriptor, groupIds).value}
  }

  /**
   * The three `obNames.addAll(...)` lines for one symbol set: every name, and
   * the split owner and split descriptor of every symbol.
   */
  function NamesOfSymbols(syms: set<Symbol>, groupIds: seq<string>): (r: Result<set<string>, Exception>)
    ensures r.Failure? <==> exists s :: s in syms && SplitThrows(s, groupIds)
    ensures r.Failure? ==> r.error == IndexOutOfBounds
    ensures r.Success? ==> forall x :: x in r.value <==> exists s :: s in syms && NameOf(s, groupIds, x)
  {
    if exists s :: s in syms && SplitThrows(s, groupIds) then Failure(IndexOutOfBounds)
    else
      var names := set s, x | s in syms && x in NamesOfSymbol(s, groupIds) :: x;
      assert forall x :: x in names <==> exists s :: s in syms && NameOf(s, groupIds, x) by {
        forall x ensures x in names <==> exists s :: s in syms && NameOf(s, groupIds, x) {
          if exists s :: s in syms && NameOf(s, groupIds, x) {
            var s :| s in syms && NameOf(s, groupIds, x);
            assert x in NamesOfSymbol(s, groupIds);
          }
        }
      }
      Success(names)
  }

  /** Gathering the names of two sets at once is gathering them one set after the other. */
  lemma NamesOfSymbolsUnion(a: set<Symbol>, b: set<Symbol>, groupIds: seq<string>)
    ensures NamesOfSymbols(a + b, groupIds).Failure? <==> NamesOfSymbols(a, groupIds).Failure? || NamesOfSymbols(b, groupIds).Failure?
    ensures NamesOfSymbols(a + b, groupIds).Success? ==>
              NamesOfSymbols(a + b, groupIds).value == NamesOfSymbols(a, groupIds).value + NamesOfSymbols(b, groupIds).value
  {
    var r := NamesOfSymbols(a + b, groupIds);
    if r.Success? {
      var ra, rb := NamesOfSymbols(a, groupIds), NamesOfSymbols(b, groupIds);
      forall x ensures x in r.value <==> x in ra.value + rb.value {
        if x in r.value {
          var s :| s in a + b && NameOf(s, groupIds, x);
        }
      }
    }
  }

  /**
   * What `toObNames` returns for a frame with header names `header` and
   * symbols `syms`: every header name and every name of a symbol, except "". `SymbolFrame.ToObNames` computes it.
   */
  function ObNames(header: set<string>, syms: set<Symbol>, groupIds: seq<string>): (r: Result<set<string>, Exception>)
    ensures r.Failure? <==> exists s :: s in syms && SplitThrows(s, groupIds)
    ensures r.Failure? ==> r.error == IndexOutOfBounds
    ensures r.Success? ==> "" !in r.value && header - {""} <= r.value
    ensures r.Success? ==> forall x :: x in r.value <==>
              x != "" && (x in header || exists s :: s in syms && NameOf(s, groupIds, x))
  {
    var names := NamesOfSymbols(syms, groupIds);
    if names.Failure? then Failure(names.error) else Success((header + names.value) - {""})
  }

  class SymbolFrame {
    var className: Option<string>
    var superName: Option<string>
    var interfaces: Option<seq<string>>
    var fieldDef: set<Symbol>
    var fieldUse: set<Symbol>
    var varDef: set<Symbol>
    var varUse: set<Symbol>
    var methodDef: set<Symbol>
    var methodUse: set<Symbol>

    /** The six sets as one value. */
    function Sets(): SymbolSets
      reads this
    {
      SymbolSets(fieldDef, fieldUse, varDef, varUse, methodDef, methodUse)
    }

    /** `new SymbolFrame()`: null names and six empty sets. */
    constructor ()
      ensures className == None && superName == None && interfaces == None
      ensures Sets() == SymbolSets({}, {}, {}, {}, {}, {})
    {
      className, superName, interfaces := None, None, None;
      fieldDef, fieldUse, varDef, varUse, methodDef, methodUse := {}, {}, {}, {}, {}, {};
    }

    method AddFieldDef(symbol: Symbol)
      modifies this
      ensures Sets() == old(Sets()).(fieldDef := old(fieldDef) + {symbol})
      ensures className == old(className) && superName == old(superName) && interfaces == old(interfaces)
    {
      fieldDef := fieldDef + {symbol};
    }

    method AddFieldUse(symbol: Symbol)
      modifies this
      ensures Sets() == old(Sets()).(fieldUse := old(fieldUse) + {symbol})
      ensures className == old(className) && superName == old(superName) && interfaces == old(interfaces)
    {
      fieldUse := fieldUse + {symbol};
    }

    method AddVarDef(symbol: Symbol)
      modifies this
      ensures Sets() == old(Sets()).(varDef := old(varDef) + {symbol})
      ensures className == old(className) && superName == old(superName) && interfaces == old(interfaces)
    {
      varDef := varDef + {symbol};
    }

    method AddVarUse(symbol: Symbol)
      modifies this
      ensures Sets() == old(Sets()).(varUse := old(varUse) + {symbol})
      ensures className == old(className) && superName == old(superName) && interfaces == old(interfaces)
    {
      varUse := varUse + {symbol};
    }

    method AddMethodDef(symbol: Symbol)
      modifies this
      ensures Sets() == old(Sets()).(methodDef := old(methodDef) + {symbol})
      ensures className == old(className) && superName == old(superName) && interfaces == old(interfaces)
    {
      methodDef := methodDef + {symbol};
    }

    method AddMethodUse(symbol: Symbol)
      modifies this
      ensures Sets() == old(Sets()).(methodUse := old(methodUse) + {symbol})
      ensures className == old(className) && superName == old(superName) && interfaces == old(interfaces)
    {
      methodUse := methodUse + {symbol};
    }

    /**
     * `merge(frame)`: nothing for a null frame; otherwise each set takes in the
     * matching set of `frame`, and the names stay as they are.
     */
    method Merge(frame: SymbolFrame?)
      modifies this
      ensures frame == null ==> unchanged(this)
      ensures frame != null ==> Sets() == old(Sets()).Union(old(frame.Sets()))
      ensures className == old(className) && superName == old(superName) && interfaces == old(interfaces)
    {
      if frame == null {
        return;
      }
      var other := frame.Sets();
      fieldDef := fieldDef + other.fieldDef;
      fieldUse := fieldUse + other.fieldUse;
      varDef := varDef + other.varDef;
      varUse := varUse + other.varUse;
      methodDef := methodDef + other.methodDef;
      methodUse := methodUse + other.methodUse;
    }

    /**
     * `filterSymbolsByGroupId(groupIds)`: keeps only what belongs to the
     * groups. Names are tested with `isClassInGroup(groupIds)` and cut after
     * their last `/`; symbols are tested with `isInGroup` against the ids in
     * path form. A null class name, super name or interface list throws where
     * the source dereferences it, after the fields before it were updated.
     */
    method FilterSymbolsByGroupId(groupIds: Option<seq<string>>) returns (outcome: Outcome)
      modifies this
      ensures groupIds.None? || groupIds.value == [] ==> outcome == Returned && unchanged(this)
      ensures groupIds.Some? && groupIds.value != [] ==>
        var g := groupIds.value;
        && (old(className).None? ==> outcome == Threw(NullPointer) && unchanged(this))
        && (old(className).Some? ==> className == ShortenClass(old(className).value, g))
        && (old(className).Some? && old(superName).None? ==>
              outcome == Threw(NullPointer) && superName == None && interfaces == old(interfaces) && Sets() == old(Sets()))
        && (old(className).Some? && old(superName).Some? ==> superName == ShortenClass(old(superName).value, g))
        && (old(className).Some? && old(superName).Some? && old(interfaces).None? ==>
              outcome == Threw(NullPointer) && interfaces == None && Sets() == old(Sets()))
        && (old(className).Some? && old(superName).Some? && old(interfaces).Some? ==>
              && interfaces == Some(ShortenInGroup(old(interfaces).value, g))
              && old(Sets()).ShrinksTo(Sets(), Targets(g))
              && (outcome == Returned <==> !SomeThrows(old(Sets()).All(), Targets(g)))
              && (outcome == Returned ==> Sets() == old(Sets()).Restrict(Targets(g)))
              && (outcome.Threw? ==> outcome.exception == NullPointer))
    {
      if groupIds.None? || groupIds.value == [] {
        return Returned;
      }
      var g := groupIds.value;
      var targets := Targets(g);
      if className.None? {
        return Threw(NullPointer);
      }
      className := ShortenClass(className.value, g);
      if superName.None? {
        return Threw(NullPointer);
      }
      superName := ShortenClass(superName.value, g);
      if interfaces.None? {
        return Threw(NullPointer);
      }
      var list := FilterInterfaces(interfaces.value, g);
      interfaces := Some(list);
      outcome := RemoveSymbolsNotInGroup(targets);
    }

    /**
     * The six `removeIf` calls of `filterSymbolsByGroupId`, in order; the
     * first one that throws leaves the later sets as they were.
     */
    method RemoveSymbolsNotInGroup(targets: seq<string>) returns (outcome: Outcome)
      modifies this`fieldDef, this`fieldUse, this`varDef, this`varUse, this`methodDef, this`methodUse
      ensures old(Sets()).ShrinksTo(Sets(), targets)
      ensures outcome == Returned <==> !SomeThrows(old(Sets()).All(), targets)
      ensures outcome == Returned ==> Sets() == old(Sets()).Restrict(targets)
      ensures outcome.Threw? ==> outcome.exception == NullPointer
    {
      fieldDef, outcome := RemoveIfNotInGroup(fieldDef, targets);
      if outcome.Threw? { return; }
      fieldUse, outcome := RemoveIfNotInGroup(fieldUse, targets);
      if outcome.Threw? { return; }
      varDef, outcome := RemoveIfNotInGroup(varDef, targets);
      if outcome.Threw? { return; }
      varUse, outcome := RemoveIfNotInGroup(varUse, targets);
      if outcome.Threw? { return; }
      methodDef, outcome := RemoveIfNotInGroup(methodDef, targets);
      if outcome.Threw? { return; }
      methodUse, outcome := RemoveIfNotInGroup(methodUse, targets);
    }

    /** Every symbol of the frame. */
    function AllSymbols(): set<Symbol>
      reads this
    {
      Sets().All()
    }

    /** The class, super-class and interface names, where they are not null. */
    function HeaderNames(): set<string>
      reads this
    {
      (if className.Some? then {className.value} else {})
      + (if superName.Some? then {superName.value} else {})
      + (if interfaces.Some? then set x | x in interfaces.value else {})
    }

    /**
     * `toObNames(groupIds)`: the header names and the names of every symbol,
     * without "". It throws when splitting some owner or descriptor throws.
     */
    method ToObNames(groupIds: seq<string>) returns (r: Result<set<string>, Exception>)
      ensures r == ObNames(HeaderNames(), AllSymbols(), groupIds)
    {
      var obNames: set<string> := {};
      if className.Some? {
        obNames := obNames + {className.value};
      }
      if superName.Some? {
        obNames := obNames + {superName.value};
      }
      if interfaces.Some? {
        obNames := obNames + set x | x in interfaces.value;
      }
      assert obNames == HeaderNames();
      // The eighteen `addAll` lines of the six sets, gathered as one union:
      // `NamesOfSymbolsUnion` shows set-by-set gathering gives the same names.
      var names := NamesOfSymbols(Sets().All(), groupIds);
      if names.Failure? {
        return Failure(names.error);
      }
      obNames := obNames + names.value;
      obNames := obNames - {""};
      return Success(obNames);
    }
  }
}
