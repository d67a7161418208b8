/**
 * A symbol of the obfuscator frame (`obfuscator/frame/Symbol.java`): a named
 * field, variable or method together with its owner and its type descriptor.
 */
module Symbols {
  import opened Wrappers
  import opened JavaLang

  /**
   * `new Symbol(name, owner, type, line)` stores its four arguments as given,
   * which is what this constructor does. The Java `type` is `descriptor`
   * here; it is null (`None`) for a method without a generic signature.
   */
  datatype Symbol = Symbol(name: string, owner: string, descriptor: Option<string>, lineNum: Option<int>)

  /** The symbol's owner or its (non-null) descriptor contains `id`. */
  ghost predicate Mentions(sym: Symbol, id: string)
  {
    Contains(sym.owner, id) || (sym.descriptor.Some? && Contains(sym.descriptor.value, id))
  }

  /**
   * `sym.isInGroup(groupIds)`: tries the ids in order and answers true at the
   * first one contained in the owner or in the descriptor. The descriptor is
   * dereferenced only when the owner does not match, so a null descriptor
   * throws at the first id the owner does not contain.
   */
  function IsInGroup(sym: Symbol, groupIds: seq<string>): (r: Result<bool, Exception>)
    ensures groupIds == [] ==> r == Success(false)
    ensures r == Success(true) ==> exists k :: 0 <= k < |groupIds| && Mentions(sym, groupIds[k])
    ensures r.Failure? ==> r.error == NullPointer && sym.descriptor.None? && groupIds != []
  {
    if groupIds == [] then Success(false)
    else if Contains(sym.owner, groupIds[0]) then Success(true)
    else if sym.descriptor.None? then Failure(NullPointer)
    else if Contains(sym.descriptor.value, groupIds[0]) then Success(true)
    else
      var r := IsInGroup(sym, groupIds[1..]);
      assert r == Success(true) ==> exists k :: 1 <= k < |groupIds| && Mentions(sym, groupIds[k]) by {
        if r == Success(true) {
          var k :| 0 <= k < |groupIds[1..]| && Mentions(sym, groupIds[1..][k]);
          assert groupIds[1..][k] == groupIds[k + 1];
        }
      }
      r
  }

  /** With a descriptor present, a symbol is in the group iff one of the ids occurs in its owner or descriptor. */
  lemma {:induction false} IsInGroupIff(sym: Symbol, groupIds: seq<string>)
    requires sym.descriptor.Some?
    ensures IsInGroup(sym, groupIds) == Success(exists k :: 0 <= k < |groupIds| && Mentions(sym, groupIds[k]))
    decreases |groupIds|
  {
    if groupIds != [] && !Mentions(sym, groupIds[0]) {
      IsInGroupIff(sym, groupIds[1..]);
      if exists k :: 0 <= k < |groupIds| && Mentions(sym, groupIds[k]) {
        var k :| 0 <= k < |groupIds| && Mentions(sym, groupIds[k]);
        assert groupIds[1..][k - 1] == groupIds[k];
      }
    }
  }

  /**
   * With a null descriptor the answer is decided by the first id alone: true
   * if the owner contains it, a NullPointerException otherwise.
   */
  lemma IsInGroupNullDescriptor(sym: Symbol, groupIds: seq<string>)
    requires sym.descriptor.None? && groupIds != []
    ensures IsInGroup(sym, groupIds) == if Contains(sym.owner, groupIds[0]) then Success(true) else Failure(NullPointer)
  {
  }

  /** Adding ids never takes a symbol with a descriptor out of the group. */
  lemma IsInGroupMonotone(sym: Symbol, groupIds: seq<string>, more: seq<string>)
    requires sym.descriptor.Some?
    requires forall id :: id in groupIds ==> id in more
    requires IsInGroup(sym, groupIds) == Success(true)
    ensures IsInGroup(sym, more) == Success(true)
  {
    IsInGroupIff(sym, groupIds);
    IsInGroupIff(sym, more);
    var k :| 0 <= k < |groupIds| && Mentions(sym, groupIds[k]);
    assert groupIds[k] in more;
    var j :| 0 <= j < |more| && more[j] == groupIds[k];
    assert Mentions(sym, more[j]);
  }

  /** Appending ids keeps any symbol in the group, even one with a null descriptor. */
  lemma {:induction false} IsInGroupAppend(sym: Symbol, groupIds: seq<string>, more: seq<string>)
    requires IsInGroup(sym, groupIds) == Success(true)
    ensures IsInGroup(sym, groupIds + more) == Success(true)
    decreases |groupIds|
  {
    assert (groupIds + more)[0] == groupIds[0];
    if !Contains(sym.owner, groupIds[0]) && !(sym.descriptor.Some? && Contains(sym.descriptor.value, groupIds[0])) {
      IsInGroupAppend(sym, groupIds[1..], more);
      assert (groupIds + more)[1..] == groupIds[1..] + more;
    }
  }
}
