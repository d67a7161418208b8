/**
 * The parts of `java.lang.String` the core relies on, on `seq<char>`, and the
 * kinds of exception the modelled code raises or lets escape.
 * Indices follow Java: `indexOf`/`lastIndexOf` answer -1 when the character is absent.
 */
module JavaLang {

  /** The exceptions that end a modelled call. */
  datatype Exception =
    | IndexOutOfBounds                                          // array, list or substring index out of range
    | NullPointer                                               // a null field or element dereferenced
    | AmbiguousClassName(name: string, candidates: seq<string>) // "Multiple classes Named ..."
    | PromptInfoNotInitialized                                  // "PromptInfo is null, you need to initialize it first."
    | NoResponse                                                // "Response is null, failed to get response."
    | RunnerFailure(target: string)                             // an unchecked exception out of the runner
    | IOFailure                                                 // an IOException: a file not read, "Method ... not found"

  /** How a `void` Java method ended. */
  datatype Outcome = Returned | Threw(exception: Exception)

  /** `sub` occurs in `s` starting at index `i`. */
  ghost predicate OccursAt(s: string, sub: string, i: int)
  {
    0 <= i && i + |sub| <= |s| && s[i..i + |sub|] == sub
  }

  /** `s.contains(sub)`: scans `s` from the left for an occurrence of `sub`. */
  predicate Contains(s: string, sub: string): (r: bool)
    ensures sub == "" ==> r
    ensures |sub| > |s| ==> !r
    decreases |s|
  {
    if |sub| <= |s| && s[..|sub|] == sub then true
    else if |s| == 0 then false
    else Contains(s[1..], sub)
  }

  /** The scan finds `sub` exactly when `sub` occurs somewhere in `s`. */
  lemma {:induction false} ContainsIff(s: string, sub: string)
    ensures Contains(s, sub) <==> exists i :: OccursAt(s, sub, i)
    decreases |s|
  {
    if |sub| <= |s| && s[..|sub|] == sub {
      assert OccursAt(s, sub, 0);
    } else if |s| == 0 {
      assert forall i :: !OccursAt(s, sub, i);
    } else {
      ContainsIff(s[1..], sub);
      if Contains(s, sub) {
        var j :| OccursAt(s[1..], sub, j);
        assert s[1..][j..j + |sub|] == s[j + 1..j + 1 + |sub|];
        assert OccursAt(s, sub, j + 1);
      }
      if exists i :: OccursAt(s, sub, i) {
        var i :| OccursAt(s, sub, i);
        assert i != 0;
        assert s[1..][i - 1..i - 1 + |sub|] == s[i..i + |sub|];
        assert OccursAt(s[1..], sub, i - 1);
      }
    }
  }

  /** Every string contains itself, and so every string contains "". */
  lemma ContainsItself(s: string, sub: string)
    ensures Contains(s, s)
    ensures Contains(s, "")
  {
    ContainsIff(s, s);
    assert OccursAt(s, s, 0);
    ContainsIff(s, "");
    assert OccursAt(s, "", 0);
  }

  /** A one-character string is contained exactly when that character is. */
  lemma ContainsChar(s: string, c: char)
    ensures Contains(s, [c]) <==> c in s
  {
    ContainsIff(s, [c]);
    if c in s {
      var k :| 0 <= k < |s| && s[k] == c;
      assert s[k..k + 1] == [c];
      assert OccursAt(s, [c], k);
    }
    if exists i :: OccursAt(s, [c], i) {
      var i :| OccursAt(s, [c], i);
      assert s[i] == s[i..i + 1][0] == c;
    }
  }

  /** `s.indexOf(c)`: the first index of `c` in `s`, or -1. */
  function IndexOf(s: string, c: char): (r: int)
    ensures -1 <= r < |s|
    ensures r == -1 <==> c !in s
    ensures 0 <= r ==> s[r] == c && c !in s[..r]
  {
    if |s| == 0 then -1
    else if s[0] == c then 0
    else
      var k := IndexOf(s[1..], c);
      if k == -1 then -1
      else
        assert s[..k + 1] == [s[0]] + s[1..][..k];
        k + 1
  }

  /** `s.lastIndexOf(c)`: the last index of `c` in `s`, or -1. */
  function LastIndexOf(s: string, c: char): (r: int)
    ensures -1 <= r < |s|
    ensures r == -1 <==> c !in s
    ensures 0 <= r ==> s[r] == c && c !in s[r + 1..]
  {
    if |s| == 0 then -1
    else if s[|s| - 1] == c then |s| - 1
    else
      var k := LastIndexOf(s[..|s| - 1], c);
      if k == -1 then
        assert s == s[..|s| - 1] + [s[|s| - 1]];
        -1
      else
        assert s[k + 1..] == s[..|s| - 1][k + 1..] + [s[|s| - 1]];
        k
  }

  /** An index holding `c` with no `c` after it is the last index of `c`. */
  lemma LastIndexOfUnique(s: string, c: char, k: int)
    requires 0 <= k < |s| && s[k] == c && c !in s[k + 1..]
    ensures LastIndexOf(s, c) == k
  {
    var r := LastIndexOf(s, c);
    forall j | k < j < |s| ensures s[j] != c {
      assert s[k + 1..][j - k - 1] == s[j];
    }
    forall j | r < j < |s| ensures s[j] != c {
      assert s[r + 1..][j - r - 1] == s[j];
    }
  }

  /** An index holding `c` with no `c` before it is the first index of `c`. */
  lemma IndexOfUnique(s: string, c: char, k: int)
    requires 0 <= k < |s| && s[k] == c && c !in s[..k]
    ensures IndexOf(s, c) == k
  {
    var r := IndexOf(s, c);
    forall j | 0 <= j < k ensures s[j] != c {
      assert s[..k][j] == s[j];
    }
    forall j | 0 <= j < r ensures s[j] != c {
      assert s[..r][j] == s[j];
    }
  }

  /**
   * `s.substring(s.lastIndexOf(c) + 1)`: the text after the last `c`,
   * or all of `s` when it holds no `c`.
   */
  function AfterLast(s: string, c: char): (r: string)
    ensures c !in r
    ensures |r| <= |s| && r == s[|s| - |r|..]
    ensures c !in s ==> r == s
    ensures c in s ==> s[|s| - |r| - 1] == c
  {
    s[LastIndexOf(s, c) + 1..]
  }

  /** The text before the first `c`, or all of `s` when it holds no `c`. */
  function BeforeFirst(s: string, c: char): (r: string)
    ensures c !in r
    ensures |r| <= |s| && r == s[..|r|]
    ensures c !in s ==> r == s
    ensures c in s ==> |r| < |s| && s[|r|] == c
  {
    if c in s then s[..IndexOf(s, c)] else s
  }

  /** After the last separator of `x + [c] + y` comes exactly `y`, when `y` holds no `c`. */
  lemma AfterLastOfJoin(x: string, c: char, y: string)
    requires c !in y
    ensures AfterLast(x + [c] + y, c) == y
  {
    var s := x + [c] + y;
    assert s[|x| + 1..] == y;
    LastIndexOfUnique(s, c, |x|);
  }

  /** Text in front of a suffix that holds `c` does not change what follows the last `c`. */
  lemma AfterLastOfSuffix(x: string, y: string, c: char)
    requires c in y
    ensures AfterLast(x + y, c) == AfterLast(y, c)
  {
    var l := LastIndexOf(y, c);
    var s := x + y;
    assert s[|x| + l] == y[l];
    assert s[|x| + l + 1..] == y[l + 1..];
    LastIndexOfUnique(s, c, |x| + l);
  }

  /** Before the first separator of `x + [c] + y` comes exactly `x`, when `x` holds no `c`. */
  lemma BeforeFirstOfJoin(x: string, c: char, y: string)
    requires c !in x
    ensures BeforeFirst(x + [c] + y, c) == x
  {
    var s := x + [c] + y;
    assert s[..|x|] == x;
    IndexOfUnique(s, c, |x|);
  }

  /** `s.replace(a, b)` for one-character strings `a` and `b`: every `a` becomes `b`. */
  function Replace(s: string, a: char, b: char): (r: string)
    ensures |r| == |s|
    ensures forall i :: 0 <= i < |s| ==> r[i] == (if s[i] == a then b else s[i])
  {
    if |s| == 0 then []
    else [if s[0] == a then b else s[0]] + Replace(s[1..], a, b)
  }

  /** Every character of `s` is `c` (true of ""). */
  ghost predicate AllChar(s: string, c: char)
  {
    forall i :: 0 <= i < |s| ==> s[i] == c
  }

  /** The pieces of `s` between occurrences of `c`, empty pieces included. */
  function Pieces(s: string, c: char): (r: seq<string>)
    ensures |r| >= 1
    decreases |s|
  {
    if c !in s then [s]
    else
      var k := IndexOf(s, c);
      [s[..k]] + Pieces(s[k + 1..], c)
  }

  /** No piece holds the separator. */
  lemma {:induction false} PiecesHaveNoSeparator(s: string, c: char)
    ensures forall p :: p in Pieces(s, c) ==> c !in p
    decreases |s|
  {
    if c in s {
      var k := IndexOf(s, c);
      var rest := Pieces(s[k + 1..], c);
      assert Pieces(s, c) == [s[..k]] + rest;
      PiecesHaveNoSeparator(s[k + 1..], c);
      forall p | p in Pieces(s, c) ensures c !in p {
        if p != s[..k] {
          assert p in rest;
        }
      }
    }
  }

  /** The last piece is the text after the last separator. */
  lemma {:induction false} LastPiece(s: string, c: char)
    ensures var ps := Pieces(s, c); ps[|ps| - 1] == AfterLast(s, c)
    decreases |s|
  {
    if c in s {
      var k := IndexOf(s, c);
      var t := s[k + 1..];
      var pt := Pieces(t, c);
      var ps := Pieces(s, c);
      assert ps == [s[..k]] + pt;
      assert ps[|ps| - 1] == pt[|pt| - 1];
      LastPiece(t, c);
      AfterLastOfSplit(s, c, k);
    } else {
      assert Pieces(s, c) == [s];
    }
  }

  /** Splitting at a separator at `k` leaves what follows the last separator unchanged. */
  lemma AfterLastOfSplit(s: string, c: char, k: nat)
    requires k < |s| && s[k] == c
    ensures AfterLast(s, c) == AfterLast(s[k + 1..], c)
  {
    var x, t := s[..k], s[k + 1..];
    assert s == x + [c] + t;
    if c in t {
      AfterLastOfSuffix(x + [c], t, c);
    } else {
      AfterLastOfJoin(x, c, t);
    }
  }

  /** Every piece is empty exactly when `s` consists of separators only. */
  lemma {:induction false} PiecesAllEmpty(s: string, c: char)
    ensures (forall p :: p in Pieces(s, c) ==> p == "") <==> AllChar(s, c)
    decreases |s|
  {
    if c !in s {
      assert Pieces(s, c) == [s];
      if |s| > 0 {
        assert s[0] != c && s in Pieces(s, c);
      }
    } else {
      var k := IndexOf(s, c);
      var t := s[k + 1..];
      PiecesAllEmpty(t, c);
      if k == 0 {
        var pt := Pieces(t, c);
        assert Pieces(s, c) == [""] + pt;
        forall p | p in pt ensures p in Pieces(s, c) {
          assert ([""] + pt)[1..] == pt;
        }
        assert AllChar(s, c) <==> AllChar(t, c) by {
          assert s == [c] + t;
          if AllChar(t, c) {
            forall i | 0 <= i < |s| ensures s[i] == c {
              if i > 0 { assert s[i] == t[i - 1]; }
            }
          }
          if AllChar(s, c) {
            forall i | 0 <= i < |t| ensures t[i] == c {
              assert t[i] == s[i + 1];
            }
          }
        }
      } else {
        assert Pieces(s, c) == [s[..k]] + Pieces(t, c);
        assert s[..k] in Pieces(s, c) && s[..k] != "";
        assert s[..k][0] == s[0];
      }
    }
  }

  /** What `ps` keeps once its trailing empty strings are removed. */
  function DropTrailingEmpty(ps: seq<string>): (r: seq<string>)
    ensures |r| <= |ps| && r == ps[..|r|]
    ensures r != [] ==> r[|r| - 1] != ""
    ensures forall i :: |r| <= i < |ps| ==> ps[i] == ""
  {
    if ps == [] then []
    else if ps[|ps| - 1] == "" then DropTrailingEmpty(ps[..|ps| - 1])
    else ps
  }

  /**
   * `s.split(regex)` for a regex that matches exactly the character `c`
   * (Java's `split("/")`, `split("\\(")`): when `c` does not occur the result
   * is `[s]`; otherwise the pieces between separators with the trailing empty
   * ones removed, which leaves nothing at all when `s` is only separators.
   */
  function Split(s: string, c: char): (r: seq<string>)
    ensures forall p :: p in r ==> c !in p
    ensures r == [] <==> |s| > 0 && AllChar(s, c)
    ensures r != [] ==> r[0] == BeforeFirst(s, c)
    ensures |s| > 0 && s[|s| - 1] != c ==> r != [] && r[|r| - 1] == AfterLast(s, c)
  {
    if c !in s then
      assert |s| > 0 ==> s[0] != c;
      [s]
    else
      PiecesHaveNoSeparator(s, c);
      LastPiece(s, c);
      PiecesAllEmpty(s, c);
      var ps := Pieces(s, c);
      var r := DropTrailingEmpty(ps);
      assert r == [] ==> forall p :: p in ps ==> p == "";
      assert r != [] ==> r[0] == ps[0] && r[|r| - 1] in ps;
      r
  }
}
