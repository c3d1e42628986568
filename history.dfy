/**
 * Lists of keyword texts compared ignoring case, as the keyword history, the configuration
 * and the controller keep them, and the list operations of Python they are built with.
 */
module Histories {
  import opened Text

  /** Some entry equals `text` ignoring case. */
  predicate InHistory(history: seq<string>, text: string) {
    exists i :: 0 <= i < |history| && LowerStr(history[i]) == LowerStr(text)
  }

  /** No two entries are equal ignoring case. */
  predicate CaselessUnique(history: seq<string>) {
    forall i, j :: 0 <= i < j < |history| ==> LowerStr(history[i]) != LowerStr(history[j])
  }

  /** Python's `xs[-n:]`. For `n > 0` these are the last `n` elements, or all of them; for
      `n <= 0` the slice starts `-n` elements from the front, so `xs[-0:]` is all of `xs`. */
  function TailSlice<T>(xs: seq<T>, n: int): (r: seq<T>)
    ensures |r| == if n > 0 then (if n < |xs| then n else |xs|) else (if -n < |xs| then |xs| + n else 0)
    ensures r == xs[|xs| - |r|..]
  {
    if n > 0 then (if n < |xs| then xs[|xs| - n..] else xs)
    else if -n < |xs| then xs[-n..] else []
  }

  /** `[kw for kw in xs if kw.lower() != text.lower()]`: every entry equal to `text` ignoring
      case left out, the others in order. */
  function WithoutCaseless(xs: seq<string>, text: string): (r: seq<string>)
    ensures |r| <= |xs|
    ensures forall i :: 0 <= i < |r| ==> LowerStr(r[i]) != LowerStr(text) && r[i] in xs
    decreases |xs|
  {
    if xs == [] then []
    else (if LowerStr(xs[0]) == LowerStr(text) then [] else [xs[0]]) + WithoutCaseless(xs[1..], text)
  }

  /** `[kw for kw in xs if kw.lower() == text.lower()]`: the entries equal to `text` ignoring
      case, in order. */
  function Matching(xs: seq<string>, text: string): (r: seq<string>)
    ensures |r| <= |xs|
    ensures forall i :: 0 <= i < |r| ==> LowerStr(r[i]) == LowerStr(text) && r[i] in xs
    decreases |xs|
  {
    if xs == [] then []
    else (if LowerStr(xs[0]) == LowerStr(text) then [xs[0]] else []) + Matching(xs[1..], text)
  }

  /** Python's `xs.remove(v)`: the first element equal to `v` taken out. */
  function RemoveValue(xs: seq<string>, v: string): (r: seq<string>)
    requires v in xs
    ensures |r| == |xs| - 1
    decreases |xs|
  {
    if xs[0] == v then xs[1..] else [xs[0]] + RemoveValue(xs[1..], v)
  }

  /** An entry is kept exactly when it differs from `text` ignoring case. */
  lemma {:induction false} WithoutCaselessMembers(xs: seq<string>, text: string, x: string)
    ensures x in WithoutCaseless(xs, text) <==> x in xs && LowerStr(x) != LowerStr(text)
    decreases |xs|
  {
    if xs != [] {
      WithoutCaselessMembers(xs[1..], text, x);
      assert x in xs <==> x == xs[0] || x in xs[1..];
    }
  }

  /** Nothing is left out when no entry matches. */
  lemma {:induction false} WithoutCaselessOfAbsent(xs: seq<string>, text: string)
    requires !InHistory(xs, text)
    ensures WithoutCaseless(xs, text) == xs
    decreases |xs|
  {
    if xs != [] {
      assert !InHistory(xs[1..], text) by {
        forall i | 0 <= i < |xs[1..]| ensures LowerStr(xs[1..][i]) != LowerStr(text) {
          assert xs[1..][i] == xs[i + 1];
        }
      }
      WithoutCaselessOfAbsent(xs[1..], text);
    }
  }

  /** Leaving entries out keeps a list free of case-insensitive duplicates. */
  lemma {:induction false} WithoutCaselessUnique(xs: seq<string>, text: string)
    requires CaselessUnique(xs)
    ensures CaselessUnique(WithoutCaseless(xs, text))
    decreases |xs|
  {
    if xs != [] {
      var rest := xs[1..];
      assert CaselessUnique(rest) by {
        forall i, j | 0 <= i < j < |rest| ensures LowerStr(rest[i]) != LowerStr(rest[j]) {
          assert rest[i] == xs[i + 1] && rest[j] == xs[j + 1];
        }
      }
      WithoutCaselessUnique(rest, text);
      var tail := WithoutCaseless(rest, text);
      var r := WithoutCaseless(xs, text);
      if LowerStr(xs[0]) != LowerStr(text) {
        assert r == [xs[0]] + tail;
        forall j | 0 <= j < |tail| ensures LowerStr(xs[0]) != LowerStr(tail[j]) {
          var k :| 0 <= k < |rest| && rest[k] == tail[j];
          assert xs[k + 1] == tail[j];
        }
        forall i, j | 0 <= i < j < |r| ensures LowerStr(r[i]) != LowerStr(r[j]) {
          assert r[j] == tail[j - 1];
          if i > 0 {
            assert r[i] == tail[i - 1];
          }
        }
      } else {
        assert r == tail;
      }
    }
  }

  /** Some entry matches exactly when the list of matching entries is not empty. */
  lemma {:induction false} MatchingNonEmpty(xs: seq<string>, text: string)
    ensures Matching(xs, text) != [] <==> InHistory(xs, text)
    decreases |xs|
  {
    if xs != [] {
      MatchingNonEmpty(xs[1..], text);
      if InHistory(xs[1..], text) {
        var i :| 0 <= i < |xs[1..]| && LowerStr(xs[1..][i]) == LowerStr(text);
        assert xs[i + 1] == xs[1..][i];
      }
      if InHistory(xs, text) && LowerStr(xs[0]) != LowerStr(text) {
        var i :| 0 <= i < |xs| && LowerStr(xs[i]) == LowerStr(text);
        assert xs[1..][i - 1] == xs[i];
      }
    }
  }

  /** In a list without case-insensitive duplicates, removing the first matching entry is
      removing every matching entry. */
  lemma {:induction false} RemoveFirstMatchOfUnique(xs: seq<string>, text: string)
    requires CaselessUnique(xs) && InHistory(xs, text)
    ensures Matching(xs, text) != []
    ensures RemoveValue(xs, Matching(xs, text)[0]) == WithoutCaseless(xs, text)
    decreases |xs|
  {
    MatchingNonEmpty(xs, text);
    var rest := xs[1..];
    assert CaselessUnique(rest) by {
      forall i, j | 0 <= i < j < |rest| ensures LowerStr(rest[i]) != LowerStr(rest[j]) {
        assert rest[i] == xs[i + 1] && rest[j] == xs[j + 1];
      }
    }
    if LowerStr(xs[0]) == LowerStr(text) {
      assert !InHistory(rest, text) by {
        forall i | 0 <= i < |rest| ensures LowerStr(rest[i]) != LowerStr(text) {
          assert rest[i] == xs[i + 1];
        }
      }
      WithoutCaselessOfAbsent(rest, text);
      assert Matching(xs, text)[0] == xs[0];
    } else {
      var i :| 0 <= i < |xs| && LowerStr(xs[i]) == LowerStr(text);
      assert rest[i - 1] == xs[i];
      RemoveFirstMatchOfUnique(rest, text);
      var m := Matching(xs, text)[0];
      assert Matching(xs, text) == Matching(rest, text);
      assert m != xs[0];
      assert m in rest;
    }
  }
}
