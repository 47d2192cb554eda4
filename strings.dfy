/**
 * The java.lang.String operations the evaluator and its settings rely on:
 * `startsWith` (a sequence prefix in Dafny), `replace(target, replacement)`
 * and `trim()`, and the cutting of a string at its commas.
 */
module Strings {

  /** `s.startsWith(prefix)`. */
  predicate StartsWith(s: string, prefix: string) {
    prefix <= s
  }

  /** `target` occurs somewhere inside `s`. */
  predicate Occurs(s: string, target: string) {
    exists i :: 0 <= i <= |s| && target <= s[i..]
  }

  /**
   * `s.replace(target, replacement)`: scanning left to right, every
   * non-overlapping occurrence of `target` is replaced.
   */
  function Replace(s: string, target: string, replacement: string): (r: string)
    requires target != []
    ensures |replacement| == |target| ==> |r| == |s|
    ensures replacement == target ==> r == s
    decreases |s|
  {
    if s == [] then []
    else if target <= s then
      assert target + s[|target|..] == s;
      replacement + Replace(s[|target|..], target, replacement)
    else [s[0]] + Replace(s[1..], target, replacement)
  }

  /** A string that does not contain the target is left as it is. */
  lemma {:induction false} ReplaceAbsent(s: string, target: string, replacement: string)
    requires target != []
    requires !Occurs(s, target)
    ensures Replace(s, target, replacement) == s
    decreases |s|
  {
    if s != [] {
      assert s[0..] == s;
      assert !(target <= s);
      assert !Occurs(s[1..], target) by {
        forall i | 0 <= i <= |s[1..]| ensures !(target <= s[1..][i..]) {
          assert s[1..][i..] == s[i + 1..];
        }
      }
      ReplaceAbsent(s[1..], target, replacement);
    }
  }

  /**
   * Replacement works piece by piece: text in front of an occurrence that
   * holds no occurrence itself is copied, the occurrence is replaced, and
   * the rest is processed in turn.
   */
  lemma {:induction false} ReplaceSplits(pre: string, target: string, post: string, replacement: string)
    requires target != []
    requires forall i :: 0 <= i < |pre| ==> !(target <= (pre + target + post)[i..])
    ensures Replace(pre + target + post, target, replacement)
         == pre + replacement + Replace(post, target, replacement)
    decreases |pre|
  {
    var s := pre + target + post;
    if pre == [] {
      assert s == target + post;
      assert s[|target|..] == post;
    } else {
      var rest := pre[1..] + target + post;
      assert s[1..] == rest;
      assert !(target <= s) by {
        assert s[0..] == s;
      }
      assert forall i :: 0 <= i < |pre[1..]| ==> !(target <= rest[i..]) by {
        forall i | 0 <= i < |pre[1..]| ensures !(target <= rest[i..]) {
          assert rest[i..] == s[i + 1..];
        }
      }
      ReplaceSplits(pre[1..], target, post, replacement);
      var tail := Replace(post, target, replacement);
      assert Replace(s, target, replacement) == [s[0]] + (pre[1..] + replacement + tail);
      PrependJoin(s[0], pre[1..], replacement, tail);
      assert [s[0]] + pre[1..] == pre;
    }
  }

  lemma PrependJoin(c: char, a: string, b: string, d: string)
    ensures [c] + (a + b + d) == [c] + a + b + d
  {
  }

  /** A character `trim()` removes: any code point up to and including the space. */
  predicate IsBlank(c: char) {
    c <= ' '
  }

  /** The string starts and ends with a non-blank character, or is empty. */
  predicate Trimmed(s: string) {
    s == [] || (!IsBlank(s[0]) && !IsBlank(s[|s| - 1]))
  }

  function TrimStart(s: string): (r: string)
    ensures |r| <= |s| && r == s[|s| - |r|..]
    ensures r == [] || !IsBlank(r[0])
    ensures forall k :: 0 <= k < |s| - |r| ==> IsBlank(s[k])
    decreases |s|
  {
    if s != [] && IsBlank(s[0]) then TrimStart(s[1..]) else s
  }

  function TrimEnd(s: string): (r: string)
    ensures |r| <= |s| && r <= s
    ensures r == [] || !IsBlank(r[|r| - 1])
    ensures forall k :: |r| <= k < |s| ==> IsBlank(s[k])
    decreases |s|
  {
    if s != [] && IsBlank(s[|s| - 1]) then TrimEnd(s[..|s| - 1]) else s
  }

  /** `s.trim()`: blank characters at both ends are removed, and nothing else. */
  function Trim(s: string): (r: string)
    ensures Trimmed(r)
    ensures |r| <= |s|
    ensures exists i, j :: 0 <= i <= j <= |s| && r == s[i..j]
                           && (forall k :: 0 <= k < i ==> IsBlank(s[k]))
                           && (forall k :: j <= k < |s| ==> IsBlank(s[k]))
  {
    var t := TrimStart(s);
    BlankEndsCut(s, t, TrimEnd(t));
    TrimEnd(t)
  }

  /**
   * Cutting blanks off the front of `s` gives `t`, and cutting blanks off
   * the back of `t` gives `r`: then `r` is a slice of `s` with only blanks
   * outside it.
   */
  lemma BlankEndsCut(s: string, t: string, r: string)
    requires |t| <= |s| && t == s[|s| - |t|..]
    requires forall k :: 0 <= k < |s| - |t| ==> IsBlank(s[k])
    requires |r| <= |t| && r <= t
    requires forall k :: |r| <= k < |t| ==> IsBlank(t[k])
    ensures var i := |s| - |t|;
            && i + |r| <= |s| && r == s[i..i + |r|]
            && (forall k :: 0 <= k < i ==> IsBlank(s[k]))
            && (forall k :: i + |r| <= k < |s| ==> IsBlank(s[k]))
  {
    var i := |s| - |t|;
    forall k | i + |r| <= k < |s| ensures IsBlank(s[k]) {
      assert s[k] == t[k - i];
    }
  }

  /** Blank characters in front of a string that starts with a non-blank one are all removed. */
  lemma {:induction false} TrimStartBlanks(b: string, t: string)
    requires forall k :: 0 <= k < |b| ==> IsBlank(b[k])
    requires t == [] || !IsBlank(t[0])
    ensures TrimStart(b + t) == t
    decreases |b|
  {
    if b != [] {
      assert (b + t)[1..] == b[1..] + t;
      TrimStartBlanks(b[1..], t);
    }
  }

  /** Blank characters behind a string that ends with a non-blank one are all removed. */
  lemma {:induction false} TrimEndBlanks(t: string, e: string)
    requires forall k :: 0 <= k < |e| ==> IsBlank(e[k])
    requires t == [] || !IsBlank(t[|t| - 1])
    ensures TrimEnd(t + e) == t
    decreases |e|
  {
    if e != [] {
      assert (t + e)[..|t + e| - 1] == t + e[..|e| - 1];
      TrimEndBlanks(t, e[..|e| - 1]);
    }
  }

  /** A trimmed string padded with blank characters on both sides is trimmed back to itself. */
  lemma PaddedTrim(b: string, t: string, e: string)
    requires forall k :: 0 <= k < |b| ==> IsBlank(b[k])
    requires forall k :: 0 <= k < |e| ==> IsBlank(e[k])
    requires Trimmed(t)
    ensures Trim(b + t + e) == t
  {
    assert b + t + e == b + (t + e);
    if t == [] {
      assert t + e == e;
      assert forall k :: 0 <= k < |b + e| ==> IsBlank((b + e)[k]);
      TrimStartBlanks(b + e, []);
      assert b + e + [] == b + e;
      TrimEndBlanks([], []);
    } else {
      TrimStartBlanks(b, t + e);
      TrimEndBlanks(t, e);
    }
  }

  /** A string that is already trimmed is left as it is. */
  lemma TrimKeepsTrimmed(s: string)
    requires Trimmed(s)
    ensures Trim(s) == s
  {
  }

  /** The pieces of `s` between its commas, in order, empty ones included. */
  function CommaPieces(s: string): (r: seq<string>)
    ensures |r| >= 1
    ensures forall i :: 0 <= i < |r| ==> ',' !in r[i]
    decreases |s|
  {
    if s == [] then [[]]
    else
      var rest := CommaPieces(s[1..]);
      if s[0] == ',' then [[]] + rest
      else [[s[0]] + rest[0]] + rest[1..]
  }

  /** The pieces joined back with commas. */
  function JoinCommas(ps: seq<string>): string
    requires |ps| >= 1
    decreases |ps|
  {
    if |ps| == 1 then ps[0] else ps[0] + "," + JoinCommas(ps[1..])
  }

  /** Cutting at the commas and joining with commas gives the string back. */
  lemma {:induction false} JoinCommaPieces(s: string)
    ensures JoinCommas(CommaPieces(s)) == s
    decreases |s|
  {
    if s != [] {
      JoinCommaPieces(s[1..]);
      var rest := CommaPieces(s[1..]);
      if s[0] == ',' {
        assert ([[]] + rest)[1..] == rest;
        assert s == [] + "," + s[1..];
      } else {
        var r := [[s[0]] + rest[0]] + rest[1..];
        assert r[1..] == rest[1..];
        if |rest| == 1 {
          assert s == [s[0]] + rest[0];
        } else {
          assert JoinCommas(rest) == rest[0] + "," + JoinCommas(rest[1..]);
          assert s == [s[0]] + rest[0] + "," + JoinCommas(rest[1..]);
        }
      }
    }
  }

  /** A piece in front of a comma is cut off on its own. */
  lemma {:induction false} CommaPiecesOfPrefix(a: string, rest: string)
    requires ',' !in a
    ensures CommaPieces(a + "," + rest) == [a] + CommaPieces(rest)
    decreases |a|
  {
    if a == [] {
      assert a + "," + rest == [','] + rest;
      assert (a + "," + rest)[1..] == rest;
    } else {
      var s := a + "," + rest;
      assert s[1..] == a[1..] + "," + rest;
      assert ',' !in a[1..] by {
        forall i | 0 <= i < |a[1..]| ensures a[1..][i] != ',' {
          assert a[1..][i] == a[i + 1];
        }
      }
      CommaPiecesOfPrefix(a[1..], rest);
      assert [a[0]] + a[1..] == a;
    }
  }

  /** A string without a comma is one piece. */
  lemma {:induction false} CommaPiecesOfPiece(a: string)
    requires ',' !in a
    ensures CommaPieces(a) == [a]
    decreases |a|
  {
    if a != [] {
      assert ',' !in a[1..] by {
        forall i | 0 <= i < |a[1..]| ensures a[1..][i] != ',' {
          assert a[1..][i] == a[i + 1];
        }
      }
      CommaPiecesOfPiece(a[1..]);
      assert [a[0]] + a[1..] == a;
    }
  }

  /** Comma-free pieces joined with commas are cut back into the same pieces. */
  lemma {:induction false} CommaPiecesOfJoin(ps: seq<string>)
    requires |ps| >= 1 && forall i :: 0 <= i < |ps| ==> ',' !in ps[i]
    ensures CommaPieces(JoinCommas(ps)) == ps
    decreases |ps|
  {
    if |ps| == 1 {
      CommaPiecesOfPiece(ps[0]);
    } else {
      CommaPiecesOfJoin(ps[1..]);
      CommaPiecesOfPrefix(ps[0], JoinCommas(ps[1..]));
      assert [ps[0]] + ps[1..] == ps;
    }
  }
}
