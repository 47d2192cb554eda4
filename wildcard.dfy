/**
 * The wildcard matcher the evaluator uses for every string comparison:
 * a pattern matches a candidate when every `*` in the pattern can be
 * replaced by some (possibly empty) string so that the two are equal.
 * A pattern without `*` matches exactly itself.
 */
module Wildcard {

  predicate ContainsWildcard(pattern: string) {
    '*' in pattern
  }

  /** `match(pattern, candidate)`; only a pattern made of `*` alone matches the empty candidate. */
  predicate Match(pattern: string, candidate: string): (b: bool)
    ensures b && candidate == [] ==> forall i :: 0 <= i < |pattern| ==> pattern[i] == '*'
    decreases |pattern| + |candidate|
  {
    if pattern == [] then candidate == []
    else if pattern[0] == '*' then
      Match(pattern[1..], candidate) || (candidate != [] && Match(pattern, candidate[1..]))
    else
      candidate != [] && pattern[0] == candidate[0] && Match(pattern[1..], candidate[1..])
  }

  /** `matchAny(String[] patterns, String candidate)`. */
  predicate MatchAny(patterns: seq<string>, candidate: string) {
    exists p :: p in patterns && Match(p, candidate)
  }

  /** `matchAny` over the array made from a set of patterns. */
  predicate MatchAnyIn(patterns: set<string>, candidate: string) {
    exists p :: p in patterns && Match(p, candidate)
  }

  /** `matchAny(String[] patterns, String[] candidates)`: some pattern matches some candidate. */
  predicate MatchAnyOfAny(patterns: seq<string>, candidates: set<string>) {
    exists p, c :: p in patterns && c in candidates && Match(p, c)
  }

  /** `getMatchAny(pattern, candidates)`: the candidates the pattern matches. */
  function GetMatchAny(pattern: string, candidates: set<string>): (r: set<string>)
    ensures r <= candidates
    ensures forall c :: c in candidates ==> (c in r <==> Match(pattern, c))
  {
    set c | c in candidates && Match(pattern, c)
  }

  /** Without a wildcard, matching is string equality. */
  lemma {:induction false} LiteralMatch(pattern: string, candidate: string)
    requires !ContainsWildcard(pattern)
    ensures Match(pattern, candidate) <==> pattern == candidate
    decreases |pattern|
  {
    if pattern != [] {
      assert pattern[0] != '*';
      assert !ContainsWildcard(pattern[1..]) by {
        assert forall k :: 0 <= k < |pattern[1..]| ==> pattern[1..][k] == pattern[k + 1];
      }
      if candidate != [] {
        LiteralMatch(pattern[1..], candidate[1..]);
        if pattern[0] == candidate[0] && pattern[1..] == candidate[1..] {
          assert pattern == [pattern[0]] + pattern[1..];
          assert candidate == [candidate[0]] + candidate[1..];
        }
      }
    }
  }

  /** A lone `*` matches every candidate. */
  lemma {:induction false} StarMatchesAll(candidate: string)
    ensures Match("*", candidate)
    decreases |candidate|
  {
    if candidate != [] {
      StarMatchesAll(candidate[1..]);
    }
  }

  /** `prefix*` with a wildcard-free prefix matches exactly the strings that start with the prefix. */
  lemma {:induction false} PrefixStarMatch(prefix: string, candidate: string)
    requires !ContainsWildcard(prefix)
    ensures Match(prefix + "*", candidate) <==> prefix <= candidate
    decreases |prefix|
  {
    if prefix == [] {
      assert prefix + "*" == "*";
      StarMatchesAll(candidate);
    } else {
      var p := prefix + "*";
      assert p[0] == prefix[0] && p[0] != '*';
      assert p[1..] == prefix[1..] + "*";
      assert !ContainsWildcard(prefix[1..]) by {
        assert forall k :: 0 <= k < |prefix[1..]| ==> prefix[1..][k] == prefix[k + 1];
      }
      if candidate != [] {
        PrefixStarMatch(prefix[1..], candidate[1..]);
        if prefix[0] == candidate[0] && prefix[1..] <= candidate[1..] {
          assert prefix == [prefix[0]] + prefix[1..];
          assert candidate == [candidate[0]] + candidate[1..];
        }
      }
    }
  }
}
