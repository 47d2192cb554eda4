/**
 * Values in the Search Guard configuration sections. A key holds a single
 * string or an array of strings, and `getAsArray` reads either one as an
 * array: a single string is cut at its commas and the empty pieces are
 * dropped (`Strings.splitStringByCommaToArray` of Elasticsearch 2), and
 * every element is trimmed.
 */
module Settings {
  import opened Wrappers
  import opened Strings

  /** A configuration value: a single string or an array of strings. */
  datatype Setting = Scalar(value: string) | Array(values: seq<string>)

  /** The non-empty pieces, in order. */
  function NonEmptyPieces(ps: seq<string>): (r: seq<string>)
    ensures forall p :: p in r <==> p in ps && p != []
    ensures |r| <= |ps|
    decreases |ps|
  {
    if ps == [] then []
    else
      var rest := NonEmptyPieces(ps[..|ps| - 1]);
      var last := ps[|ps| - 1];
      assert forall p :: p in ps <==> p in ps[..|ps| - 1] || p == last by {
        assert ps == ps[..|ps| - 1] + [last];
      }
      if last == [] then rest else rest + [last]
  }

  /** `splitStringByCommaToArray`: the non-empty pieces between the commas; an empty string has none. */
  function SplitByComma(s: string): (r: seq<string>)
    ensures forall p :: p in r <==> p in CommaPieces(s) && p != []
  {
    NonEmptyPieces(CommaPieces(s))
  }

  /** Every element trimmed. */
  function TrimAll(vs: seq<string>): seq<string> {
    seq(|vs|, i requires 0 <= i < |vs| => Trim(vs[i]))
  }

  /** `getAsArray` on a key that is present. */
  function AsArray(s: Setting): (r: seq<string>)
    ensures forall i :: 0 <= i < |r| ==> Trimmed(r[i])
    ensures s.Array? ==> |r| == |s.values|
  {
    match s
    case Scalar(v) => TrimAll(SplitByComma(v))
    case Array(vs) => TrimAll(vs)
  }

  /** `getAsArray` on a key that may be missing: a missing key reads as no element. */
  function ArrayOf(s: Option<Setting>): (r: seq<string>)
    ensures s.None? ==> r == []
  {
    if s.None? then [] else AsArray(s.value)
  }

  /** An array whose elements are already trimmed is read as it is. */
  lemma TrimmedArrayKept(vs: seq<string>)
    requires forall i :: 0 <= i < |vs| ==> Trimmed(vs[i])
    ensures AsArray(Array(vs)) == vs
  {
    forall i | 0 <= i < |vs| ensures AsArray(Array(vs))[i] == vs[i] {
      TrimKeepsTrimmed(vs[i]);
    }
  }

  /** Pieces that are all non-empty are all kept. */
  lemma {:induction false} NonEmptyKept(ps: seq<string>)
    requires forall i :: 0 <= i < |ps| ==> ps[i] != []
    ensures NonEmptyPieces(ps) == ps
    decreases |ps|
  {
    if ps != [] {
      NonEmptyKept(ps[..|ps| - 1]);
      assert ps[..|ps| - 1] + [ps[|ps| - 1]] == ps;
    }
  }

  /**
   * A single string that lists trimmed, comma-free pieces separated by
   * commas is read as those pieces with the empty ones dropped.
   */
  lemma CommaListSplits(ps: seq<string>)
    requires |ps| >= 1
    requires forall i :: 0 <= i < |ps| ==> ',' !in ps[i] && Trimmed(ps[i])
    ensures AsArray(Scalar(JoinCommas(ps))) == NonEmptyPieces(ps)
  {
    CommaPiecesOfJoin(ps);
    var r := NonEmptyPieces(ps);
    forall i | 0 <= i < |r| ensures Trimmed(r[i]) {
      assert r[i] in ps;
    }
    TrimmedArrayKept(r);
  }

  /** A comma list of non-empty, trimmed, comma-free elements is read as exactly those elements. */
  lemma CommaListOfElements(ps: seq<string>)
    requires |ps| >= 1
    requires forall i :: 0 <= i < |ps| ==> ps[i] != [] && ',' !in ps[i] && Trimmed(ps[i])
    ensures AsArray(Scalar(JoinCommas(ps))) == ps
  {
    CommaListSplits(ps);
    NonEmptyKept(ps);
  }

  /** `a,,b` reads as `a` and `b` when both are trimmed, non-empty and comma-free. */
  lemma EmptyMiddlePieceDropped(a: string, b: string)
    requires a != [] && ',' !in a && Trimmed(a)
    requires b != [] && ',' !in b && Trimmed(b)
    ensures AsArray(Scalar(a + "," + "" + "," + b)) == [a, b]
  {
    var ps := [a, "", b];
    assert JoinCommas(ps) == a + "," + "" + "," + b by {
      assert ps[1..] == ["", b] && ps[1..][1..] == [b];
      assert JoinCommas(ps[1..]) == "" + "," + b;
      assert JoinCommas(ps) == a + "," + ("" + "," + b);
    }
    forall k | 0 <= k < |ps| ensures ',' !in ps[k] && Trimmed(ps[k]) {
    }
    CommaListSplits(ps);
    assert NonEmptyPieces(ps) == [a, b] by {
      assert ps[..2] == [a, ""] && ps[..2][..1] == [a] && ps[..2][..1][..0] == [];
      assert NonEmptyPieces([a]) == [a];
      assert NonEmptyPieces(ps[..2]) == [a];
    }
  }

  /**
   * `a, b` reads as `a` and `b`: the blanks written after the comma are
   * trimmed away, when both elements are trimmed, non-empty and comma-free.
   */
  lemma BlankAfterCommaTrimmed(a: string, pad: string, b: string)
    requires a != [] && ',' !in a && Trimmed(a)
    requires b != [] && ',' !in b && Trimmed(b)
    requires forall k :: 0 <= k < |pad| ==> IsBlank(pad[k])
    ensures AsArray(Scalar(a + "," + pad + b)) == [a, b]
  {
    var ps := [a, pad + b];
    assert ',' !in pad + b by {
      forall k | 0 <= k < |pad + b| ensures (pad + b)[k] != ',' {
        if k < |pad| {
          assert IsBlank(pad[k]);
        } else {
          assert (pad + b)[k] == b[k - |pad|];
        }
      }
    }
    assert JoinCommas(ps) == a + "," + pad + b by {
      assert ps[1..] == [pad + b];
    }
    CommaPiecesOfJoin(ps);
    NonEmptyKept(ps);
    TrimKeepsTrimmed(a);
    PaddedTrim(pad, b, []);
    assert pad + b + [] == pad + b;
  }
}
