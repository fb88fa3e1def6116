/**
 * Transcript identifiers and their normalisation.
 *
 * An identifier such as "ENST00000398417.1" may carry a version suffix after a
 * period. The handler keeps only `identifier.split(".")[0]`: the text before
 * the first '.', or the whole identifier when it has no '.'.
 */
module TranscriptIds {

  /** Python's `s.split(".")`: the pieces between the periods, always at least one. */
  function SplitOnDot(s: string): (pieces: seq<string>)
    ensures |pieces| >= 1
  {
    if s == [] then [""]
    else
      var rest := SplitOnDot(s[1..]);
      if s[0] == '.' then [""] + rest
      else [[s[0]] + rest[0]] + rest[1..]
  }

  /** Python's `".".join(pieces)`, the inverse of SplitOnDot. */
  function JoinWithDot(pieces: seq<string>): string
  {
    if |pieces| == 0 then ""
    else if |pieces| == 1 then pieces[0]
    else pieces[0] + "." + JoinWithDot(pieces[1..])
  }

  /** Joining the pieces of a split gives back the identifier. */
  lemma {:induction false} JoinSplit(s: string)
    ensures JoinWithDot(SplitOnDot(s)) == s
  {
    if s != [] {
      JoinSplit(s[1..]);
      var rest := SplitOnDot(s[1..]);
      assert s == [s[0]] + s[1..];
      if s[0] == '.' {
        var pieces := [""] + rest;
        assert SplitOnDot(s) == pieces;
        assert pieces[1..] == rest;
        assert JoinWithDot(pieces) == "" + "." + JoinWithDot(rest);
      } else {
        var pieces := SplitOnDot(s);
        assert pieces == [[s[0]] + rest[0]] + rest[1..];
        if |rest| == 1 {
          assert JoinWithDot(rest) == rest[0];
          assert JoinWithDot(pieces) == pieces[0];
        } else {
          assert pieces[1..] == rest[1..];
          assert JoinWithDot(rest) == rest[0] + "." + JoinWithDot(rest[1..]);
          assert JoinWithDot(pieces) == pieces[0] + "." + JoinWithDot(rest[1..]);
        }
      }
    }
  }

  /** No piece of a split contains a period, and there is one piece more than there are periods. */
  lemma {:induction false} SplitPieces(s: string)
    ensures forall k :: 0 <= k < |SplitOnDot(s)| ==> '.' !in SplitOnDot(s)[k]
    ensures |SplitOnDot(s)| == multiset(s)['.'] + 1
  {
    if s != [] {
      SplitPieces(s[1..]);
      assert s == [s[0]] + s[1..];
      assert multiset(s) == multiset{s[0]} + multiset(s[1..]);
    }
  }

  /** Splitting dot-free pieces joined with periods gives back the pieces. */
  lemma {:induction false} SplitJoin(pieces: seq<string>)
    requires |pieces| >= 1
    requires forall k :: 0 <= k < |pieces| ==> '.' !in pieces[k]
    ensures SplitOnDot(JoinWithDot(pieces)) == pieces
  {
    if |pieces| == 1 {
      SplitOfDotFree(pieces[0], []);
      assert pieces[0] + [] == pieces[0];
      assert pieces == [pieces[0]];
    } else {
      SplitJoin(pieces[1..]);
      var tail := "." + JoinWithDot(pieces[1..]);
      assert SplitOnDot(tail) == [""] + pieces[1..] by {
        assert tail[1..] == JoinWithDot(pieces[1..]);
      }
      SplitOfDotFree(pieces[0], tail);
      assert JoinWithDot(pieces) == pieces[0] + tail;
      assert [pieces[0]] + pieces[1..] == pieces;
    }
  }

  /** A dot-free head in front of a text that starts a new piece (or is empty) extends that first piece. */
  lemma {:induction false} SplitOfDotFree(head: string, tail: string)
    requires '.' !in head
    requires tail == [] || tail[0] == '.'
    ensures tail == [] ==> SplitOnDot(head + tail) == [head]
    ensures tail != [] ==> SplitOnDot(head + tail) == [head] + SplitOnDot(tail)[1..]
  {
    if head == [] {
      assert head + tail == tail;
      if tail != [] {
        assert SplitOnDot(tail) == [""] + SplitOnDot(tail[1..]);
      }
    } else {
      SplitOfDotFree(head[1..], tail);
      assert (head + tail)[1..] == head[1..] + tail;
      assert [head[0]] + head[1..] == head;
    }
  }

  /** The first piece of a split is the longest period-free prefix. */
  lemma {:induction false} FirstPiece(s: string)
    ensures SplitOnDot(s)[0] <= s
    ensures '.' !in SplitOnDot(s)[0]
    ensures SplitOnDot(s)[0] == s || s[|SplitOnDot(s)[0]|] == '.'
  {
    if s != [] && s[0] != '.' {
      FirstPiece(s[1..]);
      assert s == [s[0]] + s[1..];
    }
  }

  /**
   * The identifier without its version suffix, `s.split(".")[0]`: a prefix of `s`
   * with no period, which is either all of `s` or is followed by the first period.
   */
  function Normalize(s: string): (r: string)
    ensures r <= s
    ensures '.' !in r
    ensures r == s || s[|r|] == '.'
  {
    FirstPiece(s);
    SplitOnDot(s)[0]
  }

  /** The three facts in Normalize's contract pin its result down: it is the only such prefix. */
  lemma NormalizeUnique(s: string)
    ensures forall p :: p <= s && '.' !in p && (p == s || s[|p|] == '.') ==> p == Normalize(s)
  {
    forall p | p <= s && '.' !in p && (p == s || s[|p|] == '.')
      ensures p == Normalize(s)
    {
    }
  }

  /** An identifier without a version suffix passes through unchanged. */
  lemma NormalizeWithoutDot(s: string)
    requires '.' !in s
    ensures Normalize(s) == s
  {
  }

  /** Normalising twice is normalising once. */
  lemma NormalizeIdempotent(s: string)
    ensures Normalize(Normalize(s)) == Normalize(s)
  {
    NormalizeWithoutDot(Normalize(s));
  }

  /** An identifier that starts with a period normalises to the empty text. */
  lemma NormalizeLeadingDot(s: string)
    requires |s| > 0 && s[0] == '.'
    ensures Normalize(s) == ""
  {
    NormalizeUnique(s);
    assert "" <= s && s[|""|] == '.';
  }

  /** A period-free name followed by a period and a version normalises to the name. */
  lemma NormalizeDropsVersion(name: string, version: string)
    requires '.' !in name
    ensures Normalize(name + "." + version) == name
  {
    var s := name + "." + version;
    assert s[..|name|] == name;
    assert s[|name|] == '.';
    NormalizeUnique(s);
  }

  /** Versioned identifiers lose their version: "ENST00000398417.1" becomes "ENST00000398417". */
  lemma NormalizeVersioned()
    ensures Normalize("ENST00000398417.1") == "ENST00000398417"
    ensures Normalize("ENST00000257770.2") == "ENST00000257770"
  {
    var a, b := "ENST00000398417", "ENST00000257770";
    assert forall k :: 0 <= k < |a| ==> a[k] != '.';
    assert forall k :: 0 <= k < |b| ==> b[k] != '.';
    NormalizeDropsVersion(a, "1");
    NormalizeDropsVersion(b, "2");
    assert a + "." + "1" == "ENST00000398417.1";
    assert b + "." + "2" == "ENST00000257770.2";
  }
}
