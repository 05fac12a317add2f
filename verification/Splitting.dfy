/** Splitting a text at a separator character and joining the pieces back.
  * Topic names use it with '/', the graph queries with the unit separator. */
module Splitting {
  /** Prepend a character to the first piece of a split. */
  function ConsFirst(c: char, pieces: seq<string>): seq<string> {
    if pieces == [] then [[c]] else [[c] + pieces[0]] + pieces[1..]
  }

  /** Split at every separator, keeping empty pieces. */
  function SplitOn(sep: char, s: string): (pieces: seq<string>)
    ensures pieces != []
  {
    if s == [] then [[]]
    else if s[0] == sep then [[]] + SplitOn(sep, s[1..])
    else ConsFirst(s[0], SplitOn(sep, s[1..]))
  }

  function JoinWith(sep: char, pieces: seq<string>): string {
    if pieces == [] then []
    else if |pieces| == 1 then pieces[0]
    else pieces[0] + [sep] + JoinWith(sep, pieces[1..])
  }

  predicate Free(sep: char, pieces: seq<string>) {
    forall i :: 0 <= i < |pieces| ==> sep !in pieces[i]
  }

  lemma SplitNothing(sep: char)
    ensures SplitOn(sep, []) == [[]]
  {
  }

  lemma SplitNext(sep: char, c: char, s: string)
    ensures SplitOn(sep, [c] + s) == if c == sep then [[]] + SplitOn(sep, s) else ConsFirst(c, SplitOn(sep, s))
  {
    assert ([c] + s)[1..] == s;
  }

  lemma JoinNext(sep: char, p: string, ps: seq<string>)
    ensures JoinWith(sep, [p] + ps) == if ps == [] then p else p + [sep] + JoinWith(sep, ps)
  {
    assert ([p] + ps)[1..] == ps;
  }

  lemma JoinConsFirst(sep: char, c: char, pieces: seq<string>)
    requires pieces != []
    ensures JoinWith(sep, ConsFirst(c, pieces)) == [c] + JoinWith(sep, pieces)
  {
    var p, ps := pieces[0], pieces[1..];
    assert pieces == [p] + ps;
    assert ConsFirst(c, pieces) == [[c] + p] + ps;
    JoinNext(sep, p, ps);
    JoinNext(sep, [c] + p, ps);
    assert ps != [] ==> [c] + p + [sep] + JoinWith(sep, ps) == [c] + (p + [sep] + JoinWith(sep, ps));
  }

  lemma ConsFirstAcross(c: char, a: seq<string>, b: seq<string>)
    requires a != []
    ensures ConsFirst(c, a + b) == ConsFirst(c, a) + b
  {
    assert (a + b)[1..] == a[1..] + b;
    assert [[c] + a[0]] + (a[1..] + b) == ([[c] + a[0]] + a[1..]) + b;
  }

  /** Joining undoes splitting, for every text. */
  lemma {:induction false} JoinOfSplit(sep: char, s: string)
    ensures JoinWith(sep, SplitOn(sep, s)) == s
  {
    if s != [] {
      hide ConsFirst, SplitOn, JoinWith;
      var c, rest := s[0], s[1..];
      JoinOfSplit(sep, rest);
      assert s == [c] + rest;
      SplitNext(sep, c, rest);
      if c == sep {
        JoinNext(sep, [], SplitOn(sep, rest));
        assert [] + [sep] + rest == [c] + rest;
      } else {
        JoinConsFirst(sep, c, SplitOn(sep, rest));
      }
    }
  }

  lemma {:induction false} PiecesAreFree(sep: char, s: string)
    ensures Free(sep, SplitOn(sep, s))
  {
    if s != [] {
      PiecesAreFree(sep, s[1..]);
    }
  }

  lemma {:induction false} SplitOfFree(sep: char, s: string)
    requires sep !in s
    ensures SplitOn(sep, s) == [s]
  {
    if s != [] {
      SplitOfFree(sep, s[1..]);
      assert [s[0]] + s[1..] == s;
    }
  }

  /** Splitting a text splits it at the joint of any two halves. */
  lemma {:induction false} SplitAcross(sep: char, a: string, b: string)
    ensures SplitOn(sep, a + [sep] + b) == SplitOn(sep, a) + SplitOn(sep, b)
  {
    hide ConsFirst, SplitOn;
    if a == [] {
      assert a + [sep] + b == [sep] + b;
      SplitNothing(sep);
      SplitNext(sep, sep, b);
    } else {
      var c, rest := a[0], a[1..];
      SplitAcross(sep, rest, b);
      assert a == [c] + rest && a + [sep] + b == [c] + (rest + [sep] + b);
      SplitNext(sep, c, rest);
      SplitNext(sep, c, rest + [sep] + b);
      if c == sep {
        assert [[]] + (SplitOn(sep, rest) + SplitOn(sep, b)) == ([[]] + SplitOn(sep, rest)) + SplitOn(sep, b);
      } else {
        ConsFirstAcross(c, SplitOn(sep, rest), SplitOn(sep, b));
      }
    }
  }

  lemma {:induction false} JoinAcross(sep: char, a: seq<string>, b: seq<string>)
    requires a != [] && b != []
    ensures JoinWith(sep, a + b) == JoinWith(sep, a) + [sep] + JoinWith(sep, b)
  {
    assert (a + b)[1..] == a[1..] + b;
    if |a| > 1 {
      JoinAcross(sep, a[1..], b);
      assert a[0] + [sep] + (JoinWith(sep, a[1..]) + [sep] + JoinWith(sep, b))
          == (a[0] + [sep] + JoinWith(sep, a[1..])) + [sep] + JoinWith(sep, b);
    } else {
      assert a[1..] + b == b;
    }
  }

  lemma {:induction false} SplitOfFreeJoin(sep: char, pieces: seq<string>)
    requires pieces != [] && Free(sep, pieces)
    ensures SplitOn(sep, JoinWith(sep, pieces)) == pieces
  {
    SplitOfFree(sep, pieces[0]);
    if |pieces| > 1 {
      SplitOfFreeJoin(sep, pieces[1..]);
      SplitAcross(sep, pieces[0], JoinWith(sep, pieces[1..]));
    }
  }

  /** Splitting undoes joining exactly on the non-empty lists of pieces that
    * hold no separator. */
  lemma SplitOfJoin(sep: char, pieces: seq<string>)
    ensures SplitOn(sep, JoinWith(sep, pieces)) == pieces <==> pieces != [] && Free(sep, pieces)
  {
    if pieces != [] && Free(sep, pieces) {
      SplitOfFreeJoin(sep, pieces);
    }
    PiecesAreFree(sep, JoinWith(sep, pieces));
  }
}
