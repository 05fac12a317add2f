/** Graph queries: a name's types cross the language boundary as one text,
  * joined in C with the unit separator and split again on the other side. */
module Graph {
  import opened Splitting

  const UNIT_SEPARATOR: char := '\U{001F}'

  /** Room the sizing pass counts for the first k types: each with one byte more. */
  function SizeUpTo(types: seq<string>, k: nat): nat
    requires k <= |types|
  {
    if k == 0 then 0 else SizeUpTo(types, k - 1) + |types[k - 1]| + 1
  }

  lemma {:induction false} SizeMonotone(types: seq<string>, j: nat, k: nat)
    requires j <= k <= |types|
    ensures SizeUpTo(types, j) <= SizeUpTo(types, k)
  {
    if j < k {
      SizeMonotone(types, j, k - 1);
    }
  }

  lemma JoinOneMore(types: seq<string>, k: nat)
    requires k < |types|
    ensures JoinWith(UNIT_SEPARATOR, types[..k + 1])
         == JoinWith(UNIT_SEPARATOR, types[..k]) + (if k > 0 then [UNIT_SEPARATOR] else []) + types[k]
  {
    assert types[..k + 1] == types[..k] + [types[k]];
    if k > 0 {
      JoinAcross(UNIT_SEPARATOR, types[..k], [types[k]]);
    }
  }

  /** Joins the types into a buffer sized beforehand; every write is inside it.
    * `outOfMemory` is what the allocator answers. */
  method JoinTypes(types: seq<string>, outOfMemory: bool) returns (joined: string)
    ensures joined == if outOfMemory then "" else JoinWith(UNIT_SEPARATOR, types)
  {
    var total := 0;
    for k := 0 to |types|
      invariant total == SizeUpTo(types, k)
    {
      total := total + |types[k]| + 1;
    }
    if outOfMemory {
      return "";
    }
    var buffer := new char[total + 1];
    var used := 0;
    for k := 0 to |types|
      invariant used <= buffer.Length
      invariant used == if k == 0 then 0 else SizeUpTo(types, k) - 1
      invariant buffer[..used] == JoinWith(UNIT_SEPARATOR, types[..k])
    {
      SizeMonotone(types, k + 1, |types|);
      ghost var before := buffer[..used];
      if k > 0 {
        buffer[used] := UNIT_SEPARATOR;
        used := used + 1;
      }
      var len := |types[k]|;
      ghost var written := buffer[..used];
      forall i | 0 <= i < len {
        buffer[used + i] := types[k][i];
      }
      used := used + len;
      assert buffer[..used] == written + types[k];
      JoinOneMore(types, k);
    }
    assert types[..|types|] == types;
    return buffer[..used];
  }

  datatype NameAndTypes = NameAndTypes(name: string, types: seq<string>)

  function DropEmpty(pieces: seq<string>): seq<string> {
    if pieces == [] then []
    else (if pieces[0] == [] then [] else [pieces[0]]) + DropEmpty(pieces[1..])
  }

  /** The splitting side, one entry of the two parallel arrays. */
  function SplitTypes(joined: string): seq<string> {
    DropEmpty(SplitOn(UNIT_SEPARATOR, joined))
  }

  function ZipNamesAndTypes(names: seq<string>, types: seq<string>): seq<NameAndTypes> {
    if names == [] || types == [] then []
    else [NameAndTypes(names[0], SplitTypes(types[0]))] + ZipNamesAndTypes(names[1..], types[1..])
  }

  /** A type text that survives the crossing. */
  predicate Transportable(ty: string) {
    ty != [] && UNIT_SEPARATOR !in ty
  }

  predicate AllTransportable(types: seq<string>) {
    forall i :: 0 <= i < |types| ==> Transportable(types[i])
  }

  lemma {:induction false} DropEmptyKeeps(pieces: seq<string>)
    requires Free(UNIT_SEPARATOR, pieces)
    ensures AllTransportable(DropEmpty(pieces))
    ensures AllTransportable(pieces) ==> DropEmpty(pieces) == pieces
  {
    if pieces != [] {
      DropEmptyKeeps(pieces[1..]);
      if AllTransportable(pieces) {
        assert [pieces[0]] + pieces[1..] == pieces;
      }
    }
  }

  /** A list of types comes back unchanged exactly when each is non-empty and
    * holds no separator; the empty list does come back. */
  lemma TypesRoundTrip(types: seq<string>)
    ensures SplitTypes(JoinWith(UNIT_SEPARATOR, types)) == types <==> AllTransportable(types)
  {
    var pieces := SplitOn(UNIT_SEPARATOR, JoinWith(UNIT_SEPARATOR, types));
    PiecesAreFree(UNIT_SEPARATOR, JoinWith(UNIT_SEPARATOR, types));
    DropEmptyKeeps(pieces);
    SplitOfJoin(UNIT_SEPARATOR, types);
    if types == [] {
      assert pieces == [[]] && pieces[1..] == [];
      assert DropEmpty(pieces) == [] + DropEmpty([]) == [];
    }
  }

  function JoinAll(lists: seq<seq<string>>): seq<string> {
    if lists == [] then [] else [JoinWith(UNIT_SEPARATOR, lists[0])] + JoinAll(lists[1..])
  }

  function Answer(names: seq<string>, lists: seq<seq<string>>): seq<NameAndTypes>
    requires |names| == |lists|
  {
    seq(|names|, i requires 0 <= i < |names| => NameAndTypes(names[i], lists[i]))
  }

  lemma EntriesNext(names: seq<string>, lists: seq<seq<string>>)
    requires |names| == |lists| && names != []
    ensures Answer(names, lists) == [NameAndTypes(names[0], lists[0])] + Answer(names[1..], lists[1..])
    ensures forall x: NameAndTypes, xs, y: NameAndTypes, ys :: [x] + xs == [y] + ys <==> x == y && xs == ys
  {
    forall x: NameAndTypes, xs, y: NameAndTypes, ys ensures [x] + xs == [y] + ys <==> x == y && xs == ys {
      assert ([x] + xs)[0] == x && ([x] + xs)[1..] == xs && ([y] + ys)[0] == y && ([y] + ys)[1..] == ys;
    }
  }

  /** The whole query answer survives exactly when all its types do. */
  lemma {:induction false} GraphRoundTrip(names: seq<string>, lists: seq<seq<string>>)
    requires |names| == |lists|
    ensures ZipNamesAndTypes(names, JoinAll(lists)) == Answer(names, lists)
       <==> forall i :: 0 <= i < |lists| ==> AllTransportable(lists[i])
  {
    if names != [] {
      GraphRoundTrip(names[1..], lists[1..]);
      TypesRoundTrip(lists[0]);
      EntriesNext(names, lists);
      assert JoinAll(lists)[1..] == JoinAll(lists[1..]);
      assert forall i :: 0 < i < |lists| ==> lists[i] == lists[1..][i - 1];
      assert (forall i :: 0 <= i < |lists| ==> AllTransportable(lists[i]))
        <==> AllTransportable(lists[0]) && (forall i :: 0 <= i < |lists[1..]| ==> AllTransportable(lists[1..][i]));
    }
  }
}
