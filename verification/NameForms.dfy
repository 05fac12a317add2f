/** Which texts are names: the accepted ones are exactly those that the printer of
  * pieces writes, joined by slashes, behind one of the three prefixes. */
module NameForms {
  import opened Options
  import opened Splitting
  import opened Names

  // ---- Characters and tokens ---------------------------------------------------------------------

  const LOWER: string := "abcdefghijklmnopqrstuvwxyz"
  const UPPER: string := "ABCDEFGHIJKLMNOPQRSTUVWXYZ"
  const DIGITS: string := "0123456789"

  lemma LowerIs(c: char)
    ensures 'a' <= c <= 'z' <==> c in LOWER
  {
    if 'a' <= c <= 'z' {
      assert LOWER[c as int - 'a' as int] == c;
    }
  }

  lemma UpperIs(c: char)
    ensures 'A' <= c <= 'Z' <==> c in UPPER
  {
    if 'A' <= c <= 'Z' {
      assert UPPER[c as int - 'A' as int] == c;
    }
  }

  lemma DigitsAre(c: char)
    ensures IsDigit(c) <==> c in DIGITS
  {
    if IsDigit(c) {
      assert DIGITS[c as int - '0' as int] == c;
    }
  }

  /** The characters of names, listed. */
  lemma NameCharsAre(c: char)
    ensures IsNameChar(c) <==> c in LOWER || c in UPPER || c in DIGITS || c == '_'
    ensures IsDigit(c) <==> c in DIGITS
  {
    LowerIs(c);
    UpperIs(c);
    DigitsAre(c);
  }

  // ---- Names after expansion -----------------------------------------------------------------------

  /** A token, letter by letter. */
  predicate Spelled(t: string) {
    && t != [] && t[0] !in DIGITS
    && forall k :: 0 <= k < |t| ==> t[k] in LOWER || t[k] in UPPER || t[k] in DIGITS || t[k] == '_'
  }

  lemma TokenForm(t: string)
    ensures IsValidToken(t) <==> Spelled(t)
  {
    hide IsNameChar, IsDigit;
    forall k | 0 <= k < |t|
      ensures IsNameChar(t[k]) <==> t[k] in LOWER || t[k] in UPPER || t[k] in DIGITS || t[k] == '_'
    {
      NameCharsAre(t[k]);
    }
    if t != [] {
      NameCharsAre(t[0]);
    }
  }

  /** A full name is a slash and slash-free tokens, each of name characters and not
    * beginning with a digit. */
  lemma FullNameForm(ts: seq<string>)
    requires ts != [] && forall i :: 0 <= i < |ts| ==> SLASH !in ts[i]
    ensures IsValidFullTopicName([SLASH] + JoinWith(SLASH, ts)) <==>
      forall i :: 0 <= i < |ts| ==> Spelled(ts[i])
  {
    hide IsNameChar, SplitOn, JoinWith, IsDigit;
    SplitOfJoin(SLASH, ts);
    assert ([SLASH] + JoinWith(SLASH, ts))[1..] == JoinWith(SLASH, ts);
    forall i | 0 <= i < |ts|
      ensures IsValidToken(ts[i]) <==> Spelled(ts[i])
    {
      TokenForm(ts[i]);
    }
  }

  /** And every full name is of that form. */
  lemma FullNameHasForm(s: string) returns (ts: seq<string>)
    requires IsValidFullTopicName(s)
    ensures ts != [] && (forall i :: 0 <= i < |ts| ==> SLASH !in ts[i]) && s == [SLASH] + JoinWith(SLASH, ts)
  {
    ts := SplitOn(SLASH, s[1..]);
    JoinOfSplit(SLASH, s[1..]);
    PiecesAreFree(SLASH, s[1..]);
    assert s == [s[0]] + s[1..];
  }

  /** A namespace is the root or such a name. */
  lemma NamespaceForm(ts: seq<string>)
    requires ts != [] && forall i :: 0 <= i < |ts| ==> SLASH !in ts[i]
    ensures IsValidNamespace("/")
    ensures IsValidFullTopicName([SLASH] + JoinWith(SLASH, ts)) ==> IsValidNamespace([SLASH] + JoinWith(SLASH, ts))
    ensures !IsValidFullTopicName("/")
  {
    assert "/"[1..] == [] && SplitOn(SLASH, [])[0] == [];
  }

  // ---- Names before expansion ------------------------------------------------------------------------

  function PrintAll(pss: seq<seq<Piece>>): seq<string> {
    if pss == [] then [] else [PrintPieces(pss[0])] + PrintAll(pss[1..])
  }

  /** The tokens as written, with slashes between. */
  function Printed(pss: seq<seq<Piece>>): string {
    JoinWith(SLASH, PrintAll(pss))
  }

  lemma {:induction false} PrintHasNoSlash(ps: seq<Piece>)
    ensures SLASH !in PrintPieces(ps) && '~' !in PrintPieces(ps) && (PrintPieces(ps) == [] <==> ps == [])
  {
    if ps != [] {
      PrintHasNoSlash(ps[1..]);
      match ps[0]
      case Lit(c) => assert c != SLASH && c != '~';
      case Node =>
    }
  }

  lemma {:induction false} PrintAllParses(pss: seq<seq<Piece>>)
    ensures ParseTokens(PrintAll(pss)) == Some(pss)
    ensures |PrintAll(pss)| == |pss| && Free(SLASH, PrintAll(pss))
  {
    if pss != [] {
      PrintAllParses(pss[1..]);
      ParseOfPrint(pss[0]);
      PrintHasNoSlash(pss[0]);
      assert PrintAll(pss)[1..] == PrintAll(pss[1..]);
      assert [pss[0]] + pss[1..] == pss;
    }
  }

  lemma PrintedParses(pss: seq<seq<Piece>>)
    requires pss != []
    ensures ParseTokens(SplitOn(SLASH, Printed(pss))) == Some(pss)
  {
    hide ParseTokens, SplitOn, JoinWith;
    PrintAllParses(pss);
    SplitOfJoin(SLASH, PrintAll(pss));
  }

  lemma PrintedHead(pss: seq<seq<Piece>>)
    requires pss != [] && pss[0] != []
    ensures Printed(pss) != [] && Printed(pss)[0] != SLASH && Printed(pss)[0] != '~'
  {
    PrintHasNoSlash(pss[0]);
    PrintAllParses(pss);
  }

  /** What may stand before the tokens.  Nothing before an empty first token would be a
    * slash in front of the second. */
  predicate IsPrefix(p: string, pss: seq<seq<Piece>>) {
    pss != [] && (p == "/" || p == "~/" || (p == "" && pss[0] != []))
  }

  function WrittenAs(p: string, pss: seq<seq<Piece>>): Written {
    if p == "~/" then Written(true, [[Node]] + pss) else Written(p == "", pss)
  }

  lemma PrefixedSplits(p: string, pss: seq<seq<Piece>>)
    requires IsPrefix(p, pss)
    ensures SplitName(p + Printed(pss)) == Some(WrittenAs(p, pss))
  {
    hide ParseTokens, SplitOn, Printed;
    PrintedParses(pss);
    var t := p + Printed(pss);
    assert [] + pss == pss;
    if p == "/" {
      assert t[0] == SLASH && t != "~" && t[1..] == Printed(pss);
      assert WithTokens(false, [], t[1..]) == Some(Written(false, pss));
    } else if p == "~/" {
      assert t[0] == '~' && t[1] == SLASH && t[2..] == Printed(pss) && |t| >= 2;
    } else {
      PrintedHead(pss);
      assert t == Printed(pss);
    }
  }

  /** Which names are accepted as written: a text of tokens behind one of the prefixes,
    * exactly if no token is empty or begins with a written digit; and `~`. */
  lemma AcceptedExactly(p: string, pss: seq<seq<Piece>>)
    requires IsPrefix(p, pss)
    ensures IsValidTopicName(p + Printed(pss)) <==>
      forall i :: 0 <= i < |pss| ==> pss[i] != [] && (pss[i][0].Node? || pss[i][0].c !in DIGITS)
    ensures IsValidTopicName("~")
  {
    hide Printed, ParseTokens, SplitOn, IsDigit;
    PrefixedSplits(p, pss);
    forall i | 0 <= i < |pss|
      ensures HeadPieceOk(pss[i]) <==> pss[i] != [] && (pss[i][0].Node? || pss[i][0].c !in DIGITS)
    {
      if pss[i] != [] && pss[i][0].Lit? {
        NameCharsAre(pss[i][0].c);
      }
    }
    if p == "~/" {
      var all := [[Node]] + pss;
      assert forall i :: 0 <= i < |pss| ==> all[i + 1] == pss[i];
      assert AllHeadsOk(all) <==> AllHeadsOk(pss) by {
        if AllHeadsOk(all) {
          forall i | 0 <= i < |pss| ensures HeadPieceOk(pss[i]) { assert HeadPieceOk(all[i + 1]); }
        }
      }
    }
  }

  lemma {:induction false} PrintOfParses(ts: seq<string>)
    requires ParseTokens(ts).Some?
    ensures PrintAll(ParseTokens(ts).value) == ts
  {
    if ts != [] {
      PrintOfParse(ts[0]);
      PrintOfParses(ts[1..]);
      var pss := ParseTokens(ts).value;
      assert pss[0] == ParseToken(ts[0]).value && pss[1..] == ParseTokens(ts[1..]).value;
    }
  }

  lemma BodyIsPrinted(body: string) returns (pss: seq<seq<Piece>>)
    requires ParseTokens(SplitOn(SLASH, body)).Some?
    ensures ParseTokens(SplitOn(SLASH, body)) == Some(pss) && pss != [] && Printed(pss) == body
  {
    hide ParseTokens, SplitOn, JoinWith;
    pss := ParseTokens(SplitOn(SLASH, body)).value;
    ParseTokensAt(SplitOn(SLASH, body));
    PrintOfParses(SplitOn(SLASH, body));
    JoinOfSplit(SLASH, body);
  }

  /** With an empty first token a text is empty or begins with a slash. */
  lemma EmptyHead(pss: seq<seq<Piece>>)
    requires pss != [] && pss[0] == []
    ensures Printed(pss) == [] || Printed(pss)[0] == SLASH
  {
    PrintAllParses(pss);
    assert PrintPieces([]) == [];
  }

  /** No other text is a name: one that can be split at all is `~` or of that form. */
  lemma NamesHaveForm(t: string) returns (p: string, pss: seq<seq<Piece>>)
    requires SplitName(t).Some?
    ensures t == "~" || (IsPrefix(p, pss) && t == p + Printed(pss))
  {
    hide ParseTokens, SplitOn, Printed;
    p, pss := "", [];
    if t == "~" {
      return;
    }
    if t[0] == '~' {
      p := "~/";
      pss := BodyIsPrinted(t[2..]);
      assert t == [t[0], t[1]] + t[2..];
    } else if t[0] == SLASH {
      p := "/";
      pss := BodyIsPrinted(t[1..]);
      assert t == [t[0]] + t[1..];
    } else {
      pss := BodyIsPrinted(t);
      assert t == "" + t;
      if pss[0] == [] {
        EmptyHead(pss);
      }
    }
  }

  // ---- What the names expand to ----------------------------------------------------------------------------

  lemma TildeExpands(node: string, ns: string)
    requires IsValidNamespace(ns)
    ensures Expand("~", node, ns) == (if ns == "/" then "/" else ns + "/") + node
  {
    AloneTokens(node);
    ExpandIsText("~", node, ns);
    ReplaceEmpty(node);
    assert "~"[1..] == [];
    var home := if ns == "/" then "/" else ns + "/";
    assert home + node + [] == home + node;
  }

  /** Every text of tokens behind a prefix expands by the textual rule: a relative one has
    * the namespace put in front, `~` stands for namespace and node, an absolute one
    * stays, and each `{node}` gives way to the node's name. */
  lemma ExpandsTo(p: string, pss: seq<seq<Piece>>, node: string, ns: string)
    requires IsPrefix(p, pss) && IsValidNamespace(ns)
    ensures var text := ReplaceNode(node, Printed(pss));
      var home := if ns == "/" then "/" else ns + "/";
      && Expand(p + Printed(pss), node, ns)
           == (if p == "/" then "/" + text else if p == "~/" then home + node + "/" + text else home + text)
      && Expand("~", node, ns) == home + node
  {
    hide Printed, ParseTokens, SplitOn, ReplaceNode, SplitName, Expand, IsValidNamespace;
    var t := p + Printed(pss);
    var text := ReplaceNode(node, Printed(pss));
    PrefixedSplits(p, pss);
    ExpandIsText(t, node, ns);
    TildeExpands(node, ns);
    ReplaceEmpty(node);
    if p == "" {
      PrintedHead(pss);
      assert t == Printed(pss);
    } else if p == "/" {
      assert t == [] + [SLASH] + Printed(pss);
      ReplaceAcross(node, [], Printed(pss));
      assert [] + [SLASH] + text == "/" + text;
    } else {
      assert t[1..] == [] + [SLASH] + Printed(pss);
      ReplaceAcross(node, [], Printed(pss));
      var home := if ns == "/" then "/" else ns + "/";
      assert home + node + ([] + [SLASH] + text) == home + node + "/" + text;
    }
  }
}
