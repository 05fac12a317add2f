/** Topic, node and namespace names: the rules before and after expansion, the
  * token parser, and the expander between the two rule sets. */
module Names {
  import opened Options
  import opened Splitting

  const SLASH: char := '/'
  const NODE_TEXT: string := "{node}"

  predicate IsAlpha(c: char) {
    'a' <= c <= 'z' || 'A' <= c <= 'Z'
  }

  predicate IsDigit(c: char) {
    '0' <= c <= '9'
  }

  predicate IsNameChar(c: char) {
    IsAlpha(c) || IsDigit(c) || c == '_'
  }

  type NameChar = c: char | IsNameChar(c) witness '_'

  predicate AllNameChars(t: string) {
    forall i :: 0 <= i < |t| ==> IsNameChar(t[i])
  }

  predicate IsValidToken(t: string) {
    t != [] && !IsDigit(t[0]) && AllNameChars(t)
  }

  predicate AllValidTokens(ts: seq<string>) {
    forall i :: 0 <= i < |ts| ==> IsValidToken(ts[i])
  }

  /** The rules after expansion. */
  predicate IsValidFullTopicName(s: string) {
    s != [] && s[0] == SLASH && AllValidTokens(SplitOn(SLASH, s[1..]))
  }

  predicate IsValidNamespace(s: string) {
    s == [SLASH] || IsValidFullTopicName(s)
  }

  /** A piece of a token as written: a literal character, which carries that it
    * is a name character, or the node name. */
  datatype Piece = Lit(c: NameChar) | Node

  function ParseToken(t: string): Option<seq<Piece>> {
    if t == [] then Some([])
    else if NODE_TEXT <= t then
      match ParseToken(t[6..])
      case None => None
      case Some(ps) => Some([Node] + ps)
    else if IsNameChar(t[0]) then
      match ParseToken(t[1..])
      case None => None
      case Some(ps) => Some([Lit(t[0])] + ps)
    else None
  }

  function ParseTokens(ts: seq<string>): Option<seq<seq<Piece>>> {
    if ts == [] then Some([])
    else
      match (ParseToken(ts[0]), ParseTokens(ts[1..]))
      case (Some(ps), Some(pss)) => Some([ps] + pss)
      case _ => None
  }

  predicate HeadPieceOk(ps: seq<Piece>) {
    ps != [] && (ps[0].Node? || !IsDigit(ps[0].c))
  }

  predicate AllHeadsOk(pss: seq<seq<Piece>>) {
    forall i :: 0 <= i < |pss| ==> HeadPieceOk(pss[i])
  }

  /** A name as written, split into its tokens and whether the namespace goes in front. */
  datatype Written = Written(prefixed: bool, tokens: seq<seq<Piece>>)

  function WithTokens(prefixed: bool, front: seq<seq<Piece>>, body: string): Option<Written> {
    match ParseTokens(SplitOn(SLASH, body))
    case None => None
    case Some(pss) => Some(Written(prefixed, front + pss))
  }

  function SplitName(t: string): Option<Written> {
    if t == [] then None
    else if t == "~" then Some(Written(true, [[Node]]))
    else if t[0] == '~' then
      if t[1] == SLASH then WithTokens(true, [[Node]], t[2..]) else None
    else if t[0] == SLASH then WithTokens(false, [], t[1..])
    else WithTokens(true, [], t)
  }

  /** The rules before expansion. */
  predicate IsValidTopicName(t: string) {
    match SplitName(t)
    case None => false
    case Some(w) => w.tokens != [] && AllHeadsOk(w.tokens)
  }

  function Render(node: string, ps: seq<Piece>): string {
    if ps == [] then []
    else (match ps[0] case Lit(c) => [c] case Node => node) + Render(node, ps[1..])
  }

  function RenderAll(node: string, pss: seq<seq<Piece>>): seq<string> {
    if pss == [] then [] else [Render(node, pss[0])] + RenderAll(node, pss[1..])
  }

  function NamespaceTokens(ns: string): seq<string> {
    if |ns| <= 1 then [] else SplitOn(SLASH, ns[1..])
  }

  function ExpandTokens(t: string, node: string, nsTokens: seq<string>): seq<string> {
    match SplitName(t)
    case None => []
    case Some(w) => (if w.prefixed then nsTokens else []) + RenderAll(node, w.tokens)
  }

  function Expand(t: string, node: string, ns: string): string {
    [SLASH] + JoinWith(SLASH, ExpandTokens(t, node, NamespaceTokens(ns)))
  }

  // ---- The parser and its printer -------------------------------------------

  /** How a token with these pieces is written. */
  function PrintPieces(ps: seq<Piece>): string {
    if ps == [] then []
    else (match ps[0] case Lit(c) => [c] case Node => NODE_TEXT) + PrintPieces(ps[1..])
  }

  lemma {:induction false} PrintOfParse(t: string)
    requires ParseToken(t).Some?
    ensures PrintPieces(ParseToken(t).value) == t
  {
    if t != [] {
      if NODE_TEXT <= t {
        PrintOfParse(t[6..]);
        assert t[..6] + t[6..] == t;
      } else {
        PrintOfParse(t[1..]);
        assert [t[0]] + t[1..] == t;
      }
    }
  }

  lemma {:induction false} ParseOfPrint(ps: seq<Piece>)
    ensures ParseToken(PrintPieces(ps)) == Some(ps)
  {
    if ps != [] {
      ParseOfPrint(ps[1..]);
      var t := PrintPieces(ps);
      match ps[0]
      case Node =>
        assert t[6..] == PrintPieces(ps[1..]);
        assert [Node] + ps[1..] == ps;
      case Lit(c) =>
        assert t[0] == c && t[1..] == PrintPieces(ps[1..]);
        assert NODE_TEXT[0] == '{' && !(NODE_TEXT <= t);
        assert [Lit(t[0])] + ps[1..] == ps;
    }
  }

  /** The parser accepts exactly the texts the printer can write, and recovers the pieces. */
  lemma ParseTokenInvertsPrinter(t: string, ps: seq<Piece>)
    ensures ParseToken(t) == Some(ps) <==> t == PrintPieces(ps)
  {
    ParseOfPrint(ps);
    if ParseToken(t) == Some(ps) {
      PrintOfParse(t);
    }
  }

  // ---- Validity -------------------------------------------------------------

  lemma {:induction false} RenderNameChars(node: string, ps: seq<Piece>)
    requires AllNameChars(node)
    ensures AllNameChars(Render(node, ps))
  {
    if ps != [] {
      RenderNameChars(node, ps[1..]);
    }
  }

  /** With a valid node name, a rendered token is valid exactly when it is
    * non-empty and does not begin with a literal digit. */
  lemma RenderValid(node: string, ps: seq<Piece>)
    requires IsValidToken(node)
    ensures IsValidToken(Render(node, ps)) <==> HeadPieceOk(ps)
  {
    RenderNameChars(node, ps);
    if ps != [] {
      RenderNameChars(node, ps[1..]);
    }
  }

  lemma {:induction false} RenderAllAt(node: string, pss: seq<seq<Piece>>)
    ensures |RenderAll(node, pss)| == |pss|
    ensures forall i :: 0 <= i < |pss| ==> RenderAll(node, pss)[i] == Render(node, pss[i])
  {
    if pss != [] {
      RenderAllAt(node, pss[1..]);
    }
  }

  lemma RenderAllValid(node: string, pss: seq<seq<Piece>>)
    requires IsValidToken(node)
    ensures AllValidTokens(RenderAll(node, pss)) <==> AllHeadsOk(pss)
    ensures Free(SLASH, RenderAll(node, pss))
  {
    RenderAllAt(node, pss);
    var ts := RenderAll(node, pss);
    forall i | 0 <= i < |pss|
      ensures IsValidToken(ts[i]) <==> HeadPieceOk(pss[i])
      ensures SLASH !in ts[i]
    {
      RenderValid(node, pss[i]);
      RenderNameChars(node, pss[i]);
    }
  }

  lemma NamespaceTokensValid(ns: string)
    requires IsValidNamespace(ns)
    ensures AllValidTokens(NamespaceTokens(ns))
    ensures Free(SLASH, NamespaceTokens(ns))
  {
    if |ns| > 1 {
      PiecesAreFree(SLASH, ns[1..]);
    }
  }

  lemma {:induction false} ParseTokensAt(ts: seq<string>)
    requires ParseTokens(ts).Some?
    ensures |ParseTokens(ts).value| == |ts|
    ensures forall i :: 0 <= i < |ts| ==> ParseToken(ts[i]) == Some(ParseTokens(ts).value[i])
  {
    if ts != [] {
      ParseTokensAt(ts[1..]);
    }
  }

  lemma WrittenNonEmpty(t: string)
    requires SplitName(t).Some?
    ensures SplitName(t).value.tokens != []
  {
    if t != "~" {
      var body := if t[0] == '~' then t[2..] else if t[0] == SLASH then t[1..] else t;
      ParseTokensAt(SplitOn(SLASH, body));
    }
  }

  /** Under a valid node name and namespace, a name passes the rules before
    * expansion exactly when what it expands to passes the rules after it.  A
    * doubled slash, under the root namespace or any other, would fail them. */
  lemma ExpandValid(t: string, node: string, ns: string)
    requires IsValidToken(node) && IsValidNamespace(ns)
    ensures IsValidFullTopicName(Expand(t, node, ns)) <==> IsValidTopicName(t)
  {
    var ts := ExpandTokens(t, node, NamespaceTokens(ns));
    var full := Expand(t, node, ns);
    assert full[1..] == JoinWith(SLASH, ts);
    match SplitName(t)
    case None =>
      assert SplitOn(SLASH, full[1..])[0] == [];
    case Some(w) =>
      WrittenNonEmpty(t);
      var front := if w.prefixed then NamespaceTokens(ns) else [];
      var back := RenderAll(node, w.tokens);
      NamespaceTokensValid(ns);
      RenderAllValid(node, w.tokens);
      RenderAllAt(node, w.tokens);
      assert AllValidTokens(front + back) <==> AllValidTokens(back) by {
        forall i | 0 <= i < |back| ensures back[i] == (front + back)[|front| + i] {}
      }
      SplitOfJoin(SLASH, ts);
  }

  // ---- Expansion as text ----------------------------------------------------

  /** Left-to-right textual replacement of `{node}`. */
  function ReplaceNode(node: string, s: string): string {
    if s == [] then []
    else if NODE_TEXT <= s then node + ReplaceNode(node, s[6..])
    else [s[0]] + ReplaceNode(node, s[1..])
  }

  /** What expansion promises, on text: `~` becomes namespace/node, a relative
    * name gets the namespace in front, an absolute name stays, and `{node}`
    * becomes the node name. */
  function ExpandText(t: string, node: string, ns: string): string {
    var prefix := if ns == [SLASH] then [SLASH] else ns + [SLASH];
    if t != [] && t[0] == '~' then prefix + node + ReplaceNode(node, t[1..])
    else if t != [] && t[0] == SLASH then ReplaceNode(node, t)
    else prefix + ReplaceNode(node, t)
  }

  /** Parsing then rendering a token is textual replacement. */
  lemma {:induction false} RenderIsReplace(node: string, t: string)
    requires ParseToken(t).Some?
    ensures Render(node, ParseToken(t).value) == ReplaceNode(node, t)
  {
    if t != [] {
      if NODE_TEXT <= t {
        RenderIsReplace(node, t[6..]);
      } else {
        RenderIsReplace(node, t[1..]);
      }
    }
  }

  lemma NoSubstitutionAcrossSlash(a: string, b: string)
    requires !(NODE_TEXT <= a)
    ensures !(NODE_TEXT <= a + [SLASH] + b)
  {
    var s := a + [SLASH] + b;
    if |a| >= 6 {
      assert s[..6] == a[..6];
      assert NODE_TEXT != a[..6];
    } else {
      assert s[|a|] == SLASH != NODE_TEXT[|a|];
    }
  }

  lemma {:induction false} ReplaceAcross(node: string, a: string, b: string)
    ensures ReplaceNode(node, a + [SLASH] + b)
         == ReplaceNode(node, a) + [SLASH] + ReplaceNode(node, b)
  {
    var s := a + [SLASH] + b;
    if a == [] {
      assert s[0] == SLASH && s[1..] == b;
      assert NODE_TEXT[0] == '{';
    } else if NODE_TEXT <= a {
      assert s[..6] == a[..6];
      assert s[6..] == a[6..] + [SLASH] + b;
      ReplaceAcross(node, a[6..], b);
      assert node + (ReplaceNode(node, a[6..]) + [SLASH] + ReplaceNode(node, b))
          == (node + ReplaceNode(node, a[6..])) + [SLASH] + ReplaceNode(node, b);
    } else {
      NoSubstitutionAcrossSlash(a, b);
      assert s[1..] == a[1..] + [SLASH] + b;
      ReplaceAcross(node, a[1..], b);
    }
  }

  lemma {:induction false} RenderAllIsReplace(node: string, ts: seq<string>)
    requires ParseTokens(ts).Some?
    ensures JoinWith(SLASH, RenderAll(node, ParseTokens(ts).value)) == ReplaceNode(node, JoinWith(SLASH, ts))
  {
    if ts != [] {
      var pss := ParseTokens(ts).value;
      RenderIsReplace(node, ts[0]);
      RenderAllIsReplace(node, ts[1..]);
      RenderAllAt(node, pss);
      ParseTokensAt(ts);
      assert pss[1..] == ParseTokens(ts[1..]).value;
      assert RenderAll(node, pss)[1..] == RenderAll(node, pss[1..]);
      if |ts| > 1 {
        ReplaceAcross(node, ts[0], JoinWith(SLASH, ts[1..]));
      }
    }
  }

  lemma BodyIsReplace(node: string, body: string)
    requires ParseTokens(SplitOn(SLASH, body)).Some?
    ensures JoinWith(SLASH, RenderAll(node, ParseTokens(SplitOn(SLASH, body)).value)) == ReplaceNode(node, body)
  {
    RenderAllIsReplace(node, SplitOn(SLASH, body));
    JoinOfSplit(SLASH, body);
  }

  lemma PrefixIsText(ns: string, ts: seq<string>)
    requires IsValidNamespace(ns) && ts != []
    ensures [SLASH] + JoinWith(SLASH, NamespaceTokens(ns) + ts)
         == (if ns == [SLASH] then [SLASH] else ns + [SLASH]) + JoinWith(SLASH, ts)
  {
    if ns == [SLASH] {
      assert NamespaceTokens(ns) + ts == ts;
    } else {
      assert |ns| > 1;
      JoinAcross(SLASH, NamespaceTokens(ns), ts);
      JoinOfSplit(SLASH, ns[1..]);
      assert [SLASH] + ns[1..] == ns;
      assert [SLASH] + (ns[1..] + [SLASH] + JoinWith(SLASH, ts)) == ns + [SLASH] + JoinWith(SLASH, ts);
    }
  }

  lemma NodeFrontIsText(node: string, body: string)
    requires ParseTokens(SplitOn(SLASH, body)).Some?
    ensures JoinWith(SLASH, RenderAll(node, [[Node]] + ParseTokens(SplitOn(SLASH, body)).value))
         == node + [SLASH] + ReplaceNode(node, body)
  {
    var pss := ParseTokens(SplitOn(SLASH, body)).value;
    BodyIsReplace(node, body);
    ParseTokensAt(SplitOn(SLASH, body));
    RenderAllAt(node, pss);
    assert ([[Node]] + pss)[1..] == pss;
    assert Render(node, [Node]) == node;
    assert RenderAll(node, [[Node]] + pss) == [node] + RenderAll(node, pss);
    JoinAcross(SLASH, [node], RenderAll(node, pss));
  }

  lemma ReplaceEmpty(node: string)
    ensures ReplaceNode(node, []) == []
  {
  }

  lemma TildeTokens(t: string, node: string)
    requires SplitName(t).Some? && t != "~" && t[0] == '~'
    ensures [SLASH] + JoinWith(SLASH, RenderAll(node, SplitName(t).value.tokens))
         == [SLASH] + node + ReplaceNode(node, t[1..])
  {
    hide ReplaceNode, JoinWith, RenderAll, ParseTokens, SplitOn;
    var body := t[2..];
    NodeFrontIsText(node, body);
    assert t[1..] == [] + [SLASH] + body;
    ReplaceAcross(node, [], body);
    ReplaceEmpty(node);
    assert [SLASH] + (node + [SLASH] + ReplaceNode(node, body))
        == [SLASH] + node + ([] + [SLASH] + ReplaceNode(node, body));
  }

  lemma AloneTokens(node: string)
    ensures SplitName("~").Some?
    ensures [SLASH] + JoinWith(SLASH, RenderAll(node, SplitName("~").value.tokens))
         == [SLASH] + node + ReplaceNode(node, "~"[1..])
  {
    assert Render(node, [Node]) == node + [] == node;
    assert RenderAll(node, [[Node]]) == [node] + RenderAll(node, [[Node]][1..]) == [node];
    assert "~"[1..] == [];
    assert [SLASH] + node + [] == [SLASH] + node;
  }

  lemma PlainTokens(t: string, node: string)
    requires SplitName(t).Some? && t[0] != '~'
    ensures [SLASH] + JoinWith(SLASH, RenderAll(node, SplitName(t).value.tokens))
         == if t[0] == SLASH then ReplaceNode(node, t) else [SLASH] + ReplaceNode(node, t)
  {
    hide ReplaceNode, JoinWith, RenderAll, ParseTokens, SplitOn;
    var body := if t[0] == SLASH then t[1..] else t;
    BodyIsReplace(node, body);
    var pss := ParseTokens(SplitOn(SLASH, body)).value;
    assert [] + pss == pss;
    if t[0] == SLASH {
      assert t == [] + [SLASH] + t[1..];
      ReplaceAcross(node, [], t[1..]);
      ReplaceEmpty(node);
    }
  }

  /** Joining the rendered tokens of a name gives its text, past any prefix. */
  lemma TokensAreText(t: string, node: string)
    requires SplitName(t).Some?
    ensures [SLASH] + JoinWith(SLASH, RenderAll(node, SplitName(t).value.tokens))
         == if t[0] == '~' then [SLASH] + node + ReplaceNode(node, t[1..])
            else if t[0] == SLASH then ReplaceNode(node, t)
            else [SLASH] + ReplaceNode(node, t)
  {
    hide ReplaceNode, JoinWith, RenderAll, ParseTokens, SplitOn;
    if t == "~" {
      AloneTokens(node);
    } else if t[0] == '~' {
      TildeTokens(t, node);
    } else {
      PlainTokens(t, node);
    }
  }

  lemma PrefixedIsText(ns: string, text: string, ts: seq<string>)
    requires IsValidNamespace(ns) && ts != []
    requires [SLASH] + JoinWith(SLASH, ts) == [SLASH] + text
    ensures [SLASH] + JoinWith(SLASH, NamespaceTokens(ns) + ts)
         == (if ns == [SLASH] then [SLASH] else ns + [SLASH]) + text
  {
    hide JoinWith, NamespaceTokens, IsValidNamespace;
    PrefixIsText(ns, ts);
    assert JoinWith(SLASH, ts) == ([SLASH] + text)[1..] == text;
  }

  lemma WrittenShape(t: string)
    requires SplitName(t).Some?
    ensures t != [] && (SplitName(t).value.prefixed <==> t[0] != SLASH)
  {
    hide ParseTokens, SplitOn;
  }

  lemma TildeIsText(node: string, ns: string, t: string, ts: seq<string>)
    requires IsValidNamespace(ns) && ts != [] && t != [] && t[0] == '~'
    requires [SLASH] + JoinWith(SLASH, ts) == [SLASH] + node + ReplaceNode(node, t[1..])
    ensures [SLASH] + JoinWith(SLASH, NamespaceTokens(ns) + ts) == ExpandText(t, node, ns)
  {
    hide ReplaceNode, JoinWith, NamespaceTokens, IsValidNamespace;
    var text := node + ReplaceNode(node, t[1..]);
    assert [SLASH] + node + ReplaceNode(node, t[1..]) == [SLASH] + text;
    PrefixedIsText(ns, text, ts);
    var prefix := if ns == [SLASH] then [SLASH] else ns + [SLASH];
    assert prefix + text == prefix + node + ReplaceNode(node, t[1..]);
  }

  /** Tokenising, parsing, substituting and joining does to every name that
    * parses exactly what the textual reading of the rules says. */
  lemma ExpandIsText(t: string, node: string, ns: string)
    requires SplitName(t).Some? && IsValidNamespace(ns)
    ensures Expand(t, node, ns) == ExpandText(t, node, ns)
  {
    hide ReplaceNode, JoinWith, RenderAll, SplitName, NamespaceTokens, IsValidNamespace;
    var w := SplitName(t).value;
    var ts := RenderAll(node, w.tokens);
    WrittenNonEmpty(t);
    RenderAllAt(node, w.tokens);
    WrittenShape(t);
    TokensAreText(t, node);
    if t[0] == '~' {
      TildeIsText(node, ns, t, ts);
    } else if t[0] == SLASH {
      assert [] + ts == ts;
    } else {
      PrefixedIsText(ns, ReplaceNode(node, t), ts);
    }
  }

  // ---- Laws of expansion ----------------------------------------------------

  lemma {:induction false} NameCharsParse(t: string)
    requires AllNameChars(t)
    ensures ParseToken(t).Some?
    ensures t != [] ==> ParseToken(t).value != [] && ParseToken(t).value[0] == Lit(t[0])
  {
    if t != [] {
      assert NODE_TEXT[0] == '{';
      NameCharsParse(t[1..]);
    }
  }

  lemma {:induction false} ValidTokensParse(ts: seq<string>)
    requires AllValidTokens(ts)
    ensures ParseTokens(ts).Some? && AllHeadsOk(ParseTokens(ts).value)
  {
    if ts != [] {
      NameCharsParse(ts[0]);
      ValidTokensParse(ts[1..]);
    }
  }

  lemma {:induction false} NoBraceNoReplace(node: string, s: string)
    requires '{' !in s
    ensures ReplaceNode(node, s) == s
  {
    if s != [] {
      assert NODE_TEXT[0] == '{';
      NoBraceNoReplace(node, s[1..]);
    }
  }

  lemma {:induction false} ValidTokensNoBrace(ts: seq<string>)
    requires AllValidTokens(ts)
    ensures '{' !in JoinWith(SLASH, ts)
  {
    if |ts| > 1 {
      ValidTokensNoBrace(ts[1..]);
    }
  }

  /** Every valid full name is a valid written name and expands to itself,
    * whatever the node and namespace. */
  lemma FullNameIsFixed(s: string, node: string, ns: string)
    requires IsValidFullTopicName(s) && IsValidNamespace(ns)
    ensures IsValidTopicName(s)
    ensures Expand(s, node, ns) == s
  {
    hide SplitOn, Expand, ReplaceNode, JoinWith, AllValidTokens, AllHeadsOk, ParseTokens;
    var ts := SplitOn(SLASH, s[1..]);
    ValidTokensParse(ts);
    ParseTokensAt(ts);
    assert [] + ParseTokens(ts).value == ParseTokens(ts).value;
    ExpandIsText(s, node, ns);
    ValidTokensNoBrace(ts);
    JoinOfSplit(SLASH, s[1..]);
    assert s == [s[0]] + s[1..];
    NoBraceNoReplace(node, s);
  }

  /** Expanding what has been expanded, on any node, changes nothing. */
  lemma ExpandIdempotent(t: string, node: string, ns: string, node': string, ns': string)
    requires IsValidTopicName(t) && IsValidToken(node) && IsValidNamespace(ns) && IsValidNamespace(ns')
    ensures Expand(Expand(t, node, ns), node', ns') == Expand(t, node, ns)
  {
    ExpandValid(t, node, ns);
    FullNameIsFixed(Expand(t, node, ns), node', ns');
  }

  lemma {:induction false} ParseTokensConcat(a: seq<string>, b: seq<string>)
    ensures ParseTokens(a + b) ==
      match (ParseTokens(a), ParseTokens(b))
      case (Some(x), Some(y)) => Some(x + y)
      case _ => None
  {
    if a == [] {
      assert a + b == b;
      match ParseTokens(b)
      case None =>
      case Some(y) => assert [] + y == y;
    } else {
      assert (a + b)[1..] == a[1..] + b;
      ParseTokensConcat(a[1..], b);
      match (ParseToken(a[0]), ParseTokens(a[1..]), ParseTokens(b))
      case (Some(p), Some(x), Some(y)) => assert [p] + (x + y) == ([p] + x) + y;
      case _ =>
    }
  }

  lemma NotRoot(ns: string)
    requires IsValidFullTopicName(ns)
    ensures ns != [] && ns != [SLASH] && ns[0] == SLASH
  {
    assert SplitOn(SLASH, [])[0] == [] && [SLASH][1..] == [];
  }

  lemma FullNameNoReplace(s: string, node: string)
    requires IsValidFullTopicName(s)
    ensures ReplaceNode(node, s) == s
  {
    hide SplitOn, ReplaceNode, JoinWith, AllValidTokens;
    ValidTokensNoBrace(SplitOn(SLASH, s[1..]));
    JoinOfSplit(SLASH, s[1..]);
    assert s == [s[0]] + s[1..];
    NoBraceNoReplace(node, s);
  }

  /** namespace/name parses, and its tokens are fine when those of the name are. */
  lemma AbsoluteParses(t: string, ns: string)
    requires IsValidTopicName(t) && t[0] != SLASH && t[0] != '~' && IsValidFullTopicName(ns)
    ensures IsValidTopicName(ns + [SLASH] + t)
  {
    hide SplitOn, ParseTokens, AllValidTokens;
    var abs := ns + [SLASH] + t;
    var front := SplitOn(SLASH, ns[1..]);
    assert abs[1..] == ns[1..] + [SLASH] + t;
    SplitAcross(SLASH, ns[1..], t);
    ParseTokensConcat(front, SplitOn(SLASH, t));
    ValidTokensParse(front);
    var x := ParseTokens(front).value;
    var y := ParseTokens(SplitOn(SLASH, t)).value;
    assert [] + (x + y) == x + y && [] + y == y;
    assert SplitName(abs) == Some(Written(false, x + y));
  }

  /** A valid relative name under a non-root namespace expands like the absolute
    * name namespace/name, and that name is itself valid. */
  lemma RelativeLikeAbsolute(t: string, node: string, ns: string, ns': string)
    requires IsValidTopicName(t) && t[0] != SLASH && t[0] != '~'
    requires IsValidFullTopicName(ns) && IsValidNamespace(ns')
    ensures IsValidTopicName(ns + [SLASH] + t)
    ensures Expand(t, node, ns) == Expand(ns + [SLASH] + t, node, ns')
  {
    hide SplitName, Expand, ReplaceNode, AllHeadsOk, IsValidFullTopicName;
    AbsoluteParses(t, ns);
    NotRoot(ns);
    ExpandIsText(t, node, ns);
    ExpandIsText(ns + [SLASH] + t, node, ns');
    ReplaceAcross(node, ns, t);
    FullNameNoReplace(ns, node);
  }

  /** `~/rest` expands exactly like `{node}/rest`, and `~` like `{node}`, for
    * every rest, well formed or not. */
  lemma TildeLikeNode(rest: string, node: string, ns: string)
    ensures Expand("~/" + rest, node, ns) == Expand(NODE_TEXT + [SLASH] + rest, node, ns)
    ensures IsValidTopicName("~/" + rest) <==> IsValidTopicName(NODE_TEXT + [SLASH] + rest)
    ensures Expand("~", node, ns) == Expand(NODE_TEXT, node, ns)
  {
    var tilde := "~/" + rest;
    var braced := NODE_TEXT + [SLASH] + rest;
    assert tilde[0] == '~' && tilde[1] == SLASH && tilde[2..] == rest && |tilde| >= 2;
    assert braced[0] == '{';
    SplitAcross(SLASH, NODE_TEXT, rest);
    SplitOfFree(SLASH, NODE_TEXT);
    ParseOfPrint([Node]);
    assert PrintPieces([Node]) == NODE_TEXT + [] == NODE_TEXT by { assert [Node][1..] == []; }
    assert ParseToken(NODE_TEXT) == Some([Node]);
    assert ParseTokens([NODE_TEXT][1..]) == Some([]);
    assert ParseTokens([NODE_TEXT]) == Some([[Node]]) by { assert [[Node]] + [] == [[Node]]; }
    ParseTokensConcat([NODE_TEXT], SplitOn(SLASH, rest));
    assert [] + [[Node]] == [[Node]];
    assert NODE_TEXT[0] == '{' && SplitName(NODE_TEXT) == Some(Written(true, [[Node]]));
    match ParseTokens(SplitOn(SLASH, rest))
    case None =>
    case Some(pss) => assert [] + ([[Node]] + pss) == [[Node]] + pss;
  }
}
