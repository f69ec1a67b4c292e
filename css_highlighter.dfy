/**
 * The CSS highlighter of the code block (CSSHighlighter). A character-level
 * state machine over selector, comment, property, value, at-rule and
 * function modes; the state record persists across chunks. Every token is
 * turned into a span whose class names its kind; comments may carry links
 * produced by a matcher and a generator supplied with each chunk.
 */
module CssHighlight {
  import opened Wrappers
  import Strings

  /**
   * The kinds of CSSHighlighter.State. Text and Curly are only span kinds,
   * never modes; Unset is the null a fresh state record holds until reset.
   */
  datatype Kind = Unset | Selector | Text | Comment | Property | Value | AtRule | AtValue | Function | Curly

  /** A node inside a span: text, a classed inner span, or a link. */
  datatype Node = TextNode(text: string) | Tagged(className: string, text: string) | Link(text: string, href: string)

  /** A span of class "token <kind>". */
  datatype Span = Span(kind: Kind, nodes: seq<Node>)

  /**
   * The link matcher (a global regular expression, given here by the list of
   * its matches in a text, in order) and the link generator.
   */
  datatype LinkConfig = LinkConfig(matcher: string -> seq<string>, generator: string -> string)

  /** The state record: modes, pending token, function nesting, curly flag, link settings. */
  datatype CssState = CssState(
    mode: Kind, previous: Kind, token: string, fnLevel: int, curly: bool,
    generateLinks: bool, links: Option<LinkConfig>)

  /** What the code block passes to `parse`: the chunk and the link settings. */
  datatype ParseInfo = ParseInfo(content: string, links: Option<LinkConfig>, linkChanged: bool)

  /** A TypeError (reading `description` of null, or mapping with an unset generator), or "CSS token is not 0". */
  datatype CssFailure = TypeError | TokenNotEmpty

  const Fresh := CssState(Unset, Unset, "", 0, false, false, None)

  function SetMode(st: CssState, m: Kind): CssState {
    st.(previous := st.mode, mode := m)
  }

  /** The states the machine keeps: never in a span-only kind, fnLevel 1 exactly in Function, a comment returns to Selector or Property. */
  predicate Inv(st: CssState) {
    && st.mode != Text && st.mode != Curly
    && st.fnLevel == (if st.mode == Function then 1 else 0)
    && (st.mode == Comment ==> st.previous == Selector || st.previous == Property)
  }

  // ----- Rendering of a token (createElementFromToken) -----

  function NodesText(ns: seq<Node>): string {
    if ns == [] then "" else ns[0].text + NodesText(ns[1..])
  }

  lemma {:induction false} NodesTextAppend(a: seq<Node>, b: seq<Node>)
    ensures NodesText(a + b) == NodesText(a) + NodesText(b)
  {
    if a == [] {
      assert a + b == b;
    } else {
      assert (a + b)[1..] == a[1..] + b;
      NodesTextAppend(a[1..], b);
    }
  }

  lemma NodesTextPair(a: Node, b: Node)
    ensures NodesText([a, b]) == a.text + b.text
  {
    assert [a, b][1..] == [b];
    NodesTextOne(b);
  }

  lemma NodesTextOne(n: Node)
    ensures NodesText([n]) == n.text
  {
    assert NodesText([n]) == n.text + NodesText([]);
  }

  /** `c || token`: the explicit character when one is given. */
  function Or(c: string, token: string): string {
    if c != "" then c else token
  }

  predicate IsWordChar(c: char) {
    ('a' <= c <= 'z') || ('A' <= c <= 'Z') || ('0' <= c <= '9') || c == '_'
  }

  /** The class `[\w-_"'=\]]` of the selector pattern. */
  predicate IsNameChar(c: char) {
    IsWordChar(c) || c == '-' || c == '"' || c == '\'' || c == '=' || c == ']'
  }

  /** The first index at or after i whose character is not a name character. */
  function NameEnd(s: string, i: nat): (e: nat)
    requires i <= |s|
    ensures i <= e <= |s|
    ensures forall k :: i <= k < e ==> IsNameChar(s[k])
    ensures e < |s| ==> !IsNameChar(s[e])
    decreases |s| - i
  {
    if i < |s| && IsNameChar(s[i]) then NameEnd(s, i + 1) else i
  }

  /** Where `([\.#:\[]\w[\w-_"'=\]]*|\s\w[\w-_"'=\]]*)` matches at q, if it does: the end of the match. */
  function SelectorMatchAt(s: string, q: nat): (r: Option<nat>)
    requires q <= |s|
    ensures r.Some? ==> q + 2 <= r.value <= |s|
  {
    if q + 1 < |s| && (s[q] in ".#:[" || Strings.IsJsWhitespace(s[q])) && IsWordChar(s[q + 1])
    then Some(NameEnd(s, q + 2))
    else None
  }

  /** `split` with that capturing pattern from index p, searching from q: text between matches and the matches themselves. */
  function SelectorSplit(s: string, p: nat, q: nat): seq<string>
    requires p <= q <= |s|
    decreases |s| - q
  {
    if q >= |s| then [s[p..]]
    else match SelectorMatchAt(s, q)
      case None => SelectorSplit(s, p, q + 1)
      case Some(e) => [s[p..q], s[q..e]] + SelectorSplit(s, e, e)
  }

  /** The selector split loses nothing: its pieces concatenate to the token. */
  lemma {:induction false} SelectorSplitConcat(s: string, p: nat, q: nat)
    requires p <= q <= |s|
    ensures Strings.Concat(SelectorSplit(s, p, q)) == s[p..]
    decreases |s| - q
  {
    if q >= |s| {
      assert Strings.Concat([s[p..]]) == s[p..] + Strings.Concat([]);
    } else {
      match SelectorMatchAt(s, q)
      case None =>
        SelectorSplitConcat(s, p, q + 1);
      case Some(e) =>
        SelectorSplitConcat(s, e, e);
        var rest := SelectorSplit(s, e, e);
        Strings.ConcatAppend([s[p..q], s[q..e]], rest);
        assert Strings.Concat([s[p..q], s[q..e]]) == s[p..q] + (s[q..e] + Strings.Concat([]));
        assert s[p..] == s[p..q] + s[q..e] + s[e..];
    }
  }

  function SelectorClass(c: char): string {
    if c == ':' then "pseudo" else if c == '#' then "id" else if c == '.' then "class" else "attribute"
  }

  /** Empty pieces are skipped; a piece starting with one of `:#[.` becomes a classed span. */
  function SelectorNodes(parts: seq<string>): seq<Node> {
    if parts == [] then []
    else if parts[0] == [] then SelectorNodes(parts[1..])
    else if parts[0][0] in ":#[." then [Tagged(SelectorClass(parts[0][0]), parts[0])] + SelectorNodes(parts[1..])
    else [TextNode(parts[0])] + SelectorNodes(parts[1..])
  }

  lemma {:induction false} SelectorNodesText(parts: seq<string>)
    ensures NodesText(SelectorNodes(parts)) == Strings.Concat(parts)
  {
    if parts != [] {
      SelectorNodesText(parts[1..]);
      if parts[0] != [] {
        var n := if parts[0][0] in ":#[." then Tagged(SelectorClass(parts[0][0]), parts[0]) else TextNode(parts[0]);
        NodesTextAppend([n], SelectorNodes(parts[1..]));
        assert NodesText([n]) == parts[0] + NodesText([]);
      }
    }
  }

  /** A selector span shows its token unchanged. */
  lemma SelectorSpanText(token: string)
    ensures NodesText(SelectorNodes(SelectorSplit(token, 0, 0))) == token
  {
    SelectorNodesText(SelectorSplit(token, 0, 0));
    SelectorSplitConcat(token, 0, 0);
  }

  /** A value token: text before "!", an "important-tag" span, and ";" when the token has more than 9 code units from the "!" on. */
  function ValueNodes(token: string, c: string): seq<Node> {
    var idx := Strings.IndexOf(token, "!");
    if idx == -1 then [TextNode(Or(c, token))]
    else [TextNode(token[..idx]), Tagged("important-tag", "!important")]
         + (if Strings.Utf16Length(token[idx..]) > 9 then [TextNode(";")] else [])
  }

  /** A token whose first "!" starts a tail of at least 10 characters gets the "important-tag" span and ";". */
  lemma ValueNodesLongTail(pre: string, rest: string)
    requires Strings.IndexOf(pre, "!") == -1 && |rest| >= 10 && rest[..1] == "!"
    ensures ValueNodes(pre + rest, "") == [TextNode(pre), Tagged("important-tag", "!important"), TextNode(";")]
  {
    var token := pre + rest;
    Strings.IndexOfAfterFree(pre, rest, "!");
    assert token[..|pre|] == pre && token[|pre|..] == rest;
    Strings.Utf16LengthBounds(rest);
  }

  /** The text of the nodes of an important value. */
  lemma ImportantText(pre: string)
    ensures NodesText([TextNode(pre), Tagged("important-tag", "!important"), TextNode(";")]) == pre + "!important;"
  {
    var ns := [TextNode(pre), Tagged("important-tag", "!important"), TextNode(";")];
    assert ns == [TextNode(pre)] + [Tagged("important-tag", "!important")] + [TextNode(";")];
    NodesTextAppend([TextNode(pre)] + [Tagged("important-tag", "!important")], [TextNode(";")]);
    NodesTextAppend([TextNode(pre)], [Tagged("important-tag", "!important")]);
    NodesTextOne(TextNode(pre));
    NodesTextOne(Tagged("important-tag", "!important"));
    NodesTextOne(TextNode(";"));
  }

  /** A value span shows its token when it has no "!" or ends in "!important;". */
  lemma ValueSpanText(pre: string, hasSemicolon: bool)
    requires Strings.IndexOf(pre, "!") == -1
    ensures var token := pre + "!important" + (if hasSemicolon then ";" else "");
      && NodesText(ValueNodes(pre, "")) == pre
      && NodesText(ValueNodes(token, "")) == pre + "!important;"
  {
    var rest := "!important" + (if hasSemicolon then ";" else "");
    assert pre + "!important" + (if hasSemicolon then ";" else "") == pre + rest;
    NodesTextOne(TextNode(pre));
    ValueNodesLongTail(pre, rest);
    ImportantText(pre);
  }

  /**
   * The links fragment (createLinksFromMatchingToken) from match i: the text
   * from `from` up to the first occurrence of the match in the whole token
   * (substring swaps its ends when the occurrence lies before `from`), then
   * the link; after the last match, the rest of the token.
   */
  function LinksFrom(token: string, parts: seq<string>, hrefs: seq<string>, i: nat, from: int): seq<Node>
    requires |hrefs| == |parts| && i <= |parts|
    decreases |parts| - i
  {
    if i == |parts| then [TextNode(Strings.Substring(token, from, |token|))]
    else
      var idx := Strings.IndexOf(token, parts[i]);
      [TextNode(Strings.Substring(token, from, idx)), Link(parts[i], hrefs[i])]
      + LinksFrom(token, parts, hrefs, i + 1, idx + |parts[i]|)
  }

  /** Each match's first occurrence in the token lies at or after the end of the previous match. */
  predicate InOrder(token: string, parts: seq<string>, i: nat, from: int)
    requires i <= |parts|
    decreases |parts| - i
  {
    i == |parts|
    || (var idx := Strings.IndexOf(token, parts[i]);
        from <= idx && InOrder(token, parts, i + 1, idx + |parts[i]|))
  }

  /** When the matches occur in order, the links fragment shows the token unchanged. */
  lemma {:induction false} LinksFromText(token: string, parts: seq<string>, hrefs: seq<string>, i: nat, from: int)
    requires |hrefs| == |parts| && i <= |parts|
    requires 0 <= from <= |token|
    requires InOrder(token, parts, i, from)
    ensures NodesText(LinksFrom(token, parts, hrefs, i, from)) == token[from..]
    decreases |parts| - i
  {
    if i == |parts| {
      LinksFromEnd(token, parts, hrefs, from);
    } else {
      var idx := Strings.IndexOf(token, parts[i]);
      var e := idx + |parts[i]|;
      assert Strings.OccursAt(token, parts[i], idx);
      Strings.SubstringInRange(token, from, idx);
      var head := [TextNode(token[from..idx]), Link(parts[i], hrefs[i])];
      var tail := LinksFrom(token, parts, hrefs, i + 1, e);
      assert LinksFrom(token, parts, hrefs, i, from) == head + tail;
      LinksFromText(token, parts, hrefs, i + 1, e);
      NodesTextAppend(head, tail);
      NodesTextPair(head[0], head[1]);
      OccurrenceSplit(token, parts[i], from, idx);
    }
  }

  /** After the last match, the fragment is the rest of the token. */
  lemma LinksFromEnd(token: string, parts: seq<string>, hrefs: seq<string>, from: int)
    requires |hrefs| == |parts| && 0 <= from <= |token|
    ensures NodesText(LinksFrom(token, parts, hrefs, |parts|, from)) == token[from..]
  {
    var n := TextNode(Strings.Substring(token, from, |token|));
    assert LinksFrom(token, parts, hrefs, |parts|, from) == [n];
    NodesTextOne(n);
    Strings.SubstringToEnd(token, from);
  }

  lemma OccurrenceSplit(token: string, part: string, from: int, idx: int)
    requires 0 <= from <= idx && Strings.OccursAt(token, part, idx)
    ensures token[from..] == token[from..idx] + part + token[idx + |part|..]
  {
    assert token[from..] == token[from..idx] + token[idx..idx + |part|] + token[idx + |part|..];
  }

  /**
   * A match the matcher reports twice is searched from the start of the
   * token both times, so the second fragment repeats the match: the links
   * fragment shows the match three times instead of once.
   */
  lemma LinksRepeatDuplicate(t: string, p: string, x: string, y: string)
    requires |p| > 0 && Strings.IndexOf(t, p) != -1
    ensures var k := Strings.IndexOf(t, p);
      && 0 <= k && k + |p| <= |t|
      && NodesText(LinksFrom(t, [p, p], [x, y], 0, 0)) == t[..k] + p + p + p + t[k + |p|..]
    ensures |NodesText(LinksFrom(t, [p, p], [x, y], 0, 0))| == |t| + 2 * |p|
  {
    var k := Strings.IndexOf(t, p);
    var e := k + |p|;
    assert Strings.OccursAt(t, p, k);
    var n2 := LinksFrom(t, [p, p], [x, y], 2, e);
    var n1 := LinksFrom(t, [p, p], [x, y], 1, e);
    var n0 := LinksFrom(t, [p, p], [x, y], 0, 0);
    assert NodesText(n2) == t[e..] by {
      assert Strings.Substring(t, e, |t|) == t[e..];
      assert n2 == [TextNode(t[e..])];
      NodesTextOne(TextNode(t[e..]));
    }
    assert NodesText(n1) == p + p + t[e..] by {
      assert Strings.Substring(t, e, k) == p;
      assert n1 == [TextNode(p), Link(p, y)] + n2;
      NodesTextAppend([TextNode(p), Link(p, y)], n2);
      NodesTextPair(TextNode(p), Link(p, y));
    }
    assert NodesText(n0) == t[..k] + p + (p + p + t[e..]) by {
      assert Strings.Substring(t, 0, k) == t[..k];
      assert n0 == [TextNode(t[..k]), Link(p, x)] + n1;
      NodesTextAppend([TextNode(t[..k]), Link(p, x)], n1);
      NodesTextPair(TextNode(t[..k]), Link(p, x));
    }
  }

  function MapLinks(generator: string -> string, parts: seq<string>): (r: seq<string>)
    ensures |r| == |parts|
  {
    seq(|parts|, i requires 0 <= i < |parts| => generator(parts[i]))
  }

  /** A comment token, with links when link generation is on and the matcher finds something; None is the TypeError of an unset generator. */
  function CommentNodes(token: string, c: string, generateLinks: bool, links: Option<LinkConfig>): Option<seq<Node>> {
    if generateLinks then
      match links
      case None => None
      case Some(cfg) =>
        var found := cfg.matcher(token);
        if |found| > 0 then Some(LinksFrom(token, found, MapLinks(cfg.generator, found), 0, 0))
        else Some([TextNode(Or(c, token))])
    else Some([TextNode(Or(c, token))])
  }

  /** The content of the span for a token of the given kind; None when building it throws. */
  function Render(kind: Kind, token: string, c: string, generateLinks: bool, links: Option<LinkConfig>): Option<seq<Node>> {
    match kind
    case Unset => None
    case Selector => Some(SelectorNodes(SelectorSplit(token, 0, 0)))
    case Comment => CommentNodes(token, c, generateLinks, links)
    case Value => Some(ValueNodes(token, c))
    case Function => Some([TextNode(Or(c, if |token| > 0 then token[..|token| - 1] else ""))])
    case _ => Some([TextNode(Or(c, token))])
  }

  /** State, spans appended so far, and whether a throw ended the work. */
  datatype Effect = Effect(state: CssState, spans: seq<Span>, failed: bool)

  /** createElementFromToken: nothing for an empty token without a character; otherwise one span and the token cleared. */
  function Emit(st: CssState, kind: Kind, c: string): (r: Effect)
    ensures r.failed ==> kind == Unset || kind == Comment
    ensures r.failed || (|st.token| == 0 && c == "") ==> r.state == st && r.spans == []
    ensures !r.failed && !(|st.token| == 0 && c == "") ==>
      r.state == st.(token := "") && |r.spans| == 1 && r.spans[0].kind == kind
  {
    if |st.token| == 0 && c == "" then Effect(st, [], false)
    else match Render(kind, st.token, c, st.generateLinks, st.links)
      case None => Effect(st, [], true)
      case Some(ns) => Effect(st.(token := ""), [Span(kind, ns)], false)
  }

  // ----- One character of parseCSS -----

  /** The Selector case of the switch in parseCSS. */
  function OnSelector(s0: CssState, c: char, la: Option<char>): Effect {
    if c == '/' then
      if la == Some('*') then
        var s1 := SetMode(s0, Comment);
        if |s1.token| > 1 then
          var e := Emit(s1.(token := s1.token[..|s1.token| - 1]), Selector, "");
          if e.failed then e else e.(state := e.state.(token := e.state.token + "/"))
        else Effect(s1, [], false)
      else Effect(s0, [], false)
    else if c == '{' then Emit(SetMode(s0, Property), Selector, "")
    else if c == '}' then Emit(s0, Text, "")
    else if c == '@' then Effect(SetMode(s0, AtRule), [], false)
    else Effect(s0, [], false)
  }

  /** "*" followed by "/" ends a comment; the "/" is consumed by the same iteration. */
  predicate ClosesComment(mode: Kind, c: char, la: Option<char>) {
    mode == Comment && c == '*' && la == Some('/')
  }

  /** The Comment case: on "*" then "/", the token is completed and emitted after returning to the previous mode. */
  function OnComment(s0: CssState, c: char, la: Option<char>): Effect {
    if c == '*' && la == Some('/') then
      var s1 := s0.(token := s0.token + "/");
      Emit(SetMode(s1, s1.previous), Comment, "")
    else Effect(s0, [], false)
  }

  /** An emission followed by a change of mode, unless it threw. */
  function Then(e: Effect, m: Kind): Effect {
    if e.failed then e else e.(state := SetMode(e.state, m))
  }

  /** The Property case. */
  function OnProperty(s0: CssState, c: char, la: Option<char>): Effect {
    if c == '/' then
      if la == Some('*') then Effect(SetMode(s0, Comment), [], false) else Effect(s0, [], false)
    else if c == ':' then Then(Emit(s0, Property, ""), Value)
    else if c == '}' then Then(Emit(s0, Text, ""), Selector)
    else Effect(s0, [], false)
  }

  /** The Value case; "(" opens a function. */
  function OnValue(s0: CssState, c: char): Effect {
    if c == ';' then Then(Emit(s0, Value, ""), Property)
    else if c == '}' then Then(Emit(s0, Value, ""), Selector)
    else if c == '(' then
      var e := Emit(s0, Value, "");
      if e.failed then e else e.(state := SetMode(e.state.(fnLevel := e.state.fnLevel + 1), Function))
    else Effect(s0, [], false)
  }

  /** The AtRule and AtValue cases. */
  function OnAt(s0: CssState, c: char): Effect {
    if s0.mode == AtRule then
      if c == ' ' then Then(Emit(s0, AtRule, ""), AtValue) else Effect(s0, [], false)
    else
      if c == ';' || c == '{' then Then(Emit(s0, AtValue, ""), Selector) else Effect(s0, [], false)
  }

  /** The Function case: ")" at nesting level 1 emits the function text and leaves ")" as the next value token. */
  function OnFunction(s0: CssState, c: char): Effect {
    if c == ')' then
      var s1 := s0.(fnLevel := s0.fnLevel - 1);
      if s1.fnLevel == 0 then
        var e := Emit(s1, Function, "");
        if e.failed then e else e.(state := SetMode(e.state.(token := ")"), Value))
      else Effect(s1, [], false)
    else if c == '}' then Effect(SetMode(s0.(fnLevel := 0), Selector), [], false)
    else Effect(s0, [], false)
  }

  /** The switch on the current mode; in Unset nothing matches. */
  function Dispatch(s0: CssState, c: char, la: Option<char>): Effect {
    match s0.mode
    case Selector => OnSelector(s0, c, la)
    case Comment => OnComment(s0, c, la)
    case Property => OnProperty(s0, c, la)
    case Value => OnValue(s0, c)
    case AtRule => OnAt(s0, c)
    case AtValue => OnAt(s0, c)
    case Function => OnFunction(s0, c)
    case _ => Effect(s0, [], false)
  }

  /** The switch leaves the curly flag as the start of the iteration set it. */
  lemma DispatchKeepsCurly(s0: CssState, c: char, la: Option<char>)
    ensures Dispatch(s0, c, la).state.curly == s0.curly
  {
    match s0.mode
    case Selector => assert OnSelector(s0, c, la).state.curly == s0.curly;
    case Comment => assert OnComment(s0, c, la).state.curly == s0.curly;
    case Property => assert OnProperty(s0, c, la).state.curly == s0.curly;
    case Value => assert OnValue(s0, c).state.curly == s0.curly;
    case AtRule => assert OnAt(s0, c).state.curly == s0.curly;
    case AtValue => assert OnAt(s0, c).state.curly == s0.curly;
    case Function => assert OnFunction(s0, c).state.curly == s0.curly;
    case _ =>
  }

  /** One iteration of the loop: the new state, the spans, whether it threw, and how many characters it consumed. */
  datatype Move = Move(state: CssState, spans: seq<Span>, failed: bool, width: nat)

  function StepAt(st: CssState, content: string, p: nat): (r: Move)
    requires p < |content|
    ensures !r.failed ==> 1 <= r.width && p + r.width <= |content|
  {
    var c := content[p];
    var la := if p + 1 < |content| then Some(content[p + 1]) else None;
    var s0 := Enter(st, c);
    AfterSwitch(Dispatch(s0, c, la), c, s0.curly, ClosesComment(st.mode, c, la))
  }

  /** The start of an iteration: a curly bracket outside a comment is flagged, any other character joins the token. */
  function Enter(st: CssState, c: char): (s0: CssState)
    ensures s0.mode == st.mode && s0.previous == st.previous && s0.links == st.links
    ensures s0.curly <==> st.mode != Comment && (c == '{' || c == '}')
    ensures s0.token == if s0.curly then st.token else st.token + [c]
  {
    var curly := st.mode != Comment && (c == '{' || c == '}');
    st.(curly := curly, token := if curly then st.token else st.token + [c])
  }

  /** The end of an iteration: a throw stops it, a curly bracket then gets its own span; two characters are consumed when a comment closes. */
  function AfterSwitch(d: Effect, c: char, curly: bool, closes: bool): (r: Move)
    ensures !r.failed ==> r.width == (if curly || !closes then 1 else 2)
  {
    if d.failed then Move(d.state, d.spans, true, 0)
    else if curly then
      var e := Emit(d.state, Curly, [c]);
      Move(e.state, d.spans + e.spans, e.failed, 1)
    else Move(d.state, d.spans, false, if closes then 2 else 1)
  }

  /** The loop of parseCSS from index p; `last` is the mode in which the latest iteration began. */
  datatype Scan = Scan(state: CssState, spans: seq<Span>, last: Kind, failed: bool)

  function ScanFrom(st: CssState, content: string, p: nat, last: Kind, acc: seq<Span>): Scan
    requires p <= |content|
    decreases |content| - p, 1
  {
    if p == |content| then Scan(st, acc, last, false)
    else ScanNext(st, content, p, acc)
  }

  /** One iteration at index p, then the rest of the loop unless it threw. */
  function ScanNext(st: CssState, content: string, p: nat, acc: seq<Span>): Scan
    requires p < |content|
    decreases |content| - p, 0
  {
    var m := StepAt(st, content, p);
    if m.failed then Scan(m.state, acc + m.spans, st.mode, true)
    else ScanFrom(m.state, content, p + m.width, st.mode, acc + m.spans)
  }

  /** ScanFrom before the end of the content: one iteration and the rest. */
  lemma ScanFromStep(st: CssState, content: string, p: nat, last: Kind, acc: seq<Span>)
    requires p < |content|
    ensures var m := StepAt(st, content, p);
      ScanFrom(st, content, p, last, acc)
        == if m.failed then Scan(m.state, acc + m.spans, st.mode, true)
           else ScanFrom(m.state, content, p + m.width, st.mode, acc + m.spans)
  {
    assert ScanFrom(st, content, p, last, acc) == ScanNext(st, content, p, acc);
  }

  /** The link settings at the start of parseCSS: generation is on when both are given; they are rebound only on a changed chunk. */
  function Prepare(st: CssState, info: ParseInfo): CssState {
    st.(generateLinks := info.links.Some?,
        links := if info.links.Some? && info.linkChanged then info.links else st.links)
  }

  datatype Outcome = Outcome(state: CssState, spans: seq<Span>, failure: Option<CssFailure>)

  /** `parse(info, target)`: the loop, the flush of a remaining token in the last mode, then the leftover check. */
  function ParseChunk(st: CssState, info: ParseInfo): Outcome {
    if |info.content| == 0 then
      if st.token != "" then Outcome(st, [], Some(TokenNotEmpty)) else Outcome(st, [], None)
    else
      var s := ScanFrom(Prepare(st, info), info.content, 0, st.mode, []);
      if s.failed then Outcome(s.state, s.spans, Some(TypeError))
      else if |s.state.token| > 0 then
        var e := Emit(s.state, s.last, "");
        if e.failed then Outcome(e.state, s.spans, Some(TypeError))
        else Outcome(e.state, s.spans + e.spans, if e.state.token != "" then Some(TokenNotEmpty) else None)
      else Outcome(s.state, s.spans, None)
  }

  // ----- Properties -----

  /** Every iteration keeps the invariant, whatever the character and whether or not it throws. */
  lemma StepKeepsInv(st: CssState, content: string, p: nat)
    requires p < |content| && Inv(st)
    ensures Inv(StepAt(st, content, p).state)
  {
    var c := content[p];
    var la := if p + 1 < |content| then Some(content[p + 1]) else None;
    DispatchKeepsInv(Enter(st, c), c, la);
  }

  lemma DispatchKeepsInv(s0: CssState, c: char, la: Option<char>)
    requires Inv(s0)
    ensures Inv(Dispatch(s0, c, la).state)
  {
    match s0.mode
    case Selector => SelectorKeepsInv(s0, c, la);
    case Comment => CommentKeepsInv(s0, c, la);
    case Property => PropertyKeepsInv(s0, c, la);
    case Value => ValueKeepsInv(s0, c);
    case AtRule => AtKeepsInv(s0, c);
    case AtValue => AtKeepsInv(s0, c);
    case Function => FunctionKeepsInv(s0, c);
    case _ =>
  }

  lemma SelectorKeepsInv(s0: CssState, c: char, la: Option<char>)
    requires Inv(s0) && s0.mode == Selector
    ensures Inv(OnSelector(s0, c, la).state)
  {
  }

  lemma CommentKeepsInv(s0: CssState, c: char, la: Option<char>)
    requires Inv(s0) && s0.mode == Comment
    ensures Inv(OnComment(s0, c, la).state)
  {
  }

  lemma PropertyKeepsInv(s0: CssState, c: char, la: Option<char>)
    requires Inv(s0) && s0.mode == Property
    ensures Inv(OnProperty(s0, c, la).state)
  {
  }

  lemma ValueKeepsInv(s0: CssState, c: char)
    requires Inv(s0) && s0.mode == Value
    ensures Inv(OnValue(s0, c).state)
  {
  }

  lemma AtKeepsInv(s0: CssState, c: char)
    requires Inv(s0) && (s0.mode == AtRule || s0.mode == AtValue)
    ensures Inv(OnAt(s0, c).state)
  {
  }

  lemma FunctionKeepsInv(s0: CssState, c: char)
    requires Inv(s0) && s0.mode == Function
    ensures Inv(OnFunction(s0, c).state)
  {
  }

  lemma {:induction false} ScanKeepsInv(st: CssState, content: string, p: nat, last: Kind, acc: seq<Span>)
    requires p <= |content| && Inv(st)
    ensures Inv(ScanFrom(st, content, p, last, acc).state)
    decreases |content| - p
  {
    if p < |content| {
      var m := StepAt(st, content, p);
      ScanFromStep(st, content, p, last, acc);
      StepKeepsInv(st, content, p);
      if !m.failed {
        ScanKeepsInv(m.state, content, p + m.width, st.mode, acc + m.spans);
      }
    }
  }

  /**
   * A whole chunk keeps the invariant: in particular fnLevel is 1 exactly in
   * Function mode, so nested parentheses never count, and a comment always
   * returns to Selector or Property.
   */
  lemma ParseKeepsInv(st: CssState, info: ParseInfo)
    requires Inv(st)
    ensures Inv(ParseChunk(st, info).state)
  {
    if |info.content| > 0 {
      ScanKeepsInv(Prepare(st, info), info.content, 0, st.mode, []);
    }
  }

  /** The check "CSS token is not 0" can only fire for an empty chunk arriving with a token left by an earlier throw. */
  lemma ParseNeverLeavesToken(st: CssState, info: ParseInfo)
    ensures ParseChunk(st, info).failure == Some(TokenNotEmpty) <==> |info.content| == 0 && st.token != ""
    ensures ParseChunk(st, info).failure.None? ==> ParseChunk(st, info).state.token == ""
  {
  }

  /** Comment mode is entered only from Selector or Property, on "/" followed by "*". */
  lemma CommentEntry(st: CssState, content: string, p: nat)
    requires p < |content| && Inv(st) && st.mode != Comment
    requires StepAt(st, content, p).state.mode == Comment
    ensures st.mode == Selector || st.mode == Property
    ensures content[p] == '/' && p + 1 < |content| && content[p + 1] == '*'
  {
    var c := content[p];
    var la := if p + 1 < |content| then Some(content[p + 1]) else None;
    var s0 := Enter(st, c);
    assert Dispatch(s0, c, la).state.mode == Comment;
    match st.mode
    case Selector => assert OnSelector(s0, c, la).state.mode == Comment;
    case Property => assert OnProperty(s0, c, la).state.mode == Comment;
    case Value => assert false;
    case AtRule => assert false;
    case AtValue => assert false;
    case Function => assert false;
    case _ =>
  }

  /**
   * A brace read outside a comment always ends its iteration with a Curly
   * span holding exactly that brace, and no token is pending afterwards.
   */
  lemma CurlySpan(st: CssState, content: string, p: nat)
    requires p < |content| && Inv(st) && st.mode != Comment
    requires content[p] == '{' || content[p] == '}'
    requires !StepAt(st, content, p).failed
    ensures var m := StepAt(st, content, p);
      && |m.spans| >= 1
      && m.spans[|m.spans| - 1] == Span(Curly, [TextNode([content[p]])])
      && m.state.token == "" && m.state.curly
  {
  }

  /** In a comment, "*" followed by "/" closes it: one comment span with the whole token, and the mode returns. */
  lemma CommentClose(st: CssState, content: string, p: nat)
    requires p + 1 < |content| && content[p] == '*' && content[p + 1] == '/'
    requires st.mode == Comment && !st.generateLinks
    ensures var m := StepAt(st, content, p);
      && !m.failed && m.width == 2
      && m.spans == [Span(Comment, [TextNode(st.token + "*/")])]
      && m.state.mode == st.previous && m.state.previous == Comment && m.state.token == ""
  {
    var s1 := st.(curly := false, token := st.token + "*" + "/");
    assert st.token + "*" + "/" == st.token + "*/";
    assert Render(Comment, s1.token, "", false, st.links) == Some([TextNode(st.token + "*/")]);
  }

  /** A slash followed by a star in Selector mode flushes the selector text before it and starts the comment token with the slash. */
  lemma CommentOpenFlushesSelector(st: CssState, content: string, p: nat)
    requires p + 1 < |content| && content[p] == '/' && content[p + 1] == '*'
    requires st.mode == Selector && |st.token| > 0
    ensures var m := StepAt(st, content, p);
      && !m.failed && m.width == 1
      && m.spans == [Span(Selector, SelectorNodes(SelectorSplit(st.token, 0, 0)))]
      && m.state.mode == Comment && m.state.previous == Selector && m.state.token == "/"
  {
    var s0 := st.(curly := false, token := st.token + "/");
    assert s0.token[..|s0.token| - 1] == st.token;
  }

  /**
   * In a function, the first ")" ends it, since a nested "(" does not raise
   * the level: the function text up to that ")" is emitted, and ")" starts
   * the next value token.
   */
  lemma FunctionCloseSeedsValue(st: CssState, content: string, p: nat)
    requires p < |content| && content[p] == ')' && st.mode == Function && Inv(st)
    ensures var m := StepAt(st, content, p);
      && !m.failed && m.width == 1
      && m.spans == [Span(Function, [TextNode(st.token)])]
      && m.state.mode == Value && m.state.previous == Function && m.state.fnLevel == 0 && m.state.token == ")"
  {
    var s0 := Enter(st, ')');
    assert s0.token == st.token + ")" && !s0.curly;
    assert s0.token[..|s0.token| - 1] == st.token;
  }

  /** Unlike a selector, the property text before "/" and "*" is not flushed: it becomes the start of the comment token. */
  lemma PropertyCommentKeepsToken(st: CssState, content: string, p: nat)
    requires p + 1 < |content| && content[p] == '/' && content[p + 1] == '*' && st.mode == Property
    ensures var m := StepAt(st, content, p);
      && !m.failed && m.width == 1 && m.spans == []
      && m.state.mode == Comment && m.state.previous == Property && m.state.token == st.token + "/"
  {
  }

  /** An at-rule directly followed by "{" loses its text: the curly span discards the pending token. */
  lemma AtRuleTextDropped()
    ensures var r := ParseChunk(CssState(Selector, Selector, "", 0, false, false, None), ParseInfo("@a{", None, true));
      r.failure.None? && r.spans == [Span(Curly, [TextNode("{")])]
  {
    var st := CssState(Selector, Selector, "", 0, false, false, None);
    var content := "@a{";
    var m0 := StepAt(st, content, 0);
    assert m0.state.mode == AtRule && m0.state.token == "@" && m0.spans == [];
    var m1 := StepAt(m0.state, content, 1);
    assert m1.state.mode == AtRule && m1.state.token == "@a" && m1.spans == [];
    AtRuleCurlyDropsToken(m1.state, content, 2);
    var m2 := StepAt(m1.state, content, 2);
    assert ScanFrom(m1.state, content, 2, AtRule, []) == Scan(m2.state, m2.spans, AtRule, false);
  }

  /** In an at-rule, "{" emits only itself and clears the token: the at-rule text gathered so far is never emitted. */
  lemma AtRuleCurlyDropsToken(st: CssState, content: string, p: nat)
    requires p < |content| && content[p] == '{' && st.mode == AtRule
    ensures var m := StepAt(st, content, p);
      !m.failed && m.spans == [Span(Curly, [TextNode("{")])] && m.state.token == "" && m.state.mode == AtRule
  {
    var s0 := Enter(st, '{');
    assert s0.curly && s0.mode == AtRule;
    assert OnAt(s0, '{') == Effect(s0, [], false);
  }

  /** Slash, star, slash is taken as a complete comment: the slash that opens it also closes it. */
  lemma SlashStarSlashIsComment()
    ensures var r := ParseChunk(CssState(Selector, Selector, "", 0, false, false, None), ParseInfo("/*/", None, true));
      r.failure.None? && r.spans == [Span(Comment, [TextNode("/*/")])] && r.state.mode == Selector
  {
    var st := CssState(Selector, Selector, "", 0, false, false, None);
    var content := "/*/";
    var m0 := StepAt(st, content, 0);
    assert m0.state.mode == Comment && m0.state.token == "/" && m0.width == 1;
    assert "/" + "*" + "/" == "/*/";
    CommentClose(m0.state, content, 1);
    var m1 := StepAt(m0.state, content, 1);
    assert m1.width == 2 && m1.spans == [Span(Comment, [TextNode("/*/")])];
    assert ScanFrom(m0.state, content, 1, Selector, []) == Scan(m1.state, m1.spans, Comment, false);
  }

  /** LinksFrom with the nodes made so far carried along, as the loop of createLinksFromMatchingToken builds them. */
  function LinksLoop(token: string, parts: seq<string>, hrefs: seq<string>, i: nat, from: int, acc: seq<Node>): seq<Node>
    requires |hrefs| == |parts| && i <= |parts|
    decreases |parts| - i
  {
    if i == |parts| then acc + [TextNode(Strings.Substring(token, from, |token|))]
    else
      var idx := Strings.IndexOf(token, parts[i]);
      LinksLoop(token, parts, hrefs, i + 1, idx + |parts[i]|, acc + [TextNode(Strings.Substring(token, from, idx)), Link(parts[i], hrefs[i])])
  }

  /** The loop's nodes are those made so far followed by LinksFrom. */
  lemma {:induction false} LinksLoopFrom(token: string, parts: seq<string>, hrefs: seq<string>, i: nat, from: int, acc: seq<Node>)
    requires |hrefs| == |parts| && i <= |parts|
    ensures LinksLoop(token, parts, hrefs, i, from, acc) == acc + LinksFrom(token, parts, hrefs, i, from)
    decreases |parts| - i
  {
    if i < |parts| {
      var idx := Strings.IndexOf(token, parts[i]);
      var e := idx + |parts[i]|;
      var pair := [TextNode(Strings.Substring(token, from, idx)), Link(parts[i], hrefs[i])];
      var rest := LinksFrom(token, parts, hrefs, i + 1, e);
      assert LinksLoop(token, parts, hrefs, i, from, acc) == LinksLoop(token, parts, hrefs, i + 1, e, acc + pair);
      assert LinksFrom(token, parts, hrefs, i, from) == pair + rest;
      LinksLoopFrom(token, parts, hrefs, i + 1, e, acc + pair);
      assert acc + pair + rest == acc + (pair + rest);
    }
  }

  // ----- Imperative form -----

  /** createLinksFromMatchingToken as a loop over the matches. */
  method CreateLinksFromMatchingToken(parts: seq<string>, transformed: seq<string>, token: string) returns (frag: seq<Node>)
    requires |transformed| == |parts|
    ensures frag == LinksFrom(token, parts, transformed, 0, 0)
  {
    frag := [];
    var linkIdx := 0;
    var fromIdx := 0;
    while linkIdx < |parts|
      invariant 0 <= linkIdx <= |parts|
      invariant LinksLoop(token, parts, transformed, linkIdx, fromIdx, frag) == LinksLoop(token, parts, transformed, 0, 0, [])
    {
      var part := parts[linkIdx];
      var idx := Strings.IndexOf(token, part);
      frag := frag + [TextNode(Strings.Substring(token, fromIdx, idx)), Link(part, transformed[linkIdx])];
      linkIdx := linkIdx + 1;
      fromIdx := idx + |part|;
    }
    frag := frag + [TextNode(Strings.Substring(token, fromIdx, |token|))];
    LinksLoopFrom(token, parts, transformed, 0, 0, []);
    assert [] + LinksFrom(token, parts, transformed, 0, 0) == LinksFrom(token, parts, transformed, 0, 0);
  }

  class CssHighlighter {
    var mode: Kind
    var previous: Kind
    var token: string
    var fnLevel: int
    var curly: bool
    var generateLinks: bool
    var links: Option<LinkConfig>

    function State(): CssState
      reads this
    {
      CssState(mode, previous, token, fnLevel, curly, generateLinks, links)
    }

    /** A new highlighter: Selector is the initial mode, but current and previous stay null until reset. */
    constructor ()
      ensures State() == Fresh
    {
      mode, previous, token := Unset, Unset, "";
      curly, fnLevel, generateLinks := false, 0, false;
      links := None;
    }

    /** `reset()`: token cleared, both modes Selector, no curly, no function nesting; the link settings stay. */
    method Reset()
      modifies this
      ensures State() == old(State()).(mode := Selector, previous := Selector, token := "", curly := false, fnLevel := 0)
      ensures Inv(State())
    {
      token := "";
      previous, mode := Selector, Selector;
      curly := false;
      fnLevel := 0;
    }

    /** `state.set(m)`. */
    method Set(m: Kind)
      modifies this
      ensures State() == SetMode(old(State()), m)
    {
      previous := mode;
      mode := m;
    }

    /** createElementFromToken: the spans appended, and whether building the span threw. */
    method CreateElementFromToken(kind: Kind, c: string) returns (spans: seq<Span>, failed: bool)
      modifies this
      ensures Effect(State(), spans, failed) == Emit(old(State()), kind, c)
    {
      if |token| == 0 && c == "" {
        return [], false;
      }
      var nodes: seq<Node>;
      if kind == Comment && generateLinks {
        if links.None? {
          return [], true;
        }
        var found := links.value.matcher(token);
        if |found| > 0 {
          nodes := CreateLinksFromMatchingToken(found, MapLinks(links.value.generator, found), token);
        } else {
          nodes := [TextNode(Or(c, token))];
        }
      } else {
        var r := Render(kind, token, c, generateLinks, links);
        if r.None? {
          return [], true;
        }
        nodes := r.value;
      }
      spans := [Span(kind, nodes)];
      failed := false;
      token := "";
    }

    method SelectorCase(character: char, lookahead: Option<char>) returns (spans: seq<Span>, failed: bool)
      modifies this
      ensures Effect(State(), spans, failed) == OnSelector(old(State()), character, lookahead)
    {
      spans, failed := [], false;
      if character == '/' {
        if lookahead == Some('*') {
          Set(Comment);
          if |token| > 1 {
            token := token[..|token| - 1];
            spans, failed := CreateElementFromToken(Selector, "");
            if !failed {
              token := token + "/";
            }
          }
        }
      } else if character == '{' {
        Set(Property);
        spans, failed := CreateElementFromToken(Selector, "");
      } else if character == '}' {
        spans, failed := CreateElementFromToken(Text, "");
      } else if character == '@' {
        Set(AtRule);
      }
    }

    method CommentCase(character: char, lookahead: Option<char>) returns (spans: seq<Span>, failed: bool)
      modifies this
      ensures Effect(State(), spans, failed) == OnComment(old(State()), character, lookahead)
    {
      spans, failed := [], false;
      if character == '*' && lookahead == Some('/') {
        token := token + "/";
        Set(previous);
        spans, failed := CreateElementFromToken(Comment, "");
      }
    }

    method PropertyCase(character: char, lookahead: Option<char>) returns (spans: seq<Span>, failed: bool)
      modifies this
      ensures Effect(State(), spans, failed) == OnProperty(old(State()), character, lookahead)
    {
      spans, failed := [], false;
      if character == '/' {
        if lookahead == Some('*') {
          Set(Comment);
        }
      } else if character == ':' {
        spans, failed := CreateElementFromToken(Property, "");
        if !failed { Set(Value); }
      } else if character == '}' {
        spans, failed := CreateElementFromToken(Text, "");
        if !failed { Set(Selector); }
      }
    }

    method ValueCase(character: char) returns (spans: seq<Span>, failed: bool)
      modifies this
      ensures Effect(State(), spans, failed) == OnValue(old(State()), character)
    {
      spans, failed := [], false;
      if character == ';' {
        spans, failed := CreateElementFromToken(Value, "");
        if !failed { Set(Property); }
      } else if character == '}' {
        spans, failed := CreateElementFromToken(Value, "");
        if !failed { Set(Selector); }
      } else if character == '(' {
        spans, failed := CreateElementFromToken(Value, "");
        if !failed {
          fnLevel := fnLevel + 1;
          Set(Function);
        }
      }
    }

    method AtCase(character: char) returns (spans: seq<Span>, failed: bool)
      requires mode == AtRule || mode == AtValue
      modifies this
      ensures Effect(State(), spans, failed) == OnAt(old(State()), character)
    {
      spans, failed := [], false;
      if mode == AtRule {
        if character == ' ' {
          spans, failed := CreateElementFromToken(AtRule, "");
          if !failed { Set(AtValue); }
        }
      } else if character == ';' || character == '{' {
        spans, failed := CreateElementFromToken(AtValue, "");
        if !failed { Set(Selector); }
      }
    }

    method FunctionCase(character: char) returns (spans: seq<Span>, failed: bool)
      modifies this
      ensures Effect(State(), spans, failed) == OnFunction(old(State()), character)
    {
      spans, failed := [], false;
      if character == ')' {
        fnLevel := fnLevel - 1;
        if fnLevel == 0 {
          spans, failed := CreateElementFromToken(Function, "");
          if !failed {
            token := ")";
            Set(Value);
          }
        }
      } else if character == '}' {
        fnLevel := 0;
        Set(Selector);
      }
    }

    /** The switch on the current mode inside the loop of parseCSS. */
    method Switch(character: char, lookahead: Option<char>) returns (spans: seq<Span>, failed: bool)
      modifies this
      ensures Effect(State(), spans, failed) == Dispatch(old(State()), character, lookahead)
      ensures curly == old(curly)
    {
      match mode {
        case Selector => spans, failed := SelectorCase(character, lookahead);
        case Comment => spans, failed := CommentCase(character, lookahead);
        case Property => spans, failed := PropertyCase(character, lookahead);
        case Value => spans, failed := ValueCase(character);
        case AtRule => spans, failed := AtCase(character);
        case AtValue => spans, failed := AtCase(character);
        case Function => spans, failed := FunctionCase(character);
        case _ => spans, failed := [], false;
      }
      DispatchKeepsCurly(old(State()), character, lookahead);
    }

    /** One iteration of the loop of parseCSS. */
    method Step(content: string, pos: nat) returns (spans: seq<Span>, failed: bool, width: nat)
      requires pos < |content|
      modifies this
      ensures Move(State(), spans, failed, width) == StepAt(old(State()), content, pos)
    {
      var character := content[pos];
      var lookahead := if pos + 1 < |content| then Some(content[pos + 1]) else None;
      var closes := ClosesComment(mode, character, lookahead);
      curly := mode != Comment && (character == '{' || character == '}');
      if !curly {
        token := token + [character];
      }
      assert State() == Enter(old(State()), character);
      var switched, threw := Switch(character, lookahead);
      spans, failed, width := EndStep(character, closes, switched, threw);
    }

    /** The end of an iteration, after the switch produced `switched` or threw. */
    method EndStep(character: char, closes: bool, switched: seq<Span>, threw: bool) returns (spans: seq<Span>, failed: bool, width: nat)
      modifies this
      ensures Move(State(), spans, failed, width) == AfterSwitch(Effect(old(State()), switched, threw), character, old(curly), closes)
    {
      spans, failed := switched, threw;
      if failed {
        return spans, true, 0;
      }
      width := if closes then 2 else 1;
      if curly {
        var emitted;
        emitted, failed := CreateElementFromToken(Curly, [character]);
        spans := spans + emitted;
        width := 1;
      }
    }

    /** One iteration of the character loop at `pos`, after the spans `acc`. */
    method ScanStep(content: string, pos: nat, last: Kind, acc: seq<Span>) returns (acc': seq<Span>, failed: bool, next: nat, last': Kind)
      requires pos < |content|
      modifies this
      ensures last' == old(mode)
      ensures !failed ==> (pos < next <= |content|
        && ScanFrom(State(), content, next, last', acc') == ScanFrom(old(State()), content, pos, last, acc))
      ensures failed ==> Scan(State(), acc', last', true) == ScanFrom(old(State()), content, pos, last, acc)
    {
      ScanFromStep(State(), content, pos, last, acc);
      last' := mode;
      var emitted, width;
      emitted, failed, width := Step(content, pos);
      acc' := acc + emitted;
      next := pos + width;
    }

    /** The character loop of parseCSS; `last` is the mode in which the latest iteration began. */
    method ScanContent(content: string) returns (spans: seq<Span>, failed: bool, last: Kind)
      modifies this
      ensures Scan(State(), spans, last, failed) == ScanFrom(old(State()), content, 0, old(mode), [])
    {
      spans, failed, last := [], false, mode;
      var pos := 0;
      while !failed && pos < |content|
        invariant 0 <= pos <= |content|
        invariant !failed ==> ScanFrom(State(), content, pos, last, spans) == ScanFrom(old(State()), content, 0, old(mode), [])
        invariant failed ==> Scan(State(), spans, last, true) == ScanFrom(old(State()), content, 0, old(mode), [])
        decreases |content| - pos, if failed then 0 else 1
      {
        var next;
        spans, failed, next, last := ScanStep(content, pos, last, spans);
        if !failed {
          pos := next;
        }
      }
    }

    /** `parse(info, target)`: the spans appended to the target row, and the error thrown, if any. */
    method Parse(info: ParseInfo) returns (spans: seq<Span>, failure: Option<CssFailure>)
      modifies this
      ensures Outcome(State(), spans, failure) == ParseChunk(old(State()), info)
    {
      spans, failure := [], None;
      var content := info.content;
      if |content| > 0 {
        generateLinks := info.links.Some?;
        if generateLinks && info.linkChanged {
          links := info.links;
        }
        var failed, currentState;
        spans, failed, currentState := ScanContent(content);
        if failed {
          failure := Some(TypeError);
          return;
        }
        if |token| > 0 {
          var emitted;
          emitted, failed := CreateElementFromToken(currentState, "");
          if failed {
            failure := Some(TypeError);
            return;
          }
          spans := spans + emitted;
        }
      }
      if token != "" {
        failure := Some(TokenNotEmpty);
      }
    }
  }
}
