/**
 * The reader view element (ReaderView): `setSource` turns a text into a
 * sequence of heading and paragraph elements, line by line. Leading
 * "#"-lines shorter than 50 UTF-16 code units are titles (H1, which also become
 * the document title) until the first empty or other line; after that a
 * "#"-line is a subheading (H2) and any other non-empty line a paragraph.
 * Elements are built by `CreateElement`, which skips falsy properties.
 */
module ReaderViewWidget {
  import opened Wrappers
  import opened Json
  import Strings

  /** A created element: its tag, its text content, its attributes in the order set, and its children. */
  datatype Element = Element(tag: string, text: string, attributes: seq<(string, string)>, children: seq<Element>)

  /** Whether `CreateElement` sets this property as an attribute. */
  predicate IsAttribute(p: (string, Json)) {
    p.0 != "text" && Truthy(p.1)
  }

  /** The attributes `CreateElement` sets for the properties `props`, in order. */
  function Attributes(props: seq<(string, Json)>): (r: seq<(string, string)>)
    ensures |r| <= |props|
  {
    if props == [] then []
    else
      var last := props[|props| - 1];
      Attributes(props[..|props| - 1]) + (if IsAttribute(last) then [(last.0, ToText(last.1))] else [])
  }

  /** The text content `CreateElement` leaves: that of the last truthy "text" property, or none. */
  function TextOf(props: seq<(string, Json)>): string {
    if props == [] then ""
    else
      var last := props[|props| - 1];
      if last.0 == "text" && Truthy(last.1) then ToText(last.1) else TextOf(props[..|props| - 1])
  }

  /** What `CreateElement(tag, props, children)` returns; children that are not an array are ignored. */
  function ElementOf(tag: string, props: seq<(string, Json)>, children: Option<seq<Element>>): Element {
    Element(tag, TextOf(props), Attributes(props), children.GetOr([]))
  }

  /**
   * An attribute is set exactly for each truthy property other than "text",
   * with the property's value as text.
   */
  lemma {:induction false} AttributesIff(props: seq<(string, Json)>, key: string, value: string)
    ensures (key, value) in Attributes(props)
      <==> exists j :: 0 <= j < |props| && props[j].0 == key && IsAttribute(props[j]) && ToText(props[j].1) == value
  {
    if props != [] {
      var front := props[..|props| - 1];
      AttributesIff(front, key, value);
      if (key, value) in Attributes(props) && (key, value) !in Attributes(front) {
        assert IsAttribute(props[|props| - 1]);
      }
      if exists j :: 0 <= j < |props| && props[j].0 == key && IsAttribute(props[j]) && ToText(props[j].1) == value {
        var j :| 0 <= j < |props| && props[j].0 == key && IsAttribute(props[j]) && ToText(props[j].1) == value;
        if j < |props| - 1 {
          assert front[j] == props[j];
        }
      }
    }
  }

  /** No attribute is named "text", and a falsy property leaves no trace. */
  lemma {:induction false} NoFalsyAttribute(props: seq<(string, Json)>)
    ensures forall k :: 0 <= k < |Attributes(props)| ==> Attributes(props)[k].0 != "text"
    ensures (forall j :: 0 <= j < |props| ==> !Truthy(props[j].1)) ==> Attributes(props) == [] && TextOf(props) == ""
  {
    if props != [] {
      var front := props[..|props| - 1];
      NoFalsyAttribute(front);
      if forall j :: 0 <= j < |props| ==> !Truthy(props[j].1) {
        assert forall j :: 0 <= j < |front| ==> front[j] == props[j];
        assert !Truthy(props[|props| - 1].1);
      }
    }
  }

  // ----- Line classification -----

  /** What a line of the source becomes. */
  datatype Block = H1(title: string) | H2(heading: string) | P(paragraph: string)

  /** The longest title line is 49 UTF-16 code units. */
  const TITLE_LIMIT: nat := 50

  /** Each line with `trim()` applied. */
  function Trimmed(lines: seq<string>): (r: seq<string>)
    ensures |r| == |lines|
  {
    seq(|lines|, i requires 0 <= i < |lines| => Strings.Trim(lines[i]))
  }

  /**
   * One trimmed line, given whether the title run still lasts: the blocks
   * it gives and whether the run lasts after it. An empty line gives
   * nothing and ends the run; while the run lasts a "#"-line shorter than
   * 50 code units is a title; any other line ends the run.
   */
  function Step(line: string, tryTitle: bool): (r: (seq<Block>, bool))
    ensures |r.0| == (if line == "" then 0 else 1)
    ensures r.1 <==> r.0 != [] && r.0[0].H1?
    ensures r.1 ==> tryTitle
  {
    if |line| == 0 then ([], false)
    else if tryTitle && line[0] == '#' && Strings.Utf16Length(line) < TITLE_LIMIT then ([H1(line[1..])], true)
    else if line[0] == '#' then ([H2(line[1..])], false)
    else ([P(line)], false)
  }

  /** The blocks of the trimmed lines, the title run lasting at first as `tryTitle` says. */
  function Classify(lines: seq<string>, tryTitle: bool): (r: seq<Block>)
    ensures |r| <= |lines|
  {
    if lines == [] then []
    else
      var s := Step(lines[0], tryTitle);
      s.0 + Classify(lines[1..], s.1)
  }

  /** The line a block came from, after trimming. */
  function Source(b: Block): string {
    match b
    case H1(t) => "#" + t
    case H2(t) => "#" + t
    case P(t) => t
  }

  /** The non-empty lines, in order. */
  function NonEmptyLines(lines: seq<string>): seq<string> {
    if lines == [] then []
    else (if lines[0] == "" then [] else [lines[0]]) + NonEmptyLines(lines[1..])
  }

  /** The lines the blocks came from. */
  function Sources(bs: seq<Block>): (r: seq<string>)
    ensures |r| == |bs|
  {
    if bs == [] then [] else [Source(bs[0])] + Sources(bs[1..])
  }

  lemma {:induction false} SourcesAppend(a: seq<Block>, b: seq<Block>)
    ensures Sources(a + b) == Sources(a) + Sources(b)
  {
    if a != [] {
      assert (a + b)[1..] == a[1..] + b;
      SourcesAppend(a[1..], b);
    } else {
      assert a + b == b;
    }
  }

  /**
   * Every non-empty line gives exactly one block, in line order, and
   * nothing but the "#" marker of a heading is dropped.
   */
  lemma {:induction false} OneBlockPerLine(lines: seq<string>, tryTitle: bool)
    ensures Sources(Classify(lines, tryTitle)) == NonEmptyLines(lines)
  {
    if lines != [] {
      var line := lines[0];
      var s := Step(line, tryTitle);
      var rest := Classify(lines[1..], s.1);
      OneBlockPerLine(lines[1..], s.1);
      assert Classify(lines, tryTitle) == s.0 + rest;
      SourcesAppend(s.0, rest);
      if line != "" {
        if line[0] == '#' {
          assert line == "#" + line[1..];
        }
        assert Sources(s.0) == [Source(s.0[0])] + Sources([]);
        assert Sources(s.0) == [line];
      }
    }
  }

  /** A paragraph never starts with "#", and a title line stays under the length limit. */
  lemma {:induction false} BlockShapes(lines: seq<string>, tryTitle: bool)
    ensures forall k :: 0 <= k < |Classify(lines, tryTitle)| ==> match Classify(lines, tryTitle)[k]
      case H1(t) => Strings.Utf16Length("#" + t) < TITLE_LIMIT
      case H2(_) => true
      case P(t) => t != [] && t[0] != '#'
  {
    if lines != [] {
      var s := Step(lines[0], tryTitle);
      BlockShapes(lines[1..], s.1);
      assert Classify(lines, tryTitle) == s.0 + Classify(lines[1..], s.1);
      if s.1 {
        assert lines[0] == "#" + lines[0][1..];
      }
    }
  }

  /** Every H1 precedes every H2 and P. */
  predicate TitlesLead(r: seq<Block>) {
    forall a, b :: 0 <= a < b < |r| && r[b].H1? ==> r[a].H1?
  }

  /** Titles come first: every H1 precedes every H2 and P. */
  lemma {:induction false} TitlesFirst(lines: seq<string>, tryTitle: bool)
    ensures TitlesLead(Classify(lines, tryTitle))
  {
    if lines != [] {
      var s := Step(lines[0], tryTitle);
      var rest := Classify(lines[1..], s.1);
      var r := Classify(lines, tryTitle);
      assert r == s.0 + rest;
      if s.1 {
        TitlesFirst(lines[1..], s.1);
        assert TitlesLead(rest);
        assert |s.0| == 1 && s.0[0].H1?;
        forall a, b | 0 <= a < b < |r| && r[b].H1? ensures r[a].H1? {
          if a > 0 {
            assert r[a] == rest[a - 1] && r[b] == rest[b - 1];
          } else {
            assert r[0] == s.0[0];
          }
        }
      } else {
        NoTitleAfterRun(lines[1..]);
      }
    }
  }

  /** Once the title run has ended no line becomes a title. */
  lemma {:induction false} NoTitleAfterRun(lines: seq<string>)
    ensures forall k :: 0 <= k < |Classify(lines, false)| ==> !Classify(lines, false)[k].H1?
  {
    if lines != [] {
      NoTitleAfterRun(lines[1..]);
      assert Classify(lines, false) == Step(lines[0], false).0 + Classify(lines[1..], false);
    }
  }

  /** An empty line ends the title run: a later "#"-line is a subheading. */
  lemma EmptyLineEndsTitles()
    ensures Classify(["# Title", "", "#Part"], true) == [H1(" Title"), H2("Part")]
  {
    assert ["# Title", "", "#Part"][1..] == ["", "#Part"];
    assert ["", "#Part"][1..] == ["#Part"];
    assert Classify(["#Part"], false) == [H2("Part")];
  }

  /** The last title among the blocks, or `title` when there is none. */
  function LastTitle(blocks: seq<Block>, title: string): (r: string)
    ensures r == title || exists k :: 0 <= k < |blocks| && blocks[k].H1? && blocks[k].title == r
  {
    if blocks == [] then title
    else
      var rest := LastTitle(blocks[1..], if blocks[0].H1? then blocks[0].title else title);
      assert rest != title && rest != (if blocks[0].H1? then blocks[0].title else title) ==>
        exists k :: 1 <= k < |blocks| && blocks[k].H1? && blocks[k].title == rest;
      rest
  }

  lemma {:induction false} LastTitleAppend(a: seq<Block>, b: seq<Block>, title: string)
    ensures LastTitle(a + b, title) == LastTitle(b, LastTitle(a, title))
  {
    if a != [] {
      assert (a + b)[1..] == a[1..] + b;
      LastTitleAppend(a[1..], b, if a[0].H1? then a[0].title else title);
    } else {
      assert a + b == b;
    }
  }

  /** The element a block is rendered as: `H1`, `H2` or `P` with slot "contentbox" and the block's text. */
  function Render(b: Block): Element {
    match b
    case H1(t) => ElementOf("h1", [("slot", Str("contentbox")), ("text", Str(t))], None)
    case H2(t) => ElementOf("h2", [("slot", Str("contentbox")), ("text", Str(t))], None)
    case P(t) => ElementOf("p", [("slot", Str("contentbox")), ("text", Str(t))], None)
  }

  function RenderAll(bs: seq<Block>): (r: seq<Element>)
    ensures |r| == |bs|
  {
    if bs == [] then [] else [Render(bs[0])] + RenderAll(bs[1..])
  }

  lemma {:induction false} RenderAllAppend(a: seq<Block>, b: seq<Block>)
    ensures RenderAll(a + b) == RenderAll(a) + RenderAll(b)
  {
    if a != [] {
      assert (a + b)[1..] == a[1..] + b;
      RenderAllAppend(a[1..], b);
    } else {
      assert a + b == b;
    }
  }

  /** What one pass of `setSource`'s loop does to the blocks still to come. */
  lemma LoopStep(lines: seq<string>, i: nat, tryTitle: bool, done: seq<Element>, title: string)
    requires i < |lines|
    ensures var s := Step(lines[i], tryTitle);
      var rest := Classify(lines[i + 1..], s.1);
      done + RenderAll(Classify(lines[i..], tryTitle)) == (done + RenderAll(s.0)) + RenderAll(rest)
      && LastTitle(Classify(lines[i..], tryTitle), title) == LastTitle(rest, LastTitle(s.0, title))
  {
    var s := Step(lines[i], tryTitle);
    var rest := Classify(lines[i + 1..], s.1);
    assert lines[i..][1..] == lines[i + 1..];
    assert Classify(lines[i..], tryTitle) == s.0 + rest;
    RenderAllAppend(s.0, rest);
    LastTitleAppend(s.0, rest, title);
  }

  /** A bare "#" title yields an H1 with no text: the empty title is falsy and is skipped. */
  lemma BareHashTitle()
    ensures RenderAll(Classify(["#"], true)) == [Element("h1", "", [("slot", "contentbox")], [])]
  {
    assert "#"[1..] == "";
    assert ["#"][1..] == [];
    assert Classify(["#"], true) == [H1("")] + [];
    var props := [("slot", Str("contentbox")), ("text", Str(""))];
    assert props[..1] == [("slot", Str("contentbox"))];
    assert props[..1][..0] == [];
    assert Attributes(props) == [("slot", "contentbox")];
    assert TextOf(props) == "";
    assert RenderAll([H1("")]) == [Render(H1(""))];
  }

  class ReaderView {
    /** The light-DOM children of the element. */
    var children: seq<Element>
    /** The document's title. */
    var documentTitle: string

    constructor(title: string)
      ensures children == [] && documentTitle == title
    {
      children := [];
      documentTitle := title;
    }

    /** `CreateElement(type, obj, children)`. */
    static method CreateElement(tag: string, props: seq<(string, Json)>, kids: Option<seq<Element>>) returns (el: Element)
      ensures el == ElementOf(tag, props, kids)
    {
      el := Element(tag, "", [], []);
      var i := 0;
      while i < |props|
        invariant 0 <= i <= |props|
        invariant el == Element(tag, TextOf(props[..i]), Attributes(props[..i]), [])
      {
        var p := props[i];
        assert props[..i + 1][..i] == props[..i];
        if Truthy(p.1) {
          if p.0 == "text" {
            el := el.(text := ToText(p.1));
          } else {
            el := el.(attributes := el.attributes + [(p.0, ToText(p.1))]);
          }
        }
        i := i + 1;
      }
      assert props[..i] == props;
      if kids.Some? {
        var j := 0;
        while j < |kids.value|
          invariant 0 <= j <= |kids.value|
          invariant el == Element(tag, TextOf(props), Attributes(props), kids.value[..j])
        {
          el := el.(children := el.children + [kids.value[j]]);
          j := j + 1;
          assert kids.value[..j] == kids.value[..j - 1] + [kids.value[j - 1]];
        }
        assert kids.value[..j] == kids.value;
      }
    }

    /** `clear`: removes the first child until there is none. */
    method Clear()
      modifies this
      ensures children == [] && documentTitle == old(documentTitle)
    {
      while |children| > 0
        invariant documentTitle == old(documentTitle)
        decreases |children|
      {
        children := children[1..];
      }
    }

    /** One pass of `setSource`'s loop over a trimmed line. */
    method AddLine(line: string, tryTitle: bool) returns (next: bool)
      modifies this
      ensures next == Step(line, tryTitle).1
      ensures children == old(children) + RenderAll(Step(line, tryTitle).0)
      ensures documentTitle == LastTitle(Step(line, tryTitle).0, old(documentTitle))
    {
      next := tryTitle;
      if |line| == 0 {
        return false;
      }
      if tryTitle && line[0] == '#' && Strings.Utf16Length(line) < TITLE_LIMIT {
        var title := line[1..];
        documentTitle := title;
        var h := CreateElement("h1", [("slot", Str("contentbox")), ("text", Str(title))], None);
        children := children + [h];
        return;
      }
      next := false;
      var el: Element;
      if line[0] == '#' {
        el := CreateElement("h2", [("slot", Str("contentbox")), ("text", Str(line[1..]))], None);
      } else {
        el := CreateElement("p", [("slot", Str("contentbox")), ("text", Str(line))], None);
      }
      children := children + [el];
    }

    /**
     * `setSource({content})`: the previous children are removed and the
     * classified lines appended in order; each title also becomes the
     * document title, so the last one is left there.
     */
    method SetSource(content: string)
      modifies this
      ensures var blocks := Classify(Trimmed(Strings.Split(content, "\n")), true);
        children == RenderAll(blocks) && documentTitle == LastTitle(blocks, old(documentTitle))
    {
      Clear();
      var tryTitle := true;
      var lines := Strings.Split(content, "\n");
      ghost var trimmed := Trimmed(lines);
      ghost var all := Classify(trimmed, true);
      var i := 0;
      while i < |lines|
        invariant 0 <= i <= |lines|
        invariant RenderAll(all) == children + RenderAll(Classify(trimmed[i..], tryTitle))
        invariant LastTitle(all, old(documentTitle)) == LastTitle(Classify(trimmed[i..], tryTitle), documentTitle)
      {
        var line := Strings.Trim(lines[i]);
        assert line == trimmed[i];
        LoopStep(trimmed, i, tryTitle, children, documentTitle);
        tryTitle := AddLine(line, tryTitle);
        i := i + 1;
      }
      assert trimmed[i..] == [];
    }
  }
}
