/**
 * The code block element (CodeBlock): it cuts its content into rows with the
 * global pattern `.*\r?\n`, at most 10000 of them, followed by one tail row,
 * and hands each row's text to the selected highlighter. It also reads the
 * `data-matchlinks` setting that configures comment links, selects the
 * highlighter type from `data-highlight`, and coerces the values given to
 * its `value` setter and `appendContent`.
 */
module CodeBlockWidget {
  import opened Wrappers
  import Strings
  import SimpleHighlight
  import CssHighlight

  /** The row cap of consumeData. */
  const LIMIT: nat := 10000

  /** The characters `.` does not match. */
  predicate IsLineTerminator(c: char) {
    c == '\n' || c == '\r' || c == '\U{2028}' || c == '\U{2029}'
  }

  /** The first line terminator at or after p, or |s|. */
  function FirstTerminator(s: string, p: nat): (j: nat)
    requires p <= |s|
    ensures p <= j <= |s|
    ensures j < |s| ==> IsLineTerminator(s[j])
    decreases |s| - p
  {
    if p == |s| || IsLineTerminator(s[p]) then p else FirstTerminator(s, p + 1)
  }

  /** No terminator lies between p and the first one found. */
  lemma {:induction false} FirstTerminatorIsFirst(s: string, p: nat)
    requires p <= |s|
    ensures forall k :: p <= k < FirstTerminator(s, p) ==> !IsLineTerminator(s[k])
    decreases |s| - p
  {
    if p < |s| && !IsLineTerminator(s[p]) {
      FirstTerminatorIsFirst(s, p + 1);
    }
  }

  /**
   * `re.exec(s)` for `/.*\r?\n/g` with lastIndex p: the start and end of the
   * next match. A terminator other than "\n" or "\r\n" stops `.*`, so the
   * search resumes after it and the text before it is skipped.
   */
  function NextLine(s: string, p: nat): (r: Option<(nat, nat)>)
    ensures r.Some? ==> p <= r.value.0 < r.value.1 <= |s| && s[r.value.1 - 1] == '\n'
    decreases |s| - p
  {
    if p >= |s| then None
    else
      var j := FirstTerminator(s, p);
      if j == |s| then None
      else if s[j] == '\n' then Some((p, j + 1))
      else if s[j] == '\r' && j + 1 < |s| && s[j + 1] == '\n' then Some((p, j + 2))
      else NextLine(s, j + 1)
  }

  /** The texts of the successive matches from lastIndex p, while the row counter stays below LIMIT. */
  function ChunksFrom(s: string, p: nat, counter: nat): (cs: seq<string>)
    ensures counter + |cs| <= LIMIT || cs == []
    decreases LIMIT - counter
  {
    if counter >= LIMIT then []
    else match NextLine(s, p)
      case None => []
      case Some(m) => [s[m.0..m.1]] + ChunksFrom(s, m.1, counter + 1)
  }

  /** lastIdx after those matches: the end of the last one, p when there is none. */
  function EndFrom(s: string, p: nat, counter: nat): (e: nat)
    requires p <= |s|
    ensures p <= e <= |s|
    decreases LIMIT - counter
  {
    if counter >= LIMIT then p
    else match NextLine(s, p)
      case None => p
      case Some(m) => EndFrom(s, m.1, counter + 1)
  }

  /** The texts of the rows the loop of consumeData produces. */
  function Chunks(s: string): (cs: seq<string>)
    ensures |cs| <= LIMIT
  {
    ChunksFrom(s, 0, 0)
  }

  /** The text after the last consumed match: what the tail row shows. */
  function Tail(s: string): string {
    s[EndFrom(s, 0, 0)..]
  }

  /** Every match ends in "\n" and holds no other line terminator, except "\r" right before that "\n". */
  lemma {:induction false} ChunkShape(s: string, p: nat)
    requires NextLine(s, p).Some?
    ensures var (a, e) := NextLine(s, p).value;
      && s[e - 1] == '\n'
      && forall k :: a <= k < e - 1 ==> !IsLineTerminator(s[k]) || (k == e - 2 && s[k] == '\r')
    decreases |s| - p
  {
    var j := FirstTerminator(s, p);
    FirstTerminatorIsFirst(s, p);
    if !(s[j] == '\n' || (s[j] == '\r' && j + 1 < |s| && s[j + 1] == '\n')) {
      ChunkShape(s, j + 1);
    }
  }

  /** The character at k is "\n", not a terminator, or the "\r" of a "\r\n". */
  predicate PairedAt(s: string, k: nat)
    requires k < |s|
  {
    s[k] != '\U{2028}' && s[k] != '\U{2029}' && (s[k] == '\r' ==> k + 1 < |s| && s[k + 1] == '\n')
  }

  /** Content whose every terminator is "\n" or the "\r" of a "\r\n". */
  predicate NoLoneTerminators(s: string) {
    forall k :: 0 <= k < |s| ==> PairedAt(s, k)
  }

  /** Without lone terminators, a match starts exactly at lastIndex. */
  lemma NextLineContiguous(s: string, p: nat)
    requires NoLoneTerminators(s)
    requires NextLine(s, p).Some?
    ensures NextLine(s, p).value.0 == p
  {
    var j := FirstTerminator(s, p);
    assert PairedAt(s, j);
  }

  lemma {:induction false} ChunksCover(s: string, p: nat, counter: nat)
    requires NoLoneTerminators(s) && p <= |s|
    ensures Strings.Concat(ChunksFrom(s, p, counter)) == s[p..EndFrom(s, p, counter)]
    decreases LIMIT - counter
  {
    if counter < LIMIT && NextLine(s, p).Some? {
      var m := NextLine(s, p).value;
      NextLineContiguous(s, p);
      ChunksCover(s, m.1, counter + 1);
      var rest := ChunksFrom(s, m.1, counter + 1);
      var e := EndFrom(s, m.1, counter + 1);
      assert ChunksFrom(s, p, counter) == [s[p..m.1]] + rest;
      Strings.ConcatAppend([s[p..m.1]], rest);
      assert Strings.Concat([s[p..m.1]]) == s[p..m.1] + Strings.Concat([]);
      assert s[p..e] == s[p..m.1] + s[m.1..e];
    }
  }

  /**
   * Without lone terminators nothing is lost: the rows of the loop followed by
   * the tail row concatenate to the content.
   */
  lemma RowsCoverContent(s: string)
    requires NoLoneTerminators(s)
    ensures Strings.Concat(Chunks(s)) + Tail(s) == s
  {
    ChunksCover(s, 0, 0);
  }

  /** A lone "\r" makes the text before it vanish: for "ab\rcd\n" the rows show only "cd\n". */
  lemma LoneReturnSkipsText()
    ensures Chunks("ab\rcd\n") == ["cd\n"] && Tail("ab\rcd\n") == ""
  {
    var s := "ab\rcd\n";
    assert FirstTerminator(s, 5) == 5;
    assert FirstTerminator(s, 3) == 5;
    assert FirstTerminator(s, 2) == 2;
    assert FirstTerminator(s, 0) == 2;
    assert NextLine(s, 3) == Some((3, 6));
    assert NextLine(s, 0) == Some((3, 6));
    assert NextLine(s, 6) == None;
    assert ChunksFrom(s, 6, 1) == [];
    assert EndFrom(s, 6, 1) == 6;
    assert s[3..6] == "cd\n";
  }

  lemma {:induction false} NextLineAtNewlineEnd(s: string, p: nat)
    requires p < |s| && s[|s| - 1] == '\n'
    ensures NextLine(s, p).Some?
    decreases |s| - p
  {
    var j := FirstTerminator(s, p);
    FirstTerminatorIsFirst(s, p);
    if j == |s| {
      assert IsLineTerminator(s[|s| - 1]);
      assert false;
    }
    if !(s[j] == '\n' || (s[j] == '\r' && j + 1 < |s| && s[j + 1] == '\n')) {
      if j + 1 == |s| {
        assert false;
      }
      NextLineAtNewlineEnd(s, j + 1);
    }
  }

  lemma {:induction false} ChunksExhaust(s: string, p: nat, counter: nat)
    requires s != [] && s[|s| - 1] == '\n' && p <= |s|
    requires counter + |ChunksFrom(s, p, counter)| < LIMIT
    ensures EndFrom(s, p, counter) == |s|
    decreases LIMIT - counter
  {
    if p < |s| {
      NextLineAtNewlineEnd(s, p);
      var m := NextLine(s, p).value;
      assert ChunksFrom(s, p, counter) == [s[m.0..m.1]] + ChunksFrom(s, m.1, counter + 1);
      ChunksExhaust(s, m.1, counter + 1);
    }
  }

  /** Content ending in "\n" with fewer than 10000 rows leaves the tail row empty. */
  lemma TailEmptyAfterNewline(s: string)
    requires s != [] && s[|s| - 1] == '\n'
    requires |Chunks(s)| < LIMIT
    ensures Tail(s) == ""
  {
    ChunksExhaust(s, 0, 0);
  }

  // ----- Rows -----

  /** A table row's content cell. */
  datatype Row =
    | Blank
    | PlainRow(text: string)
    | SimpleRow(pieces: seq<SimpleHighlight.Piece>)
    | CssRow(spans: seq<CssHighlight.Span>)

  /** What filling one row from a text yields: the highlighter's next state, the row, and false when an error was thrown. */
  datatype Parsed<S> = Parsed(state: S, row: Row, ok: bool)

  /** The highlighter's state, the rows made, and false when consumeData ended with a throw. */
  datatype Run<S> = Run(state: S, rows: seq<Row>, ok: bool)

  /**
   * The loop of consumeData from lastIndex p with `counter` rows made: a row
   * per match while the counter is below LIMIT, a throw ending it after its
   * row was added; then the tail row, filled only when text follows the last
   * match. The flag given to `parse` is the payload's linkChanged, true until
   * the first row.
   */
  function Loop<S>(parse: (S, string, bool) -> Parsed<S>, st: S, s: string, p: nat, counter: nat, acc: seq<Row>): Run<S>
    requires p <= |s|
    decreases LIMIT - counter, 1
  {
    if (counter < LIMIT && NextLine(s, p).Some?) || p < |s| then NextRow(parse, st, s, p, counter, acc)
    else Run(st, acc + [Blank], true)
  }

  /** The next row: that of the next match while the counter is below LIMIT, else that of the tail. */
  function NextRow<S>(parse: (S, string, bool) -> Parsed<S>, st: S, s: string, p: nat, counter: nat, acc: seq<Row>): Run<S>
    requires p <= |s|
    decreases LIMIT - counter, 0
  {
    if counter < LIMIT && NextLine(s, p).Some? then
      var m := NextLine(s, p).value;
      var o := parse(st, s[m.0..m.1], counter == 0);
      if !o.ok then Run(o.state, acc + [o.row], false)
      else Loop(parse, o.state, s, m.1, counter + 1, acc + [o.row])
    else
      var o := parse(st, s[p..], counter == 0);
      Run(o.state, acc + [o.row], o.ok)
  }

  /** One round of the loop: the row of the next match, and the rest of the loop unless it threw. */
  lemma LoopStep<S>(parse: (S, string, bool) -> Parsed<S>, st: S, s: string, p: nat, counter: nat, acc: seq<Row>)
    requires p <= |s| && counter < LIMIT && NextLine(s, p).Some?
    ensures var m := NextLine(s, p).value;
      var o := parse(st, s[m.0..m.1], counter == 0);
      Loop(parse, st, s, p, counter, acc)
        == if o.ok then Loop(parse, o.state, s, m.1, counter + 1, acc + [o.row]) else Run(o.state, acc + [o.row], false)
  {
    assert Loop(parse, st, s, p, counter, acc) == NextRow(parse, st, s, p, counter, acc);
  }

  /** After the loop: the tail row. */
  lemma LoopTail<S>(parse: (S, string, bool) -> Parsed<S>, st: S, s: string, p: nat, counter: nat, acc: seq<Row>)
    requires p <= |s| && !(counter < LIMIT && NextLine(s, p).Some?)
    ensures Loop(parse, st, s, p, counter, acc)
      == if p < |s| then
           var o := parse(st, s[p..], counter == 0);
           Run(o.state, acc + [o.row], o.ok)
         else Run(st, acc + [Blank], true)
  {
    if p < |s| {
      assert Loop(parse, st, s, p, counter, acc) == NextRow(parse, st, s, p, counter, acc);
    }
  }

  /** The rows built from lastIndex p keep the rows before them. */
  lemma {:induction false} LoopAcc<S>(parse: (S, string, bool) -> Parsed<S>, st: S, s: string, p: nat, counter: nat, acc: seq<Row>)
    requires p <= |s|
    ensures var r := Loop(parse, st, s, p, counter, []);
      Loop(parse, st, s, p, counter, acc) == r.(rows := acc + r.rows)
    decreases LIMIT - counter
  {
    if counter < LIMIT && NextLine(s, p).Some? {
      var m := NextLine(s, p).value;
      var o := parse(st, s[m.0..m.1], counter == 0);
      LoopStep(parse, st, s, p, counter, acc);
      LoopStep(parse, st, s, p, counter, []);
      if o.ok {
        var r := [o.row];
        LoopAcc(parse, o.state, s, m.1, counter + 1, acc + r);
        LoopAcc(parse, o.state, s, m.1, counter + 1, r);
        assert [] + r == r;
        var rest := Loop(parse, o.state, s, m.1, counter + 1, []).rows;
        assert acc + r + rest == acc + (r + rest);
      }
    } else {
      LoopTail(parse, st, s, p, counter, acc);
      LoopTail(parse, st, s, p, counter, []);
    }
  }

  /** One row per match plus the tail row, unless a throw ends consumeData early. */
  lemma {:induction false} LoopRows<S>(parse: (S, string, bool) -> Parsed<S>, st: S, s: string, p: nat, counter: nat, acc: seq<Row>)
    requires p <= |s|
    ensures var r := Loop(parse, st, s, p, counter, acc);
      && |acc| < |r.rows| <= |acc| + |ChunksFrom(s, p, counter)| + 1
      && (r.ok ==> |r.rows| == |acc| + |ChunksFrom(s, p, counter)| + 1)
    decreases LIMIT - counter
  {
    if counter < LIMIT && NextLine(s, p).Some? {
      var m := NextLine(s, p).value;
      var o := parse(st, s[m.0..m.1], counter == 0);
      LoopStep(parse, st, s, p, counter, acc);
      if o.ok {
        LoopRows(parse, o.state, s, m.1, counter + 1, acc + [o.row]);
      }
    } else {
      LoopTail(parse, st, s, p, counter, acc);
    }
  }

  /** No row's parse throws. */
  ghost predicate NeverThrows<S(!new)>(parse: (S, string, bool) -> Parsed<S>) {
    forall x: S, t: string, f: bool :: parse(x, t, f).ok
  }

  /** Every parse keeps the state property `inv`. */
  ghost predicate Preserves<S(!new)>(parse: (S, string, bool) -> Parsed<S>, inv: S -> bool) {
    forall x: S, t: string, f: bool :: inv(x) ==> inv(parse(x, t, f).state)
  }

  /** From a state with `inv`, a parse that throws nothing keeps `inv` and shows its text. */
  ghost predicate KeepsText<S(!new)>(parse: (S, string, bool) -> Parsed<S>, inv: S -> bool) {
    forall x: S, t: string, f: bool :: inv(x) && parse(x, t, f).ok ==>
      inv(parse(x, t, f).state) && RowText(parse(x, t, f).row) == t
  }

  /** When no parse throws, neither does the loop. */
  lemma {:induction false} LoopOk<S(!new)>(parse: (S, string, bool) -> Parsed<S>, st: S, s: string, p: nat, counter: nat, acc: seq<Row>)
    requires p <= |s|
    requires NeverThrows(parse)
    ensures Loop(parse, st, s, p, counter, acc).ok
    decreases LIMIT - counter
  {
    if counter < LIMIT && NextLine(s, p).Some? {
      var m := NextLine(s, p).value;
      var o := parse(st, s[m.0..m.1], counter == 0);
      LoopStep(parse, st, s, p, counter, acc);
      LoopOk(parse, o.state, s, m.1, counter + 1, acc + [o.row]);
    } else {
      LoopTail(parse, st, s, p, counter, acc);
    }
  }

  /** A state property every parse keeps holds after the loop. */
  lemma {:induction false} LoopKeeps<S(!new)>(parse: (S, string, bool) -> Parsed<S>, inv: S -> bool, st: S, s: string, p: nat, counter: nat, acc: seq<Row>)
    requires p <= |s| && inv(st)
    requires Preserves(parse, inv)
    ensures inv(Loop(parse, st, s, p, counter, acc).state)
    decreases LIMIT - counter
  {
    if counter < LIMIT && NextLine(s, p).Some? {
      var m := NextLine(s, p).value;
      var o := parse(st, s[m.0..m.1], counter == 0);
      LoopStep(parse, st, s, p, counter, acc);
      if o.ok {
        LoopKeeps(parse, inv, o.state, s, m.1, counter + 1, acc + [o.row]);
      }
    } else {
      LoopTail(parse, st, s, p, counter, acc);
      if p < |s| {
        assert inv(parse(st, s[p..], counter == 0).state);
      }
    }
  }

  function RowText(r: Row): string {
    match r
    case Blank => ""
    case PlainRow(t) => t
    case SimpleRow(ps) => SimpleHighlight.Texts(ps)
    case CssRow(_) => ""
  }

  function RowsText(rows: seq<Row>): string {
    if rows == [] then "" else RowText(rows[0]) + RowsText(rows[1..])
  }

  lemma {:induction false} RowsTextAppend(a: seq<Row>, b: seq<Row>)
    ensures RowsText(a + b) == RowsText(a) + RowsText(b)
  {
    if a == [] {
      assert a + b == b;
    } else {
      assert (a + b)[1..] == a[1..] + b;
      RowsTextAppend(a[1..], b);
    }
  }

  lemma RowsTextSnoc(a: seq<Row>, r: Row)
    ensures RowsText(a + [r]) == RowsText(a) + RowText(r)
  {
    RowsTextAppend(a, [r]);
    assert RowsText([r]) == RowText(r) + RowsText([]);
  }

  /** Regrouping of four consecutive texts. */
  lemma Regroup(a: string, b: string, c: string, d: string)
    ensures a + b + c + d == a + (b + c) + d
  {
  }

  lemma ConcatCons(c: string, rest: seq<string>)
    ensures Strings.Concat([c] + rest) == c + Strings.Concat(rest)
  {
    Strings.ConcatAppend([c], rest);
    assert Strings.Concat([c]) == c + Strings.Concat([]);
  }

  /** Moving one row showing `c` from the chunks into the rows keeps the whole text. */
  lemma RowsTextStep(acc: seq<Row>, row: Row, c: string, rest: seq<string>, t: string)
    requires RowText(row) == c
    ensures RowsText(acc + [row]) + Strings.Concat(rest) + t == RowsText(acc) + Strings.Concat([c] + rest) + t
  {
    RowsTextSnoc(acc, row);
    ConcatCons(c, rest);
    Regroup(RowsText(acc), c, Strings.Concat(rest), t);
  }

  /** A parse that throws nothing shows its text unchanged, the rows then show the matches and the tail. */
  lemma {:induction false} LoopText<S(!new)>(parse: (S, string, bool) -> Parsed<S>, inv: S -> bool, st: S, s: string, p: nat, counter: nat, acc: seq<Row>)
    requires p <= |s| && inv(st)
    requires KeepsText(parse, inv)
    ensures var r := Loop(parse, st, s, p, counter, acc);
      r.ok ==> RowsText(r.rows) == RowsText(acc) + Strings.Concat(ChunksFrom(s, p, counter)) + s[EndFrom(s, p, counter)..]
    decreases LIMIT - counter
  {
    if counter < LIMIT && NextLine(s, p).Some? {
      var m := NextLine(s, p).value;
      var o := parse(st, s[m.0..m.1], counter == 0);
      if o.ok {
        LoopText(parse, inv, o.state, s, m.1, counter + 1, acc + [o.row]);
      }
      LoopTextStep(parse, inv, st, s, p, counter, acc);
    } else {
      LoopTextTail(parse, inv, st, s, p, counter, acc);
    }
  }

  /** LoopText for one more match, given LoopText for the rows after it. */
  lemma LoopTextStep<S(!new)>(parse: (S, string, bool) -> Parsed<S>, inv: S -> bool, st: S, s: string, p: nat, counter: nat, acc: seq<Row>)
    requires p <= |s| && inv(st) && counter < LIMIT && NextLine(s, p).Some?
    requires KeepsText(parse, inv)
    requires var m := NextLine(s, p).value;
      var o := parse(st, s[m.0..m.1], counter == 0);
      var r := Loop(parse, o.state, s, m.1, counter + 1, acc + [o.row]);
      o.ok && r.ok ==> RowsText(r.rows) == RowsText(acc + [o.row]) + Strings.Concat(ChunksFrom(s, m.1, counter + 1)) + s[EndFrom(s, m.1, counter + 1)..]
    ensures var r := Loop(parse, st, s, p, counter, acc);
      r.ok ==> RowsText(r.rows) == RowsText(acc) + Strings.Concat(ChunksFrom(s, p, counter)) + s[EndFrom(s, p, counter)..]
  {
    var m := NextLine(s, p).value;
    var c := s[m.0..m.1];
    var o := parse(st, c, counter == 0);
    LoopStep(parse, st, s, p, counter, acc);
    if o.ok {
      var rest := ChunksFrom(s, m.1, counter + 1);
      var t := s[EndFrom(s, m.1, counter + 1)..];
      assert ChunksFrom(s, p, counter) == [c] + rest;
      assert EndFrom(s, p, counter) == EndFrom(s, m.1, counter + 1);
      RowsTextStep(acc, o.row, c, rest, t);
    }
  }

  /** LoopText once the matches are exhausted: only the tail row is added. */
  lemma LoopTextTail<S(!new)>(parse: (S, string, bool) -> Parsed<S>, inv: S -> bool, st: S, s: string, p: nat, counter: nat, acc: seq<Row>)
    requires p <= |s| && inv(st) && !(counter < LIMIT && NextLine(s, p).Some?)
    requires KeepsText(parse, inv)
    ensures var r := Loop(parse, st, s, p, counter, acc);
      r.ok ==> RowsText(r.rows) == RowsText(acc) + Strings.Concat(ChunksFrom(s, p, counter)) + s[EndFrom(s, p, counter)..]
  {
    var r := Loop(parse, st, s, p, counter, acc);
    assert ChunksFrom(s, p, counter) == [] && EndFrom(s, p, counter) == p;
    assert Strings.Concat([]) == "";
    LoopTail(parse, st, s, p, counter, acc);
    if p < |s| {
      var o := parse(st, s[p..], counter == 0);
      assert r == Run(o.state, acc + [o.row], o.ok);
      if o.ok {
        assert RowText(o.row) == s[p..];
        RowsTextSnoc(acc, o.row);
      }
    } else {
      assert r == Run(st, acc + [Blank], true);
      RowsTextSnoc(acc, Blank);
    }
  }

  /** LoopText for a whole content: the rows show the matched rows followed by the tail. */
  lemma LoopTextFromStart<S(!new)>(parse: (S, string, bool) -> Parsed<S>, inv: S -> bool, st: S, s: string)
    requires inv(st) && KeepsText(parse, inv)
    ensures var r := Loop(parse, st, s, 0, 0, []);
      r.ok ==> RowsText(r.rows) == Strings.Concat(Chunks(s)) + Tail(s)
  {
    LoopText(parse, inv, st, s, 0, 0, []);
    assert RowsText([]) == "";
  }

  /** Without a highlighter, a row's text is set as it is. */
  function PlainParse(): ((), string, bool) -> Parsed<()> {
    (u: (), t: string, first: bool) => Parsed(u, PlainRow(t), true)
  }

  /** A plain row shows its text. */
  lemma PlainParseShowsText()
    ensures forall x: (), t: string, f: bool :: PlainParse()(x, t, f) == Parsed(x, PlainRow(t), true)
  {
  }

  /** The plain parse carries no state worth a property. */
  predicate Stateless(u: ()) {
    true
  }

  /** The plain parse never throws and shows its text. */
  lemma PlainParseKeepsText()
    ensures NeverThrows(PlainParse()) && KeepsText(PlainParse(), Stateless)
  {
    PlainParseShowsText();
  }

  /** The rows consumeData appends without a highlighter. */
  function PlainRows(s: string): seq<Row> {
    Loop(PlainParse(), (), s, 0, 0, []).rows
  }

  /** Without a highlighter the block gets one row per match and a tail row, at most 10001 rows. */
  lemma PlainRowsCount(s: string)
    ensures |PlainRows(s)| == |Chunks(s)| + 1 <= LIMIT + 1
  {
    PlainParseKeepsText();
    LoopOk(PlainParse(), (), s, 0, 0, []);
    LoopRows(PlainParse(), (), s, 0, 0, []);
  }

  /** The texts of the plain rows are the matched rows followed by the tail. */
  lemma PlainRowsText(s: string)
    ensures RowsText(PlainRows(s)) == Strings.Concat(Chunks(s)) + Tail(s)
  {
    PlainParseKeepsText();
    LoopOk(PlainParse(), (), s, 0, 0, []);
    LoopTextFromStart(PlainParse(), Stateless, (), s);
  }

  /** One plain row: the match itself. */
  lemma PlainLoopStep(s: string, p: nat, counter: nat, acc: seq<Row>)
    requires p <= |s| && counter < LIMIT && NextLine(s, p).Some?
    ensures var m := NextLine(s, p).value;
      Loop(PlainParse(), (), s, p, counter, acc) == Loop(PlainParse(), (), s, m.1, counter + 1, acc + [PlainRow(s[m.0..m.1])])
  {
    PlainParseShowsText();
    LoopStep(PlainParse(), (), s, p, counter, acc);
  }

  /** The plain tail row: the rest of the content, blank when nothing is left. */
  lemma PlainLoopTail(s: string, p: nat, counter: nat, acc: seq<Row>)
    requires p <= |s| && !(counter < LIMIT && NextLine(s, p).Some?)
    ensures Loop(PlainParse(), (), s, p, counter, acc) == Run((), acc + [if p < |s| then PlainRow(s[p..]) else Blank], true)
  {
    PlainParseShowsText();
    LoopTail(PlainParse(), (), s, p, counter, acc);
  }

  /** The plain rows after the rows already there. */
  lemma PlainRowsAcc(s: string, acc: seq<Row>)
    ensures Loop(PlainParse(), (), s, 0, 0, acc).rows == acc + PlainRows(s)
  {
    LoopAcc(PlainParse(), (), s, 0, 0, acc);
  }

  /** Plain rows lose nothing of content without lone terminators. */
  lemma PlainRowsCover(s: string)
    requires NoLoneTerminators(s)
    ensures RowsText(PlainRows(s)) == s
  {
    PlainRowsText(s);
    RowsCoverContent(s);
  }

  /** A row filled by the simple highlighter. */
  function SimpleParse(): (SimpleHighlight.Lexer, string, bool) -> Parsed<SimpleHighlight.Lexer> {
    (lx: SimpleHighlight.Lexer, t: string, first: bool) =>
      var o := SimpleHighlight.ParseChunk(lx, t);
      Parsed(o.lexer, SimpleRow(o.emitted), o.failure.None?)
  }

  /** consumeData with the simple highlighter, which it resets first. */
  function SimpleConsume(s: string): Run<SimpleHighlight.Lexer> {
    Loop(SimpleParse(), SimpleHighlight.ResetState, s, 0, 0, [])
  }

  /** Between rows the simple lexer is in a set mode with no pending token. */
  predicate Settled(lx: SimpleHighlight.Lexer) {
    lx.mode != SimpleHighlight.Unset && lx.token == ""
  }

  /** A simple parse that throws nothing shows its text unchanged and leaves the lexer settled. */
  lemma SimpleParseKeepsText(lx: SimpleHighlight.Lexer, t: string, first: bool)
    requires Settled(lx) && SimpleParse()(lx, t, first).ok
    ensures Settled(SimpleParse()(lx, t, first).state) && RowText(SimpleParse()(lx, t, first).row) == t
  {
    SimpleHighlight.SimpleRoundTrip(lx, t);
    if |t| > 0 {
      SimpleHighlight.ScanKeepsText(lx, t, 0, lx.mode, []);
    }
  }

  /** SimpleParseKeepsText for every lexer and text at once. */
  lemma SimpleParseSettles()
    ensures KeepsText(SimpleParse(), Settled)
  {
    forall x: SimpleHighlight.Lexer, t: string, f: bool | Settled(x) && SimpleParse()(x, t, f).ok
      ensures Settled(SimpleParse()(x, t, f).state) && RowText(SimpleParse()(x, t, f).row) == t
    {
      SimpleParseKeepsText(x, t, f);
    }
  }

  /**
   * Round trip through the simple highlighter: when no row's parse throws, the
   * texts of all rows are the matched rows followed by the tail.
   */
  lemma SimpleConsumeText(s: string)
    requires SimpleConsume(s).ok
    ensures RowsText(SimpleConsume(s).rows) == Strings.Concat(Chunks(s)) + Tail(s)
  {
    SimpleParseSettles();
    LoopTextFromStart(SimpleParse(), Settled, SimpleHighlight.ResetState, s);
  }

  /** ... and so the whole content when it has no lone terminators. */
  lemma SimpleConsumeCover(s: string)
    requires SimpleConsume(s).ok && NoLoneTerminators(s)
    ensures RowsText(SimpleConsume(s).rows) == s
  {
    SimpleConsumeText(s);
    RowsCoverContent(s);
  }

  /** A row filled by the CSS highlighter with the element's link settings. */
  function CssParse(links: Option<CssHighlight.LinkConfig>): (CssHighlight.CssState, string, bool) -> Parsed<CssHighlight.CssState> {
    (st: CssHighlight.CssState, t: string, first: bool) =>
      var o := CssHighlight.ParseChunk(st, CssHighlight.ParseInfo(t, links, first));
      Parsed(o.state, CssRow(o.spans), o.failure.None?)
  }

  /** The state reset() leaves: the link settings stay, everything else starts over in Selector mode. */
  function CssReset(st: CssHighlight.CssState): CssHighlight.CssState {
    st.(mode := CssHighlight.Selector, previous := CssHighlight.Selector, token := "", curly := false, fnLevel := 0)
  }

  /** consumeData with the CSS highlighter, which it resets first. */
  function CssConsume(st: CssHighlight.CssState, s: string, links: Option<CssHighlight.LinkConfig>): Run<CssHighlight.CssState> {
    Loop(CssParse(links), CssReset(st), s, 0, 0, [])
  }

  /**
   * With the CSS highlighter the block gets one row per match plus the tail
   * row; a parse that throws ends consumeData with its own row as the last.
   * The highlighter's state invariant holds afterwards.
   */
  lemma CssConsumeRows(st: CssHighlight.CssState, s: string, links: Option<CssHighlight.LinkConfig>)
    ensures var r := CssConsume(st, s, links);
      && 1 <= |r.rows| <= |Chunks(s)| + 1
      && (r.ok ==> |r.rows| == |Chunks(s)| + 1)
      && CssHighlight.Inv(r.state)
  {
    LoopRows(CssParse(links), CssReset(st), s, 0, 0, []);
    assert Preserves(CssParse(links), CssHighlight.Inv) by {
      forall x: CssHighlight.CssState, t: string, f: bool | CssHighlight.Inv(x)
        ensures CssHighlight.Inv(CssParse(links)(x, t, f).state)
      {
        CssHighlight.ParseKeepsInv(x, CssHighlight.ParseInfo(t, links, f));
      }
    }
    LoopKeeps(CssParse(links), CssHighlight.Inv, CssReset(st), s, 0, 0, []);
  }

  // ----- Element configuration -----

  /** The highlighter types `data-highlight` can select. */
  datatype HighlighterType = Css | Simple

  /** What the element does next: nothing, wait for the highlighter module, or load its content. */
  datatype Next = Idle | AwaitHighlighter | LoadContent

  /** The regular expression engine: which sources compile, and the matches of a compiled global pattern in a text. */
  datatype RegexEngine = RegexEngine(valid: string -> bool, matchAll: string -> string -> seq<string>)

  /** The generator `a => parts[1].replace("%s", a)`. */
  function LinkGenerator(template: string): string -> string {
    a => Strings.ReplaceFirst(template, "%s", a)
  }

  /** The link settings after reading `data-matchlinks` ("" when the attribute is absent). */
  function MatchLinks(matchlinks: string, engine: RegexEngine, current: Option<CssHighlight.LinkConfig>): Option<CssHighlight.LinkConfig> {
    if matchlinks == "" then current
    else
      var parts := Strings.Split(matchlinks, " -> ");
      if |parts| != 2 then current
      else if engine.valid(parts[0]) then Some(CssHighlight.LinkConfig(engine.matchAll(parts[0]), LinkGenerator(parts[1])))
      else None
  }

  /**
   * Links are configured only by an attribute with exactly two " -> " parts;
   * an invalid pattern clears them; the generator puts the match in place of
   * the first "%s" of the second part.
   */
  lemma MatchLinksSettings(matchlinks: string, engine: RegexEngine, current: Option<CssHighlight.LinkConfig>, a: string)
    ensures var parts := Strings.Split(matchlinks, " -> ");
      var r := MatchLinks(matchlinks, engine, current);
      && (matchlinks == "" || |parts| != 2 ==> r == current)
      && (matchlinks != "" && |parts| == 2 && !engine.valid(parts[0]) ==> r.None?)
      && (matchlinks != "" && |parts| == 2 && engine.valid(parts[0]) ==>
            r.Some? && r.value.matcher == engine.matchAll(parts[0])
            && r.value.generator(a) == Strings.ReplaceFirst(parts[1], "%s", a))
      && Strings.Join(parts, " -> ") == matchlinks
  {
    Strings.SplitJoin(matchlinks, " -> ");
  }

  /** A match without "$" replaces the first "%s" of the template literally. */
  lemma GeneratorInsertsMatch(template: string, a: string)
    requires Strings.IndexOf(template, "%s") != -1
    requires forall k :: 0 <= k < |a| ==> a[k] != '$'
    ensures var i := Strings.IndexOf(template, "%s");
      LinkGenerator(template)(a) == template[..i] + a + template[i + 2..]
  {
    var i := Strings.IndexOf(template, "%s");
    Strings.SubstituteLiteral(a, "%s", template[..i], template[i + 2..]);
  }

  /** Content given to consumeData: a string, or another value whose toString() yields the text. */
  /** The `content` of what consumeData receives: a string, a value with a string form, or null/undefined. */
  datatype Content = StringContent(s: string) | OtherContent(text: string) | NullishContent

  /** The text consumeData works on; None is the TypeError of calling `toString` on null or undefined. */
  function ContentText(c: Content): (r: Option<string>)
    ensures r.None? <==> c.NullishContent?
    ensures c.StringContent? ==> r == Some(c.s)
  {
    match c
    case StringContent(s) => Some(s)
    case OtherContent(t) => Some(t)
    case NullishContent => None
  }

  /** What the `value` setter and `appendContent` receive. */
  datatype Thing =
    | AString(s: string)
    | WithContent(content: Content)
    | ObjectWithoutContent(text: string)
    | NotAnObject

  /** The coercion of those two entry points; None is the TypeError of `"content" in thing` on a non-object. */
  function Coerce(t: Thing): (r: Option<Content>)
    ensures r.None? <==> t.NotAnObject?
    ensures t.AString? ==> r == Some(StringContent(t.s))
    ensures t.ObjectWithoutContent? ==> r == Some(StringContent(t.text))
  {
    match t
    case AString(s) => Some(StringContent(s))
    case WithContent(c) => Some(c)
    case ObjectWithoutContent(text) => Some(StringContent(text))
    case NotAnObject => None
  }

  class CodeBlock {
    var rows: seq<Row>
    /** The element's own text, cleared when content is consumed. */
    var lightText: string
    var caption: string
    var initialized: bool
    var ready: bool
    var waiting: bool
    var empty: bool
    var hlType: Option<HighlighterType>
    var simple: SimpleHighlight.SimpleHighlighter?
    var css: CssHighlight.CssHighlighter?
    var links: Option<CssHighlight.LinkConfig>

    /** A ready highlighter object exists for the selected type. */
    predicate Valid()
      reads this
    {
      ready ==> (hlType == Some(Simple) && simple != null) || (hlType == Some(Css) && css != null)
    }

    constructor ()
      ensures Valid() && rows == [] && !ready && !waiting && empty && hlType.None? && links.None? && !initialized
    {
      rows, lightText, caption := [], "", "";
      initialized, ready, waiting, empty := false, false, false, true;
      hlType, simple, css, links := None, null, null, None;
    }

    /** consumeData without a highlighter: one row per match, then the tail row. */
    method ConsumePlain(content: string)
      modifies this`rows
      ensures rows == old(rows) + PlainRows(content)
    {
      var acc := rows;
      var m := NextLine(content, 0);
      var counter, lastIdx := 0, 0;
      while m.Some? && counter < LIMIT
        invariant counter <= LIMIT && lastIdx <= |content|
        invariant m == NextLine(content, lastIdx)
        invariant Loop(PlainParse(), (), content, lastIdx, counter, acc) == Loop(PlainParse(), (), content, 0, 0, old(rows))
        decreases LIMIT - counter
      {
        var (start, end) := m.value;
        PlainLoopStep(content, lastIdx, counter, acc);
        acc := acc + [PlainRow(content[start..end])];
        counter, lastIdx := counter + 1, end;
        m := NextLine(content, lastIdx);
      }
      PlainLoopTail(content, lastIdx, counter, acc);
      if lastIdx < |content| {
        acc := acc + [PlainRow(content[lastIdx..])];
      } else {
        acc := acc + [Blank];
      }
      PlainRowsAcc(content, old(rows));
      rows := acc;
    }

    /** One row filled by the simple highlighter: `highlighter.parse(cell)`. */
    method SimpleRowParse(text: string, first: bool) returns (row: Row, ok: bool)
      requires simple != null
      modifies simple
      ensures Parsed(simple.State(), row, ok) == SimpleParse()(old(simple.State()), text, first)
    {
      var pieces, failure := simple.Parse(text);
      row, ok := SimpleRow(pieces), failure.None?;
    }

    /** consumeData with the simple highlighter; false when a parse threw, which ends it. */
    method ConsumeSimple(content: string) returns (ok: bool)
      requires simple != null
      modifies this`rows, simple
      ensures rows == old(rows) + SimpleConsume(content).rows
      ensures simple.State() == SimpleConsume(content).state
      ensures ok == SimpleConsume(content).ok
    {
      simple.Reset();
      var acc := rows;
      var m := NextLine(content, 0);
      var counter, lastIdx := 0, 0;
      ok := true;
      while ok && m.Some? && counter < LIMIT
        invariant counter <= LIMIT && lastIdx <= |content|
        invariant m == NextLine(content, lastIdx)
        invariant ok ==> Loop(SimpleParse(), simple.State(), content, lastIdx, counter, acc) == Loop(SimpleParse(), SimpleHighlight.ResetState, content, 0, 0, old(rows))
        invariant !ok ==> Run(simple.State(), acc, false) == Loop(SimpleParse(), SimpleHighlight.ResetState, content, 0, 0, old(rows))
        decreases LIMIT - counter
      {
        var (start, end) := m.value;
        LoopStep(SimpleParse(), simple.State(), content, lastIdx, counter, acc);
        var row;
        row, ok := SimpleRowParse(content[start..end], counter == 0);
        acc := acc + [row];
        counter, lastIdx := counter + 1, end;
        m := NextLine(content, lastIdx);
      }
      if ok {
        LoopTail(SimpleParse(), simple.State(), content, lastIdx, counter, acc);
        if lastIdx < |content| {
          var row;
          row, ok := SimpleRowParse(content[lastIdx..], counter == 0);
          acc := acc + [row];
        } else {
          acc := acc + [Blank];
        }
      }
      LoopAcc(SimpleParse(), SimpleHighlight.ResetState, content, 0, 0, old(rows));
      rows := acc;
    }

    /** One row filled by the CSS highlighter: `parse(payload, cell)`. */
    method CssRowParse(text: string, first: bool) returns (row: Row, ok: bool)
      requires css != null
      modifies css
      ensures Parsed(css.State(), row, ok) == CssParse(links)(old(css.State()), text, first)
    {
      var spans, failure := css.Parse(CssHighlight.ParseInfo(text, links, first));
      row, ok := CssRow(spans), failure.None?;
    }

    /** One iteration of the CSS line loop: the line starting at `p` becomes a row after `acc`. */
    method CssLine(content: string, p: nat, counter: nat, acc: seq<Row>) returns (ok: bool, next: nat, acc': seq<Row>)
      requires css != null && p <= |content| && counter < LIMIT && NextLine(content, p).Some?
      modifies css
      ensures next == NextLine(content, p).value.1
      ensures ok ==> Loop(CssParse(links), css.State(), content, next, counter + 1, acc') == Loop(CssParse(links), old(css.State()), content, p, counter, acc)
      ensures !ok ==> Run(css.State(), acc', false) == Loop(CssParse(links), old(css.State()), content, p, counter, acc)
    {
      var (start, end) := NextLine(content, p).value;
      LoopStep(CssParse(links), css.State(), content, p, counter, acc);
      var row;
      row, ok := CssRowParse(content[start..end], counter == 0);
      acc' := acc + [row];
      next := end;
    }

    /** The line loop of consumeData with the CSS highlighter: it stops at the first failed parse, at the
        iteration limit or when no terminated line is left, and leaves the unterminated tail to the caller. */
    method CssLines(content: string) returns (ok: bool, lastIdx: nat, counter: nat)
      requires css != null
      modifies this`rows, css
      ensures lastIdx <= |content| && counter <= LIMIT
      ensures ok ==> !(NextLine(content, lastIdx).Some? && counter < LIMIT)
      ensures ok ==> Loop(CssParse(links), css.State(), content, lastIdx, counter, rows) == Loop(CssParse(links), old(css.State()), content, 0, 0, old(rows))
      ensures !ok ==> Run(css.State(), rows, false) == Loop(CssParse(links), old(css.State()), content, 0, 0, old(rows))
    {
      var acc := rows;
      counter, lastIdx, ok := 0, 0, true;
      while ok && counter < LIMIT && NextLine(content, lastIdx).Some?
        invariant counter <= LIMIT && lastIdx <= |content|
        invariant ok ==> Loop(CssParse(links), css.State(), content, lastIdx, counter, acc) == Loop(CssParse(links), old(css.State()), content, 0, 0, old(rows))
        invariant !ok ==> Run(css.State(), acc, false) == Loop(CssParse(links), old(css.State()), content, 0, 0, old(rows))
        decreases LIMIT - counter
      {
        var next;
        ok, next, acc := CssLine(content, lastIdx, counter, acc);
        counter, lastIdx := counter + 1, next;
      }
      rows := acc;
    }

    /** consumeData with the CSS highlighter; the payload's linkChanged is true until the first parse. */
    method ConsumeCss(content: string) returns (ok: bool)
      requires css != null
      modifies this`rows, css
      ensures var r := CssConsume(old(css.State()), content, links);
        Run(css.State(), rows, ok) == r.(rows := old(rows) + r.rows)
    {
      css.Reset();
      ghost var start0 := css.State();
      var lastIdx, counter;
      ok, lastIdx, counter := CssLines(content);
      if ok {
        LoopTail(CssParse(links), css.State(), content, lastIdx, counter, rows);
        if lastIdx < |content| {
          var row;
          row, ok := CssRowParse(content[lastIdx..], counter == 0);
          rows := rows + [row];
        } else {
          rows := rows + [Blank];
        }
      }
      LoopAcc(CssParse(links), start0, content, 0, 0, old(rows));
    }

    /** The simple highlighter's state, None while there is none. */
    function SimpleSnapshot(): Option<SimpleHighlight.Lexer>
      reads this, simple
    {
      if simple == null then None else Some(simple.State())
    }

    /** The CSS highlighter's state, None while there is none. */
    function CssSnapshot(): Option<CssHighlight.CssState>
      reads this, css
    {
      if css == null then None else Some(css.State())
    }

    /**
     * The highlighters after consuming `text` (None when it threw), given
     * `ready`, `hlType` and the two highlighter states before: the one that
     * parsed is left as SimpleConsume or CssConsume says, the other as it was.
     */
    ghost predicate HighlighterAfter(text: Option<string>, ready: bool, hlType: Option<HighlighterType>,
                                     simpleBefore: Option<SimpleHighlight.Lexer>, cssBefore: Option<CssHighlight.CssState>)
      reads this, simple, css
    {
      var parsedSimple := text.Some? && ready && hlType == Some(Simple);
      var parsedCss := text.Some? && ready && hlType == Some(Css);
      && (parsedSimple ==> SimpleSnapshot() == Some(SimpleConsume(text.value).state))
      && (parsedCss ==> cssBefore.Some? && CssSnapshot() == Some(CssConsume(cssBefore.value, text.value, links).state))
      && (!parsedSimple ==> SimpleSnapshot() == simpleBefore)
      && (!parsedCss ==> CssSnapshot() == cssBefore)
    }

    /** consumeData: the content is coerced to a string (null and undefined throw before anything changes),
        the element's own text is cleared, then the rows come from the ready highlighter, or plain. */
    method ConsumeData(data: Content) returns (ok: bool)
      requires Valid()
      modifies this`rows, this`lightText, simple, css
      ensures Valid()
      ensures HighlighterAfter(ContentText(data), old(ready), old(hlType), old(SimpleSnapshot()), old(CssSnapshot()))
      ensures ContentText(data).None? ==> !ok && rows == old(rows) && lightText == old(lightText)
      ensures ContentText(data).Some? ==> lightText == ""
      ensures var t := ContentText(data);
        t.Some? && !old(ready) ==> ok && rows == old(rows) + PlainRows(t.value)
      ensures var t := ContentText(data);
        t.Some? && old(ready) && old(hlType) == Some(Simple) ==>
          rows == old(rows) + SimpleConsume(t.value).rows && ok == SimpleConsume(t.value).ok
      ensures var t := ContentText(data);
        t.Some? && old(ready) && old(hlType) == Some(Css) ==>
          rows == old(rows) + CssConsume(old(css.State()), t.value, links).rows
          && ok == CssConsume(old(css.State()), t.value, links).ok
    {
      var text := ContentText(data);
      if text.None? {
        return false;
      }
      var content := text.value;
      lightText := "";
      if ready && hlType == Some(Simple) {
        ok := ConsumeSimple(content);
      } else if ready && hlType == Some(Css) {
        ok := ConsumeCss(content);
      } else {
        ConsumePlain(content);
        ok := true;
      }
    }

    /**
     * determineAndLoadContent: the fetched file when `src` names one that
     * loads, otherwise the element's own text. `fetched` is the outcome of the
     * fetch, None when there is no `src` or it fails.
     */
    method DetermineAndLoadContent(fetched: Option<string>) returns (ok: bool)
      requires Valid()
      modifies this`rows, this`lightText, simple, css
      ensures HighlighterAfter(Some(if fetched.Some? then fetched.value else old(lightText)), old(ready), old(hlType), old(SimpleSnapshot()), old(CssSnapshot()))
      ensures Valid() && lightText == ""
      ensures var t := if fetched.Some? then fetched.value else old(lightText);
        !old(ready) ==> ok && rows == old(rows) + PlainRows(t)
      ensures var t := if fetched.Some? then fetched.value else old(lightText);
        old(ready) && old(hlType) == Some(Simple) ==>
          rows == old(rows) + SimpleConsume(t).rows && ok == SimpleConsume(t).ok
      ensures var t := if fetched.Some? then fetched.value else old(lightText);
        old(ready) && old(hlType) == Some(Css) ==>
          rows == old(rows) + CssConsume(old(css.State()), t, links).rows && ok == CssConsume(old(css.State()), t, links).ok
    {
      if fetched.Some? {
        ok := ConsumeData(StringContent(fetched.value));
      } else {
        ok := ConsumeData(StringContent(lightText));
      }
    }

    /** The `value` setter: the rows are cleared first, even when the value then throws. */
    method SetValue(thing: Thing) returns (ok: bool)
      requires Valid()
      modifies this`rows, this`lightText, simple, css
      ensures var c := Coerce(thing);
        HighlighterAfter(if c.Some? then ContentText(c.value) else None, old(ready), old(hlType), old(SimpleSnapshot()), old(CssSnapshot()))
      ensures Valid()
      ensures var c := Coerce(thing);
        c.None? || ContentText(c.value).None? ==> rows == [] && !ok
      ensures var c := Coerce(thing);
        c.Some? && ContentText(c.value).Some? && !old(ready) ==> ok && rows == PlainRows(ContentText(c.value).value)
      ensures var c := Coerce(thing);
        c.Some? && ContentText(c.value).Some? && old(ready) && old(hlType) == Some(Simple) ==>
          var t := ContentText(c.value).value;
          rows == SimpleConsume(t).rows && ok == SimpleConsume(t).ok
      ensures var c := Coerce(thing);
        c.Some? && ContentText(c.value).Some? && old(ready) && old(hlType) == Some(Css) ==>
          var t := ContentText(c.value).value;
          rows == CssConsume(old(css.State()), t, links).rows && ok == CssConsume(old(css.State()), t, links).ok
    {
      rows := [];
      var c := Coerce(thing);
      if c.None? {
        return false;
      }
      ok := ConsumeData(c.value);
    }

    /** `appendContent`: like the setter, but the existing rows stay. */
    method AppendContent(thing: Thing) returns (ok: bool)
      requires Valid()
      modifies this`rows, this`lightText, simple, css
      ensures var c := Coerce(thing);
        HighlighterAfter(if c.Some? then ContentText(c.value) else None, old(ready), old(hlType), old(SimpleSnapshot()), old(CssSnapshot()))
      ensures Valid()
      ensures var c := Coerce(thing);
        c.None? || ContentText(c.value).None? ==> rows == old(rows) && !ok
      ensures var c := Coerce(thing);
        c.Some? && ContentText(c.value).Some? && !old(ready) ==> ok && rows == old(rows) + PlainRows(ContentText(c.value).value)
      ensures var c := Coerce(thing);
        c.Some? && ContentText(c.value).Some? && old(ready) && old(hlType) == Some(Simple) ==>
          var t := ContentText(c.value).value;
          rows == old(rows) + SimpleConsume(t).rows && ok == SimpleConsume(t).ok
      ensures var c := Coerce(thing);
        c.Some? && ContentText(c.value).Some? && old(ready) && old(hlType) == Some(Css) ==>
          var t := ContentText(c.value).value;
          rows == old(rows) + CssConsume(old(css.State()), t, links).rows && ok == CssConsume(old(css.State()), t, links).ok
    {
      var c := Coerce(thing);
      if c.None? {
        return false;
      }
      ok := ConsumeData(c.value);
    }

    /** addHighlighterTo: only "css" and "simple" select a highlighter; anything else loads plain content. */
    method AddHighlighterTo(highlight: string) returns (next: Next)
      modifies this`empty, this`hlType, this`waiting
      ensures !empty
      ensures highlight == "css" ==> hlType == Some(Css) && waiting && next == AwaitHighlighter
      ensures highlight == "simple" ==> hlType == Some(Simple) && waiting && next == AwaitHighlighter
      ensures highlight != "css" && highlight != "simple" ==>
        next == LoadContent && hlType == old(hlType) && waiting == old(waiting)
      ensures ready == old(ready) && simple == old(simple) && css == old(css) && links == old(links) && rows == old(rows)
      ensures initialized == old(initialized) && caption == old(caption)
    {
      empty := false;
      if highlight == "css" {
        hlType := Some(Css);
        waiting := true;
        next := AwaitHighlighter;
      } else if highlight == "simple" {
        hlType := Some(Simple);
        waiting := true;
        next := AwaitHighlighter;
      } else {
        next := LoadContent;
      }
    }

    /** The continuation once the highlighter module is loaded: a highlighter of the selected type is created. */
    method HighlighterLoaded() returns (next: Next)
      requires hlType.Some?
      modifies this`simple, this`css, this`ready, this`waiting
      ensures Valid() && ready && !waiting && next == LoadContent
      ensures hlType == old(hlType) && rows == old(rows) && links == old(links)
      ensures hlType == Some(Simple) ==> fresh(simple) && simple.State() == SimpleHighlight.Initial
      ensures hlType == Some(Css) ==> fresh(css) && css.State() == CssHighlight.Fresh
    {
      match hlType.value {
        case Css =>
          css := new CssHighlight.CssHighlighter();
        case Simple =>
          simple := new SimpleHighlight.SimpleHighlighter();
      }
      ready := true;
      waiting := false;
      next := LoadContent;
    }

    /**
     * connectedCallback: once per element, read `data-matchlinks` and
     * `data-name`, then either set up the highlighter (only while none was set
     * up) or load the content. Attribute values are "" when absent.
     */
    method ConnectedCallback(isConnected: bool, matchlinks: string, name: string, highlight: string, engine: RegexEngine)
      returns (next: Next)
      modifies this`links, this`caption, this`initialized, this`empty, this`hlType, this`waiting
      ensures !isConnected || old(initialized) ==>
        next == Idle && links == old(links) && hlType == old(hlType) && initialized == old(initialized)
        && caption == old(caption) && waiting == old(waiting) && empty == old(empty)
      ensures isConnected && !old(initialized) ==>
        && initialized
        && links == MatchLinks(matchlinks, engine, old(links))
        && caption == (if name != "" then name else old(caption))
        && (old(empty) && highlight != "" ==>
              && !empty
              && (next == AwaitHighlighter <==> highlight == "css" || highlight == "simple")
              && (highlight == "css" ==> hlType == Some(Css) && waiting)
              && (highlight == "simple" ==> hlType == Some(Simple) && waiting)
              && (highlight != "css" && highlight != "simple" ==> hlType == old(hlType) && waiting == old(waiting)))
        && (!(old(empty) && highlight != "") ==>
              next == LoadContent && empty == old(empty) && hlType == old(hlType) && waiting == old(waiting))
      ensures ready == old(ready) && simple == old(simple) && css == old(css) && rows == old(rows)
    {
      if !isConnected || initialized {
        return Idle;
      }
      if matchlinks != "" {
        var parts := Strings.Split(matchlinks, " -> ");
        if |parts| == 2 {
          if engine.valid(parts[0]) {
            links := Some(CssHighlight.LinkConfig(engine.matchAll(parts[0]), LinkGenerator(parts[1])));
          } else {
            links := None;
          }
        }
      }
      if name != "" {
        caption := name;
      }
      initialized := true;
      if empty && highlight != "" {
        next := AddHighlighterTo(highlight);
        return;
      }
      next := LoadContent;
    }
  }
}
