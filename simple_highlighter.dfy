/**
 * The quote-splitting line lexer of the code block (SimpleHighlighter).
 * Its state record persists across chunks: the current and previous mode
 * and the pending token. Output nodes are plain text pieces and quote spans.
 */
module SimpleHighlight {
  import opened Wrappers
  import Strings

  /** Modes of the automaton; Unset is the JavaScript null a fresh state record holds until reset. */
  datatype Mode = Unset | Base | SingleQuote | DoubleQuote

  /** What the lexer appends to its target: a text node or a span of class "quote". */
  datatype Piece = Plain(text: string) | Quote(text: string)

  /**
   * How a parse can fail: the single-quote branch names `targetNode`, which is
   * not in scope in parseSimple (a ReferenceError), and the final check throws
   * "simple token is not 0" when a token is left over.
   */
  datatype Failure = TargetNodeUndefined | TokenNotEmpty

  /** The state record: current mode, previous mode, pending token. */
  datatype Lexer = Lexer(mode: Mode, previous: Mode, token: string)

  const Initial := Lexer(Unset, Unset, "")
  const ResetState := Lexer(Base, Base, "")

  /** `state.set(m)`: the current mode becomes the previous one. */
  function SetMode(lx: Lexer, m: Mode): Lexer {
    Lexer(m, lx.mode, lx.token)
  }

  /** One iteration of the loop of parseSimple: the new state and what was appended, or a throw. */
  datatype Step = Next(lexer: Lexer, emitted: seq<Piece>) | Thrown(lexer: Lexer)

  function StepChar(lx: Lexer, c: char): Step {
    match lx.mode
    case Unset => Next(lx, [])
    case Base =>
      if c == '"' then Next(SetMode(Lexer(lx.mode, lx.previous, "\""), DoubleQuote), [Plain(lx.token)])
      else if c == '\'' then Thrown(lx)
      else Next(Lexer(lx.mode, lx.previous, lx.token + [c]), [])
    case SingleQuote =>
      if c == '\'' then Next(SetMode(Lexer(lx.mode, lx.previous, ""), Base), [Quote(lx.token + "'")])
      else Next(Lexer(lx.mode, lx.previous, lx.token + [c]), [])
    case DoubleQuote =>
      if c == '"' then Next(SetMode(Lexer(lx.mode, lx.previous, ""), Base), [Quote(lx.token + "\"")])
      else Next(Lexer(lx.mode, lx.previous, lx.token + [c]), [])
  }

  /** The loop of parseSimple from index i: `last` is the mode in which the latest character was read. */
  datatype Scan = Scan(lexer: Lexer, emitted: seq<Piece>, last: Mode, thrown: bool)

  function ScanFrom(lx: Lexer, content: string, i: nat, last: Mode, acc: seq<Piece>): Scan
    decreases |content| - i
  {
    if i >= |content| then Scan(lx, acc, last, false)
    else match StepChar(lx, content[i])
      case Thrown(l) => Scan(l, acc, lx.mode, true)
      case Next(l, e) => ScanFrom(l, content, i + 1, lx.mode, acc + e)
  }

  /** Result of one `parse(info, target)` call. */
  datatype Outcome = Outcome(lexer: Lexer, emitted: seq<Piece>, failure: Option<Failure>)

  /** The flush after the loop: in Base the token is emitted and cleared; otherwise emitted as a quote and kept. */
  function Flush(s: Scan): (Lexer, seq<Piece>) {
    if |s.lexer.token| > 0 then
      if s.last == Base then (Lexer(s.lexer.mode, s.lexer.previous, ""), s.emitted + [Plain(s.lexer.token)])
      else (s.lexer, s.emitted + [Quote(s.lexer.token)])
    else (s.lexer, s.emitted)
  }

  /** `parse`: parseSimple on a non-empty chunk, then the leftover-token check. */
  function ParseChunk(lx: Lexer, content: string): Outcome {
    if |content| == 0 then
      if lx.token != "" then Outcome(lx, [], Some(TokenNotEmpty)) else Outcome(lx, [], None)
    else
      var s := ScanFrom(lx, content, 0, lx.mode, []);
      if s.thrown then Outcome(s.lexer, s.emitted, Some(TargetNodeUndefined))
      else
        var (l, e) := Flush(s);
        if l.token != "" then Outcome(l, e, Some(TokenNotEmpty)) else Outcome(l, e, None)
  }

  function Texts(ps: seq<Piece>): string {
    if ps == [] then "" else ps[0].text + Texts(ps[1..])
  }

  lemma {:induction false} TextsAppend(a: seq<Piece>, b: seq<Piece>)
    ensures Texts(a + b) == Texts(a) + Texts(b)
  {
    if a == [] {
      assert a + b == b;
    } else {
      assert (a + b)[1..] == a[1..] + b;
      TextsAppend(a[1..], b);
    }
  }

  lemma TextsSnoc(a: seq<Piece>, p: Piece)
    ensures Texts(a + [p]) == Texts(a) + p.text
  {
    TextsAppend(a, [p]);
  }

  /** Outside Unset, no step loses a character: emitted text plus pending token grows by exactly c. */
  lemma StepKeepsText(lx: Lexer, c: char, acc: seq<Piece>)
    requires lx.mode != Unset
    requires StepChar(lx, c).Next?
    ensures StepChar(lx, c).lexer.mode != Unset
    ensures Texts(acc + StepChar(lx, c).emitted) + StepChar(lx, c).lexer.token == Texts(acc) + lx.token + [c]
  {
    var st := StepChar(lx, c);
    if st.emitted == [] {
      assert acc + st.emitted == acc;
    } else {
      assert |st.emitted| == 1;
      TextsSnoc(acc, st.emitted[0]);
    }
  }

  lemma {:induction false} ScanKeepsText(lx: Lexer, content: string, i: nat, last: Mode, acc: seq<Piece>)
    requires i <= |content|
    requires lx.mode != Unset
    ensures var s := ScanFrom(lx, content, i, last, acc);
      !s.thrown ==> s.lexer.mode != Unset && Texts(s.emitted) + s.lexer.token == Texts(acc) + lx.token + content[i..]
    decreases |content| - i
  {
    if i < |content| {
      var st := StepChar(lx, content[i]);
      if st.Next? {
        StepKeepsText(lx, content[i], acc);
        ScanKeepsText(st.lexer, content, i + 1, lx.mode, acc + st.emitted);
        assert content[i..] == [content[i]] + content[i + 1..];
      }
    }
  }

  /**
   * Round trip: when a chunk parses without throwing, the texts appended to the
   * target are the pending token followed by the chunk itself, in order.
   */
  lemma SimpleRoundTrip(lx: Lexer, content: string)
    requires lx.mode != Unset
    requires ParseChunk(lx, content).failure.None?
    ensures Texts(ParseChunk(lx, content).emitted) == lx.token + content
    ensures ParseChunk(lx, content).lexer.token == ""
  {
    if |content| > 0 {
      var s := ScanFrom(lx, content, 0, lx.mode, []);
      ScanKeepsText(lx, content, 0, lx.mode, []);
      assert content[0..] == content;
      if |s.lexer.token| > 0 {
        assert s.last == Base;
        TextsSnoc(s.emitted, Plain(s.lexer.token));
        assert ParseChunk(lx, content).emitted == s.emitted + [Plain(s.lexer.token)];
      } else {
        assert ParseChunk(lx, content).emitted == s.emitted;
        assert Texts(s.emitted) + s.lexer.token == Texts(s.emitted);
        assert Texts([]) + lx.token + content == lx.token + content;
      }
    }
  }

  /** The character that closes quote mode m. */
  function Closing(m: Mode): char {
    if m == SingleQuote then '\'' else '"'
  }

  /** When the loop reads at least one character without throwing, its end state is one step from a state in mode `last`. */
  lemma {:induction false} ScanLastStep(lx: Lexer, content: string, i: nat, last: Mode, acc: seq<Piece>)
    requires i < |content|
    ensures var s := ScanFrom(lx, content, i, last, acc);
      !s.thrown ==> exists prev: Lexer, e: seq<Piece> ::
        prev.mode == s.last && StepChar(prev, content[|content| - 1]) == Next(s.lexer, e)
    decreases |content| - i
  {
    var st := StepChar(lx, content[i]);
    if st.Next? && i + 1 < |content| {
      ScanLastStep(st.lexer, content, i + 1, lx.mode, acc + st.emitted);
    } else if st.Next? {
      assert StepChar(lx, content[|content| - 1]) == Next(st.lexer, st.emitted);
    }
  }

  lemma ScanStaysSet(lx: Lexer, content: string, i: nat, last: Mode, acc: seq<Piece>)
    requires lx.mode != Unset && last != Unset
    ensures ScanFrom(lx, content, i, last, acc).last != Unset
    decreases |content| - i
  {
    if i < |content| {
      var st := StepChar(lx, content[i]);
      if st.Next? {
        ScanStaysSet(st.lexer, content, i + 1, lx.mode, acc + st.emitted);
      }
    }
  }

  /**
   * The error "simple token is not 0" is thrown exactly when the chunk's last
   * character is read in a quote mode and is not that quote's closing
   * character. An opening `"` as the last character is flushed as plain text
   * and the quote mode carries over to the next chunk with an empty token.
   */
  lemma SimpleTokenErrorIff(lx: Lexer, content: string)
    requires lx.mode != Unset && |content| > 0
    requires !ScanFrom(lx, content, 0, lx.mode, []).thrown
    ensures var s := ScanFrom(lx, content, 0, lx.mode, []);
      var c := content[|content| - 1];
      && (ParseChunk(lx, content).failure == Some(TokenNotEmpty) <==> s.last != Base && c != Closing(s.last))
      && (ParseChunk(lx, content).failure.None? ==> ParseChunk(lx, content).lexer.token == "")
      && (s.last == Base && c == '"' ==>
            ParseChunk(lx, content).lexer == Lexer(DoubleQuote, Base, "")
            && |ParseChunk(lx, content).emitted| > 0
            && ParseChunk(lx, content).emitted[|ParseChunk(lx, content).emitted| - 1] == Plain("\""))
  {
    var s := ScanFrom(lx, content, 0, lx.mode, []);
    ScanLastStep(lx, content, 0, lx.mode, []);
    ScanStaysSet(lx, content, 0, lx.mode, []);
    var prev: Lexer, e: seq<Piece> :| prev.mode == s.last && StepChar(prev, content[|content| - 1]) == Next(s.lexer, e);
  }

  /** A single quote read in Base mode always ends the parse with the ReferenceError. */
  lemma SimpleSingleQuoteThrows(lx: Lexer, content: string, k: nat)
    requires lx.mode == Base
    requires k < |content| && content[k] == '\''
    requires forall j :: 0 <= j < k ==> content[j] != '"'
    ensures ParseChunk(lx, content).failure == Some(TargetNodeUndefined)
  {
    ScanBaseUntilQuote(lx, content, 0, lx.mode, [], k);
  }

  lemma {:induction false} ScanBaseUntilQuote(lx: Lexer, content: string, i: nat, last: Mode, acc: seq<Piece>, k: nat)
    requires lx.mode == Base && i <= k < |content| && content[k] == '\''
    requires forall j :: i <= j < k ==> content[j] != '"'
    ensures ScanFrom(lx, content, i, last, acc).thrown
    decreases k - i
  {
    if i < k {
      var st := StepChar(lx, content[i]);
      if st.Next? {
        ScanBaseUntilQuote(st.lexer, content, i + 1, lx.mode, acc + st.emitted, k);
      }
    }
  }

  /** The SingleQuote mode is never entered: the branch that would enter it throws first. */
  lemma NeverSingleQuote(lx: Lexer, content: string, i: nat, last: Mode, acc: seq<Piece>)
    requires lx.mode != SingleQuote
    ensures ScanFrom(lx, content, i, last, acc).lexer.mode != SingleQuote
    decreases |content| - i
  {
    if i < |content| {
      var st := StepChar(lx, content[i]);
      if st.Next? {
        NeverSingleQuote(st.lexer, content, i + 1, lx.mode, acc + st.emitted);
      }
    }
  }

  /** The highlighter object; its fields are the state record. */
  class SimpleHighlighter {
    var mode: Mode
    var previous: Mode
    var token: string

    function State(): Lexer
      reads this
    {
      Lexer(mode, previous, token)
    }

    /** A new highlighter: the initial state is recorded but current and previous stay null until reset. */
    constructor ()
      ensures State() == Initial
    {
      mode, previous, token := Unset, Unset, "";
    }

    /** `reset()`: token cleared, current and previous set to the initial Base mode. */
    method Reset()
      modifies this
      ensures State() == ResetState
    {
      token := "";
      previous := Base;
      mode := Base;
    }

    /** `parse(info, target)`: the pieces appended to the target, and the error thrown, if any. */
    method Parse(content: string) returns (emitted: seq<Piece>, failure: Option<Failure>)
      modifies this
      ensures Outcome(State(), emitted, failure) == ParseChunk(old(State()), content)
    {
      emitted := [];
      failure := None;
      if |content| > 0 {
        ghost var start := State();
        var pointer := 0;
        var currentState := mode;
        while pointer < |content|
          invariant 0 <= pointer <= |content|
          invariant ScanFrom(State(), content, pointer, currentState, emitted) == ScanFrom(start, content, 0, start.mode, [])
        {
          var character := content[pointer];
          pointer := pointer + 1;
          currentState := mode;
          match currentState {
            case Base =>
              if character == '"' {
                emitted := emitted + [Plain(token)];
                token := "\"";
                previous, mode := mode, DoubleQuote;
              } else if character == '\'' {
                failure := Some(TargetNodeUndefined);
                return;
              } else {
                token := token + [character];
              }
            case SingleQuote =>
              if character == '\'' {
                emitted := emitted + [Quote(token + "'")];
                token := "";
                previous, mode := mode, Base;
              } else {
                token := token + [character];
              }
            case DoubleQuote =>
              if character == '"' {
                emitted := emitted + [Quote(token + "\"")];
                token := "";
                previous, mode := mode, Base;
              } else {
                token := token + [character];
              }
            case Unset =>
              assert emitted + [] == emitted;
          }
        }
        if |token| > 0 {
          if currentState == Base {
            emitted := emitted + [Plain(token)];
            token := "";
          } else {
            emitted := emitted + [Quote(token)];
          }
        }
      }
      if token != "" {
        failure := Some(TokenNotEmpty);
      }
    }
  }
}
