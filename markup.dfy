/**
 * The "%xy" markup of message text (util/Markup.java): "%%" is a literal
 * percent sign, "%" followed by a known two-letter command switches an ANSI
 * attribute or colour, "%re" resets, anything else after a '%' is dropped.
 *
 * The rendered text is modelled as a sequence of pieces: runs of text,
 * attribute/colour commands (by their two-letter name) and resets. How the
 * ANSI library turns those into escape sequences is not part of this model.
 */
module Markup {

  const FORMAT_CHAR := '%'
  const CMD_RESET := "re"
  const CMD_INVALID := "xx"

  /** The colour letters: black, red, green, yellow, blue, magenta, cyan, white (upper case: bright), and default. */
  predicate IsColourLetter(c: char)
  {
    c == 'k' || c == 'K' || c == 'r' || c == 'R' || c == 'g' || c == 'G' || c == 'y' || c == 'Y'
    || c == 'b' || c == 'B' || c == 'm' || c == 'M' || c == 'c' || c == 'C' || c == 'w' || c == 'W'
    || c == 'd'
  }

  /**
   * The commands render knows, besides the reset: bold, italic, underline
   * (single, double), strikethrough and conceal on and off, and a
   * foreground ('f') or background ('b') colour.
   */
  predicate IsCode(cmd: string)
  {
    |cmd| == 2
    && var a, b := cmd[0], cmd[1];
    || (a == 'B' && (b == 'o' || b == 'x'))
    || (a == 'I' && (b == 't' || b == 'x'))
    || (a == 'U' && (b == 'n' || b == '2' || b == 'x'))
    || (a == 'S' && (b == 't' || b == 'x'))
    || (a == 'C' && (b == 'o' || b == 'x'))
    || ((a == 'f' || a == 'b') && IsColourLetter(b))
  }

  datatype Piece = Text(t: string) | Code(cmd: string) | Reset

  /** String.indexOf('%', from): the first marker at or after from, or -1. */
  function IndexOf(s: string, from: nat): (r: int)
    ensures r == -1 || (from <= r < |s| && s[r] == FORMAT_CHAR)
    ensures r == -1 ==> forall k :: from <= k < |s| ==> s[k] != FORMAT_CHAR
    ensures r != -1 ==> forall k :: from <= k < r ==> s[k] != FORMAT_CHAR
    decreases |s| - from
  {
    if from >= |s| then -1
    else if s[from] == FORMAT_CHAR then from
    else IndexOf(s, from + 1)
  }

  /** What one command contributes: a reset, a known code, or nothing. */
  function Effect(cmd: string): (r: seq<Piece>)
    ensures |r| <= 1
    ensures r == [Reset] <==> cmd == CMD_RESET
    ensures r == [] <==> cmd != CMD_RESET && !IsCode(cmd)
  {
    if cmd == CMD_RESET then [Reset]
    else if IsCode(cmd) then [Code(cmd)]
    else []
  }

  /** The shortest run of text render copies before a marker, as written. */
  const WRITTEN_RUN := 2
  /** The shortest run that keeps every character. */
  const FULL_RUN := 1

  /** The command after the marker at fcidx: its two letters, or "xx" when fewer follow. */
  function Command(s: string, fcidx: nat): (cmd: string)
    requires fcidx < |s|
    ensures |cmd| == 2
  {
    if fcidx + 2 >= |s| then CMD_INVALID else s[fcidx + 1..fcidx + 3]
  }

  /** What one pass of render's loop emits, where it goes on, and the new reset flag. */
  datatype Advance = Advance(emitted: seq<Piece>, next: nat, needReset: bool)

  /**
   * One pass of the loop on the marker at fcidx (the first at or after
   * from): the text before it when at least minRun long, then "%%" as a
   * '%' or the command's effect.
   */
  function Step(s: string, from: nat, fcidx: nat, needReset: bool, minRun: nat): (a: Advance)
    requires from <= fcidx < |s|
    ensures fcidx + 2 <= a.next <= fcidx + 3
  {
    var lead := if fcidx - from >= minRun then [Text(s[from..fcidx])] else [];
    if fcidx + 1 < |s| && s[fcidx + 1] == FORMAT_CHAR then
      Advance(lead + [Text([FORMAT_CHAR])], fcidx + 2, needReset)
    else
      var cmd := Command(s, fcidx);
      Advance(lead + Effect(cmd), fcidx + 3, cmd != CMD_RESET)
  }

  /** After the last marker: the rest of the text, then a reset if one is owed. */
  function Finish(s: string, from: nat, needReset: bool): seq<Piece>
  {
    (if from < |s| then [Text(s[from..])] else []) + (if needReset then [Reset] else [])
  }

  /**
   * The loop of render from position `from` on, as a function of the
   * position and the reset flag; `minRun` is the shortest run of text that
   * is copied in front of a marker.
   */
  function Walk(s: string, from: nat, needReset: bool, minRun: nat): seq<Piece>
    requires from <= |s| + 2
    decreases |s| + 2 - from
  {
    var fcidx := IndexOf(s, from);
    if fcidx == -1 then Finish(s, from, needReset)
    else
      var a := Step(s, from, fcidx, needReset, minRun);
      a.emitted + Walk(s, a.next, a.needReset, minRun)
  }

  /** render: a string without any '%' comes back as it is. */
  function RenderOf(s: string, minRun: nat): seq<Piece>
  {
    if IndexOf(s, 0) == -1 then [Text(s)] else Walk(s, 0, false, minRun)
  }

  /** The body of render's loop, as written, on the marker at fcidx. */
  method Pass(s: string, fromIndex: nat, fcidx: nat, needReset: bool)
    returns (emitted: seq<Piece>, next: nat, needResetAfter: bool)
    requires fromIndex <= fcidx < |s| && s[fcidx] == FORMAT_CHAR
    ensures Advance(emitted, next, needResetAfter) == Step(s, fromIndex, fcidx, needReset, WRITTEN_RUN)
  {
    emitted := [];
    if fcidx - fromIndex > 1 {
      emitted := [Text(s[fromIndex..fcidx])];
    }
    if fcidx <= |s| - 2 && s[fcidx + 1] == FORMAT_CHAR {
      emitted := emitted + [Text([FORMAT_CHAR])];
      return emitted, fcidx + 2, needReset;
    }
    needResetAfter := true;
    var cmd := if fcidx >= |s| - 2 then CMD_INVALID else s[fcidx + 1..fcidx + 3];
    if cmd == CMD_RESET {
      emitted := emitted + [Reset];
      needResetAfter := false;
    } else if IsCode(cmd) {
      emitted := emitted + [Code(cmd)];
    }
    next := fcidx + 3;
  }

  /** The end of render, after the last marker. */
  method Close(s: string, fromIndex: nat, needReset: bool) returns (tail: seq<Piece>)
    ensures tail == Finish(s, fromIndex, needReset)
  {
    tail := [];
    if fromIndex < |s| {
      tail := [Text(s[fromIndex..])];
    }
    if needReset {
      tail := tail + [Reset];
    }
  }

  /**
   * One turn of render's loop keeps its invariant: what was emitted so far,
   * then the walk from the new position, is the walk from the start.
   */
  lemma RenderTurn(s: string, from: nat, fcidx: nat, needReset: bool, acc: seq<Piece>, a: Advance)
    requires from <= |s| + 2 && fcidx == IndexOf(s, from) && fcidx != -1
    requires acc + Walk(s, from, needReset, WRITTEN_RUN) == Walk(s, 0, false, WRITTEN_RUN)
    requires a == Step(s, from, fcidx, needReset, WRITTEN_RUN)
    ensures 0 < a.next <= |s| + 2
    ensures (acc + a.emitted) + Walk(s, a.next, a.needReset, WRITTEN_RUN) == Walk(s, 0, false, WRITTEN_RUN)
  {
    WalkStep(s, from, fcidx, needReset, a);
    AppendAssoc(acc, a.emitted, Walk(s, a.next, a.needReset, WRITTEN_RUN));
  }

  /** The walk from `from` is what one turn emits, then the walk from where that turn goes on. */
  lemma WalkStep(s: string, from: nat, fcidx: nat, needReset: bool, a: Advance)
    requires from <= |s| + 2 && fcidx == IndexOf(s, from) && fcidx != -1
    requires a == Step(s, from, fcidx, needReset, WRITTEN_RUN)
    ensures Walk(s, from, needReset, WRITTEN_RUN) == a.emitted + Walk(s, a.next, a.needReset, WRITTEN_RUN)
  {
  }

  /** After the last marker, the walk is the closing output. */
  lemma RenderEnd(s: string, from: nat, needReset: bool, acc: seq<Piece>)
    requires from <= |s| + 2 && IndexOf(s, from) == -1
    requires acc + Walk(s, from, needReset, WRITTEN_RUN) == Walk(s, 0, false, WRITTEN_RUN)
    requires from != 0 ==> IndexOf(s, 0) != -1
    ensures from == 0 ==> RenderOf(s, WRITTEN_RUN) == [Text(s)]
    ensures from != 0 ==> acc + Finish(s, from, needReset) == RenderOf(s, WRITTEN_RUN)
  {
  }

  /** Markup.render as written. */
  method Render(s: string) returns (out: seq<Piece>)
    ensures out == RenderOf(s, WRITTEN_RUN)
  {
    var fromIndex: nat := 0;
    var needReset := false;
    var acc: seq<Piece> := [];
    var fcidx := IndexOf(s, fromIndex);
    while fcidx != -1
      invariant fromIndex <= |s| + 2
      invariant fcidx == IndexOf(s, fromIndex)
      invariant fromIndex != 0 ==> IndexOf(s, 0) != -1
      invariant acc + Walk(s, fromIndex, needReset, WRITTEN_RUN) == Walk(s, 0, false, WRITTEN_RUN)
      decreases |s| + 2 - fromIndex
    {
      var emitted, next, needResetAfter := Pass(s, fromIndex, fcidx, needReset);
      RenderTurn(s, fromIndex, fcidx, needReset, acc, Advance(emitted, next, needResetAfter));
      acc, fromIndex, needReset := acc + emitted, next, needResetAfter;
      fcidx := IndexOf(s, fromIndex);
    }
    RenderEnd(s, fromIndex, needReset, acc);
    if fromIndex == 0 {
      return [Text(s)];
    }
    var tail := Close(s, fromIndex, needReset);
    out := acc + tail;
  }

  // ---------------------------------------------------------------------
  // A character-by-character reference

  /** One single-character text piece per character. */
  function Explode(t: string): (r: seq<Piece>)
    ensures |r| == |t|
  {
    if |t| == 0 then [] else [Text([t[0]])] + Explode(t[1..])
  }

  /** The output with every text run split into single characters. */
  function Norm(ps: seq<Piece>): seq<Piece>
  {
    if |ps| == 0 then []
    else (if ps[0].Text? then Explode(ps[0].t) else [ps[0]]) + Norm(ps[1..])
  }

  /** The markup from position i on, read one character or marker at a time. */
  function Body(s: string, i: nat): seq<Piece>
    decreases |s| - i
  {
    if i >= |s| then []
    else if s[i] != FORMAT_CHAR then [Text([s[i]])] + Body(s, i + 1)
    else if i + 1 < |s| && s[i + 1] == FORMAT_CHAR then [Text([FORMAT_CHAR])] + Body(s, i + 2)
    else if i + 2 >= |s| then []
    else Effect(s[i + 1..i + 3]) + Body(s, i + 3)
  }

  /** The commands of the markers from position i on, in order ("xx" for a cut-off one). */
  function Markers(s: string, i: nat): seq<string>
    decreases |s| - i
  {
    if i >= |s| then []
    else if s[i] != FORMAT_CHAR then Markers(s, i + 1)
    else if i + 1 < |s| && s[i + 1] == FORMAT_CHAR then Markers(s, i + 2)
    else if i + 2 >= |s| then [CMD_INVALID]
    else [s[i + 1..i + 3]] + Markers(s, i + 3)
  }

  /** A closing reset is owed when a marker was seen and the last one was not "%re". */
  predicate OwesReset(markers: seq<string>, before: bool)
  {
    if |markers| == 0 then before else markers[|markers| - 1] != CMD_RESET
  }

  lemma OwesResetCons(cmd: string, markers: seq<string>, before: bool)
    ensures OwesReset([cmd] + markers, before) == OwesReset(markers, cmd != CMD_RESET)
  {
    if |markers| > 0 {
      assert ([cmd] + markers)[|markers|] == markers[|markers| - 1];
    }
  }

  /** The reference reading of s from i on, with the reset owed at the end. */
  function Reading(s: string, i: nat, needReset: bool): seq<Piece>
  {
    Body(s, i) + (if OwesReset(Markers(s, i), needReset) then [Reset] else [])
  }

  /** What rendering s should give: every character, style and reset in order. */
  function Expected(s: string): seq<Piece>
  {
    Reading(s, 0, false)
  }

  lemma AppendAssoc(a: seq<Piece>, b: seq<Piece>, c: seq<Piece>)
    ensures (a + b) + c == a + (b + c)
  {
  }

  lemma {:induction false} NormAppend(a: seq<Piece>, b: seq<Piece>)
    ensures Norm(a + b) == Norm(a) + Norm(b)
    decreases |a|
  {
    if |a| == 0 {
      assert a + b == b;
    } else {
      assert (a + b)[1..] == a[1..] + b;
      NormAppend(a[1..], b);
    }
  }

  lemma NormText(t: string)
    ensures Norm([Text(t)]) == Explode(t)
  {
    assert [Text(t)][1..] == [];
  }

  lemma NormControl(p: Piece)
    requires !p.Text?
    ensures Norm([p]) == [p]
  {
    assert [p][1..] == [];
  }

  lemma NormEffect(cmd: string)
    ensures Norm(Effect(cmd)) == Effect(cmd)
  {
    if Effect(cmd) != [] {
      NormControl(Effect(cmd)[0]);
    }
  }

  /** A stretch without markers reads as its characters. */
  lemma {:induction false} BodyPlain(s: string, from: nat, to: nat)
    requires from <= to <= |s|
    requires forall k :: from <= k < to ==> s[k] != FORMAT_CHAR
    ensures Body(s, from) == Explode(s[from..to]) + Body(s, to)
    ensures Markers(s, from) == Markers(s, to)
    decreases |s| - from
  {
    if from < to {
      BodyPlain(s, from + 1, to);
      assert s[from..to][1..] == s[from + 1..to];
    }
  }

  lemma EmptyBody(s: string, i: nat)
    requires i >= |s|
    ensures Body(s, i) == [] && Markers(s, i) == []
  {
  }

  /** The text run before a marker only adds its characters, when every run is kept. */
  lemma StepLead(s: string, from: nat, fcidx: nat, needReset: bool)
    requires from <= fcidx < |s|
    ensures var a := Step(s, from, fcidx, needReset, FULL_RUN);
            var m := Step(s, fcidx, fcidx, needReset, FULL_RUN);
            Norm(a.emitted) == Explode(s[from..fcidx]) + Norm(m.emitted)
            && a.next == m.next && a.needReset == m.needReset
  {
    var a := Step(s, from, fcidx, needReset, FULL_RUN);
    var m := Step(s, fcidx, fcidx, needReset, FULL_RUN);
    var lead: seq<Piece> := if fcidx - from >= FULL_RUN then [Text(s[from..fcidx])] else [];
    assert a.emitted == lead + m.emitted;
    NormAppend(lead, m.emitted);
    if fcidx - from >= FULL_RUN {
      NormText(s[from..fcidx]);
    }
  }

  /** One marker read by the loop is the same marker read by the reference. */
  lemma MarkerMatchesBody(s: string, fcidx: nat, needReset: bool)
    requires fcidx < |s| && s[fcidx] == FORMAT_CHAR
    ensures var m := Step(s, fcidx, fcidx, needReset, FULL_RUN);
            Body(s, fcidx) == Norm(m.emitted) + Body(s, m.next)
            && OwesReset(Markers(s, fcidx), needReset) == OwesReset(Markers(s, m.next), m.needReset)
  {
    MarkerBody(s, fcidx, needReset);
    MarkerReset(s, fcidx, needReset);
  }

  lemma MarkerBody(s: string, fcidx: nat, needReset: bool)
    requires fcidx < |s| && s[fcidx] == FORMAT_CHAR
    ensures var m := Step(s, fcidx, fcidx, needReset, FULL_RUN);
            Body(s, fcidx) == Norm(m.emitted) + Body(s, m.next)
  {
    var m := Step(s, fcidx, fcidx, needReset, FULL_RUN);
    if fcidx + 1 < |s| && s[fcidx + 1] == FORMAT_CHAR {
      assert m.emitted == [Text([FORMAT_CHAR])];
      NormText([FORMAT_CHAR]);
      assert Explode([FORMAT_CHAR]) == [Text([FORMAT_CHAR])];
    } else {
      var cmd := Command(s, fcidx);
      assert m.emitted == Effect(cmd);
      NormEffect(cmd);
      if fcidx + 2 >= |s| {
        EmptyBody(s, fcidx + 3);
        assert Effect(cmd) == [];
      }
    }
  }

  lemma MarkerReset(s: string, fcidx: nat, needReset: bool)
    requires fcidx < |s| && s[fcidx] == FORMAT_CHAR
    ensures var m := Step(s, fcidx, fcidx, needReset, FULL_RUN);
            OwesReset(Markers(s, fcidx), needReset) == OwesReset(Markers(s, m.next), m.needReset)
  {
    if !(fcidx + 1 < |s| && s[fcidx + 1] == FORMAT_CHAR) {
      var cmd := Command(s, fcidx);
      if fcidx + 2 >= |s| {
        EmptyBody(s, fcidx + 3);
      }
      assert Markers(s, fcidx) == [cmd] + Markers(s, fcidx + 3);
      OwesResetCons(cmd, Markers(s, fcidx + 3), needReset);
    }
  }

  /** One pass of the loop, with every run kept, consumes exactly what the reference reads. */
  lemma StepMatchesBody(s: string, from: nat, needReset: bool)
    requires from <= |s| + 2 && IndexOf(s, from) != -1
    ensures var a := Step(s, from, IndexOf(s, from), needReset, FULL_RUN);
            Reading(s, from, needReset) == Norm(a.emitted) + Reading(s, a.next, a.needReset)
  {
    var fcidx := IndexOf(s, from);
    var a := Step(s, from, fcidx, needReset, FULL_RUN);
    var m := Step(s, fcidx, fcidx, needReset, FULL_RUN);
    BodyPlain(s, from, fcidx);
    StepLead(s, from, fcidx, needReset);
    MarkerMatchesBody(s, fcidx, needReset);
    var lead, marker, body := Explode(s[from..fcidx]), Norm(m.emitted), Body(s, m.next);
    var close: seq<Piece> := if OwesReset(Markers(s, a.next), a.needReset) then [Reset] else [];
    assert Body(s, from) == lead + (marker + body);
    assert Reading(s, from, needReset) == (lead + (marker + body)) + close;
    assert Reading(s, a.next, a.needReset) == body + close;
    AppendAssoc(lead, marker + body, close);
    AppendAssoc(marker, body, close);
    AppendAssoc(lead, marker, body + close);
  }

  /** After the last marker the loop's closing output is the reference reading. */
  lemma FinishMatchesBody(s: string, from: nat, needReset: bool)
    requires from <= |s| + 2 && IndexOf(s, from) == -1
    ensures Norm(Finish(s, from, needReset)) == Reading(s, from, needReset)
  {
    var tail: seq<Piece> := if needReset then [Reset] else [];
    if from < |s| {
      BodyPlain(s, from, |s|);
      EmptyBody(s, |s|);
      NormAppend([Text(s[from..])], tail);
      NormText(s[from..]);
      assert s[from..|s|] == s[from..];
    } else {
      EmptyBody(s, from);
      assert Finish(s, from, needReset) == tail;
    }
    if needReset {
      NormControl(Reset);
    } else {
      assert Norm(tail) == [];
    }
  }

  /**
   * Copying every run, however short, the loop from any position gives the
   * reference reading of the rest of the string.
   */
  lemma {:induction false} WalkMatchesBody(s: string, from: nat, needReset: bool)
    requires from <= |s| + 2
    ensures Norm(Walk(s, from, needReset, FULL_RUN)) == Reading(s, from, needReset)
    decreases |s| + 2 - from
  {
    var fcidx := IndexOf(s, from);
    if fcidx == -1 {
      FinishMatchesBody(s, from, needReset);
    } else {
      var a := Step(s, from, fcidx, needReset, FULL_RUN);
      var rest := Walk(s, a.next, a.needReset, FULL_RUN);
      assert Walk(s, from, needReset, FULL_RUN) == a.emitted + rest;
      WalkMatchesBody(s, a.next, a.needReset);
      NormAppend(a.emitted, rest);
      StepMatchesBody(s, from, needReset);
    }
  }

  /**
   * With every run kept, render gives exactly the reference reading: the
   * characters outside markers, "%%" as '%', the known commands in order,
   * and a closing reset when one is owed.
   */
  lemma CorrectedRenderMatchesReference(s: string)
    ensures Norm(RenderOf(s, FULL_RUN)) == Expected(s)
  {
    if IndexOf(s, 0) == -1 {
      BodyPlain(s, 0, |s|);
      EmptyBody(s, |s|);
      NormText(s);
      assert s[0..|s|] == s;
    } else {
      WalkMatchesBody(s, 0, false);
    }
  }

  /** The styles and resets of an output, without its text. */
  function Controls(ps: seq<Piece>): (r: seq<Piece>)
    ensures forall k :: 0 <= k < |r| ==> !r[k].Text?
  {
    if |ps| == 0 then []
    else (if ps[0].Text? then [] else [ps[0]]) + Controls(ps[1..])
  }

  lemma {:induction false} ControlsAppend(a: seq<Piece>, b: seq<Piece>)
    ensures Controls(a + b) == Controls(a) + Controls(b)
    decreases |a|
  {
    if |a| == 0 {
      assert a + b == b;
    } else {
      assert (a + b)[1..] == a[1..] + b;
      ControlsAppend(a[1..], b);
    }
  }

  lemma ControlsOfText(t: string)
    ensures Controls([Text(t)]) == []
  {
    assert [Text(t)][1..] == [];
  }

  /** One pass emits the same styles and resets whatever the shortest run copied. */
  lemma StepControls(s: string, from: nat, fcidx: nat, needReset: bool, m1: nat, m2: nat)
    requires from <= fcidx < |s|
    ensures var a1, a2 := Step(s, from, fcidx, needReset, m1), Step(s, from, fcidx, needReset, m2);
            Controls(a1.emitted) == Controls(a2.emitted) && a1.next == a2.next && a1.needReset == a2.needReset
  {
    var lead1: seq<Piece> := if fcidx - from >= m1 then [Text(s[from..fcidx])] else [];
    var lead2: seq<Piece> := if fcidx - from >= m2 then [Text(s[from..fcidx])] else [];
    ControlsOfText(s[from..fcidx]);
    assert Controls(lead1) == [] && Controls(lead2) == [];
    var mark := if fcidx + 1 < |s| && s[fcidx + 1] == FORMAT_CHAR then [Text([FORMAT_CHAR])]
                else Effect(Command(s, fcidx));
    ControlsAppend(lead1, mark);
    ControlsAppend(lead2, mark);
  }

  /** How long a run must be to be copied changes only the text of the output. */
  lemma {:induction false} ControlsIgnoreRun(s: string, from: nat, needReset: bool, m1: nat, m2: nat)
    requires from <= |s| + 2
    ensures Controls(Walk(s, from, needReset, m1)) == Controls(Walk(s, from, needReset, m2))
    decreases |s| + 2 - from
  {
    var fcidx := IndexOf(s, from);
    if fcidx != -1 {
      var a1, a2 := Step(s, from, fcidx, needReset, m1), Step(s, from, fcidx, needReset, m2);
      StepControls(s, from, fcidx, needReset, m1, m2);
      var rest1, rest2 := Walk(s, a1.next, a1.needReset, m1), Walk(s, a2.next, a2.needReset, m2);
      assert Walk(s, from, needReset, m1) == a1.emitted + rest1;
      assert Walk(s, from, needReset, m2) == a2.emitted + rest2;
      ControlsIgnoreRun(s, a1.next, a1.needReset, m1, m2);
      ControlsAppend(a1.emitted, rest1);
      ControlsAppend(a2.emitted, rest2);
    }
  }

  lemma {:induction false} ControlsOfNorm(ps: seq<Piece>)
    ensures Controls(Norm(ps)) == Controls(ps)
    decreases |ps|
  {
    if |ps| > 0 {
      ControlsOfNorm(ps[1..]);
      var head := if ps[0].Text? then Explode(ps[0].t) else [ps[0]];
      ControlsAppend(head, Norm(ps[1..]));
      if ps[0].Text? {
        ExplodeControls(ps[0].t);
      }
      assert ps == [ps[0]] + ps[1..];
      ControlsAppend([ps[0]], ps[1..]);
      assert [ps[0]][1..] == [];
    }
  }

  lemma {:induction false} ExplodeControls(t: string)
    ensures Controls(Explode(t)) == []
    decreases |t|
  {
    if |t| > 0 {
      ExplodeControls(t[1..]);
      ControlsAppend([Text([t[0]])], Explode(t[1..]));
      ControlsOfText([t[0]]);
    }
  }

  /**
   * As written, render still emits every style, colour and reset the
   * reference reading has, in order; only text can go missing.
   */
  lemma WrittenRenderKeepsControls(s: string)
    ensures Controls(RenderOf(s, WRITTEN_RUN)) == Controls(Expected(s))
  {
    CorrectedRenderMatchesReference(s);
    ControlsOfNorm(RenderOf(s, FULL_RUN));
    if IndexOf(s, 0) != -1 {
      ControlsIgnoreRun(s, 0, false, WRITTEN_RUN, FULL_RUN);
    }
  }

  /** A string without markers is returned unchanged. */
  lemma NoMarkupUnchanged(s: string, minRun: nat)
    requires forall k :: 0 <= k < |s| ==> s[k] != FORMAT_CHAR
    ensures RenderOf(s, minRun) == [Text(s)]
  {
    assert IndexOf(s, 0) == -1;
  }

  /**
   * As written, a single character in front of a marker is lost: "a%Bo"
   * renders as bold and a reset, without the "a" the reference keeps.
   */
  lemma AsWrittenDropsOneCharRun()
    ensures RenderOf("a%Bo", WRITTEN_RUN) == [Code("Bo"), Reset]
    ensures Expected("a%Bo") == [Text("a"), Code("Bo"), Reset]
  {
    var s := "a%Bo";
    assert IndexOf(s, 0) == 1;
    assert IndexOf(s, 4) == -1;
    assert s[2..4] == "Bo";
    assert Walk(s, 4, true, WRITTEN_RUN) == [Reset];
    assert Body(s, 4) == [] && Markers(s, 4) == [];
    assert Body(s, 1) == [Code("Bo")];
    assert Markers(s, 1) == ["Bo"];
  }
}
