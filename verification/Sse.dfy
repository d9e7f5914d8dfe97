/**
 * The event-stream framing used by the generation stream
 * (server/generation_service.py:97-145 writes every frame as `data: <json>` followed
 * by a blank line), and the receiving side as section 9.2 of the WHATWG HTML Living
 * Standard ("Server-sent events") interprets it, restricted to the `data` field:
 * lines end in CR LF, LF or CR; a blank line dispatches the buffered data with its
 * final LF removed, unless the buffer is empty; a line starting with `:` is a comment;
 * a `data` line appends its value (one leading space dropped) and an LF; a final
 * unterminated event is discarded.
 */
module Sse {

  /** One frame on the wire. */
  function Frame(payload: string): (r: string)
    ensures |r| == |payload| + 8
  {
    "data: " + payload + "\n\n"
  }

  /** The frames of a stream, in order. */
  function Render(payloads: seq<string>): (r: string)
    ensures payloads == [] <==> r == []
  {
    if payloads == [] then [] else Frame(payloads[0]) + Render(payloads[1..])
  }

  predicate IsEol(c: char)
  {
    c == '\n' || c == '\r'
  }

  predicate OneLine(s: string)
  {
    forall i :: 0 <= i < |s| ==> !IsEol(s[i])
  }

  /** The index of the first CR or LF at or after `i`, or `|s|`. */
  function NextEol(s: string, i: nat): (r: nat)
    requires i <= |s|
    ensures i <= r <= |s|
    ensures r < |s| ==> IsEol(s[r])
    ensures forall k :: i <= k < r ==> !IsEol(s[k])
    decreases |s| - i
  {
    if i == |s| || IsEol(s[i]) then i else NextEol(s, i + 1)
  }

  /** The complete lines of `s`; whatever follows the last line terminator is not a line yet. */
  function Lines(s: string): seq<string>
    decreases |s|
  {
    var j := NextEol(s, 0);
    if j == |s| then []
    else
      var next := if s[j] == '\r' && j + 1 < |s| && s[j + 1] == '\n' then j + 2 else j + 1;
      [s[..j]] + Lines(s[next..])
  }

  /** The index of the first `:` in `line`, or `|line|`. */
  function Colon(line: string): (r: nat)
    ensures r <= |line|
    ensures r < |line| ==> line[r] == ':'
    ensures forall k :: 0 <= k < r ==> line[k] != ':'
  {
    if line == [] then 0
    else if line[0] == ':' then 0
    else 1 + Colon(line[1..])
  }

  /** A field's value: what follows the first colon, less one leading space. */
  function Value(line: string): string
  {
    var c := Colon(line);
    if c == |line| then []
    else
      var v := line[c + 1..];
      if v != [] && v[0] == ' ' then v[1..] else v
  }

  /** The event data a receiver dispatches for `lines`, given the data buffered so far. */
  function Dispatch(lines: seq<string>, buffer: string): seq<string>
  {
    if lines == [] then []
    else
      var line := lines[0];
      if line == [] then
        if buffer == [] then Dispatch(lines[1..], [])
        else
          var data := if buffer[|buffer| - 1] == '\n' then buffer[..|buffer| - 1] else buffer;
          [data] + Dispatch(lines[1..], [])
      else if line[0] == ':' then Dispatch(lines[1..], buffer)
      else if line[..Colon(line)] == "data" then Dispatch(lines[1..], buffer + Value(line) + "\n")
      else Dispatch(lines[1..], buffer)
  }

  /** The data of every event a receiver dispatches for the stream `s`. */
  function Receive(s: string): seq<string>
  {
    Dispatch(Lines(s), [])
  }

  lemma LinesCons(x: string, rest: string)
    requires OneLine(x)
    ensures Lines(x + "\n" + rest) == [x] + Lines(rest)
  {
    var s := x + "\n" + rest;
    assert NextEol(s, 0) == |x| by {
      NextEolAt(s, 0, |x|);
    }
    assert s[..|x|] == x;
    assert s[|x| + 1..] == rest;
  }

  lemma {:induction false} NextEolAt(s: string, i: nat, j: nat)
    requires i <= j < |s| && IsEol(s[j])
    requires forall k :: i <= k < j ==> !IsEol(s[k])
    ensures NextEol(s, i) == j
    decreases j - i
  {
    if i < j {
      NextEolAt(s, i + 1, j);
    }
  }

  /** The lines of a rendered stream followed by `tail`: each frame gives its data line and a blank line. */
  lemma {:induction false} LinesOfRender(payloads: seq<string>, tail: string)
    requires forall k :: 0 <= k < |payloads| ==> OneLine(payloads[k])
    ensures Lines(Render(payloads) + tail) == DataLines(payloads) + Lines(tail)
  {
    if payloads != [] {
      var line := "data: " + payloads[0];
      var rest := Render(payloads[1..]) + tail;
      calc {
        Lines(Render(payloads) + tail);
        { RenderCons(payloads, tail); }
        Lines(line + "\n" + ("\n" + rest));
        { DataLineOneLine(payloads[0]); LinesCons(line, "\n" + rest); }
        [line] + Lines("\n" + rest);
        { LinesBlank(rest); }
        [line] + ([[]] + Lines(rest));
        { LinesOfRender(payloads[1..], tail); }
        [line] + ([[]] + (DataLines(payloads[1..]) + Lines(tail)));
        { DataLinesCons(payloads, Lines(tail)); }
        DataLines(payloads) + Lines(tail);
      }
    } else {
      assert Render(payloads) + tail == tail;
    }
  }

  lemma DataLinesCons(payloads: seq<string>, more: seq<string>)
    requires payloads != []
    ensures DataLines(payloads) + more == ["data: " + payloads[0], []] + (DataLines(payloads[1..]) + more)
  {
  }

  lemma DataLineOneLine(p: string)
    requires OneLine(p)
    ensures OneLine("data: " + p)
  {
    var line := "data: " + p;
    forall k | 0 <= k < |line| ensures !IsEol(line[k]) {
      if k >= 6 {
        assert line[k] == p[k - 6];
      }
    }
  }

  lemma RenderCons(payloads: seq<string>, tail: string)
    requires payloads != []
    ensures Render(payloads) + tail == ("data: " + payloads[0]) + "\n" + ("\n" + (Render(payloads[1..]) + tail))
  {
  }

  lemma LinesBlank(rest: string)
    ensures Lines("\n" + rest) == [[]] + Lines(rest)
  {
    LinesCons([], rest);
    assert [] + "\n" + rest == "\n" + rest;
  }

  /** A data line and a blank line per payload. */
  function DataLines(payloads: seq<string>): (r: seq<string>)
    ensures |r| == 2 * |payloads|
  {
    if payloads == [] then [] else ["data: " + payloads[0], []] + DataLines(payloads[1..])
  }

  lemma DataValue(p: string)
    ensures ("data: " + p)[..Colon("data: " + p)] == "data"
    ensures Value("data: " + p) == p
  {
    var line := "data: " + p;
    assert line[0] != ':' && line[1] != ':' && line[2] != ':' && line[3] != ':' && line[4] == ':';
    assert Colon(line) == 4 by {
      assert line[1..][1..][1..][1..][0] == ':';
    }
    assert line[5..][1..] == p;
  }

  /** Each frame's data line followed by its blank line dispatches exactly that frame's payload. */
  lemma {:induction false} DispatchDataLines(payloads: seq<string>)
    ensures Dispatch(DataLines(payloads), []) == payloads
  {
    if payloads != [] {
      var p := payloads[0];
      var lines := DataLines(payloads);
      DataValue(p);
      assert lines[0] == "data: " + p && lines[1] == [];
      assert lines[1..][1..] == DataLines(payloads[1..]);
      var buffer := [] + p + "\n";
      assert buffer[..|buffer| - 1] == p;
      DispatchDataLines(payloads[1..]);
    }
  }

  /**
   * A receiver recovers every payload, in order, from the rendered stream, provided
   * no payload contains a line break (a JSON text written by `json.dumps` on a single
   * line has none).
   */
  lemma ReceiveRender(payloads: seq<string>)
    requires forall k :: 0 <= k < |payloads| ==> OneLine(payloads[k])
    ensures Receive(Render(payloads)) == payloads
  {
    ReceiveWithTail(payloads, []);
    assert Render(payloads) + [] == Render(payloads);
  }

  /**
   * A stream cut short inside a line (for instance in the middle of a frame's data
   * line) dispatches only the frames completed before the cut.
   */
  lemma ReceiveWithTail(payloads: seq<string>, tail: string)
    requires forall k :: 0 <= k < |payloads| ==> OneLine(payloads[k])
    requires OneLine(tail)
    ensures Receive(Render(payloads) + tail) == payloads
  {
    LinesOfRender(payloads, tail);
    assert Lines(tail) == [] by {
      NoEol(tail, 0);
    }
    assert DataLines(payloads) + [] == DataLines(payloads);
    DispatchDataLines(payloads);
  }

  lemma {:induction false} NoEol(s: string, i: nat)
    requires i <= |s| && forall k :: i <= k < |s| ==> !IsEol(s[k])
    ensures NextEol(s, i) == |s|
    decreases |s| - i
  {
    if i < |s| {
      NoEol(s, i + 1);
    }
  }
}
