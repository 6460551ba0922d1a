/**
 The loops that turn the text of a model or of a tool into events, and what the events
 add up to.
 */
module PumpText {
  import opened Wrappers
  import opened ProjectionPump

  /** The text that events carry, joined. */
  function Joined(events: seq<Event>): string {
    if events == [] then ""
    else
      (match events[0].kind
       case TextDelta(_, text) => text
       case ToolOutput(_, text) => text
       case _ => "")
      + Joined(events[1..])
  }

  class EventQueue {
    var items: seq<Event>

    method Put(e: Event)
      modifies this
      ensures items == old(items) + [e]
    {
      items := items + [e];
    }

    /** Puts one event per non-empty delta and returns the whole text. */
    method PumpText(path: Path, segment: string, deltas: seq<string>) returns (acc: string)
      modifies this
      ensures acc == Concat(deltas)
      ensures items == old(items) + TextDeltas(path, segment, deltas)
    {
      acc := "";
      var i := 0;
      while i < |deltas|
        invariant 0 <= i <= |deltas|
        invariant acc + Concat(deltas[i..]) == Concat(deltas)
        invariant items + TextDeltas(path, segment, deltas[i..]) == old(items) + TextDeltas(path, segment, deltas)
      {
        var text := deltas[i];
        assert deltas[i..][0] == text && deltas[i..][1..] == deltas[i + 1..];
        assert acc + (text + Concat(deltas[i + 1..])) == (acc + text) + Concat(deltas[i + 1..]);
        acc := acc + text;
        ghost var before := items;
        if text != "" {
          Put(Event(path, TextDelta(segment, text)));
          assert before + ([Event(path, TextDelta(segment, text))] + TextDeltas(path, segment, deltas[i + 1..]))
                 == items + TextDeltas(path, segment, deltas[i + 1..]);
        } else {
          assert TextDeltas(path, segment, deltas[i..]) == TextDeltas(path, segment, deltas[i + 1..]);
        }
        i := i + 1;
      }
      assert deltas[i..] == [];
    }

    /** Puts the output of a tool until the limit is reached, and consumes the rest. */
    method PumpToolOutput(path: Path, tool: string, chunks: seq<string>)
      modifies this
      ensures items == old(items) + OutputDeltas(path, tool, chunks, 0)
    {
      var sent: nat := 0;
      var i := 0;
      while i < |chunks|
        invariant 0 <= i <= |chunks|
        invariant items + OutputDeltas(path, tool, chunks[i..], sent) == old(items) + OutputDeltas(path, tool, chunks, 0)
      {
        var chunk := chunks[i];
        assert chunks[i..][0] == chunk && chunks[i..][1..] == chunks[i + 1..];
        i := i + 1;
        if sent >= TOOL_RESULT_MAX_CHARS || chunk == "" {
          continue;
        }
        var text := Clipped(chunk, TOOL_RESULT_MAX_CHARS - sent);
        ghost var before := items;
        ghost var rest := OutputDeltas(path, tool, chunks[i..], sent + |text|);
        Put(Event(path, ToolOutput(tool, text)));
        sent := sent + |text|;
        assert before + ([Event(path, ToolOutput(tool, text))] + rest) == items + rest;
      }
      assert chunks[i..] == [];
    }
  }

  lemma {:induction false} DeltasJoin(path: Path, segment: string, deltas: seq<string>)
    ensures Joined(TextDeltas(path, segment, deltas)) == Concat(deltas)
  {
    if deltas != [] {
      DeltasJoin(path, segment, deltas[1..]);
      var rest := TextDeltas(path, segment, deltas[1..]);
      if deltas[0] != "" {
        assert TextDeltas(path, segment, deltas) == [Event(path, TextDelta(segment, deltas[0]))] + rest;
      } else {
        assert TextDeltas(path, segment, deltas) == rest;
      }
    }
  }

  /** What is put of a tool's output is its beginning, up to the limit. */
  lemma {:induction false} OutputIsPrefix(path: Path, tool: string, chunks: seq<string>, sent: nat)
    requires sent <= TOOL_RESULT_MAX_CHARS
    ensures Joined(OutputDeltas(path, tool, chunks, sent)) == Clipped(Concat(chunks), TOOL_RESULT_MAX_CHARS - sent)
  {
    if chunks != [] {
      var room := TOOL_RESULT_MAX_CHARS - sent;
      var chunk, rest := chunks[0], chunks[1..];
      if room == 0 || chunk == "" {
        OutputIsPrefix(path, tool, rest, sent);
        if chunk == "" {
          assert Concat(chunks) == Concat(rest);
        }
      } else {
        var text := Clipped(chunk, room);
        var events := OutputDeltas(path, tool, rest, sent + |text|);
        OutputIsPrefix(path, tool, rest, sent + |text|);
        assert OutputDeltas(path, tool, chunks, sent) == [Event(path, ToolOutput(tool, text))] + events;
        assert ([Event(path, ToolOutput(tool, text))] + events)[1..] == events;
        assert text + Clipped(Concat(rest), room - |text|) == Clipped(chunk + Concat(rest), room);
      }
    }
  }

  /** Without a final message, the completed frame is exactly the text of the deltas before it. */
  lemma CompletionRepeatsDeltas(path: Path, m: Model)
    requires m.final.None?
    ensures var deltas := TextDeltas(path, m.messageId, m.text);
      Completion(path, m) == if Joined(deltas) == "" then [] else [Event(path, TextCompleted(m.messageId, Joined(deltas)))]
  {
    DeltasJoin(path, m.messageId, m.text);
  }
}
