/** The console transcript of the debugger: recording entries and rendering them
    (ucagent/verify_pdb.py). */
module Console {
  import opened Text
  import opened Lists

  datatype Entry = Command(command: string) | Output(text: string)

  /** What is written to the console: output, or a command with whether it opens the TUI. */
  datatype Write = Out(text: string) | Cmd(line: string, tui: bool)

  /** Consecutive output is one entry; empty output, blank commands and the TUI command are not recorded. */
  function Recorded(entries: seq<Entry>, w: Write): seq<Entry>
  {
    match w
    case Out(text) =>
      if text == "" then entries
      else if entries != [] && entries[|entries| - 1].Output?
      then entries[..|entries| - 1] + [Output(entries[|entries| - 1].text + text)]
      else entries + [Output(text)]
    case Cmd(line, tui) => if Strip(line) == "" || tui then entries else entries + [Command(Strip(line))]
  }

  function Replay(entries: seq<Entry>, writes: seq<Write>): seq<Entry>
    decreases |writes|
  {
    if writes == [] then entries else Replay(Recorded(entries, writes[0]), writes[1..])
  }

  predicate NeedsNewline(text: string)
  {
    text != "" && text[|text| - 1] != '\n'
  }

  function CommandText(before: string, command: string): string
  {
    (if NeedsNewline(before) then "\n" else "") + "> " + command + "\n"
  }

  function EntryText(before: string, e: Entry): string
  {
    match e
    case Command(command) => CommandText(before, command)
    case Output(text) => text
  }

  /** Rendering entries after the text `before`. */
  function RenderedAfter(before: string, entries: seq<Entry>): string
    decreases |entries|
  {
    if entries == [] then before else RenderedAfter(before + EntryText(before, entries[0]), entries[1..])
  }

  function Rendered(entries: seq<Entry>): string
  {
    RenderedAfter("", entries)
  }

  function Since(entries: seq<Entry>, start: int): seq<Entry>
  {
    if start < 0 || start > |entries| then entries else entries[start..]
  }

  ghost predicate NoEmptyOutput(entries: seq<Entry>)
  {
    forall e :: e in entries && e.Output? ==> e.text != ""
  }

  class Transcript {
    var entries: seq<Entry>

    ghost predicate Valid()
      reads this
    {
      NoEmptyOutput(entries)
    }

    constructor ()
      ensures Valid() && entries == []
    {
      entries := [];
    }

    method RecordConsoleOutput(text: string)
      requires Valid()
      modifies this
      ensures Valid() && entries == Recorded(old(entries), Out(text))
    {
      if text == "" {
        return;
      }
      if entries != [] && entries[|entries| - 1].Output? {
        assert entries[|entries| - 1] in entries;
        entries := entries[..|entries| - 1] + [Output(entries[|entries| - 1].text + text)];
        return;
      }
      entries := entries + [Output(text)];
    }

    method RecordConsoleCommand(line: string, tui: bool)
      requires Valid()
      modifies this
      ensures Valid() && entries == Recorded(old(entries), Cmd(line, tui))
    {
      var cmd := Strip(line);
      if cmd == "" || tui {
        return;
      }
      entries := entries + [Command(cmd)];
    }

    method ClearConsoleState()
      modifies this
      ensures Valid() && entries == []
    {
      entries := [];
    }

    /** `render_console_entries_since`. */
    method RenderConsoleEntriesSince(start: int) returns (text: string)
      requires Valid()
      ensures text == Rendered(Since(entries, start))
    {
      hide EntryText;
      var from := if start < 0 then 0 else start;
      var visible := if from > |entries| then entries else entries[from..];
      text := "";
      for i := 0 to |visible|
        invariant RenderedAfter("", visible) == RenderedAfter(text, visible[i..])
      {
        assert visible[i..][0] == visible[i] && visible[i..][1..] == visible[i + 1..];
        text := text + EntryText(text, visible[i]);
      }
      assert visible[|visible|..] == [];
    }
  }

  // ---------------------------------------------------------------- the transcript

  /** What a terminal shows when everything is written to it as it comes, with each command on a line of its own. */
  function Streamed(shown: string, writes: seq<Write>): string
    decreases |writes|
  {
    if writes == [] then shown
    else
      match writes[0]
      case Out(text) => Streamed(shown + text, writes[1..])
      case Cmd(line, tui) =>
        Streamed(if Strip(line) == "" || tui then shown else shown + CommandText(shown, Strip(line)), writes[1..])
  }

  lemma {:induction false} RenderSnoc(before: string, entries: seq<Entry>, e: Entry)
    ensures RenderedAfter(before, entries + [e]) ==
            RenderedAfter(before, entries) + EntryText(RenderedAfter(before, entries), e)
    decreases |entries|
  {
    hide EntryText;
    if entries == [] {
      assert entries + [e] == [e] && [e][1..] == [];
    } else {
      assert (entries + [e])[1..] == entries[1..] + [e];
      RenderSnoc(before + EntryText(before, entries[0]), entries[1..], e);
    }
  }

  /** Recording one write adds to the rendering what a terminal would show. */
  lemma RecordShows(entries: seq<Entry>, w: Write)
    ensures Rendered(Recorded(entries, w)) == Streamed(Rendered(entries), [w])
  {
    assert [w][1..] == [];
    var n := |entries|;
    match w {
      case Cmd(line, tui) =>
        if Strip(line) != "" && !tui { RenderSnoc("", entries, Command(Strip(line))); }
      case Out(text) =>
        if text != "" {
          if n > 0 && entries[n - 1].Output? {
            assert entries == entries[..n - 1] + [entries[n - 1]];
            RenderSnoc("", entries[..n - 1], entries[n - 1]);
            RenderSnoc("", entries[..n - 1], Output(entries[n - 1].text + text));
            SeqAssoc(Rendered(entries[..n - 1]), entries[n - 1].text, text);
          } else {
            RenderSnoc("", entries, Output(text));
          }
        }
    }
  }

  lemma StreamStep(shown: string, w: Write, rest: seq<Write>)
    ensures Streamed(shown, [w] + rest) == Streamed(Streamed(shown, [w]), rest)
  {
    assert ([w] + rest)[1..] == rest && [w][1..] == [];
  }

  /** The transcript is faithful: rendering everything that was recorded shows exactly what a terminal would have
      shown, although consecutive output is stored in one entry. */
  lemma {:induction false} TranscriptIsFaithful(entries: seq<Entry>, writes: seq<Write>)
    ensures Rendered(Replay(entries, writes)) == Streamed(Rendered(entries), writes)
    decreases |writes|
  {
    hide Rendered, Recorded, Streamed;
    if writes == [] {
      StreamNothing(Rendered(entries));
    } else {
      assert writes == [writes[0]] + writes[1..];
      RecordShows(entries, writes[0]);
      StreamStep(Rendered(entries), writes[0], writes[1..]);
      TranscriptIsFaithful(Recorded(entries, writes[0]), writes[1..]);
    }
  }

  lemma StreamNothing(shown: string)
    ensures Streamed(shown, []) == shown
  {
  }

  // ---------------------------------------------------------------- reading the transcript in two parts

  /** Whether the write is recorded at all. */
  predicate Effective(w: Write)
  {
    match w
    case Out(text) => text != ""
    case Cmd(line, tui) => Strip(line) != "" && !tui
  }

  function FirstEffective(writes: seq<Write>): Option<Write>
  {
    if writes == [] then None
    else if Effective(writes[0]) then Some(writes[0]) else FirstEffective(writes[1..])
  }

  /** The next recorded write starts an entry of its own, at the start of a line if it is a command. */
  predicate StartsFresh(entries: seq<Entry>, writes: seq<Write>)
  {
    match FirstEffective(writes)
    case None => true
    case Some(Out(text)) => entries == [] || entries[|entries| - 1].Command?
    case Some(Cmd(line, tui)) => !NeedsNewline(Rendered(entries))
  }

  /** Only a command in front depends on the text before it. */
  function Break(before: string, entries: seq<Entry>): string
  {
    if entries != [] && entries[0].Command? && NeedsNewline(before) then "\n" else ""
  }

  lemma BreakByEnd(before: string, own: string, entries: seq<Entry>)
    requires own != ""
    ensures Break(before + own, entries) == Break(own, entries)
  {
    assert (before + own)[|before + own| - 1] == own[|own| - 1];
  }

  lemma EntryTextSplit(before: string, entries: seq<Entry>)
    requires NoEmptyOutput(entries) && entries != []
    ensures EntryText(before, entries[0]) == Break(before, entries) + EntryText("", entries[0])
    ensures EntryText("", entries[0]) != ""
  {
    assert entries[0] in entries;
  }

  lemma {:induction false} RenderSplit(before: string, entries: seq<Entry>)
    requires NoEmptyOutput(entries)
    ensures RenderedAfter(before, entries) == before + Break(before, entries) + Rendered(entries)
    decreases |entries|
  {
    hide EntryText, Break, NeedsNewline;
    if entries != [] {
      var rest := entries[1..];
      assert forall x :: x in rest ==> x in entries;
      var nl, own := Break(before, entries), EntryText("", entries[0]);
      EntryTextSplit(before, entries);
      RenderSplit(before + EntryText(before, entries[0]), rest);
      RenderSplit(own, rest);
      SeqAssoc(before, nl, own);
      BreakByEnd(before + nl, own, rest);
      SeqAssoc(own, "", "");
      SeqAssoc(before + nl, own, Break(own, rest));
      SeqAssoc(before + nl, own + Break(own, rest), Rendered(rest));
    } else {
      NoBreak(before);
      SeqAssoc(before, "", "");
    }
  }

  lemma NoBreak(before: string)
    ensures Break(before, []) == ""
  {
  }

  lemma RenderedIsText(entries: seq<Entry>)
    requires NoEmptyOutput(entries) && entries != []
    ensures Rendered(entries) != ""
  {
    hide EntryText;
    var own := EntryText("", entries[0]);
    EntryTextSplit("", entries);
    assert forall x :: x in entries[1..] ==> x in entries;
    RenderSplit(own, entries[1..]);
  }

  /** A count shows the whole transcript exactly when it is outside the transcript: not positive, or left over from a
      longer transcript that was cleared. */
  lemma WholeIff(entries: seq<Entry>, start: int)
    requires NoEmptyOutput(entries)
    ensures Rendered(Since(entries, start)) == Rendered(entries) <==> start <= 0 || start > |entries|
  {
    hide Rendered, RenderedAfter, Break;
    if 0 < start <= |entries| {
      var front, back := entries[..start], entries[start..];
      assert entries == front + back;
      assert (forall x :: x in front ==> x in entries) && forall x :: x in back ==> x in entries;
      RenderedInTwo(front, back);
      RenderedIsText(front);
    } else if start == 0 {
      assert entries[0..] == entries;
    }
  }

  lemma RenderedInTwo(front: seq<Entry>, back: seq<Entry>)
    requires NoEmptyOutput(back)
    ensures Rendered(front + back) == Rendered(front) + Break(Rendered(front), back) + Rendered(back)
  {
    RenderConcat("", front, back);
    RenderSplit(Rendered(front), back);
  }

  lemma {:induction false} RenderConcat(before: string, a: seq<Entry>, c: seq<Entry>)
    ensures RenderedAfter(before, a + c) == RenderedAfter(RenderedAfter(before, a), c)
    decreases |a|
  {
    hide EntryText;
    if a == [] {
      assert a + c == c;
    } else {
      assert (a + c)[1..] == a[1..] + c;
      RenderConcat(before + EntryText(before, a[0]), a[1..], c);
    }
  }

  lemma RecordKeepsOutput(entries: seq<Entry>, w: Write)
    requires NoEmptyOutput(entries)
    ensures NoEmptyOutput(Recorded(entries, w))
  {
    if entries != [] {
      assert entries[|entries| - 1] in entries;
    }
  }

  /** Later writes leave all but the last of the present entries alone, and can only extend the last. */
  lemma {:induction false} ReplayExtends(entries: seq<Entry>, writes: seq<Write>)
    requires NoEmptyOutput(entries)
    ensures var all := Replay(entries, writes);
            && NoEmptyOutput(all) && |all| >= |entries|
            && (entries != [] ==>
                  && all[..|entries| - 1] == entries[..|entries| - 1]
                  && (entries[|entries| - 1].Command? ==> all[|entries| - 1] == entries[|entries| - 1])
                  && (entries[|entries| - 1].Output? ==>
                        (all[|entries| - 1].Output? && |entries[|entries| - 1].text| <= |all[|entries| - 1].text|)))
    decreases |writes|
  {
    hide Strip;
    if writes != [] {
      RecordKeepsOutput(entries, writes[0]);
      var next := Recorded(entries, writes[0]);
      ReplayExtends(next, writes[1..]);
      var all := Replay(entries, writes);
      if entries != [] && |next| > |entries| {
        assert all[..|next| - 1] == next[..|next| - 1];
        assert all[..|entries| - 1] == next[..|next| - 1][..|entries| - 1];
        assert all[|entries| - 1] == all[..|next| - 1][|entries| - 1];
      }
    }
  }

  lemma NothingRecorded(entries: seq<Entry>, w: Write)
    requires !Effective(w)
    ensures Recorded(entries, w) == entries
  {
  }

  /** The rendering of all entries, seen as that of the first `n` and that of the rest. */
  lemma TwoParts(all: seq<Entry>, n: nat)
    requires n <= |all| && NoEmptyOutput(all)
    ensures Rendered(all) == Rendered(all[..n]) + Break(Rendered(all[..n]), all[n..]) + Rendered(all[n..])
  {
    hide Break;
    assert all == all[..n] + all[n..];
    RenderConcat("", all[..n], all[n..]);
    assert forall x :: x in all[n..] ==> x in all;
    RenderSplit(Rendered(all[..n]), all[n..]);
  }

  /** A write that makes an entry of its own leaves the present entries alone. */
  lemma OwnEntry(entries: seq<Entry>, e: Entry, writes: seq<Write>)
    requires NoEmptyOutput(entries + [e])
    ensures var all := Replay(entries + [e], writes);
            && NoEmptyOutput(all) && |all| > |entries| && all[..|entries|] == entries
            && all[|entries|].Command? == e.Command?
  {
    hide Recorded;
    ReplayExtends(entries + [e], writes);
    var all := Replay(entries + [e], writes);
    assert (entries + [e])[..|entries|] == entries;
  }

  /** Output that is appended to the last present entry is not among the later entries. */
  lemma LostOutput(entries: seq<Entry>, text: string, writes: seq<Write>)
    requires NoEmptyOutput(entries) && entries != [] && entries[|entries| - 1].Output? && text != ""
    ensures var all := Replay(Recorded(entries, Out(text)), writes);
            |all| >= |entries| && |Rendered(all)| > |Rendered(entries) + Rendered(all[|entries|..])|
  {
    hide Rendered, Replay, CommandText;
    var n := |entries|;
    var last := Output(entries[n - 1].text + text);
    var front := entries[..n - 1];
    RecordKeepsOutput(entries, Out(text));
    assert Recorded(entries, Out(text)) == front + [last];
    ReplayExtends(front + [last], writes);
    var all := Replay(front + [last], writes);
    assert (front + [last])[..n - 1] == front;
    assert all[..n] == front + [all[n - 1]] && entries == front + [entries[n - 1]];
    RenderedSnoc(front, all[n - 1]);
    RenderedSnoc(front, entries[n - 1]);
    TwoParts(all, n);
  }

  lemma RenderedSnoc(entries: seq<Entry>, e: Entry)
    ensures Rendered(entries + [e]) == Rendered(entries) + EntryText(Rendered(entries), e)
  {
    RenderSnoc("", entries, e);
  }

  /** Reading on from where a reader stopped: what was rendered before, followed by the later entries, is the whole
      rendering exactly when the next recorded write starts an entry of its own (at the start of a line, if it is a
      command). */
  lemma {:induction false} ReadingOnIff(entries: seq<Entry>, writes: seq<Write>)
    requires NoEmptyOutput(entries)
    ensures var all := Replay(entries, writes);
            |all| >= |entries| &&
            (Rendered(all) == Rendered(entries) + Rendered(all[|entries|..]) <==> StartsFresh(entries, writes))
    decreases |writes|
  {
    hide Rendered, NeedsNewline, Strip, Recorded;
    if writes == [] {
      assert entries[|entries|..] == [];
      NothingRendered();
      SeqAssoc(Rendered(entries), "", "");
    } else if !Effective(writes[0]) {
      NothingRecorded(entries, writes[0]);
      ReadingOnIff(entries, writes[1..]);
    } else {
      FirstReadingOn(entries, writes);
    }
  }

  lemma NothingRendered()
    ensures Rendered([]) == ""
  {
  }

  lemma FirstReadingOn(entries: seq<Entry>, writes: seq<Write>)
    requires NoEmptyOutput(entries) && writes != [] && Effective(writes[0])
    ensures var all := Replay(entries, writes);
            |all| >= |entries| &&
            (Rendered(all) == Rendered(entries) + Rendered(all[|entries|..]) <==> StartsFresh(entries, writes))
  {
    hide Rendered, NeedsNewline, Strip;
    var n := |entries|;
    match writes[0] {
      case Cmd(line, tui) =>
        OwnEntry(entries, Command(Strip(line)), writes[1..]);
        TwoParts(Replay(entries, writes), n);
        SeqAssoc(Rendered(entries), "", "");
      case Out(text) =>
        if n > 0 && entries[n - 1].Output? {
          LostOutput(entries, text, writes[1..]);
        } else {
          OwnEntry(entries, Output(text), writes[1..]);
          TwoParts(Replay(entries, writes), n);
          SeqAssoc(Rendered(entries), "", "");
        }
    }
  }
}
