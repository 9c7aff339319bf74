/**
 * EasyAntConsoleAnnotator: a filter on the build log that, for every line the
 * host splits off, may write a target note and an outcome note and then the
 * line's own bytes. Its only memory is whether the previous line was empty.
 *
 * Bytes are `char`s here (decoding is taken to be the identity), and what the
 * wrapped stream receives is a sequence of events: the two kinds of console
 * note, whose encoding belongs to the host, and runs of line bytes.
 */
module ConsoleAnnotator {
  import opened Text

  datatype Event = TargetNote | OutcomeNote | Bytes(data: string)

  predicate IsLineEnd(c: char)
  {
    c == '\r' || c == '\n'
  }

  /** `trimEOL`: the line without its trailing CR/LF characters. */
  function TrimEol(line: string): (r: string)
    ensures |r| <= |line| && r == line[..|r|]
    ensures r == [] || !IsLineEnd(r[|r| - 1])
    ensures forall i :: |r| <= i < |line| ==> IsLineEnd(line[i])
    decreases |line|
  {
    if |line| > 0 && IsLineEnd(line[|line| - 1]) then TrimEol(line[..|line| - 1]) else line
  }

  /** A line right after an empty one, ending in a colon and without spaces, opens a target. */
  predicate TargetNoteDue(seenEmptyLine: bool, line: string)
  {
    seenEmptyLine && EndsWithChar(line, ':') && ' ' !in line
  }

  /** A line that starts with the build tool's verdict. */
  predicate OutcomeNoteDue(line: string)
  {
    StartsWith(line, "BUILD SUCCESSFUL") || StartsWith(line, "BUILD FAILED")
  }

  /**
   * The notes written before a line, given whether the previous line was
   * empty and the line's text without its terminator.
   */
  function Notes(seenEmptyLine: bool, line: string): seq<Event>
  {
    (if TargetNoteDue(seenEmptyLine, line) then [TargetNote] else [])
    + (if OutcomeNoteDue(line) then [OutcomeNote] else [])
  }

  /**
   * A target note is due exactly after an empty line, for a line that ends in
   * a colon and has no space; an outcome note exactly for a line that starts
   * with one of the two verdicts (case-sensitive). Both can be due at once, the
   * target note first, and notes never carry line bytes.
   */
  lemma NotesChoice(seenEmptyLine: bool, line: string)
    ensures var r := Notes(seenEmptyLine, line);
      && (TargetNote in r
          <==> seenEmptyLine && |line| > 0 && line[|line| - 1] == ':'
               && forall i :: 0 <= i < |line| ==> line[i] != ' ')
      && (OutcomeNote in r
          <==> (|line| >= 16 && line[..16] == "BUILD SUCCESSFUL")
               || (|line| >= 12 && line[..12] == "BUILD FAILED"))
      && (forall e :: e in r ==> !e.Bytes?)
      && |r| <= 2 && (forall i, j :: 0 <= i < j < |r| ==> r[i] != r[j])
      && (|r| == 2 ==> r == [TargetNote, OutcomeNote])
  {
  }

  /** Whether the last of the lines seen so far was empty once trimmed. */
  predicate LastLineEmpty(lines: seq<string>)
  {
    |lines| > 0 && TrimEol(lines[|lines| - 1]) == []
  }

  /** Everything the annotator writes for a sequence of lines, starting fresh. */
  function Annotate(lines: seq<string>): seq<Event>
    decreases |lines|
  {
    if lines == [] then []
    else
      var init := lines[..|lines| - 1];
      var b := lines[|lines| - 1];
      Annotate(init) + Notes(LastLineEmpty(init), TrimEol(b)) + [Bytes(b)]
  }

  /** Annotating one more line appends its notes and its bytes. */
  lemma AnnotateSnoc(lines: seq<string>, b: string)
    ensures Annotate(lines + [b]) == Annotate(lines) + Notes(LastLineEmpty(lines), TrimEol(b)) + [Bytes(b)]
    ensures LastLineEmpty(lines + [b]) <==> TrimEol(b) == []
  {
    assert (lines + [b])[..|lines|] == lines;
  }

  /** Every line is written once, as the last of at most three events: its notes come before it. */
  lemma {:induction false} AnnotateShape(lines: seq<string>)
    ensures |lines| <= |Annotate(lines)| <= 3 * |lines|
    ensures lines != [] ==> Annotate(lines)[|Annotate(lines)| - 1] == Bytes(lines[|lines| - 1])
    decreases |lines|
  {
    if lines != [] {
      AnnotateShape(lines[..|lines| - 1]);
    }
  }

  /** What is written for line `i`: its notes, which look only at the line before it, then its bytes. */
  function LineEvents(lines: seq<string>, i: nat): seq<Event>
    requires i < |lines|
  {
    Notes(PrecededByEmptyLine(lines, i), TrimEol(lines[i])) + [Bytes(lines[i])]
  }

  /** The same output described line by line: the events of the first `n` lines, in input order. */
  function LineByLine(lines: seq<string>, n: nat): seq<Event>
    requires n <= |lines|
    decreases n
  {
    if n == 0 then [] else LineByLine(lines, n - 1) + LineEvents(lines, n - 1)
  }

  /** A line's events do not depend on the lines after it. */
  lemma LineEventsPrefix(lines: seq<string>, m: nat, i: nat)
    requires i < m <= |lines|
    ensures LineEvents(lines[..m], i) == LineEvents(lines, i)
  {
    assert lines[..m][i] == lines[i];
    assert PrecededByEmptyLine(lines[..m], i) == PrecededByEmptyLine(lines, i) by {
      if i > 0 {
        assert lines[..m][i - 1] == lines[i - 1];
      }
    }
  }

  /** Lines after the `n`th do not change what is written for the first `n`. */
  lemma {:induction false} LineByLinePrefix(lines: seq<string>, m: nat, n: nat)
    requires n <= m <= |lines|
    ensures LineByLine(lines[..m], n) == LineByLine(lines, n)
    decreases n
  {
    if n > 0 {
      var pre := lines[..m];
      LineByLinePrefix(lines, m, n - 1);
      LineEventsPrefix(lines, m, n - 1);
      assert LineByLine(pre, n) == LineByLine(pre, n - 1) + LineEvents(pre, n - 1);
      assert LineByLine(lines, n) == LineByLine(lines, n - 1) + LineEvents(lines, n - 1);
    }
  }

  /**
   * What the annotator writes is, line after line, that line's notes and
   * then its bytes: every line exactly once, in order, after at most the
   * notes `NotesChoice` allows.
   */
  lemma {:induction false} AnnotateByLine(lines: seq<string>)
    ensures Annotate(lines) == LineByLine(lines, |lines|)
    decreases |lines|
  {
    if lines != [] {
      var n := |lines| - 1;
      var init := lines[..n];
      var last := lines[n];
      assert Annotate(init) == LineByLine(lines, n) by {
        AnnotateByLine(init);
        LineByLinePrefix(lines, n, n);
      }
      assert LineEvents(lines, n) == Notes(LastLineEmpty(init), TrimEol(last)) + [Bytes(last)] by {
        assert LastLineEmpty(init) == PrecededByEmptyLine(lines, n);
      }
      assert Annotate(lines) == Annotate(init) + Notes(LastLineEmpty(init), TrimEol(last)) + [Bytes(last)];
      assert LineByLine(lines, n + 1) == LineByLine(lines, n) + LineEvents(lines, n);
    }
  }

  /** The bytes the wrapped stream receives, notes left aside. */
  function Payload(events: seq<Event>): string
    decreases |events|
  {
    if events == [] then []
    else (if events[0].Bytes? then events[0].data else []) + Payload(events[1..])
  }

  /** The input lines, one after the other. */
  function Concat(lines: seq<string>): string
    decreases |lines|
  {
    if lines == [] then [] else Concat(lines[..|lines| - 1]) + lines[|lines| - 1]
  }

  /** The events of a note-free run: every line's bytes, nothing else. */
  function AsBytes(lines: seq<string>): seq<Event>
  {
    seq(|lines|, i requires 0 <= i < |lines| => Bytes(lines[i]))
  }

  /** The events of a run end with its last line's bytes. */
  lemma AsBytesLast(lines: seq<string>)
    requires lines != []
    ensures AsBytes(lines) == AsBytes(lines[..|lines| - 1]) + [Bytes(lines[|lines| - 1])]
  {
    var n := |lines| - 1;
    var r, e := AsBytes(lines), AsBytes(lines[..n]) + [Bytes(lines[n])];
    assert |r| == |e|;
    forall i | 0 <= i < |r|
      ensures r[i] == e[i]
    {
      if i < n {
        assert lines[..n][i] == lines[i];
      }
    }
  }

  /** Whether line `i` was preceded by an empty line. */
  predicate PrecededByEmptyLine(lines: seq<string>, i: nat)
    requires i < |lines|
  {
    i > 0 && TrimEol(lines[i - 1]) == []
  }

  /** No line of the input triggers a note. */
  predicate NoteFree(lines: seq<string>)
  {
    forall i :: 0 <= i < |lines| ==>
      !TargetNoteDue(PrecededByEmptyLine(lines, i), TrimEol(lines[i])) && !OutcomeNoteDue(TrimEol(lines[i]))
  }

  lemma {:induction false} PayloadAppend(a: seq<Event>, b: seq<Event>)
    ensures Payload(a + b) == Payload(a) + Payload(b)
    decreases |a|
  {
    if a == [] {
      assert a + b == b;
    } else {
      assert (a + b)[0] == a[0];
      assert (a + b)[1..] == a[1..] + b;
      PayloadAppend(a[1..], b);
    }
  }

  /** Events without line bytes contribute nothing to the payload. */
  lemma {:induction false} PayloadOfNotes(events: seq<Event>)
    requires forall e :: e in events ==> !e.Bytes?
    ensures Payload(events) == []
    decreases |events|
  {
    if events != [] {
      assert events[0] in events;
      assert forall e :: e in events[1..] ==> e in events;
      PayloadOfNotes(events[1..]);
    }
  }

  /** No byte is dropped, added or reordered: notes only ever come in between lines. */
  lemma {:induction false} AnnotatePreservesBytes(lines: seq<string>)
    ensures Payload(Annotate(lines)) == Concat(lines)
    decreases |lines|
  {
    if lines != [] {
      var init := lines[..|lines| - 1];
      var b := lines[|lines| - 1];
      var before := Annotate(init);
      var notes := Notes(LastLineEmpty(init), TrimEol(b));
      AnnotatePreservesBytes(init);
      assert Payload(notes) == [] by {
        NotesChoice(LastLineEmpty(init), TrimEol(b));
        PayloadOfNotes(notes);
      }
      assert Payload([Bytes(b)]) == b by {
        assert Payload([Bytes(b)]) == b + Payload([]);
      }
      assert Payload(before + notes + [Bytes(b)]) == Payload(before) + Payload(notes) + Payload([Bytes(b)]) by {
        PayloadAppend(before + notes, [Bytes(b)]);
        PayloadAppend(before, notes);
      }
      assert Payload(before) + [] == Payload(before);
    }
  }

  /** Dropping the last line keeps the input note-free, and the last line got no notes. */
  lemma NoteFreeInit(lines: seq<string>)
    requires lines != [] && NoteFree(lines)
    ensures NoteFree(lines[..|lines| - 1])
    ensures Notes(LastLineEmpty(lines[..|lines| - 1]), TrimEol(lines[|lines| - 1])) == []
  {
    var n := |lines| - 1;
    var init := lines[..n];
    forall i | 0 <= i < |init|
      ensures !TargetNoteDue(PrecededByEmptyLine(init, i), TrimEol(init[i])) && !OutcomeNoteDue(TrimEol(init[i]))
    {
      assert init[i] == lines[i];
      assert PrecededByEmptyLine(init, i) == PrecededByEmptyLine(lines, i);
    }
    assert LastLineEmpty(init) == PrecededByEmptyLine(lines, n);
  }

  /** A last line without notes adds its bytes and nothing else. */
  lemma AnnotateNoteFreeStep(lines: seq<string>)
    requires lines != []
    requires Annotate(lines[..|lines| - 1]) == AsBytes(lines[..|lines| - 1])
    requires Notes(LastLineEmpty(lines[..|lines| - 1]), TrimEol(lines[|lines| - 1])) == []
    ensures Annotate(lines) == AsBytes(lines)
  {
    var init, last := lines[..|lines| - 1], lines[|lines| - 1];
    assert Annotate(lines) == Annotate(init) + Notes(LastLineEmpty(init), TrimEol(last)) + [Bytes(last)];
    assert Annotate(init) + [] == Annotate(init);
    AsBytesLast(lines);
  }

  /** When no line triggers a note, the wrapped stream receives exactly the input lines. */
  lemma {:induction false} AnnotateNoteFree(lines: seq<string>)
    requires NoteFree(lines)
    ensures Annotate(lines) == AsBytes(lines)
    decreases |lines|
  {
    if lines != [] {
      NoteFreeInit(lines);
      AnnotateNoteFree(lines[..|lines| - 1]);
      AnnotateNoteFreeStep(lines);
    }
  }

  /** The first line never gets a target note. */
  lemma FirstLineHasNoTargetNote(b: string)
    ensures TargetNote !in Annotate([b])
  {
    assert [b][..0] == [];
  }

  /** An empty line never gets a target note, whatever preceded it. */
  lemma EmptyLineHasNoTargetNote(seenEmptyLine: bool, b: string)
    requires TrimEol(b) == []
    ensures TargetNote !in Notes(seenEmptyLine, TrimEol(b))
  {
  }

  /** The annotator of one build's console output. */
  class EasyAntConsoleAnnotator {
    /** Everything written to the wrapped stream so far. */
    var out: seq<Event>
    var outClosed: bool
    var seenEmptyLine: bool
    /** The lines handed over by the host so far, terminators included. */
    ghost var lines: seq<string>

    ghost predicate Valid()
      reads this
    {
      out == Annotate(lines) && seenEmptyLine == LastLineEmpty(lines)
    }

    constructor ()
      ensures Valid() && lines == [] && out == [] && !outClosed
      ensures !seenEmptyLine
    {
      out := [];
      outClosed := false;
      seenEmptyLine := false;
      lines := [];
    }

    /** `eol`: annotate and forward one line `b`, terminator included. */
    method Eol(b: string)
      requires Valid() && !outClosed
      modifies this
      ensures Valid() && lines == old(lines) + [b]
      ensures out == old(out) + Notes(old(seenEmptyLine), TrimEol(b)) + [Bytes(b)]
      ensures seenEmptyLine <==> TrimEol(b) == []
      ensures outClosed == old(outClosed)
    {
      var line := TrimEol(b);
      ghost var notes := Notes(seenEmptyLine, line);
      if TargetNoteDue(seenEmptyLine, line) {
        out := out + [TargetNote];
      }
      if OutcomeNoteDue(line) {
        out := out + [OutcomeNote];
      }
      assert out == old(out) + notes;
      seenEmptyLine := |line| == 0;
      out := out + [Bytes(b)];
      lines := lines + [b];
      assert Valid() by {
        AnnotateSnoc(old(lines), b);
      }
    }

    /**
     * `close`: the host's close first hands over a pending unterminated line
     * (if any) as a last line, then the wrapped stream is closed. Closing
     * again is harmless, as nothing is pending any more.
     */
    method Close(pending: string)
      requires Valid() && (pending == [] || !outClosed)
      modifies this
      ensures Valid() && outClosed
      ensures pending == [] ==> lines == old(lines) && out == old(out) && seenEmptyLine == old(seenEmptyLine)
      ensures pending != [] ==>
                lines == old(lines) + [pending]
                && out == old(out) + Notes(old(seenEmptyLine), TrimEol(pending)) + [Bytes(pending)]
    {
      if pending != [] {
        Eol(pending);
      }
      outClosed := true;
    }
  }
}
