/**
 * `create_dataframe`: every transcript tuple goes through `process_message`
 * and the entries it returns are kept, in transcript order.
 */
module Ledger {
  import opened Opt
  import opened ChatLines
  import opened ChatDates
  import opened Messages

  /** What one tuple contributes: its entry, or nothing. */
  function Kept(r: RawRecord, start: Date, end: Date, files: Files): seq<Entry> {
    match Process(r, start, end, files)
    case Some(e) => [e]
    case None => []
  }

  /** The rows of the data frame built from `matches`. */
  function Collect(rs: seq<RawRecord>, start: Date, end: Date, files: Files): (es: seq<Entry>)
    ensures |es| <= |rs|
  {
    if rs == [] then []
    else Collect(rs[..|rs| - 1], start, end, files) + Kept(rs[|rs| - 1], start, end, files)
  }

  /** The loop of `create_dataframe`, appending each non-empty result to `data`. */
  method CreateDataframe(matches: seq<RawRecord>, start: Date, end: Date, files: Files)
    returns (data: seq<Entry>)
    ensures data == Collect(matches, start, end, files)
  {
    data := [];
    for i := 0 to |matches|
      invariant data == Collect(matches[..i], start, end, files)
    {
      var m := matches[i];
      var result := ProcessMessage(m.date, m.time, m.sender, m.message, start, end, files);
      if result.Some? {
        data := data + [result.value];
      }
      assert matches[..i + 1][..i] == matches[..i];
    }
    assert matches[..|matches|] == matches;
  }

  /** The entries of a chat export, from its text to the data frame. */
  function ChatLedger(text: string, start: Date, end: Date, files: Files): seq<Entry> {
    Collect(ExtractRecords(text), start, end, files)
  }

  /** Collecting two runs of tuples one after the other concatenates their entries. */
  lemma {:induction false} CollectAppend(a: seq<RawRecord>, b: seq<RawRecord>, start: Date, end: Date, files: Files)
    ensures Collect(a + b, start, end, files) == Collect(a, start, end, files) + Collect(b, start, end, files)
    decreases |b|
  {
    if b == [] {
      assert a + b == a;
    } else {
      var b' := b[..|b| - 1];
      assert (a + b)[..|a + b| - 1] == a + b';
      assert (a + b)[|a + b| - 1] == b[|b| - 1];
      CollectAppend(a, b', start, end, files);
    }
  }

  /** Every entry comes from a tuple whose processing returned it. */
  lemma {:induction false} CollectSound(rs: seq<RawRecord>, start: Date, end: Date, files: Files, e: Entry)
    requires e in Collect(rs, start, end, files)
    ensures exists i :: 0 <= i < |rs| && Process(rs[i], start, end, files) == Some(e)
  {
    var init := rs[..|rs| - 1];
    if e in Collect(init, start, end, files) {
      CollectSound(init, start, end, files, e);
      var i :| 0 <= i < |init| && Process(init[i], start, end, files) == Some(e);
      assert rs[i] == init[i];
    } else {
      assert Process(rs[|rs| - 1], start, end, files) == Some(e);
    }
  }

  /** Every entry a tuple's processing returns is kept. */
  lemma {:induction false} CollectComplete(rs: seq<RawRecord>, start: Date, end: Date, files: Files, i: nat)
    requires i < |rs| && Process(rs[i], start, end, files).Some?
    ensures Process(rs[i], start, end, files).value in Collect(rs, start, end, files)
  {
    var init := rs[..|rs| - 1];
    if i < |rs| - 1 {
      assert rs[i] == init[i];
      CollectComplete(init, start, end, files, i);
    }
  }

  /** A single tuple contributes exactly what its processing returns. */
  lemma CollectOne(r: RawRecord, start: Date, end: Date, files: Files)
    ensures Collect([r], start, end, files)
            == if Process(r, start, end, files).Some? then [Process(r, start, end, files).value] else []
  {
    assert [r][..0] == [];
  }

  /** Every kept entry carries a date that parses and lies within the range. */
  lemma EntriesInRange(rs: seq<RawRecord>, start: Date, end: Date, files: Files, e: Entry)
    requires e in Collect(rs, start, end, files)
    ensures ParseDate(e.fecha).Some? && InRange(start, ParseDate(e.fecha).value, end)
  {
    CollectSound(rs, start, end, files, e);
    var i :| 0 <= i < |rs| && Process(rs[i], start, end, files) == Some(e);
    ProcessSome(rs[i], start, end, files);
    ProcessKeepsFields(rs[i], start, end, files);
  }

  /**
   * A transcript made of well-formed lines gives the entries of its records,
   * one per line, in order.
   */
  lemma ChatLedgerTranscript(rs: seq<RawRecord>, start: Date, end: Date, files: Files)
    requires |rs| >= 1 && AllShaped(rs)
    ensures ChatLedger(Transcript(rs), start, end, files) == Collect(rs, start, end, files)
  {
    ExtractTranscript(rs);
  }
}
