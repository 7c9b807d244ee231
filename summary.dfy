/**
 * The per-sender summary of `process_data`: `Monto` is coerced to a number
 * (the `"Verifique"` sentinel becomes 0), the frame is grouped by `Nombre`,
 * and each group gets the sum of its amounts and a count of flagged rows.
 * pandas sorts the group keys, so the rows come out ordered by sender,
 * with Python's string order: code point by code point, a proper prefix
 * first.
 *
 * The count is parameterised by what it looks at.  As written it compares
 * the `Mensaje` column with `"Verifique"`; the flag lives in `Monto`.
 */
module Summary {
  import opened Opt
  import opened Strings
  import opened Amounts
  import opened Messages

  /** One summary row: `Nombre`, `Total Monto`, `Verifique Count`. */
  datatype Row = Row(nombre: string, total: real, count: nat)

  /** Which column the `Verifique Count` inspects. */
  datatype CountRule = MensajeIsVerifique | MontoIsVerifique

  /** `pd.to_numeric(errors='coerce').fillna(0)` on one amount. */
  function Coerce(a: Amount): real {
    match a
    case Num(v) => v
    case Verifique => 0.0
  }

  /** Whether an entry adds one to its sender's count. */
  predicate Counted(e: Entry, rule: CountRule) {
    match rule
    case MensajeIsVerifique => e.mensaje == "Verifique"
    case MontoIsVerifique => e.monto.Verifique?
  }

  function Flag(e: Entry, rule: CountRule): nat {
    if Counted(e, rule) then 1 else 0
  }

  /** Python's `<` on strings. */
  predicate StrLess(a: string, b: string)
    decreases |a|
  {
    if a == [] then b != []
    else if b == [] then false
    else if a[0] != b[0] then a[0] < b[0]
    else StrLess(a[1..], b[1..])
  }

  lemma {:induction false} StrLessIrreflexive(a: string)
    ensures !StrLess(a, a)
    decreases |a|
  {
    if a != [] {
      StrLessIrreflexive(a[1..]);
    }
  }

  lemma {:induction false} StrLessTransitive(a: string, b: string, c: string)
    requires StrLess(a, b) && StrLess(b, c)
    ensures StrLess(a, c)
    decreases |a|
  {
    if a != [] && b != [] && c != [] && a[0] == b[0] && b[0] == c[0] {
      StrLessTransitive(a[1..], b[1..], c[1..]);
    }
  }

  lemma {:induction false} StrLessTotal(a: string, b: string)
    requires a != b
    ensures StrLess(a, b) || StrLess(b, a)
    decreases |a|
  {
    if a != [] && b != [] && a[0] == b[0] {
      assert a == [a[0]] + a[1..] && b == [b[0]] + b[1..];
      StrLessTotal(a[1..], b[1..]);
    }
  }

  /** Rows strictly ordered by sender, so each sender has one row. */
  predicate Sorted(rows: seq<Row>) {
    forall i, j :: 0 <= i < j < |rows| ==> StrLess(rows[i].nombre, rows[j].nombre)
  }

  /** The row for `x`, if there is one. */
  function Lookup(rows: seq<Row>, x: string): Option<Row> {
    if rows == [] then None
    else if rows[0].nombre == x then Some(rows[0])
    else Lookup(rows[1..], x)
  }

  /** A sender's row once one more of its entries is added. */
  function Bump(o: Option<Row>, e: Entry, rule: CountRule): Row {
    match o
    case None => Row(e.nombre, Coerce(e.monto), Flag(e, rule))
    case Some(r) => Row(r.nombre, r.total + Coerce(e.monto), r.count + Flag(e, rule))
  }

  /** Adds one entry to its sender's group, opening the group in order if it is new. */
  function AddEntry(rows: seq<Row>, e: Entry, rule: CountRule): seq<Row> {
    if rows == [] then [Bump(None, e, rule)]
    else if rows[0].nombre == e.nombre then [Bump(Some(rows[0]), e, rule)] + rows[1..]
    else if StrLess(e.nombre, rows[0].nombre) then [Bump(None, e, rule)] + rows
    else [rows[0]] + AddEntry(rows[1..], e, rule)
  }

  /** The `groupby('Nombre').agg(...)` of a frame, as a fold over its rows. */
  function Summarize(es: seq<Entry>, rule: CountRule): seq<Row> {
    if es == [] then []
    else AddEntry(Summarize(es[..|es| - 1], rule), es[|es| - 1], rule)
  }

  /** The summary as the source computes it. */
  function SummaryAsWritten(es: seq<Entry>): seq<Row> {
    Summarize(es, MensajeIsVerifique)
  }

  /** The summary with the count reading the flag in `Monto`. */
  function SummaryOf(es: seq<Entry>): seq<Row> {
    Summarize(es, MontoIsVerifique)
  }

  // ---------------------------------------------------------------------
  // Reference definitions: what each group's cells add up to.
  // ---------------------------------------------------------------------

  /** The senders of a frame. */
  function Senders(es: seq<Entry>): set<string> {
    set e | e in es :: e.nombre
  }

  /** The senders a summary has rows for. */
  function Names(rows: seq<Row>): set<string> {
    set r | r in rows :: r.nombre
  }

  /** The sum of `x`'s coerced amounts. */
  function SumFor(es: seq<Entry>, x: string): real {
    if es == [] then 0.0
    else SumFor(es[..|es| - 1], x) + (if es[|es| - 1].nombre == x then Coerce(es[|es| - 1].monto) else 0.0)
  }

  /** The number of `x`'s entries the rule counts. */
  function CountFor(es: seq<Entry>, x: string, rule: CountRule): nat {
    if es == [] then 0
    else CountFor(es[..|es| - 1], x, rule) + (if es[|es| - 1].nombre == x then Flag(es[|es| - 1], rule) else 0)
  }

  // ---------------------------------------------------------------------
  // What the summary promises.
  // ---------------------------------------------------------------------

  /** A row found for `x` is the first row named `x`. */
  lemma {:induction false} LookupName(rows: seq<Row>, x: string)
    ensures Lookup(rows, x).Some? <==> x in Names(rows)
    ensures Lookup(rows, x).Some? ==> Lookup(rows, x).value.nombre == x
  {
    if rows != [] {
      LookupName(rows[1..], x);
      assert rows == [rows[0]] + rows[1..];
      assert Names(rows) == {rows[0].nombre} + Names(rows[1..]);
    }
  }

  /** Nothing below the first sender of a sorted summary has a row. */
  lemma LookupBelow(rows: seq<Row>, x: string)
    requires Sorted(rows) && rows != [] && StrLess(x, rows[0].nombre)
    ensures Lookup(rows, x).None?
  {
    LookupName(rows, x);
    if x in Names(rows) {
      var k :| 0 <= k < |rows| && rows[k].nombre == x;
      if k == 0 {
        StrLessIrreflexive(x);
      } else {
        StrLessTransitive(x, rows[0].nombre, rows[k].nombre);
        StrLessIrreflexive(x);
      }
    }
  }

  /** The tail of a sorted summary is sorted, and all of it follows the head. */
  lemma SortedTail(rows: seq<Row>)
    requires Sorted(rows) && rows != []
    ensures Sorted(rows[1..])
    ensures forall r :: r in rows[1..] ==> StrLess(rows[0].nombre, r.nombre)
  {
    forall r | r in rows[1..]
      ensures StrLess(rows[0].nombre, r.nombre)
    {
      var k :| 0 <= k < |rows[1..]| && rows[1..][k] == r;
      assert rows[k + 1] == r;
    }
  }

  /** A row placed before a sorted tail it precedes keeps the summary sorted. */
  lemma SortedCons(h: Row, t: seq<Row>)
    requires Sorted(t) && forall r :: r in t ==> StrLess(h.nombre, r.nombre)
    ensures Sorted([h] + t)
  {
    var rows := [h] + t;
    forall i, j | 0 <= i < j < |rows|
      ensures StrLess(rows[i].nombre, rows[j].nombre)
    {
      if i == 0 {
        assert rows[j] == t[j - 1];
        assert rows[j] in t;
      } else {
        assert rows[i] == t[i - 1] && rows[j] == t[j - 1];
      }
    }
  }

  /** The names of a summary with one row in front. */
  lemma NamesCons(h: Row, t: seq<Row>)
    ensures Names([h] + t) == {h.nombre} + Names(t)
  {
    assert forall r :: r in [h] + t <==> r == h || r in t;
  }

  /** Adding an entry opens a row for its sender and keeps every other row. */
  lemma {:induction false} AddEntryNames(rows: seq<Row>, e: Entry, rule: CountRule)
    ensures Names(AddEntry(rows, e, rule)) == Names(rows) + {e.nombre}
  {
    if rows == [] {
      assert Names([Bump(None, e, rule)]) == {e.nombre} by {
        NamesCons(Bump(None, e, rule), []);
      }
    } else {
      var h := rows[0];
      var t := rows[1..];
      assert rows == [h] + t;
      NamesCons(h, t);
      if h.nombre == e.nombre {
        NamesCons(Bump(Some(h), e, rule), t);
      } else if StrLess(e.nombre, h.nombre) {
        NamesCons(Bump(None, e, rule), rows);
      } else {
        AddEntryNames(t, e, rule);
        NamesCons(h, AddEntry(t, e, rule));
      }
    }
  }

  /** A sender below the first row precedes every row of a sorted summary. */
  lemma BelowAll(rows: seq<Row>, x: string)
    requires Sorted(rows) && rows != [] && StrLess(x, rows[0].nombre)
    ensures forall r :: r in rows ==> StrLess(x, r.nombre)
  {
    SortedTail(rows);
    forall r | r in rows
      ensures StrLess(x, r.nombre)
    {
      if r != rows[0] {
        var k :| 0 <= k < |rows| && rows[k] == r;
        assert rows[1..][k - 1] == r;
        StrLessTransitive(x, rows[0].nombre, r.nombre);
      }
    }
  }

  /** Adding an entry keeps the rows sorted. */
  lemma {:induction false} AddEntrySorted(rows: seq<Row>, e: Entry, rule: CountRule)
    requires Sorted(rows)
    ensures Sorted(AddEntry(rows, e, rule))
  {
    if rows == [] {
    } else if rows[0].nombre == e.nombre {
      SortedTail(rows);
      SortedCons(Bump(Some(rows[0]), e, rule), rows[1..]);
    } else if StrLess(e.nombre, rows[0].nombre) {
      BelowAll(rows, e.nombre);
      SortedCons(Bump(None, e, rule), rows);
    } else {
      var h := rows[0];
      var t := AddEntry(rows[1..], e, rule);
      SortedTail(rows);
      AddEntrySorted(rows[1..], e, rule);
      AddEntryNames(rows[1..], e, rule);
      StrLessTotal(e.nombre, h.nombre);
      forall r | r in t
        ensures StrLess(h.nombre, r.nombre)
      {
        assert r.nombre in Names(t);
        if r.nombre != e.nombre {
          var q :| q in rows[1..] && q.nombre == r.nombre;
        }
      }
      SortedCons(h, t);
    }
  }

  /** Adding an entry updates its sender's row and no other. */
  lemma {:induction false} AddEntryLookup(rows: seq<Row>, e: Entry, rule: CountRule, x: string)
    requires Sorted(rows)
    ensures Lookup(AddEntry(rows, e, rule), x)
            == if x == e.nombre then Some(Bump(Lookup(rows, x), e, rule)) else Lookup(rows, x)
  {
    if rows == [] {
    } else if rows[0].nombre == e.nombre {
    } else if StrLess(e.nombre, rows[0].nombre) {
      if x == e.nombre {
        LookupBelow(rows, x);
      }
    } else {
      SortedTail(rows);
      AddEntryLookup(rows[1..], e, rule, x);
    }
  }

  /** The summary has one row per sender, ordered by sender. */
  lemma {:induction false} SummarizeSorted(es: seq<Entry>, rule: CountRule)
    ensures Sorted(Summarize(es, rule))
    ensures Names(Summarize(es, rule)) == Senders(es)
    decreases |es|
  {
    if es != [] {
      var init := es[..|es| - 1];
      var e := es[|es| - 1];
      SummarizeSorted(init, rule);
      AddEntrySorted(Summarize(init, rule), e, rule);
      AddEntryNames(Summarize(init, rule), e, rule);
      SendersSnoc(es);
    }
  }

  /** A name that sends nothing sums to 0 and counts 0. */
  lemma {:induction false} AbsentSender(es: seq<Entry>, x: string, rule: CountRule)
    requires x !in Senders(es)
    ensures SumFor(es, x) == 0.0 && CountFor(es, x, rule) == 0
  {
    if es != [] {
      var init := es[..|es| - 1];
      assert es[|es| - 1] in es;
      assert Senders(init) <= Senders(es) by {
        forall y | y in Senders(init) ensures y in Senders(es) {
          var e :| e in init && e.nombre == y;
          assert e in es;
        }
      }
      AbsentSender(init, x, rule);
    }
  }

  /**
   * Each sender's row holds the sum of that sender's coerced amounts and the
   * count of its entries the rule flags; nobody else has a row.
   */
  lemma {:induction false} SummarizeLookup(es: seq<Entry>, rule: CountRule, x: string)
    ensures Lookup(Summarize(es, rule), x)
            == if x in Senders(es) then Some(Row(x, SumFor(es, x), CountFor(es, x, rule))) else None
    decreases |es|
  {
    if es != [] {
      var init := es[..|es| - 1];
      var e := es[|es| - 1];
      var rows := Summarize(init, rule);
      SummarizeLookup(init, rule, x);
      SummarizeSorted(init, rule);
      AddEntryLookup(rows, e, rule, x);
      SendersSnoc(es);
      assert es[..|es| - 1] == init;
      var sum := SumFor(init, x) + (if e.nombre == x then Coerce(e.monto) else 0.0);
      var count := CountFor(init, x, rule) + (if e.nombre == x then Flag(e, rule) else 0);
      assert SumFor(es, x) == sum;
      assert CountFor(es, x, rule) == count;
      if x == e.nombre {
        if x !in Senders(init) {
          AbsentSender(init, x, rule);
        }
        assert Bump(Lookup(rows, x), e, rule) == Row(x, sum, count);
      }
    }
  }

  /** The senders of a frame with one more row. */
  lemma SendersSnoc(es: seq<Entry>)
    requires es != []
    ensures Senders(es) == Senders(es[..|es| - 1]) + {es[|es| - 1].nombre}
  {
    assert es == es[..|es| - 1] + [es[|es| - 1]];
  }

  /** The total over all rows is the total of the frame's coerced amounts. */
  function Total(rows: seq<Row>): real {
    if rows == [] then 0.0 else rows[0].total + Total(rows[1..])
  }

  function FrameTotal(es: seq<Entry>): real {
    if es == [] then 0.0 else FrameTotal(es[..|es| - 1]) + Coerce(es[|es| - 1].monto)
  }

  /** Adding an entry adds its coerced amount to the grand total. */
  lemma {:induction false} AddEntryTotal(rows: seq<Row>, e: Entry, rule: CountRule)
    ensures Total(AddEntry(rows, e, rule)) == Total(rows) + Coerce(e.monto)
  {
    if rows != [] && rows[0].nombre != e.nombre && !StrLess(e.nombre, rows[0].nombre) {
      AddEntryTotal(rows[1..], e, rule);
    }
  }

  /** No amount is lost or counted twice: the rows add up to the whole frame. */
  lemma {:induction false} SummarizeTotal(es: seq<Entry>, rule: CountRule)
    ensures Total(Summarize(es, rule)) == FrameTotal(es)
  {
    if es != [] {
      SummarizeTotal(es[..|es| - 1], rule);
      AddEntryTotal(Summarize(es[..|es| - 1], rule), es[|es| - 1], rule);
    }
  }

  // ---------------------------------------------------------------------
  // The `Verifique Count`.
  // ---------------------------------------------------------------------

  /** A sender's count is positive exactly when one of its entries is flagged by the rule. */
  lemma {:induction false} CountPositive(es: seq<Entry>, x: string, rule: CountRule)
    ensures CountFor(es, x, rule) > 0 <==> exists e :: e in es && e.nombre == x && Counted(e, rule)
  {
    if es != [] {
      var init := es[..|es| - 1];
      CountPositive(init, x, rule);
      assert es == init + [es[|es| - 1]];
    }
  }

  /** Processing never yields a flagged entry whose message is `"Verifique"`. */
  lemma FlaggedMessage(r: ChatLines.RawRecord, start: ChatDates.Date, end: ChatDates.Date, files: Files)
    requires Process(r, start, end, files).Some?
    requires Process(r, start, end, files).value.monto.Verifique?
    ensures !Counted(Process(r, start, end, files).value, MensajeIsVerifique)
  {
    VerifiqueIff(r, start, end, files);
    ImageBeatsSkip(r, start, end, files);
    ProcessSome(r, start, end, files);
    AttachmentKeepsMarker(r, start, end, files);
    var m := Process(r, start, end, files).value.mensaje;
    if m == "Verifique" {
      NoMarkerInVerifique();
      assert false;
    }
  }

  /** The word itself holds neither image marker. */
  lemma NoMarkerInVerifique()
    ensures !Contains("Verifique", "IMG-") && !Contains("Verifique", "Comprobante_")
  {
    var w := "Verifique";
    forall i | 0 <= i <= |w| - 4
      ensures !At(w, i, "IMG-")
    {
      assert w[i] != 'I' by {
        assert i == 0 || i == 1 || i == 2 || i == 3 || i == 4 || i == 5;
      }
      assert "IMG-"[0] == 'I';
    }
  }

  /**
   * As written, a sender whose only entry is a flagged attachment gets a
   * count of 0: the flag sits in `Monto`, the comparison reads `Mensaje`.
   */
  lemma CountAsWrittenMissesFlag()
    ensures var e := Entry("1/2/24", "10:00", "Ana", "IMG-1.jpg (archivo adjunto)", Verifique, Imagen,
                           "expenses/data/IMG-1.jpg");
      SummaryAsWritten([e]) == [Row("Ana", 0.0, 0)]
      && SummaryOf([e]) == [Row("Ana", 0.0, 1)]
  {
    var e := Entry("1/2/24", "10:00", "Ana", "IMG-1.jpg (archivo adjunto)", Verifique, Imagen,
                   "expenses/data/IMG-1.jpg");
    assert [e][..0] == [];
    assert e.mensaje != "Verifique" by {
      assert |e.mensaje| != |"Verifique"|;
    }
  }

  /** With the count reading `Monto`, every flagged entry shows in its sender's row. */
  lemma FlaggedCounted(es: seq<Entry>, e: Entry)
    requires e in es && e.monto.Verifique?
    ensures Lookup(SummaryOf(es), e.nombre).Some?
    ensures Lookup(SummaryOf(es), e.nombre).value.count >= 1
  {
    SummarizeLookup(es, MontoIsVerifique, e.nombre);
    CountPositive(es, e.nombre, MontoIsVerifique);
  }
}
