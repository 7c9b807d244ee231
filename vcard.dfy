/**
 * `parse_vcard`: a line-driven reader of vCard contacts.  It keeps one
 * current contact dictionary and a list of contacts.  `BEGIN:VCARD` starts a
 * new dictionary, `FN:` and `EMAIL` lines fill in `Nombre` and `Email`, and
 * `END:VCARD` appends the current dictionary when it is not empty.
 *
 * The list holds references: the current dictionary is not replaced after
 * `END:VCARD`, so fields read before the next `BEGIN:VCARD` change the
 * contact already appended, and a second `END:VCARD` appends it again.
 * The model keeps this in two forms: a class whose objects are updated in
 * place (`ParseVCard`), and a fold over values (`Run`) in which the
 * contacts that still share the current dictionary are counted, not copied.
 */
module VCard {
  import opened Opt
  import opened Strings

  /** The keys and values of one contact dictionary. */
  type Fields = map<string, string>

  const Nombre: string := "Nombre"
  const Email: string := "Email"
  const BeginLine: string := "BEGIN:VCARD"
  const EndLine: string := "END:VCARD"

  /** `line.split(':')[1]`: the text between the first colon and the next. */
  function EmailValue(l: string): string
    requires ':' in l
  {
    Before(After(l, ':'), ':')
  }

  /** An `EMAIL` line without a colon: `split(':')[1]` raises `IndexError`. */
  predicate BadEmail(l: string) {
    StartsWith(l, "EMAIL") && ':' !in l
  }

  // ---------------------------------------------------------------------
  // The reader over values.
  // ---------------------------------------------------------------------

  /**
   * The reader's state: the contacts appended from earlier dictionaries,
   * which nothing changes any more, the current dictionary, and how many
   * times the current dictionary has been appended.
   */
  datatype Scan = Scan(closed: seq<Fields>, cur: Fields, shared: nat)

  function Repeat(f: Fields, n: nat): (r: seq<Fields>)
    ensures |r| == n && forall k :: 0 <= k < n ==> r[k] == f
  {
    if n == 0 then [] else Repeat(f, n - 1) + [f]
  }

  /** The list as it reads in this state. */
  function Output(st: Scan): seq<Fields> {
    st.closed + Repeat(st.cur, st.shared)
  }

  const Start: Scan := Scan([], map[], 0)

  /** One line of the loop; `None` when it raises. */
  function Step(st: Scan, line: string): Option<Scan> {
    var l := Strip(line);
    if l == BeginLine then Some(Scan(Output(st), map[], 0))
    else if StartsWith(l, "FN:") then Some(st.(cur := st.cur[Nombre := l[3..]]))
    else if StartsWith(l, "EMAIL") then
      if ':' in l then Some(st.(cur := st.cur[Email := EmailValue(l)])) else None
    else if l == EndLine then
      if st.cur != map[] then Some(st.(shared := st.shared + 1)) else Some(st)
    else Some(st)
  }

  /** The state after the given lines, or `None` once one of them raised. */
  function Run(lines: seq<string>): Option<Scan> {
    if lines == [] then Some(Start)
    else
      match Run(lines[..|lines| - 1])
      case None => None
      case Some(st) => Step(st, lines[|lines| - 1])
  }

  /** The contacts `parse_vcard` returns, or `None` when it raises. */
  function Parse(lines: seq<string>): Option<seq<Fields>> {
    match Run(lines)
    case None => None
    case Some(st) => Some(Output(st))
  }

  // ---------------------------------------------------------------------
  // The reader over objects.
  // ---------------------------------------------------------------------

  /** A contact dictionary, shared by reference. */
  class Contact {
    var fields: Fields

    constructor ()
      ensures fields == map[]
    {
      fields := map[];
    }
  }

  /** What a list of contacts holds at this moment. */
  function Snapshot(cs: seq<Contact>): (r: seq<Fields>)
    reads set c | c in cs
    ensures |r| == |cs|
    ensures forall k :: 0 <= k < |cs| ==> r[k] == cs[k].fields
  {
    if cs == [] then [] else Snapshot(cs[..|cs| - 1]) + [cs[|cs| - 1].fields]
  }

  /**
   * `parse_vcard` over the lines of the file: the current contact is
   * updated in place and appended by reference.
   */
  method ParseVCard(lines: seq<string>) returns (result: Option<seq<Contact>>)
    ensures result.None? <==> Parse(lines).None?
    ensures result.Some? ==> Snapshot(result.value) == Parse(lines).value
    ensures result.Some? ==> forall c :: c in result.value ==> fresh(c)
  {
    var contacts: seq<Contact> := [];
    var current := new Contact();
    ghost var st := Start;
    for i := 0 to |lines|
      invariant Run(lines[..i]) == Some(st)
      invariant fresh(current)
      invariant forall c :: c in contacts ==> fresh(c)
      invariant |contacts| == |st.closed| + st.shared
      invariant forall k :: 0 <= k < |st.closed| ==> contacts[k] != current
      invariant forall k :: 0 <= k < |st.closed| ==> contacts[k].fields == st.closed[k]
      invariant forall k :: |st.closed| <= k < |contacts| ==> contacts[k] == current
      invariant current.fields == st.cur
    {
      RunPrefix(lines, i);
      ghost var next := Step(st, lines[i]);
      var line := Strip(lines[i]);
      if line == BeginLine {
        current := new Contact();
        st := Scan(Output(st), map[], 0);
        assert next == Some(st);
      } else if StartsWith(line, "FN:") {
        current.fields := current.fields[Nombre := line[3..]];
        st := st.(cur := st.cur[Nombre := line[3..]]);
        assert next == Some(st);
      } else if StartsWith(line, "EMAIL") {
        if ':' !in line {
          assert next == None;
          RunFailed(lines, i + 1);
          return None;
        }
        var email := EmailValue(line);
        current.fields := current.fields[Email := email];
        st := st.(cur := st.cur[Email := email]);
        assert next == Some(st);
      } else if line == EndLine {
        if current.fields != map[] {
          contacts := contacts + [current];
          st := st.(shared := st.shared + 1);
        }
        assert next == Some(st);
      } else {
        assert next == Some(st);
      }
    }
    assert lines[..|lines|] == lines;
    result := Some(contacts);
  }

  // ---------------------------------------------------------------------
  // What `parse_vcard` promises.
  // ---------------------------------------------------------------------

  /** Once a line has raised, the rest of the file is not read. */
  lemma {:induction false} RunFailed(lines: seq<string>, i: nat)
    requires i <= |lines| && Run(lines[..i]).None?
    ensures Run(lines).None?
    decreases |lines| - i
  {
    if i < |lines| {
      assert lines[..i + 1][..i] == lines[..i];
      RunFailed(lines, i + 1);
    } else {
      assert lines[..i] == lines;
    }
  }

  /** The loop's next line is one more step. */
  lemma RunPrefix(lines: seq<string>, i: nat)
    requires i < |lines|
    ensures Run(lines[..i + 1])
            == if Run(lines[..i]).None? then None else Step(Run(lines[..i]).value, lines[i])
  {
    assert lines[..i + 1][..i] == lines[..i];
  }

  /** One more line is one more step. */
  lemma RunSnoc(lines: seq<string>, l: string)
    ensures Run(lines + [l]) == if Run(lines).None? then None else Step(Run(lines).value, l)
  {
    assert (lines + [l])[..|lines|] == lines;
  }

  /** A line that starts with a prefix agrees with it character by character. */
  lemma PrefixChar(l: string, p: string, k: nat)
    requires StartsWith(l, p) && k < |p|
    ensures l[k] == p[k]
  {
    assert l[0 + k] == p[k];
  }

  /** A line whose ends are not whitespace is its own `strip()`. */
  lemma StripKeeps(l: string)
    requires l != [] && !IsSpace(l[0]) && !IsSpace(l[|l| - 1])
    ensures Strip(l) == l
  {
    assert StripLeft(l) == l;
  }

  /** A step raises exactly on an `EMAIL` line without a colon. */
  lemma StepFails(st: Scan, line: string)
    ensures Step(st, line).None? <==> BadEmail(Strip(line))
  {
    var l := Strip(line);
    if StartsWith(l, "EMAIL") {
      PrefixChar(l, "EMAIL", 0);
      if StartsWith(l, "FN:") {
        PrefixChar(l, "FN:", 0);
      }
      assert l != BeginLine by {
        assert BeginLine[0] == 'B';
      }
    }
  }

  /** No line of the file is an `EMAIL` line without a colon. */
  predicate NoBadEmail(lines: seq<string>) {
    forall i :: 0 <= i < |lines| ==> !BadEmail(Strip(lines[i]))
  }

  lemma NoBadEmailSnoc(lines: seq<string>)
    requires lines != []
    ensures NoBadEmail(lines)
            <==> NoBadEmail(lines[..|lines| - 1]) && !BadEmail(Strip(lines[|lines| - 1]))
  {
    var init := lines[..|lines| - 1];
    assert forall i :: 0 <= i < |init| ==> init[i] == lines[i];
  }

  /** Parsing raises exactly when some line is an `EMAIL` line without a colon. */
  lemma {:induction false} ParseFails(lines: seq<string>)
    ensures Parse(lines).None? <==> !NoBadEmail(lines)
  {
    if lines != [] {
      var init := lines[..|lines| - 1];
      ParseFails(init);
      NoBadEmailSnoc(lines);
      if Run(init).Some? {
        StepFails(Run(init).value, lines[|lines| - 1]);
      }
    }
  }

  /** Only the two keys, and never an empty contact. */
  predicate Proper(f: Fields) {
    f != map[] && f.Keys <= {Nombre, Email}
  }

  /** The state invariant: the keys stay in range and only non-empty dictionaries are appended. */
  predicate Good(st: Scan) {
    (forall k :: 0 <= k < |st.closed| ==> Proper(st.closed[k]))
    && st.cur.Keys <= {Nombre, Email}
    && (st.shared > 0 ==> st.cur != map[])
  }

  lemma StepGood(st: Scan, line: string)
    requires Good(st) && Step(st, line).Some?
    ensures Good(Step(st, line).value)
  {
    if Strip(line) == BeginLine {
      var out := Output(st);
      forall k | 0 <= k < |out|
        ensures Proper(out[k])
      {
        if k >= |st.closed| {
          assert out[k] == st.cur;
        }
      }
    }
  }

  lemma {:induction false} RunGood(lines: seq<string>)
    requires Run(lines).Some?
    ensures Good(Run(lines).value)
  {
    if lines != [] {
      RunGood(lines[..|lines| - 1]);
      StepGood(Run(lines[..|lines| - 1]).value, lines[|lines| - 1]);
    }
  }

  /** Every contact returned is non-empty and holds only `Nombre` and `Email`. */
  lemma ContactsProper(lines: seq<string>)
    requires Parse(lines).Some?
    ensures forall k :: 0 <= k < |Parse(lines).value| ==> Proper(Parse(lines).value[k])
  {
    RunGood(lines);
    var st := Run(lines).value;
    forall k | 0 <= k < |Output(st)|
      ensures Proper(Output(st)[k])
    {
      if k >= |st.closed| {
        assert Output(st)[k] == st.cur;
      }
    }
  }

  // Each kind of line, one step at a time.

  lemma StepBegin(st: Scan)
    ensures Step(st, BeginLine) == Some(Scan(Output(st), map[], 0))
  {
    StripKeeps(BeginLine);
  }

  lemma StepName(st: Scan, n: string)
    requires n == [] || !IsSpace(n[|n| - 1])
    ensures Step(st, "FN:" + n) == Some(st.(cur := st.cur[Nombre := n]))
  {
    var l := "FN:" + n;
    StripKeeps(l);
    assert l != BeginLine by {
      assert l[0] == 'F';
    }
    assert StartsWith(l, "FN:");
    assert l[3..] == n;
  }

  lemma StepEmail(st: Scan, e: string)
    requires ':' !in e && (e == [] || !IsSpace(e[|e| - 1]))
    ensures Step(st, "EMAIL:" + e) == Some(st.(cur := st.cur[Email := e]))
  {
    var l := "EMAIL:" + e;
    StripKeeps(l);
    assert l != BeginLine by {
      assert l[0] == 'E';
    }
    if StartsWith(l, "FN:") {
      PrefixChar(l, "FN:", 0);
    }
    assert StartsWith(l, "EMAIL");
    assert l == "EMAIL" + [':'] + e;
    SplitFirst("EMAIL", ':', e);
    assert EmailValue(l) == e;
  }

  lemma StepEnd(st: Scan)
    ensures Step(st, EndLine) == Some(if st.cur != map[] then st.(shared := st.shared + 1) else st)
  {
    EndLineKind();
  }

  /** `END:VCARD` is taken by the fourth branch only. */
  lemma EndLineKind()
    ensures Strip(EndLine) == EndLine
    ensures EndLine != BeginLine && !StartsWith(EndLine, "FN:") && !StartsWith(EndLine, "EMAIL")
  {
    StripKeeps(EndLine);
    if StartsWith(EndLine, "FN:") {
      PrefixChar(EndLine, "FN:", 0);
    }
    if StartsWith(EndLine, "EMAIL") {
      PrefixChar(EndLine, "EMAIL", 1);
    }
  }

  /** Appending the current dictionary once more. */
  lemma OutputEnd(st: Scan)
    ensures Output(st.(shared := st.shared + 1)) == Output(st) + [st.cur]
  {
    assert Repeat(st.cur, st.shared + 1) == Repeat(st.cur, st.shared) + [st.cur];
    assert st.closed + (Repeat(st.cur, st.shared) + [st.cur])
        == (st.closed + Repeat(st.cur, st.shared)) + [st.cur];
  }

  /** A fresh dictionary that nobody holds yet leaves the list as it reads. */
  lemma OutputBegin(st: Scan)
    ensures Output(Scan(Output(st), map[], 0)) == Output(st)
  {
    assert Repeat(map[], 0) == [];
    assert Output(st) + [] == Output(st);
  }

  /** `BEGIN:VCARD` starts an empty contact and leaves the list as it reads. */
  lemma BeginResets(lines: seq<string>)
    requires Run(lines).Some?
    ensures Run(lines + [BeginLine]).Some?
    ensures Run(lines + [BeginLine]).value.cur == map[]
    ensures Parse(lines + [BeginLine]) == Parse(lines)
  {
    RunSnoc(lines, BeginLine);
    StepBegin(Run(lines).value);
    OutputBegin(Run(lines).value);
  }

  /** An `FN:` line sets `Nombre` to the rest of the line, replacing any earlier one. */
  lemma NameLine(lines: seq<string>, n: string)
    requires Run(lines).Some?
    requires n == [] || !IsSpace(n[|n| - 1])
    ensures Run(lines + ["FN:" + n]) == Some(Run(lines).value.(cur := Run(lines).value.cur[Nombre := n]))
  {
    RunSnoc(lines, "FN:" + n);
    StepName(Run(lines).value, n);
  }

  /** An `EMAIL:` line sets `Email` to the text up to the next colon, replacing any earlier one. */
  lemma EmailLine(lines: seq<string>, e: string)
    requires Run(lines).Some?
    requires ':' !in e && (e == [] || !IsSpace(e[|e| - 1]))
    ensures Run(lines + ["EMAIL:" + e]) == Some(Run(lines).value.(cur := Run(lines).value.cur[Email := e]))
  {
    RunSnoc(lines, "EMAIL:" + e);
    StepEmail(Run(lines).value, e);
  }

  /**
   * Any line that strips to an `EMAIL` line with a colon, `EMAIL;TYPE=…:`
   * included, sets `Email` to `split(':')[1]` of the stripped line.
   */
  lemma EmailAnyLine(lines: seq<string>, line: string)
    requires Run(lines).Some?
    requires StartsWith(Strip(line), "EMAIL") && ':' in Strip(line)
    ensures Run(lines + [line]) == Some(Run(lines).value.(cur := Run(lines).value.cur[Email := EmailValue(Strip(line))]))
  {
    var l := Strip(line);
    RunSnoc(lines, line);
    PrefixChar(l, "EMAIL", 1);
    assert l != BeginLine by {
      assert l[1] == 'M';
    }
    if StartsWith(l, "FN:") {
      PrefixChar(l, "FN:", 0);
      PrefixChar(l, "EMAIL", 0);
    }
  }

  /**
   * `split(':')[1]` of `EMAIL<params>:<e><rest>` is `e` when the parameters
   * and `e` hold no colon and `rest` is empty or starts at a second colon.
   */
  lemma EmailValueOf(params: string, e: string, rest: string)
    requires ':' !in params && ':' !in e && (rest == [] || rest[0] == ':')
    ensures ':' in "EMAIL" + params + ":" + e + rest
    ensures EmailValue("EMAIL" + params + ":" + e + rest) == e
  {
    var a := "EMAIL" + params;
    assert ':' !in a;
    assert "EMAIL" + params + ":" + e + rest == a + [':'] + (e + rest);
    SplitFirst(a, ':', e + rest);
    if rest != [] {
      assert e + rest == e + [':'] + rest[1..];
      SplitFirst(e, ':', rest[1..]);
    }
  }

  /** `END:VCARD` appends the current contact exactly when it is not empty. */
  lemma EndAppends(lines: seq<string>)
    requires Run(lines).Some?
    ensures var cur := Run(lines).value.cur;
      Parse(lines + [EndLine]) == Some(Parse(lines).value + (if cur != map[] then [cur] else []))
  {
    var st := Run(lines).value;
    RunSnoc(lines, EndLine);
    StepEnd(st);
    if st.cur != map[] {
      OutputEnd(st);
    } else {
      assert Output(st) + [] == Output(st);
    }
  }

  /** A line none of the four branches matches changes nothing. */
  lemma OtherLine(lines: seq<string>, l: string)
    requires var s := Strip(l);
      s != BeginLine && !StartsWith(s, "FN:") && !StartsWith(s, "EMAIL") && s != EndLine
    ensures Run(lines + [l]) == Run(lines)
  {
    RunSnoc(lines, l);
  }

  /**
   * A raw line of the file, with its newline or other surrounding
   * whitespace, acts as its stripped text: every lemma stated for a clean
   * line covers the lines the file really yields.
   */
  lemma RawLine(lines: seq<string>, l: string)
    ensures Run(lines + [l]) == Run(lines + [Strip(l)])
  {
    RunSnoc(lines, l);
    RunSnoc(lines, Strip(l));
    if Strip(l) != [] {
      StripKeeps(Strip(l));
    }
  }

  /** A well-formed card adds exactly its own contact at the end of the list. */
  lemma CardAppends(lines: seq<string>, n: string, e: string)
    requires Run(lines).Some?
    requires n == [] || !IsSpace(n[|n| - 1])
    requires ':' !in e && (e == [] || !IsSpace(e[|e| - 1]))
    ensures Parse(lines + [BeginLine, "FN:" + n, "EMAIL:" + e, EndLine])
            == Some(Parse(lines).value + [map[Nombre := n, Email := e]])
  {
    var l1 := lines + [BeginLine];
    var l2 := l1 + ["FN:" + n];
    var l3 := l2 + ["EMAIL:" + e];
    assert lines + [BeginLine, "FN:" + n, "EMAIL:" + e, EndLine] == l3 + [EndLine];
    var st := Run(lines).value;
    RunSnoc(lines, BeginLine);
    StepBegin(st);
    var s1 := Scan(Output(st), map[], 0);
    NameLine(l1, n);
    var s2 := s1.(cur := map[Nombre := n]);
    EmailLine(l2, e);
    var s3 := s2.(cur := map[Nombre := n][Email := e]);
    assert Run(l3) == Some(s3);
    assert s3.cur == map[Nombre := n, Email := e];
    assert s3.cur != map[] by {
      assert Nombre in s3.cur;
    }
    EndAppends(l3);
    assert Parse(l3 + [EndLine]) == Some(Output(s3) + [s3.cur]);
    OutputBegin(st);
    assert Output(s3) == Output(st) by {
      assert Output(s3) == Output(s1);
    }
  }

  /**
   * The aliasing: once the current contact has been appended, a later
   * `FN:` line without a `BEGIN:VCARD` in between rewrites the contact
   * already in the list.
   */
  lemma NameAfterEnd(lines: seq<string>, n: string)
    requires Run(lines).Some? && Run(lines).value.shared > 0
    requires n == [] || !IsSpace(n[|n| - 1])
    ensures Parse(lines + ["FN:" + n]).Some? && |Parse(lines).value| > 0
    ensures var before := Parse(lines).value;
      var after := Parse(lines + ["FN:" + n]).value;
      |after| == |before| && after[|after| - 1] == before[|before| - 1][Nombre := n]
  {
    NameLine(lines, n);
    var st := Run(lines).value;
    var st' := st.(cur := st.cur[Nombre := n]);
    assert Output(st)[|Output(st)| - 1] == st.cur;
    assert Output(st')[|Output(st')| - 1] == st'.cur;
  }

  /** The aliasing: a second `END:VCARD` appends the same contact again. */
  lemma EndTwice(lines: seq<string>)
    requires Run(lines).Some? && Run(lines).value.cur != map[]
    ensures var cur := Run(lines).value.cur;
      Parse(lines + [EndLine, EndLine]) == Some(Parse(lines).value + [cur, cur])
  {
    var st := Run(lines).value;
    var l1 := lines + [EndLine];
    RunSnoc(lines, EndLine);
    StepEnd(st);
    var s1 := st.(shared := st.shared + 1);
    assert Run(l1) == Some(s1);
    RunSnoc(l1, EndLine);
    StepEnd(s1);
    var s2 := s1.(shared := s1.shared + 1);
    assert lines + [EndLine, EndLine] == l1 + [EndLine];
    assert Run(lines + [EndLine, EndLine]) == Some(s2);
    OutputEnd(st);
    OutputEnd(s1);
    assert Output(st) + [st.cur] + [st.cur] == Output(st) + [st.cur, st.cur];
  }
}
