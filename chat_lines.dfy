/**
 * The transcript line pattern of `extract_data_from_text`:
 *
 *   (\d{1,2}/\d{1,2}/\d{2,4}), (\d{1,2}:\d{2}\s?[APMapm]*) - ([^:]+): (.*)
 *
 * applied with `re.findall` to the whole transcript.  The regex is modelled
 * by a matcher at one start position (`MatchAt`) and the left-to-right scan
 * of `findall` (`FindAll`).  Every bounded digit group of the pattern is
 * followed by a non-digit literal, every `[^:]+` by a colon and every
 * `[APMapm]*` by a space, so backtracking can only ever accept the maximal
 * run at each group: the matcher takes maximal runs and is deterministic.
 */
module ChatLines {
  import opened Opt
  import opened Strings

  /** One tuple of `findall`: date, time, sender, message. */
  datatype RawRecord = RawRecord(date: string, time: string, sender: string, message: string)

  /** A match at some position: the groups and the position after the match. */
  datatype Found = Found(rec: RawRecord, end: nat)

  predicate IsAmPm(c: char) {
    c in "APMapm"
  }

  predicate NotColon(c: char) {
    c != ':'
  }

  /** `.` of Python's `re`: anything but a newline. */
  predicate NotNewline(c: char) {
    c != '\n'
  }

  /** The length of the longest run of characters satisfying `p` from `i`. */
  function Run(s: string, i: nat, p: char -> bool): (n: nat)
    requires i <= |s|
    ensures i + n <= |s|
    decreases |s| - i
  {
    if i < |s| && p(s[i]) then 1 + Run(s, i + 1, p) else 0
  }

  /** `Run` is the longest run: all of it satisfies `p`, the next one does not. */
  lemma {:induction false} RunFacts(s: string, i: nat, p: char -> bool)
    requires i <= |s|
    ensures forall k :: i <= k < i + Run(s, i, p) ==> p(s[k])
    ensures i + Run(s, i, p) == |s| || !p(s[i + Run(s, i, p)])
    decreases |s| - i
  {
    if i < |s| && p(s[i]) {
      RunFacts(s, i + 1, p);
    }
  }

  /**
   * The literal `lit` at index `j`, compared character by character; the
   * pattern's literals have at most three characters.
   */
  predicate Lit(s: string, j: nat, lit: string)
    requires |lit| <= 3
  {
    && j + |lit| <= |s|
    && (|lit| >= 1 ==> s[j] == lit[0])
    && (|lit| >= 2 ==> s[j + 1] == lit[1])
    && (|lit| >= 3 ==> s[j + 2] == lit[2])
  }

  lemma LitAt(s: string, j: nat, lit: string)
    requires |lit| <= 3
    ensures Lit(s, j, lit) <==> At(s, j, lit)
  {
    if At(s, j, lit) {
      if |lit| >= 1 { AtChar(s, j, lit, 0); }
      if |lit| >= 2 { AtChar(s, j, lit, 1); }
      if |lit| >= 3 { AtChar(s, j, lit, 2); }
    }
    if Lit(s, j, lit) {
      forall k | 0 <= k < |lit| ensures s[j + k] == lit[k] {
      }
    }
  }

  /**
   * `\d{lo,hi}` followed by the literal `lit`: the position after the literal.
   */
  function DigitsThen(s: string, i: nat, lo: nat, hi: nat, lit: string): (r: Option<nat>)
    requires i <= |s| && |lit| <= 3
    ensures r.Some? ==> i + lo + |lit| <= r.value <= i + hi + |lit| && r.value <= |s|
  {
    var n := Run(s, i, IsDigit);
    if lo <= n <= hi && Lit(s, i + n, lit) then Some(i + n + |lit|) else None
  }

  /** The date group and the `, ` after it, from `i`: the position after `, `. */
  function DateEnd(s: string, i: nat): (r: Option<nat>)
    requires i <= |s|
    ensures r.Some? ==> i + 8 <= r.value <= i + 12 && r.value <= |s|
  {
    match DigitsThen(s, i, 1, 2, "/")
    case None => None
    case Some(b) =>
      match DigitsThen(s, b, 1, 2, "/")
      case None => None
      case Some(c) => DigitsThen(s, c, 2, 4, ", ")
  }

  /**
   * `\s?[APMapm]*` followed by ` - `, from `j`: the end of the time group.
   * The optional space is tried first, as the regex engine does.
   */
  function TimeTail(s: string, j: nat): (r: Option<nat>)
    requires j <= |s|
    ensures r.Some? ==> j <= r.value && r.value + 3 <= |s|
  {
    if j < |s| && IsSpace(s[j]) && Lit(s, j + 1 + Run(s, j + 1, IsAmPm), " - ") then
      Some(j + 1 + Run(s, j + 1, IsAmPm))
    else if Lit(s, j + Run(s, j, IsAmPm), " - ") then
      Some(j + Run(s, j, IsAmPm))
    else
      None
  }

  /** `\d{1,2}:\d{2}` and its tail, from `e`: the end of the time group. */
  function TimeEnd(s: string, e: nat): (r: Option<nat>)
    requires e <= |s|
    ensures r.Some? ==> e + 4 <= r.value && r.value + 3 <= |s|
  {
    match DigitsThen(s, e, 1, 2, ":")
    case None => None
    case Some(f) =>
      if f + 2 <= |s| && IsDigit(s[f]) && IsDigit(s[f + 1]) then TimeTail(s, f + 2) else None
  }

  /** `([^:]+)` followed by `: `, from `g`: the end of the sender group. */
  function SenderEnd(s: string, g: nat): (r: Option<nat>)
    requires g <= |s|
    ensures r.Some? ==> g < r.value && r.value + 2 <= |s|
  {
    var n := Run(s, g, NotColon);
    if n >= 1 && Lit(s, g + n, ": ") then Some(g + n) else None
  }

  /** `(.*)` from `h`: the end of the line. */
  function RestEnd(s: string, h: nat): (r: nat)
    requires h <= |s|
    ensures h <= r <= |s|
  {
    h + Run(s, h, NotNewline)
  }

  /**
   * Where a match at `i` puts its groups: the date ends two characters
   * before `dateEnd`, the time group is `dateEnd..timeEnd`, the sender
   * `timeEnd + 3..senderEnd` and the message `senderEnd + 2..end`.
   */
  datatype Spans = Spans(dateEnd: nat, timeEnd: nat, senderEnd: nat, end: nat)

  predicate ValidSpans(n: nat, i: nat, p: Spans) {
    i + 2 <= p.dateEnd <= p.timeEnd && p.timeEnd + 3 <= p.senderEnd && p.senderEnd + 2 <= p.end <= n
  }

  /** The whole pattern tried at start position `i`: the spans of its groups. */
  function MatchSpans(s: string, i: nat): (r: Option<Spans>)
    requires i <= |s|
    ensures r.Some? ==> ValidSpans(|s|, i, r.value) && i < r.value.end
  {
    match DateEnd(s, i)
    case None => None
    case Some(e) =>
      match TimeEnd(s, e)
      case None => None
      case Some(t) =>
        match SenderEnd(s, t + 3)
        case None => None
        case Some(u) => Some(Spans(e, t, u, RestEnd(s, u + 2)))
  }

  /** The four groups of a match, as `findall` returns them. */
  function Groups(s: string, i: nat, p: Spans): RawRecord
    requires ValidSpans(|s|, i, p)
  {
    RawRecord(s[i..p.dateEnd - 2], s[p.dateEnd..p.timeEnd], s[p.timeEnd + 3..p.senderEnd], s[p.senderEnd + 2..p.end])
  }

  /** A match at `i`: its groups and the position after it. */
  function MatchAt(s: string, i: nat): (r: Option<Found>)
    requires i <= |s|
    ensures r.Some? ==> i < r.value.end <= |s|
  {
    match MatchSpans(s, i)
    case None => None
    case Some(p) => Some(Found(Groups(s, i, p), p.end))
  }

  /** `re.findall(pattern, s[i..])`: leftmost matches, scanning on after each. */
  function FindAll(s: string, i: nat): (rs: seq<RawRecord>)
    requires i <= |s|
    decreases |s| - i, 1
  {
    if i >= |s| then [] else FindFrom(s, i)
  }

  /** One step of the scan at `i < |s|`: the match there, or one character on. */
  function FindFrom(s: string, i: nat): (rs: seq<RawRecord>)
    requires i < |s|
    decreases |s| - i, 0
  {
    match MatchAt(s, i)
    case Some(m) => [m.rec] + FindAll(s, m.end)
    case None => FindAll(s, i + 1)
  }

  /** `extract_data_from_text`: all records of a transcript, in order. */
  function ExtractRecords(text: string): seq<RawRecord> {
    FindAll(text, 0)
  }

  // ---------------------------------------------------------------------
  // Soundness: what a match guarantees about the text it came from.
  // ---------------------------------------------------------------------

  predicate AllAmPm(t: string) {
    forall k :: 0 <= k < |t| ==> IsAmPm(t[k])
  }

  /** `\d{1,2}/\d{1,2}/\d{2,4}`, read by splitting at the slashes. */
  predicate DateShape(d: string) {
    && '/' in d && '/' in After(d, '/')
    && var mo, rest := Before(d, '/'), After(d, '/');
    && var da, yr := Before(rest, '/'), After(rest, '/');
    && AllDigits(mo) && 1 <= |mo| <= 2
    && AllDigits(da) && 1 <= |da| <= 2
    && AllDigits(yr) && 2 <= |yr| <= 4
  }

  /** `\d{1,2}:\d{2}`, then an optional whitespace character and letters of `[APMapm]`. */
  predicate TimeShape(t: string) {
    && ':' in t
    && var hh, rest := Before(t, ':'), After(t, ':');
    && AllDigits(hh) && 1 <= |hh| <= 2
    && |rest| >= 2 && AllDigits(rest[..2])
    && (AllAmPm(rest[2..]) || (|rest| >= 3 && IsSpace(rest[2]) && AllAmPm(rest[3..])))
  }

  /** A record that a transcript line of the documented shape carries. */
  predicate RecordShape(r: RawRecord) {
    DateShape(r.date) && TimeShape(r.time) && |r.sender| >= 1 && ':' !in r.sender && '\n' !in r.message
  }

  /** The text a record was read from: `<date>, <time> - <sender>: <message>`. */
  function LineOf(r: RawRecord): string {
    r.date + ", " + r.time + " - " + r.sender + ": " + r.message
  }

  lemma DigitsThenSound(s: string, i: nat, lo: nat, hi: nat, lit: string)
    requires i <= |s| && |lit| <= 3 && DigitsThen(s, i, lo, hi, lit).Some?
    ensures var r := DigitsThen(s, i, lo, hi, lit).value;
      (forall k :: i <= k < r - |lit| ==> IsDigit(s[k])) && At(s, r - |lit|, lit)
  {
    RunFacts(s, i, IsDigit);
    LitAt(s, DigitsThen(s, i, lo, hi, lit).value - |lit|, lit);
  }

  /** A slice whose every character is a digit. */
  lemma DigitsSlice(s: string, i: nat, j: nat)
    requires i <= j <= |s| && forall k :: i <= k < j ==> IsDigit(s[k])
    ensures AllDigits(s[i..j])
  {
    forall k | 0 <= k < j - i ensures IsDigit(s[i..j][k]) {
      assert s[i..j][k] == s[i + k];
    }
  }

  /** Three digit fields joined by slashes split back into those fields. */
  lemma DateShapeOf(mo: string, da: string, yr: string)
    requires AllDigits(mo) && 1 <= |mo| <= 2
    requires AllDigits(da) && 1 <= |da| <= 2
    requires AllDigits(yr) && 2 <= |yr| <= 4
    ensures DateShape(mo + "/" + da + "/" + yr)
  {
    DigitsExclude(mo, '/');
    DigitsExclude(da, '/');
    var rest := da + "/" + yr;
    assert mo + "/" + da + "/" + yr == mo + ['/'] + rest;
    SplitFirst(mo, '/', rest);
    assert rest == da + ['/'] + yr;
    SplitFirst(da, '/', yr);
  }

  /** A slice with separators at `a` and `b` is its three pieces joined by them. */
  lemma SliceThree(s: string, i: nat, a: nat, b: nat, j: nat, x: char, y: char)
    requires i <= a < b < j <= |s| && s[a] == x && s[b] == y
    ensures s[i..j] == s[i..a] + [x] + s[a + 1..b] + [y] + s[b + 1..j]
  {
    var r := s[i..a] + [x] + s[a + 1..b] + [y] + s[b + 1..j];
    assert |r| == j - i;
    forall k | 0 <= k < j - i ensures s[i..j][k] == r[k] {
      if k < a - i {
      } else if k == a - i {
      } else if k < b - i {
      } else if k == b - i {
      } else {
      }
    }
  }

  /** The digits `\d{lo,hi}` reads before its literal. */
  lemma DigitsPiece(s: string, i: nat, lo: nat, hi: nat, lit: string, r: nat) returns (d: string)
    requires i <= |s| && |lit| <= 3 && DigitsThen(s, i, lo, hi, lit) == Some(r)
    ensures i + |d| + |lit| == r <= |s| && d == s[i..r - |lit|]
    ensures AllDigits(d) && lo <= |d| <= hi && At(s, r - |lit|, lit)
  {
    DigitsThenSound(s, i, lo, hi, lit);
    d := s[i..r - |lit|];
    DigitsSlice(s, i, r - |lit|);
  }

  /** Where the three stages of the date group stop. */
  lemma DateStops(s: string, i: nat, e: nat) returns (b: nat, c: nat)
    requires i <= |s| && DateEnd(s, i) == Some(e)
    ensures b <= |s| && c <= |s|
    ensures DigitsThen(s, i, 1, 2, "/") == Some(b)
    ensures DigitsThen(s, b, 1, 2, "/") == Some(c)
    ensures DigitsThen(s, c, 2, 4, ", ") == Some(e)
  {
    b := DigitsThen(s, i, 1, 2, "/").value;
    c := DigitsThen(s, b, 1, 2, "/").value;
  }

  /** The three digit fields of the date group, from where its stages stop. */
  lemma DateFields(s: string, i: nat, b: nat, c: nat, e: nat) returns (mo: string, da: string, yr: string)
    requires i <= |s| && b <= |s| && c <= |s|
    requires DigitsThen(s, i, 1, 2, "/") == Some(b)
    requires DigitsThen(s, b, 1, 2, "/") == Some(c)
    requires DigitsThen(s, c, 2, 4, ", ") == Some(e)
    ensures i + 2 <= e <= |s|
    ensures s[i..e - 2] == mo + "/" + da + "/" + yr
    ensures AllDigits(mo) && 1 <= |mo| <= 2
    ensures AllDigits(da) && 1 <= |da| <= 2
    ensures AllDigits(yr) && 2 <= |yr| <= 4
  {
    mo := DigitsPiece(s, i, 1, 2, "/", b);
    da := DigitsPiece(s, b, 1, 2, "/", c);
    yr := DigitsPiece(s, c, 2, 4, ", ", e);
    AtChar(s, b - 1, "/", 0);
    AtChar(s, c - 1, "/", 0);
    JoinDate(s, i, b, c, e, mo, da, yr);
  }

  /** The slice of the date group is its three fields joined by the two slashes. */
  lemma JoinDate(s: string, i: nat, b: nat, c: nat, e: nat, mo: string, da: string, yr: string)
    requires i + |mo| + 1 == b && b + |da| + 1 == c && c + |yr| + 2 == e <= |s|
    requires mo == s[i..b - 1] && da == s[b..c - 1] && yr == s[c..e - 2]
    requires s[b - 1] == '/' && s[c - 1] == '/'
    ensures s[i..e - 2] == mo + "/" + da + "/" + yr
  {
    SliceThree(s, i, b - 1, c - 1, e - 2, '/', '/');
  }

  /** The date group of a match is `\d{1,2}/\d{1,2}/\d{2,4}`. */
  lemma DateGroupShape(s: string, i: nat, e: nat, d: string)
    requires i <= |s| && DateEnd(s, i) == Some(e)
    requires i + 2 <= e <= |s| && d == s[i..e - 2]
    ensures DateShape(d)
  {
    var b, c := DateStops(s, i, e);
    var mo, da, yr := DateFields(s, i, b, c, e);
    DateShapeOf(mo, da, yr);
  }

  lemma DateEndSep(s: string, i: nat, e: nat)
    requires i <= |s| && DateEnd(s, i) == Some(e)
    ensures At(s, e - 2, ", ")
  {
    var b := DigitsThen(s, i, 1, 2, "/").value;
    var c := DigitsThen(s, b, 1, 2, "/").value;
    DigitsThenSound(s, c, 2, 4, ", ");
  }

  /** An hour, a colon, two minute digits and a tail split back into those parts. */
  lemma TimeShapeOf(hh: string, mm: string, tail: string)
    requires AllDigits(hh) && 1 <= |hh| <= 2 && AllDigits(mm) && |mm| == 2
    requires AllAmPm(tail) || (|tail| >= 1 && IsSpace(tail[0]) && AllAmPm(tail[1..]))
    ensures TimeShape(hh + ":" + mm + tail)
  {
    DigitsExclude(hh, ':');
    var rest := mm + tail;
    assert hh + ":" + mm + tail == hh + [':'] + rest;
    SplitFirst(hh, ':', rest);
    assert rest[..2] == mm && rest[2..] == tail;
  }

  /** The tail the time stage accepts is `[APMapm]*`, or one whitespace character and then that. */
  lemma TimeTailShape(s: string, j: nat, t: nat)
    requires j <= |s| && TimeTail(s, j) == Some(t)
    ensures var tail := s[j..t];
      AllAmPm(tail) || (|tail| >= 1 && IsSpace(tail[0]) && AllAmPm(tail[1..]))
  {
    var tail := s[j..t];
    if j < |s| && IsSpace(s[j]) && Lit(s, j + 1 + Run(s, j + 1, IsAmPm), " - ") {
      RunFacts(s, j + 1, IsAmPm);
      assert tail[0] == s[j];
      forall k | 0 <= k < |tail| - 1 ensures IsAmPm(tail[1..][k]) {
        assert tail[1..][k] == s[j + 1 + k];
      }
    } else {
      RunFacts(s, j, IsAmPm);
      forall k | 0 <= k < |tail| ensures IsAmPm(tail[k]) {
        assert tail[k] == s[j + k];
      }
    }
  }

  /** Where the hour stage of the time group stops. */
  lemma TimeStops(s: string, e: nat, t: nat) returns (f: nat)
    requires e <= |s| && TimeEnd(s, e) == Some(t)
    ensures DigitsThen(s, e, 1, 2, ":") == Some(f)
    ensures f + 2 <= |s| && IsDigit(s[f]) && IsDigit(s[f + 1]) && TimeTail(s, f + 2) == Some(t)
  {
    f := DigitsThen(s, e, 1, 2, ":").value;
  }

  /** The hour, the minutes and the tail of the time group, from where its hour stops. */
  lemma TimeFields(s: string, e: nat, f: nat, t: nat) returns (hh: string, mm: string, tail: string)
    requires e <= |s| && DigitsThen(s, e, 1, 2, ":") == Some(f)
    requires f + 2 <= |s| && IsDigit(s[f]) && IsDigit(s[f + 1]) && TimeTail(s, f + 2) == Some(t)
    ensures e <= t <= |s| && s[e..t] == hh + ":" + mm + tail
    ensures AllDigits(hh) && 1 <= |hh| <= 2 && AllDigits(mm) && |mm| == 2
    ensures AllAmPm(tail) || (|tail| >= 1 && IsSpace(tail[0]) && AllAmPm(tail[1..]))
  {
    hh := DigitsPiece(s, e, 1, 2, ":", f);
    DigitsSlice(s, f, f + 2);
    TimeTailShape(s, f + 2, t);
    mm, tail := s[f..f + 2], s[f + 2..t];
    AtChar(s, f - 1, ":", 0);
    SliceTwo(s, e, f - 1, f + 2, t, ':');
  }

  /** A slice with a separator at `a` and a cut at `b` is its pieces joined. */
  lemma SliceTwo(s: string, i: nat, a: nat, b: nat, j: nat, x: char)
    requires i <= a < b <= j <= |s| && s[a] == x
    ensures s[i..j] == s[i..a] + [x] + s[a + 1..b] + s[b..j]
  {
    var r := s[i..a] + [x] + s[a + 1..b] + s[b..j];
    assert |r| == j - i;
    forall k | 0 <= k < j - i ensures s[i..j][k] == r[k] {
      if k < a - i {
      } else if k == a - i {
      } else if k < b - i {
      } else {
      }
    }
  }

  /** The time group of a match is `\d{1,2}:\d{2}\s?[APMapm]*`. */
  lemma TimeGroupShape(s: string, e: nat, t: nat, tm: string)
    requires e <= |s| && TimeEnd(s, e) == Some(t)
    requires e <= t <= |s| && tm == s[e..t]
    ensures TimeShape(tm)
  {
    var f := TimeStops(s, e, t);
    var hh, mm, tail := TimeFields(s, e, f, t);
    TimeShapeOf(hh, mm, tail);
  }

  lemma TimeEndSep(s: string, e: nat, t: nat)
    requires e <= |s| && TimeEnd(s, e) == Some(t)
    ensures At(s, t, " - ")
  {
    LitAt(s, t, " - ");
  }

  lemma SenderEndSound(s: string, i: nat, p: Spans)
    requires ValidSpans(|s|, i, p) && SenderEnd(s, p.timeEnd + 3) == Some(p.senderEnd)
    ensures |Groups(s, i, p).sender| >= 1 && ':' !in Groups(s, i, p).sender
  {
    var g, u := p.timeEnd + 3, p.senderEnd;
    RunFacts(s, g, NotColon);
    forall k | 0 <= k < u - g ensures s[g..u][k] != ':' {
      assert s[g..u][k] == s[g + k] && NotColon(s[g + k]);
    }
  }

  lemma SenderEndSep(s: string, g: nat, u: nat)
    requires g <= |s| && SenderEnd(s, g) == Some(u)
    ensures At(s, u, ": ")
  {
    LitAt(s, u, ": ");
  }

  lemma RestEndSound(s: string, i: nat, p: Spans)
    requires ValidSpans(|s|, i, p) && p.end == RestEnd(s, p.senderEnd + 2)
    ensures '\n' !in Groups(s, i, p).message
    ensures p.end == |s| || s[p.end] == '\n'
  {
    var h, m := p.senderEnd + 2, p.end;
    RunFacts(s, h, NotNewline);
    forall k | 0 <= k < m - h ensures s[h..m][k] != '\n' {
      assert s[h..m][k] == s[h + k] && NotNewline(s[h + k]);
    }
  }

  /** The date, its `, `, the time and its ` - `, as one slice. */
  lemma AssembleHead(s: string, i: nat, e: nat, t: nat)
    requires i + 2 <= e <= t && t + 3 <= |s|
    requires At(s, e - 2, ", ") && At(s, t, " - ")
    ensures s[i..t + 3] == s[i..e - 2] + ", " + s[e..t] + " - "
  {
    AtSlice(s, e - 2, ", ");
    AtSlice(s, t, " - ");
    SliceSplit(s, i, t, t + 3);
    SliceSplit(s, i, e, t);
    SliceSplit(s, i, e - 2, e);
  }

  /** A matched line is its groups joined by the pattern's separators. */
  lemma Assemble(s: string, i: nat, e: nat, t: nat, u: nat, m: nat)
    requires i + 2 <= e <= t && t + 3 <= u && u + 2 <= m <= |s|
    requires At(s, e - 2, ", ") && At(s, t, " - ") && At(s, u, ": ")
    ensures s[i..m] == LineOf(RawRecord(s[i..e - 2], s[e..t], s[t + 3..u], s[u + 2..m]))
  {
    AssembleHead(s, i, e, t);
    AtSlice(s, u, ": ");
    SliceSplit(s, i, u + 2, m);
    SliceSplit(s, i, u, u + 2);
    SliceSplit(s, i, t + 3, u);
  }

  lemma SliceSplit(s: string, a: nat, b: nat, c: nat)
    requires a <= b <= c <= |s|
    ensures s[a..c] == s[a..b] + s[b..c]
  {
  }

  /** The stage facts a match leaves behind, in terms of its spans. */
  predicate Staged(s: string, i: nat, p: Spans) {
    && i <= |s| && DateEnd(s, i) == Some(p.dateEnd)
    && p.dateEnd <= |s| && TimeEnd(s, p.dateEnd) == Some(p.timeEnd)
    && p.timeEnd + 3 <= |s| && SenderEnd(s, p.timeEnd + 3) == Some(p.senderEnd)
    && p.senderEnd + 2 <= |s| && p.end == RestEnd(s, p.senderEnd + 2)
  }

  lemma GroupsSound(s: string, i: nat, p: Spans)
    requires Staged(s, i, p) && ValidSpans(|s|, i, p)
    ensures RecordShape(Groups(s, i, p))
    ensures p.end == |s| || s[p.end] == '\n'
  {
    var r := Groups(s, i, p);
    DateGroupShape(s, i, p.dateEnd, r.date);
    TimeGroupShape(s, p.dateEnd, p.timeEnd, r.time);
    SenderEndSound(s, i, p);
    RestEndSound(s, i, p);
  }

  /** The separators `, `, ` - ` and `: ` sit where the spans say. */
  predicate Separated(s: string, p: Spans)
    requires 2 <= p.dateEnd
  {
    At(s, p.dateEnd - 2, ", ") && At(s, p.timeEnd, " - ") && At(s, p.senderEnd, ": ")
  }

  lemma SpansSeparated(s: string, i: nat, p: Spans)
    requires Staged(s, i, p) && ValidSpans(|s|, i, p)
    ensures Separated(s, p)
  {
    DateEndSep(s, i, p.dateEnd);
    TimeEndSep(s, p.dateEnd, p.timeEnd);
    SenderEndSep(s, p.timeEnd + 3, p.senderEnd);
  }

  lemma SeparatorsSound(s: string, i: nat, p: Spans)
    requires ValidSpans(|s|, i, p) && Separated(s, p)
    ensures s[i..p.end] == LineOf(Groups(s, i, p))
  {
    Assemble(s, i, p.dateEnd, p.timeEnd, p.senderEnd, p.end);
  }

  /** The stage positions behind a successful match. */
  lemma SpansStages(s: string, i: nat, p: Spans)
    requires i <= |s| && MatchSpans(s, i) == Some(p)
    ensures Staged(s, i, p) && ValidSpans(|s|, i, p)
  {
  }

  /** What the spans of a match guarantee about its groups. */
  lemma SpansSound(s: string, i: nat, p: Spans)
    requires i <= |s| && MatchSpans(s, i) == Some(p)
    ensures ValidSpans(|s|, i, p)
    ensures RecordShape(Groups(s, i, p))
    ensures s[i..p.end] == LineOf(Groups(s, i, p))
    ensures p.end == |s| || s[p.end] == '\n'
  {
    SpansStages(s, i, p);
    GroupsSound(s, i, p);
    SpansSeparated(s, i, p);
    SeparatorsSound(s, i, p);
  }

  /**
   * Soundness of one match: the matched text is exactly the four groups
   * joined by the pattern's separators, each group has the pattern's shape
   * (the sender holds no colon and the message no newline), and the match
   * ends at a newline or at the end of the text.
   */
  lemma MatchAtSound(s: string, i: nat, f: Found)
    requires i <= |s| && MatchAt(s, i) == Some(f)
    ensures RecordShape(f.rec)
    ensures i < f.end <= |s| && s[i..f.end] == LineOf(f.rec)
    ensures f.end == |s| || s[f.end] == '\n'
  {
    var p := MatchSpans(s, i).value;
    SpansSound(s, i, p);
    assert f == Found(Groups(s, i, p), p.end);
  }

  /** The record of a match is well shaped and its line occurs in the text. */
  lemma MatchFoundSound(s: string, i: nat, f: Found)
    requires i <= |s| && MatchAt(s, i) == Some(f)
    ensures RecordShape(f.rec) && Contains(s, LineOf(f.rec))
  {
    MatchAtSound(s, i, f);
    SliceContains(s, i, f.end, LineOf(f.rec));
  }

  /** A slice of `s` occurs in `s`. */
  lemma SliceContains(s: string, i: nat, e: nat, t: string)
    requires i <= e <= |s| && s[i..e] == t
    ensures At(s, i, t) && Contains(s, t)
  {
    AtSlice(s, i, t);
    AtContains(s, i, t);
  }

  /** Where nothing matches, `findall` moves one character on. */
  lemma FindAllSkip(s: string, i: nat)
    requires i < |s| && MatchAt(s, i) == None
    ensures FindAll(s, i) == FindAll(s, i + 1)
  {
  }

  /** Every record of `rs` has the pattern's shape, and its line occurs in `s`. */
  predicate AllSound(s: string, rs: seq<RawRecord>) {
    |rs| == 0 || (RecordShape(rs[0]) && Contains(s, LineOf(rs[0])) && AllSound(s, rs[1..]))
  }

  lemma {:induction false} AllSoundMembers(s: string, rs: seq<RawRecord>)
    requires AllSound(s, rs)
    ensures forall r :: r in rs ==> RecordShape(r) && Contains(s, LineOf(r))
  {
    if |rs| > 0 {
      AllSoundMembers(s, rs[1..]);
      forall r | r in rs ensures RecordShape(r) && Contains(s, LineOf(r)) {
        if r != rs[0] {
          assert r in rs[1..];
        }
      }
    }
  }

  lemma {:induction false} FindAllAllSound(s: string, i: nat)
    requires i <= |s|
    ensures AllSound(s, FindAll(s, i))
    decreases |s| - i
  {
    if i < |s| {
      match MatchAt(s, i)
      case Some(f) =>
        FindAllMatch(s, i, f);
        MatchFoundSound(s, i, f);
        FindAllAllSound(s, f.end);
        assert ([f.rec] + FindAll(s, f.end))[1..] == FindAll(s, f.end);
      case None =>
        FindAllSkip(s, i);
        FindAllAllSound(s, i + 1);
    }
  }

  /**
   * Soundness of the scan: every record comes from text of the shape
   * `<date>, <time> - <sender>: <message>` occurring in the transcript, each
   * group has the pattern's shape, the sender holds no colon and the
   * message no newline.
   */
  lemma FindAllSound(s: string, i: nat)
    requires i <= |s|
    ensures forall r :: r in FindAll(s, i) ==> RecordShape(r) && Contains(s, LineOf(r))
  {
    FindAllAllSound(s, i);
    AllSoundMembers(s, FindAll(s, i));
  }

  // ---------------------------------------------------------------------
  // Completeness: a line of the documented shape yields exactly its record.
  // ---------------------------------------------------------------------

  lemma AtChar(s: string, i: nat, t: string, k: nat)
    requires At(s, i, t) && k < |t|
    ensures s[i + k] == t[k]
  {
  }

  lemma AtSplit(s: string, i: nat, a: string, b: string)
    requires At(s, i, a + b)
    ensures At(s, i, a) && At(s, i + |a|, b)
  {
    forall k | 0 <= k < |a| ensures s[i + k] == a[k] {
      AtChar(s, i, a + b, k);
    }
    forall k | 0 <= k < |b| ensures s[i + |a| + k] == b[k] {
      AtChar(s, i, a + b, |a| + k);
    }
  }

  lemma AtJoin(s: string, i: nat, a: string, b: string)
    requires At(s, i, a) && At(s, i + |a|, b)
    ensures At(s, i, a + b)
  {
    forall k | 0 <= k < |a + b| ensures s[i + k] == (a + b)[k] {
      if k < |a| {
        AtChar(s, i, a, k);
      } else {
        AtChar(s, i + |a|, b, k - |a|);
      }
    }
  }

  lemma {:induction false} RunAt(s: string, i: nat, d: string, p: char -> bool)
    requires At(s, i, d) && (forall k :: 0 <= k < |d| ==> p(d[k]))
    requires i + |d| == |s| || !p(s[i + |d|])
    ensures Run(s, i, p) == |d|
    decreases |d|
  {
    if |d| > 0 {
      AtChar(s, i, d, 0);
      assert d == [d[0]] + d[1..];
      AtSplit(s, i, [d[0]], d[1..]);
      RunAt(s, i + 1, d[1..], p);
    }
  }

  lemma DigitsThenAt(s: string, i: nat, d: string, lit: string, lo: nat, hi: nat)
    requires At(s, i, d + lit) && AllDigits(d) && lo <= |d| <= hi
    requires 1 <= |lit| <= 3 && !IsDigit(lit[0])
    ensures DigitsThen(s, i, lo, hi, lit) == Some(i + |d| + |lit|)
  {
    AtSplit(s, i, d, lit);
    LitAt(s, i + |d|, lit);
    AtChar(s, i + |d|, lit, 0);
    RunAt(s, i, d, IsDigit);
  }

  lemma DatePieces(d: string) returns (mo: string, da: string, yr: string)
    requires DateShape(d)
    ensures d == mo + "/" + da + "/" + yr
    ensures AllDigits(mo) && 1 <= |mo| <= 2
    ensures AllDigits(da) && 1 <= |da| <= 2
    ensures AllDigits(yr) && 2 <= |yr| <= 4
  {
    var rest := After(d, '/');
    mo, da, yr := Before(d, '/'), Before(rest, '/'), After(rest, '/');
  }

  lemma DateGroupsAt(s: string, i: nat, mo: string, da: string, yr: string)
    requires At(s, i, mo + "/" + da + "/" + yr + ", ")
    requires AllDigits(mo) && 1 <= |mo| <= 2
    requires AllDigits(da) && 1 <= |da| <= 2
    requires AllDigits(yr) && 2 <= |yr| <= 4
    ensures DigitsThen(s, i, 1, 2, "/") == Some(i + |mo| + 1)
    ensures DigitsThen(s, i + |mo| + 1, 1, 2, "/") == Some(i + |mo| + |da| + 2)
    ensures DigitsThen(s, i + |mo| + |da| + 2, 2, 4, ", ") == Some(i + |mo| + |da| + |yr| + 4)
  {
    AtSplit(s, i, mo + "/" + da + "/" + yr, ", ");
    AtSplit(s, i, mo + "/" + da + "/", yr);
    AtSplit(s, i, mo + "/" + da, "/");
    AtSplit(s, i, mo + "/", da);
    DigitsThenAt(s, i, mo, "/", 1, 2);
    AtJoin(s, i + |mo| + 1, da, "/");
    DigitsThenAt(s, i + |mo| + 1, da, "/", 1, 2);
    AtJoin(s, i + |mo| + |da| + 2, yr, ", ");
    DigitsThenAt(s, i + |mo| + |da| + 2, yr, ", ", 2, 4);
  }

  lemma DateEndOfPieces(s: string, i: nat, mo: string, da: string, yr: string)
    requires At(s, i, mo + "/" + da + "/" + yr + ", ")
    requires AllDigits(mo) && 1 <= |mo| <= 2
    requires AllDigits(da) && 1 <= |da| <= 2
    requires AllDigits(yr) && 2 <= |yr| <= 4
    ensures DateEnd(s, i) == Some(i + |mo| + |da| + |yr| + 4)
  {
    DateGroupsAt(s, i, mo, da, yr);
  }

  lemma DateEndAt(s: string, i: nat, d: string, e: nat)
    requires DateShape(d) && At(s, i, d + ", ") && e == i + |d| + 2
    ensures DateEnd(s, i) == Some(e)
  {
    var mo, da, yr := DatePieces(d);
    assert |d| == |mo| + |da| + |yr| + 2;
    DateEndOfPieces(s, i, mo, da, yr);
  }

  lemma TimePieces(t: string) returns (hh: string, mm: string, tail: string)
    requires TimeShape(t)
    ensures t == hh + ":" + mm + tail
    ensures AllDigits(hh) && 1 <= |hh| <= 2 && AllDigits(mm) && |mm| == 2
    ensures AllAmPm(tail) || (|tail| >= 1 && IsSpace(tail[0]) && AllAmPm(tail[1..]))
  {
    var rest := After(t, ':');
    hh, mm, tail := Before(t, ':'), rest[..2], rest[2..];
    assert rest == mm + tail;
  }

  /** `\s?[APMapm]*` then ` - ` over a tail of the documented shape. */
  lemma TimeTailAt(s: string, j: nat, tail: string)
    requires At(s, j, tail) && At(s, j + |tail|, " - ")
    requires AllAmPm(tail) || (|tail| >= 1 && IsSpace(tail[0]) && AllAmPm(tail[1..]))
    ensures TimeTail(s, j) == Some(j + |tail|)
  {
    var z := j + |tail|;
    LitAt(s, z, " - ");
    if |tail| >= 1 && IsSpace(tail[0]) && AllAmPm(tail[1..]) {
      AtChar(s, j, tail, 0);
      assert tail == [tail[0]] + tail[1..];
      AtSplit(s, j, [tail[0]], tail[1..]);
      RunAt(s, j + 1, tail[1..], IsAmPm);
    } else if tail == [] {
      RunAt(s, j, tail, IsAmPm);
    } else {
      AtChar(s, j, tail, 0);
      RunAt(s, j, tail, IsAmPm);
    }
  }

  lemma TimeEndOfPieces(s: string, e: nat, hh: string, mm: string, tail: string)
    requires At(s, e, hh + ":" + mm + tail + " - ")
    requires AllDigits(hh) && 1 <= |hh| <= 2 && AllDigits(mm) && |mm| == 2
    requires AllAmPm(tail) || (|tail| >= 1 && IsSpace(tail[0]) && AllAmPm(tail[1..]))
    ensures TimeEnd(s, e) == Some(e + |hh| + 3 + |tail|)
  {
    AtSplit(s, e, hh + ":" + mm + tail, " - ");
    AtSplit(s, e, hh + ":" + mm, tail);
    AtSplit(s, e, hh + ":", mm);
    DigitsThenAt(s, e, hh, ":", 1, 2);
    var f := e + |hh| + 1;
    AtChar(s, f, mm, 0);
    AtChar(s, f, mm, 1);
    TimeTailAt(s, f + 2, tail);
  }

  lemma TimeEndAt(s: string, e: nat, t: string, x: nat)
    requires TimeShape(t) && At(s, e, t + " - ") && x == e + |t|
    ensures TimeEnd(s, e) == Some(x)
  {
    var hh, mm, tail := TimePieces(t);
    TimeEndOfPieces(s, e, hh, mm, tail);
  }

  lemma SenderEndAt(s: string, g: nat, sender: string, u: nat)
    requires At(s, g, sender) && u == g + |sender| && At(s, u, ": ")
    requires |sender| >= 1 && ':' !in sender
    ensures SenderEnd(s, g) == Some(u)
  {
    LitAt(s, u, ": ");
    RunAt(s, g, sender, NotColon);
  }

  lemma RestEndAt(s: string, h: nat, message: string, m: nat)
    requires At(s, h, message) && '\n' !in message && m == h + |message|
    requires m == |s| || s[m] == '\n'
    ensures RestEnd(s, h) == m
  {
    RunAt(s, h, message, NotNewline);
  }

  /** The spans a line of `r` starting at `i` occupies. */
  function LineSpansOf(i: nat, r: RawRecord): (p: Spans)
    ensures p.end == i + |LineOf(r)|
  {
    var e := i + |r.date| + 2;
    var t := e + |r.time|;
    var u := t + 3 + |r.sender|;
    Spans(e, t, u, u + 2 + |r.message|)
  }

  /** Where the groups and separators of a line sit, once it is found at `i`. */
  lemma LineParts(s: string, i: nat, r: RawRecord, p: Spans)
    requires At(s, i, LineOf(r)) && p == LineSpansOf(i, r)
    ensures At(s, i, r.date + ", ")
    ensures At(s, p.dateEnd, r.time + " - ")
    ensures At(s, p.timeEnd + 3, r.sender)
    ensures At(s, p.senderEnd, ": ")
    ensures At(s, p.senderEnd + 2, r.message)
  {
    AtSplit(s, i, r.date + ", " + r.time + " - " + r.sender + ": ", r.message);
    AtSplit(s, i, r.date + ", " + r.time + " - " + r.sender, ": ");
    AtSplit(s, i, r.date + ", " + r.time + " - ", r.sender);
    AtSplit(s, i, r.date + ", " + r.time, " - ");
    AtSplit(s, i, r.date + ", ", r.time);
    AtJoin(s, p.dateEnd, r.time, " - ");
  }

  /** The date and time stages over a line of the documented shape. */
  lemma LineHeadStages(s: string, i: nat, r: RawRecord, p: Spans)
    requires RecordShape(r) && At(s, i, LineOf(r)) && p == LineSpansOf(i, r)
    ensures i <= |s| && DateEnd(s, i) == Some(p.dateEnd)
    ensures p.dateEnd <= |s| && TimeEnd(s, p.dateEnd) == Some(p.timeEnd)
  {
    LineParts(s, i, r, p);
    DateEndAt(s, i, r.date, p.dateEnd);
    TimeEndAt(s, p.dateEnd, r.time, p.timeEnd);
  }

  /** The sender and message stages over a line of the documented shape. */
  lemma LineTailStages(s: string, i: nat, r: RawRecord, p: Spans)
    requires |r.sender| >= 1 && ':' !in r.sender && '\n' !in r.message
    requires At(s, i, LineOf(r)) && p == LineSpansOf(i, r)
    requires p.end == |s| || s[p.end] == '\n'
    ensures p.timeEnd + 3 <= |s| && SenderEnd(s, p.timeEnd + 3) == Some(p.senderEnd)
    ensures p.senderEnd + 2 <= |s| && p.end == RestEnd(s, p.senderEnd + 2)
  {
    LineParts(s, i, r, p);
    SenderEndAt(s, p.timeEnd + 3, r.sender, p.senderEnd);
    RestEndAt(s, p.senderEnd + 2, r.message, p.end);
  }

  /** The stages of the matcher over a line of the documented shape. */
  lemma LineStages(s: string, i: nat, r: RawRecord, p: Spans)
    requires RecordShape(r) && At(s, i, LineOf(r)) && p == LineSpansOf(i, r)
    requires p.end == |s| || s[p.end] == '\n'
    ensures Staged(s, i, p)
  {
    LineHeadStages(s, i, r, p);
    LineTailStages(s, i, r, p);
  }

  lemma RecordAt(s: string, i: nat, r: RawRecord, p: Spans)
    requires At(s, i, LineOf(r)) && p == LineSpansOf(i, r)
    ensures ValidSpans(|s|, i, p) && Groups(s, i, p) == r
  {
    LineParts(s, i, r, p);
    AtSplit(s, i, r.date, ", ");
    AtSplit(s, p.dateEnd, r.time, " - ");
    AtSlice(s, i, r.date);
    AtSlice(s, p.dateEnd, r.time);
    AtSlice(s, p.timeEnd + 3, r.sender);
    AtSlice(s, p.senderEnd + 2, r.message);
  }

  /** The spans a line of the documented shape is matched with, and its groups. */
  lemma LineSpans(s: string, i: nat, r: RawRecord, e: nat) returns (p: Spans)
    requires RecordShape(r) && At(s, i, LineOf(r)) && e == i + |LineOf(r)|
    requires e == |s| || s[e] == '\n'
    ensures i <= |s| && MatchSpans(s, i) == Some(p)
    ensures p.end == e
    ensures ValidSpans(|s|, i, p) && Groups(s, i, p) == r
  {
    p := LineSpansOf(i, r);
    LineStages(s, i, r, p);
    SpansOfStages(s, i, p);
    RecordAt(s, i, r, p);
  }

  lemma MatchAtOfSpans(s: string, i: nat, p: Spans, r: RawRecord, n: nat)
    requires i <= |s| && MatchSpans(s, i) == Some(p) && ValidSpans(|s|, i, p)
    requires Groups(s, i, p) == r && p.end == n
    ensures MatchAt(s, i) == Some(Found(r, n))
  {
  }

  lemma SpansOfStages(s: string, i: nat, p: Spans)
    requires Staged(s, i, p)
    ensures MatchSpans(s, i) == Some(p)
  {
  }

  /**
   * A line of the documented shape, starting at `i` and ending at the end of
   * the text or at a newline, is matched at `i` as exactly its four groups.
   */
  lemma MatchAtLine(s: string, i: nat, r: RawRecord, e: nat)
    requires RecordShape(r) && At(s, i, LineOf(r)) && e == i + |LineOf(r)|
    requires e == |s| || s[e] == '\n'
    ensures MatchAt(s, i) == Some(Found(r, e))
  {
    var p := LineSpans(s, i, r, e);
    MatchAtOfSpans(s, i, p, r, e);
  }

  /**
   * The pattern at `i` matches exactly the lines of the documented shape
   * that end at a newline or at the end of the text, and returns their
   * records.
   */
  lemma MatchAtIff(s: string, i: nat, r: RawRecord, e: nat)
    requires i <= |s|
    ensures MatchAt(s, i) == Some(Found(r, e))
            <==> RecordShape(r) && At(s, i, LineOf(r)) && e == i + |LineOf(r)| && (e == |s| || s[e] == '\n')
  {
    if MatchAt(s, i) == Some(Found(r, e)) {
      MatchAtSound(s, i, Found(r, e));
      SliceContains(s, i, e, LineOf(r));
    }
    if RecordShape(r) && At(s, i, LineOf(r)) && e == i + |LineOf(r)| && (e == |s| || s[e] == '\n') {
      MatchAtLine(s, i, r, e);
    }
  }

  /** Every record has the documented shape. */
  predicate AllShaped(rs: seq<RawRecord>) {
    |rs| == 0 || (RecordShape(rs[0]) && AllShaped(rs[1..]))
  }

  /** Lines joined by newlines, as a transcript holds them. */
  function Transcript(rs: seq<RawRecord>): string
    requires |rs| >= 1
  {
    if |rs| == 1 then LineOf(rs[0]) else LineOf(rs[0]) + "\n" + Transcript(rs[1..])
  }

  /** A match that reaches the end of the text is the last record. */
  lemma FindAllLast(s: string, i: nat, r: RawRecord, e: nat)
    requires i <= |s| && MatchAt(s, i) == Some(Found(r, e)) && e == |s|
    ensures FindAll(s, i) == [r]
  {
    FindAllMatch(s, i, Found(r, e));
  }

  /** A match followed by a newline: its record, then the scan goes on after the newline. */
  lemma FindAllLine(s: string, i: nat, r: RawRecord, e: nat)
    requires i <= |s| && MatchAt(s, i) == Some(Found(r, e))
    requires e < |s| && s[e] == '\n'
    ensures FindAll(s, i) == [r] + FindAll(s, e + 1)
  {
    FindAllMatch(s, i, Found(r, e));
    FindAllNewline(s, e);
  }

  lemma FindAllMatch(s: string, i: nat, f: Found)
    requires i <= |s| && MatchAt(s, i) == Some(f)
    ensures f.end <= |s| && FindAll(s, i) == [f.rec] + FindAll(s, f.end)
  {
  }

  /** No match starts at a newline, so `findall` moves past it. */
  lemma FindAllNewline(s: string, e: nat)
    requires e < |s| && s[e] == '\n'
    ensures FindAll(s, e) == FindAll(s, e + 1)
  {
    assert Run(s, e, IsDigit) == 0;
    assert DateEnd(s, e) == None;
  }

  lemma TranscriptParts(s: string, i: nat, rs: seq<RawRecord>, e: nat)
    requires |rs| >= 2 && At(s, i, Transcript(rs)) && e == i + |LineOf(rs[0])|
    ensures At(s, i, LineOf(rs[0]))
    ensures e < |s| && s[e] == '\n'
    ensures At(s, e + 1, Transcript(rs[1..]))
    ensures i + |Transcript(rs)| == e + 1 + |Transcript(rs[1..])|
  {
    var line := LineOf(rs[0]);
    AtSplit(s, i, line + "\n", Transcript(rs[1..]));
    AtSplit(s, i, line, "\n");
    AtChar(s, e, "\n", 0);
  }

  /** A well-shaped line that ends the text is its last record. */
  lemma LastLine(s: string, i: nat, r: RawRecord, e: nat)
    requires RecordShape(r) && At(s, i, LineOf(r)) && e == i + |LineOf(r)| == |s|
    ensures FindAll(s, i) == [r]
  {
    MatchAtLine(s, i, r, e);
    FindAllLast(s, i, r, e);
  }

  /** A well-shaped line followed by a newline gives its record, then the scan resumes. */
  lemma NextLine(s: string, i: nat, r: RawRecord, e: nat)
    requires RecordShape(r) && At(s, i, LineOf(r)) && e == i + |LineOf(r)|
    requires e < |s| && s[e] == '\n'
    ensures FindAll(s, i) == [r] + FindAll(s, e + 1)
  {
    MatchAtLine(s, i, r, e);
    FindAllLine(s, i, r, e);
  }

  /** The records' lines lie one after the other from `i`, newline-separated, up to the end. */
  predicate LinesAt(s: string, i: nat, rs: seq<RawRecord>)
    decreases |rs|
  {
    && |rs| >= 1
    && At(s, i, LineOf(rs[0]))
    && var e := i + |LineOf(rs[0])|;
      if |rs| == 1 then e == |s| else e < |s| && s[e] == '\n' && LinesAt(s, e + 1, rs[1..])
  }

  lemma {:induction false} TranscriptLines(s: string, i: nat, rs: seq<RawRecord>)
    requires |rs| >= 1 && At(s, i, Transcript(rs)) && i + |Transcript(rs)| == |s|
    ensures LinesAt(s, i, rs)
    decreases |rs|
  {
    var e := i + |LineOf(rs[0])|;
    if |rs| >= 2 {
      TranscriptParts(s, i, rs, e);
      TranscriptLines(s, e + 1, rs[1..]);
    }
  }

  /**
   * Completeness of the scan: lines of the documented shape, one after the
   * other, yield exactly one record per line, in order.
   */
  lemma {:induction false} FindAllLines(s: string, i: nat, rs: seq<RawRecord>)
    requires AllShaped(rs) && LinesAt(s, i, rs)
    ensures FindAll(s, i) == rs
    decreases |rs|
  {
    var e := i + |LineOf(rs[0])|;
    if |rs| == 1 {
      LinesLast(s, i, rs, e);
      Single(rs, FindAll(s, i));
    } else {
      LinesNext(s, i, rs, e);
      FindAllLines(s, e + 1, rs[1..]);
      Cons(rs, FindAll(s, i), FindAll(s, e + 1));
    }
  }

  lemma LinesLast(s: string, i: nat, rs: seq<RawRecord>, e: nat)
    requires AllShaped(rs) && LinesAt(s, i, rs) && |rs| == 1 && e == i + |LineOf(rs[0])|
    ensures FindAll(s, i) == [rs[0]]
  {
    LastLine(s, i, rs[0], e);
  }

  lemma LinesNext(s: string, i: nat, rs: seq<RawRecord>, e: nat)
    requires AllShaped(rs) && LinesAt(s, i, rs) && |rs| >= 2 && e == i + |LineOf(rs[0])|
    ensures FindAll(s, i) == [rs[0]] + FindAll(s, e + 1)
  {
    NextLine(s, i, rs[0], e);
  }

  lemma Single<T>(xs: seq<T>, a: seq<T>)
    requires |xs| == 1 && a == [xs[0]]
    ensures a == xs
  {
  }

  lemma Cons<T>(xs: seq<T>, a: seq<T>, b: seq<T>)
    requires |xs| >= 1 && a == [xs[0]] + b && b == xs[1..]
    ensures a == xs
  {
  }

  /** `extract_data_from_text` on such a transcript gives back its records. */
  lemma ExtractTranscript(rs: seq<RawRecord>)
    requires |rs| >= 1 && AllShaped(rs)
    ensures ExtractRecords(Transcript(rs)) == rs
  {
    TranscriptLines(Transcript(rs), 0, rs);
    FindAllLines(Transcript(rs), 0, rs);
  }
}
