/**
 * The amount extraction of `process_message`.
 *
 * A plain message takes the first match of `(\d+(?:\.\d{2})?)` and an
 * attachment the first match of `\$\s?(\d{1,3}(?:\.\d{3})*(?:,\d{2})?)` in
 * its extracted text; both tokens are normalised with
 * `.replace('.', '').replace(',', '.')` and read with `float`.
 *
 * Both patterns are deterministic: the greedy path is always a match
 * (nothing follows the quantified groups), so the engine returns the
 * maximal reading at each quantifier, which is what the functions below
 * compute.  Amounts are exact reals rather than IEEE doubles.
 */
module Amounts {
  import opened Opt
  import opened Strings

  /** The `Monto` of an entry: a number, or the sentinel string `"Verifique"`. */
  datatype Amount = Num(value: real) | Verifique

  // ---------------------------------------------------------------------
  // `float` on a normalised token.
  // ---------------------------------------------------------------------

  /** The index of the first `.` of `s`, or `|s|` when there is none. */
  function PointAt(s: string): (k: nat)
    ensures k <= |s|
    ensures k < |s| ==> s[k] == '.'
    ensures '.' !in s[..k]
  {
    if s == [] || s[0] == '.' then 0
    else
      var k := 1 + PointAt(s[1..]);
      assert s[..k] == [s[0]] + s[1..][..k - 1];
      k
  }

  /**
   * The two spellings normalisation can produce, `ddd` and `ddd.dd`; `float`
   * accepts more, but nothing else reaches it here.
   */
  predicate IsDecimal(s: string) {
    var k := PointAt(s);
    0 < k && AllDigits(s[..k]) && (k == |s| || (k + 1 < |s| && AllDigits(s[k + 1..])))
  }

  /** Python's `float(s)` for a decimal spelling, as an exact real. */
  function Float(s: string): (x: real)
    requires IsDecimal(s)
    ensures x >= 0.0
  {
    var k := PointAt(s);
    DigitsValue(s[..k]) as real
    + if k == |s| then 0.0 else DigitsValue(s[k + 1..]) as real / Pow10(|s| - k - 1) as real
  }

  /** The first `.` after a run of digits is where the run ends. */
  lemma {:induction false} PointAfterDigits(d: string, rest: string)
    requires AllDigits(d) && (rest == [] || rest[0] == '.')
    ensures PointAt(d + rest) == |d|
  {
    if d != [] {
      assert (d + rest)[1..] == d[1..] + rest;
      PointAfterDigits(d[1..], rest);
    } else {
      assert d + rest == rest;
    }
  }

  /** `t.replace('.', '').replace(',', '.')`. */
  function Normalize(t: string): string {
    Replace(Remove(t, '.'), ',', '.')
  }

  lemma {:induction false} FloatWhole(d: string)
    requires d != [] && AllDigits(d)
    ensures IsDecimal(d) && Float(d) == DigitsValue(d) as real
  {
    PointAfterDigits(d, []);
    assert d + [] == d && d[..|d|] == d;
  }

  lemma {:induction false} FloatCents(d: string, c: string)
    requires d != [] && AllDigits(d) && |c| == 2 && AllDigits(c)
    ensures IsDecimal(d + "." + c)
    ensures Float(d + "." + c) == DigitsValue(d) as real + DigitsValue(c) as real / 100.0
  {
    var s := d + "." + c;
    assert s == d + (['.'] + c);
    PointAfterDigits(d, ['.'] + c);
    assert s[..|d|] == d && s[|d| + 1..] == c;
    assert Pow10(2) == 100;
  }

  /** Digits are left alone by normalisation. */
  lemma {:induction false} NormalizeDigits(d: string)
    requires AllDigits(d)
    ensures Normalize(d) == d
  {
    DigitsExclude(d, '.');
    DigitsExclude(d, ',');
    RemoveAbsent(d, '.');
    ReplaceAbsent(d, ',', '.');
  }

  /** A decimal point between digits is deleted. */
  lemma {:induction false} NormalizePoint(d: string, c: string)
    requires AllDigits(d) && AllDigits(c)
    ensures AllDigits(d + c) && Normalize(d + "." + c) == d + c
  {
    RemoveAppend(d + ['.'], c, '.');
    RemoveAppend(d, ['.'], '.');
    assert Remove(['.'], '.') == [];
    DigitsExclude(d, '.');
    RemoveAbsent(d, '.');
    DigitsExclude(c, '.');
    RemoveAbsent(c, '.');
    assert d + [] == d;
    assert Remove(d + ['.'], '.') == d;
    assert Remove(d + "." + c, '.') == d + c;
    assert AllDigits(d + c);
    DigitsExclude(d + c, ',');
    ReplaceAbsent(d + c, ',', '.');
  }

  /** A decimal comma after digits and dots becomes the decimal point. */
  lemma {:induction false} NormalizeComma(u: string, c: string)
    requires AllDigits(Remove(u, '.')) && AllDigits(c)
    ensures Normalize(u + "," + c) == Remove(u, '.') + "." + c
  {
    var d := Remove(u, '.');
    RemoveAppend(u + [','], c, '.');
    RemoveAppend(u, [','], '.');
    DigitsExclude(c, '.');
    RemoveAbsent(c, '.');
    RemoveAbsent([','], '.');
    assert Remove(u + [','], '.') == d + [','];
    assert Remove(u + "," + c, '.') == d + [','] + c;
    ReplaceAppend(d + [','], c, ',', '.');
    ReplaceAppend(d, [','], ',', '.');
    DigitsExclude(d, ',');
    ReplaceAbsent(d, ',', '.');
    DigitsExclude(c, ',');
    ReplaceAbsent(c, ',', '.');
    assert Replace([','], ',', '.') == ['.'];
    assert Replace(d + [','], ',', '.') == d + ['.'];
  }

  // ---------------------------------------------------------------------
  // Shared pieces of the two patterns.
  // ---------------------------------------------------------------------

  /** The end of the run of digits that starts at `i`. */
  function DigitsEnd(s: string, i: nat): (e: nat)
    requires i <= |s|
    ensures i <= e <= |s|
    ensures forall k :: i <= k < e ==> IsDigit(s[k])
    ensures e == |s| || !IsDigit(s[e])
    decreases |s| - i
  {
    if i < |s| && IsDigit(s[i]) then DigitsEnd(s, i + 1) else i
  }

  /** A separator `sep` and two digits at `p`: `\.\d{2}` or `,\d{2}`. */
  predicate CentsAt(s: string, p: nat, sep: char) {
    p + 3 <= |s| && s[p] == sep && IsDigit(s[p + 1]) && IsDigit(s[p + 2])
  }

  // ---------------------------------------------------------------------
  // Plain messages: `re.search(r"(\d+(?:\.\d{2})?)", message)`.
  // ---------------------------------------------------------------------

  /** The first digit at or after `i`, which is where the plain pattern matches. */
  function FirstDigit(s: string, i: nat): (r: Option<nat>)
    requires i <= |s|
    ensures r.Some? ==> i <= r.value < |s| && IsDigit(s[r.value])
    ensures r.Some? ==> forall k :: i <= k < r.value ==> !IsDigit(s[k])
    ensures r.None? ==> forall k :: i <= k < |s| ==> !IsDigit(s[k])
    decreases |s| - i
  {
    if i == |s| then None
    else if IsDigit(s[i]) then Some(i)
    else FirstDigit(s, i + 1)
  }

  /** The end of the plain match at digit `j`: the whole run, then `.dd` when it follows. */
  function PlainEnd(s: string, j: nat): (e: nat)
    requires j < |s| && IsDigit(s[j])
  {
    var r := DigitsEnd(s, j);
    if CentsAt(s, r, '.') then r + 3 else r
  }

  /** `number_match.group(1)`, or `None` when the message holds no digit. */
  function PlainToken(s: string): (r: Option<string>)
    ensures r.None? <==> forall k :: 0 <= k < |s| ==> !IsDigit(s[k])
  {
    match FirstDigit(s, 0)
    case None => None
    case Some(j) => Some(s[j..PlainEnd(s, j)])
  }

  /** The plain token at `j` and what normalisation makes of it. */
  lemma {:induction false} PlainNormal(s: string, j: nat)
    requires j < |s| && IsDigit(s[j])
    ensures var r := DigitsEnd(s, j);
      var n := Normalize(s[j..PlainEnd(s, j)]);
      IsDecimal(n)
      && Float(n) == if CentsAt(s, r, '.')
                     then (DigitsValue(s[j..r]) * 100 + DigitsValue(s[r + 1..r + 3])) as real
                     else DigitsValue(s[j..r]) as real
  {
    var r := DigitsEnd(s, j);
    var d := s[j..r];
    assert AllDigits(d) && d != [];
    if CentsAt(s, r, '.') {
      var c := s[r + 1..r + 3];
      assert AllDigits(c);
      assert s[j..PlainEnd(s, j)] == d + "." + c;
      PlainCentsValue(d, c);
    } else {
      assert s[j..PlainEnd(s, j)] == d;
      PlainWholeValue(d);
    }
  }

  /** A token `d.cc` normalises to `dcc`, worth `100 * d + cc`. */
  lemma PlainCentsValue(d: string, c: string)
    requires AllDigits(d) && d != [] && AllDigits(c) && |c| == 2
    ensures IsDecimal(Normalize(d + "." + c))
    ensures Float(Normalize(d + "." + c)) == (DigitsValue(d) * 100 + DigitsValue(c)) as real
  {
    NormalizePoint(d, c);
    FloatWhole(d + c);
    DigitsValueAppend(d, c);
    assert Pow10(2) == 100;
  }

  /** A token of digits only is kept by normalisation and read as its value. */
  lemma PlainWholeValue(d: string)
    requires AllDigits(d) && d != []
    ensures IsDecimal(Normalize(d)) && Float(Normalize(d)) == DigitsValue(d) as real
  {
    NormalizeDigits(d);
    FloatWhole(d);
  }

  /** The amount of a plain message: its token with every dot deleted, or 0. */
  function PlainAmount(s: string): (x: real)
    ensures x >= 0.0
    ensures PlainToken(s).None? ==> x == 0.0
  {
    match FirstDigit(s, 0)
    case None => 0.0
    case Some(j) =>
      PlainNormal(s, j);
      Float(Normalize(s[j..PlainEnd(s, j)]))
  }

  /**
   * The value of a plain amount: the first run of digits, and when `.dd`
   * follows it the two decimals are appended as further digits, so that
   * `12.50` is read as 1250.
   */
  lemma {:induction false} PlainAmountValue(s: string, j: nat)
    requires FirstDigit(s, 0) == Some(j)
    ensures var r := DigitsEnd(s, j);
      PlainAmount(s) == if CentsAt(s, r, '.')
                        then (DigitsValue(s[j..r]) * 100 + DigitsValue(s[r + 1..r + 3])) as real
                        else DigitsValue(s[j..r]) as real
  {
    PlainNormal(s, j);
  }

  /** A number written out in full is read back, whatever follows after a space. */
  lemma {:induction false} PlainRoundTrip(pre: string, n: nat, post: string)
    requires forall k :: 0 <= k < |pre| ==> !IsDigit(pre[k])
    requires post == [] || IsSpace(post[0])
    ensures PlainAmount(pre + NatText(n) + post) == n as real
  {
    var s := pre + NatText(n) + post;
    var t := NatText(n);
    var j := |pre|;
    assert FirstDigit(s, 0) == Some(j) by {
      FirstDigitAt(s, j);
    }
    assert s[j..j + |t|] == t;
    DigitsEndOver(s, j, t);
    PlainAmountValue(s, j);
    NatTextValue(n);
  }

  /** Pesos with a decimal-point fraction come out a hundred times too large. */
  lemma {:induction false} PlainCentsShift(n: nat, c: nat)
    requires c <= 99
    ensures PlainAmount(NatText(n) + "." + Pad2(c)) == (n * 100 + c) as real
  {
    var t := NatText(n);
    var s := t + "." + Pad2(c);
    FirstDigitAt(s, 0);
    assert s[0..|t|] == t;
    DigitsEndOver(s, 0, t);
    assert s[|t| + 1..|t| + 3] == Pad2(c);
    PlainAmountValue(s, 0);
    NatTextValue(n);
    Pad2Value(c);
  }

  /** A comma is not part of the plain pattern: `150,00` is read as 150. */
  lemma {:induction false} PlainCommaStops(n: nat, c: nat)
    requires c <= 99
    ensures PlainAmount(NatText(n) + "," + Pad2(c)) == n as real
  {
    var t := NatText(n);
    var s := t + "," + Pad2(c);
    FirstDigitAt(s, 0);
    assert s[0..|t|] == t;
    DigitsEndOver(s, 0, t);
    PlainAmountValue(s, 0);
    NatTextValue(n);
  }

  lemma {:induction false} FirstDigitAt(s: string, j: nat)
    requires j < |s| && IsDigit(s[j])
    requires forall k :: 0 <= k < j ==> !IsDigit(s[k])
    ensures FirstDigit(s, 0) == Some(j)
  {
    var r := FirstDigit(s, 0);
    assert r.Some?;
    assert !(r.value < j) && !(r.value > j);
  }

  /** A run of digits `t` at `j` that is not followed by a digit ends where `t` does. */
  lemma {:induction false} DigitsEndOver(s: string, j: nat, t: string)
    requires j + |t| <= |s| && s[j..j + |t|] == t && t != [] && AllDigits(t)
    requires j + |t| == |s| || !IsDigit(s[j + |t|])
    ensures DigitsEnd(s, j) == j + |t|
  {
    var e := DigitsEnd(s, j);
    assert forall k :: j <= k < j + |t| ==> IsDigit(s[k]) by {
      forall k | j <= k < j + |t| ensures IsDigit(s[k]) {
        assert s[k] == t[k - j];
      }
    }
    assert !(e < j + |t|) && !(e > j + |t|);
  }

  // ---------------------------------------------------------------------
  // Attachments: `re.findall(r"\$\s?(\d{1,3}(?:\.\d{3})*(?:,\d{2})?)", text)[0]`.
  // ---------------------------------------------------------------------

  /** `\$\s?` at `i` followed by a digit: where the digits of the group start. */
  function OcrDigitsAt(s: string, i: nat): (r: Option<nat>)
    ensures r.Some? ==> i < |s| && s[i] == '$' && r.value < |s| && IsDigit(s[r.value])
    ensures r.Some? ==> r.value == i + 1 || (r.value == i + 2 && IsSpace(s[i + 1]))
  {
    if i + 1 < |s| && s[i] == '$' then
      if IsSpace(s[i + 1]) && i + 2 < |s| && IsDigit(s[i + 2]) then Some(i + 2)
      else if IsDigit(s[i + 1]) then Some(i + 1)
      else None
    else
      None
  }

  /** The first position at or after `i` where the attachment pattern matches. */
  function FirstOcr(s: string, i: nat): (r: Option<nat>)
    requires i <= |s|
    ensures r.Some? ==> i <= r.value < |s| && OcrDigitsAt(s, r.value).Some?
    ensures r.Some? ==> forall k :: i <= k < r.value ==> OcrDigitsAt(s, k).None?
    ensures r.None? ==> forall k :: i <= k < |s| ==> OcrDigitsAt(s, k).None?
    decreases |s| - i
  {
    if i == |s| then None
    else if OcrDigitsAt(s, i).Some? then Some(i)
    else FirstOcr(s, i + 1)
  }

  /** `\d{1,3}`, greedy: at most three digits of the run at `j`. */
  function LeadEnd(s: string, j: nat): (e: nat)
    requires j <= |s|
  {
    var r := DigitsEnd(s, j);
    if r - j > 3 then j + 3 else r
  }

  /** A thousands group `.ddd` at `p`. */
  predicate GroupAt(s: string, p: nat) {
    p + 4 <= |s| && s[p] == '.' && IsDigit(s[p + 1]) && IsDigit(s[p + 2]) && IsDigit(s[p + 3])
  }

  /** `(?:\.\d{3})*`, greedy: as many thousands groups as follow `p`. */
  function GroupsEnd(s: string, p: nat): (e: nat)
    requires p <= |s|
    ensures p <= e <= |s|
    ensures forall k :: p <= k < e ==> IsDigit(s[k]) || s[k] == '.'
    ensures !GroupAt(s, e)
    decreases |s| - p
  {
    if GroupAt(s, p) then GroupsEnd(s, p + 4) else p
  }

  /** The end of the attachment group whose digits start at `j`. */
  function OcrEnd(s: string, j: nat): (e: nat)
    requires j <= |s|
  {
    var g := GroupsEnd(s, LeadEnd(s, j));
    if CentsAt(s, g, ',') then g + 3 else g
  }

  /** `ocr_numbers[0]`, or `None` when `ocr_numbers` is empty. */
  function OcrToken(s: string): (r: Option<string>)
    ensures r.None? <==> forall k :: 0 <= k < |s| ==> OcrDigitsAt(s, k).None?
  {
    match FirstOcr(s, 0)
    case None => None
    case Some(i) =>
      var j := OcrDigitsAt(s, i).value;
      Some(s[j..OcrEnd(s, j)])
  }

  /** Deleting the dots of digits and dots leaves digits. */
  lemma {:induction false} RemoveDots(t: string)
    requires forall k :: 0 <= k < |t| ==> IsDigit(t[k]) || t[k] == '.'
    ensures AllDigits(Remove(t, '.'))
    ensures t != [] && IsDigit(t[0]) ==> Remove(t, '.') != []
  {
    if t != [] {
      RemoveDots(t[1..]);
    }
  }

  /** The leading and thousands groups at `j` hold digits and dots, at least one digit first. */
  lemma {:induction false} GroupedDigits(s: string, j: nat)
    requires j < |s| && IsDigit(s[j])
    ensures var g := GroupsEnd(s, LeadEnd(s, j));
      j < g && AllDigits(Remove(s[j..g], '.')) && Remove(s[j..g], '.') != []
  {
    var g := GroupsEnd(s, LeadEnd(s, j));
    var u := s[j..g];
    assert forall k :: 0 <= k < |u| ==> IsDigit(u[k]) || u[k] == '.' by {
      forall k | 0 <= k < |u| ensures IsDigit(u[k]) || u[k] == '.' {
        assert u[k] == s[j + k];
      }
    }
    assert j < g && u[0] == s[j];
    RemoveDots(u);
  }

  lemma {:induction false} FloatComma(u: string, c: string)
    requires AllDigits(Remove(u, '.')) && Remove(u, '.') != [] && |c| == 2 && AllDigits(c)
    ensures IsDecimal(Normalize(u + "," + c))
    ensures Float(Normalize(u + "," + c)) == DigitsValue(Remove(u, '.')) as real + DigitsValue(c) as real / 100.0
  {
    NormalizeComma(u, c);
    FloatCents(Remove(u, '.'), c);
  }

  lemma {:induction false} FloatGrouped(u: string)
    requires AllDigits(Remove(u, '.')) && Remove(u, '.') != []
    ensures IsDecimal(Normalize(u)) && Float(Normalize(u)) == DigitsValue(Remove(u, '.')) as real
  {
    var d := Remove(u, '.');
    DigitsExclude(d, ',');
    ReplaceAbsent(d, ',', '.');
    FloatWhole(d);
  }

  /** A token followed by a comma and two more characters, as one slice. */
  lemma SliceCents(s: string, j: nat, g: nat)
    requires j <= g && g + 3 <= |s| && s[g] == ','
    ensures s[j..g + 3] == s[j..g] + "," + s[g + 1..g + 3]
  {
  }

  /** The attachment token at `j`, whose groups end at `g`, and what normalisation makes of it. */
  lemma {:induction false} OcrNormal(s: string, j: nat, g: nat)
    requires j < |s| && IsDigit(s[j]) && g == GroupsEnd(s, LeadEnd(s, j))
    ensures j < g && AllDigits(Remove(s[j..g], '.'))
    ensures IsDecimal(Normalize(s[j..OcrEnd(s, j)]))
    ensures Float(Normalize(s[j..OcrEnd(s, j)]))
            == DigitsValue(Remove(s[j..g], '.')) as real
               + if CentsAt(s, g, ',') then DigitsValue(s[g + 1..g + 3]) as real / 100.0 else 0.0
  {
    GroupedDigits(s, j);
    if CentsAt(s, g, ',') {
      assert OcrEnd(s, j) == g + 3;
      OcrNormalCents(s, j, g);
    } else {
      assert OcrEnd(s, j) == g;
      FloatGrouped(s[j..g]);
    }
  }

  lemma OcrNormalCents(s: string, j: nat, g: nat)
    requires j < g && CentsAt(s, g, ',')
    requires AllDigits(Remove(s[j..g], '.')) && Remove(s[j..g], '.') != []
    ensures IsDecimal(Normalize(s[j..g + 3]))
    ensures Float(Normalize(s[j..g + 3]))
            == DigitsValue(Remove(s[j..g], '.')) as real + DigitsValue(s[g + 1..g + 3]) as real / 100.0
  {
    var c := s[g + 1..g + 3];
    assert AllDigits(c);
    SliceCents(s, j, g);
    FloatComma(s[j..g], c);
  }

  /** The amount read from an attachment's text: its first `$` amount, or `Verifique`. */
  function OcrAmount(text: string): (a: Amount)
    ensures a.Verifique? <==> OcrToken(text).None?
    ensures a.Num? ==> a.value >= 0.0
  {
    match FirstOcr(text, 0)
    case None => Verifique
    case Some(i) =>
      var j := OcrDigitsAt(text, i).value;
      OcrNormal(text, j, GroupsEnd(text, LeadEnd(text, j)));
      Num(Float(Normalize(text[j..OcrEnd(text, j)])))
  }

  /**
   * The value of an attachment amount: the digits of the leading group and
   * the thousands groups, plus the two decimals after a comma.
   */
  lemma {:induction false} OcrAmountValue(s: string, i: nat, j: nat, g: nat)
    requires FirstOcr(s, 0) == Some(i) && OcrDigitsAt(s, i) == Some(j)
    requires g == GroupsEnd(s, LeadEnd(s, j))
    ensures j < g && AllDigits(Remove(s[j..g], '.'))
    ensures OcrAmount(s) == Num(DigitsValue(Remove(s[j..g], '.')) as real
                                + if CentsAt(s, g, ',') then DigitsValue(s[g + 1..g + 3]) as real / 100.0 else 0.0)
  {
    assert j < g && AllDigits(Remove(s[j..g], '.')) by {
      OcrNormal(s, j, g);
    }
    var x := DigitsValue(Remove(s[j..g], '.')) as real
             + if CentsAt(s, g, ',') then DigitsValue(s[g + 1..g + 3]) as real / 100.0 else 0.0;
    var n := Normalize(s[j..OcrEnd(s, j)]);
    assert IsDecimal(n) && Float(n) == x by {
      OcrNormal(s, j, g);
    }
    assert OcrAmount(s) == Num(Float(n)) by {
      OcrAmountAt(s, i, j);
    }
  }

  lemma OcrAmountAt(s: string, i: nat, j: nat)
    requires FirstOcr(s, 0) == Some(i) && OcrDigitsAt(s, i) == Some(j)
    ensures IsDecimal(Normalize(s[j..OcrEnd(s, j)]))
    ensures OcrAmount(s) == Num(Float(Normalize(s[j..OcrEnd(s, j)])))
  {
    OcrNormal(s, j, GroupsEnd(s, LeadEnd(s, j)));
  }

  // ---------------------------------------------------------------------
  // Receipts written with thousands separators are read back exactly.
  // ---------------------------------------------------------------------

  /** The leading group of `n` written with thousands separators. */
  function Lead(n: nat): (l: nat)
    ensures l < 1000
  {
    if n < 1000 then n else Lead(n / 1000)
  }

  /** The `.ddd` groups of `n` written with thousands separators. */
  function Groups(n: nat): string {
    if n < 1000 then [] else Groups(n / 1000) + "." + Pad3(n % 1000)
  }

  /** `n` as a receipt prints it: `1.234.567`. */
  function Thousands(n: nat): string {
    NatText(Lead(n)) + Groups(n)
  }

  /** A string made of `.ddd` groups, read from the front. */
  predicate IsGroups(g: string)
    decreases |g|
  {
    g == [] || (GroupAt(g, 0) && IsGroups(g[4..]))
  }

  lemma {:induction false} GroupsAppend(g: string, r: nat)
    requires IsGroups(g) && r <= 999
    ensures IsGroups(g + "." + Pad3(r))
    decreases |g|
  {
    var h := g + "." + Pad3(r);
    if g == [] {
      assert h == "." + Pad3(r);
      assert h[4..] == [];
    } else {
      assert h[4..] == g[4..] + "." + Pad3(r);
      GroupsAppend(g[4..], r);
    }
  }

  lemma {:induction false} GroupsShape(n: nat)
    ensures IsGroups(Groups(n))
    ensures Groups(n) == [] || Groups(n)[0] == '.'
  {
    if n >= 1000 {
      GroupsShape(n / 1000);
      GroupsAppend(Groups(n / 1000), n % 1000);
    }
  }

  lemma {:induction false} RemoveGroup(t: string, p: string)
    requires AllDigits(p)
    ensures Remove(t + (['.'] + p), '.') == Remove(t, '.') + p
  {
    RemoveAppend(t, ['.'] + p, '.');
    RemoveAppend(['.'], p, '.');
    DigitsExclude(p, '.');
    RemoveAbsent(p, '.');
    assert Remove(['.'], '.') == [];
    assert [] + p == p;
    assert Remove(['.'] + p, '.') == p;
  }

  lemma ThousandsSplit(n: nat)
    requires n >= 1000
    ensures Remove(Thousands(n), '.') == Remove(Thousands(n / 1000), '.') + Pad3(n % 1000)
  {
    assert Thousands(n) == Thousands(n / 1000) + (['.'] + Pad3(n % 1000));
    RemoveGroup(Thousands(n / 1000), Pad3(n % 1000));
  }

  /** Three more digits after a number written in digits. */
  lemma ThousandsStep(d: string, q: nat, r: nat)
    requires AllDigits(d) && DigitsValue(d) == q && r <= 999
    ensures AllDigits(d + Pad3(r)) && DigitsValue(d + Pad3(r)) == q * 1000 + r
  {
    DigitsValueAppend(d, Pad3(r));
    Pad3Value(r);
    assert Pow10(3) == 1000;
  }

  /** Deleting the separators of `Thousands(n)` gives digits worth `n`. */
  lemma {:induction false} ThousandsValue(n: nat)
    ensures AllDigits(Remove(Thousands(n), '.'))
    ensures DigitsValue(Remove(Thousands(n), '.')) == n
  {
    if n < 1000 {
      assert Thousands(n) == NatText(n);
      DigitsExclude(NatText(n), '.');
      RemoveAbsent(NatText(n), '.');
      NatTextValue(n);
    } else {
      ThousandsSplit(n);
      ThousandsValue(n / 1000);
      ThousandsStep(Remove(Thousands(n / 1000), '.'), n / 1000, n % 1000);
    }
  }

  /** Greedy `(?:\.\d{3})*` over groups `g` at `p` stops right after them. */
  lemma {:induction false} GroupsEndOver(s: string, p: nat, g: string)
    requires p + |g| <= |s| && s[p..p + |g|] == g && IsGroups(g)
    requires !GroupAt(s, p + |g|)
    ensures GroupsEnd(s, p) == p + |g|
    decreases |g|
  {
    if g != [] {
      assert s[p..p + 4] == g[..4];
      assert GroupAt(s, p);
      assert s[p + 4..p + 4 + |g[4..]|] == g[4..];
      GroupsEndOver(s, p + 4, g[4..]);
    } else {
      assert !GroupAt(s, p);
    }
  }

  /** An amount with optional cents, as a receipt prints it. */
  function Price(n: nat, cents: Option<nat>): string
    requires cents.Some? ==> cents.value <= 99
  {
    "$" + Thousands(n) + (if cents.Some? then "," + Pad2(cents.value) else "")
  }

  /** A `$` amount after text without a `$` is the first match. */
  lemma {:induction false} FirstOcrAt(s: string, i: nat)
    requires i < |s| && OcrDigitsAt(s, i).Some?
    requires forall k :: 0 <= k < i ==> s[k] != '$'
    ensures FirstOcr(s, 0) == Some(i)
  {
    var r := FirstOcr(s, 0);
    assert r.Some?;
    assert !(r.value < i) && !(r.value > i);
  }

  /**
   * `Thousands(n)` at `j`, followed by the end, a comma or a space, is read
   * whole by the leading and thousands groups of the pattern.
   */
  lemma {:induction false} ThousandsRead(s: string, j: nat, n: nat)
    requires j + |Thousands(n)| <= |s| && s[j..j + |Thousands(n)|] == Thousands(n)
    requires var g := j + |Thousands(n)|; g == |s| || s[g] == ',' || IsSpace(s[g])
    ensures GroupsEnd(s, LeadEnd(s, j)) == j + |Thousands(n)|
  {
    var l := NatText(Lead(n));
    var grp := Groups(n);
    var a := j + |l|;
    SliceParts(s, j, l, grp);
    GroupsShape(n);
    LeadStops(s, a, grp);
    DigitsEndOver(s, j, l);
    NatTextShort(Lead(n));
    assert LeadEnd(s, j) == a;
    GroupsEndOver(s, a, grp);
  }

  /** A slice that is a concatenation splits into the two parts. */
  lemma SliceParts(s: string, j: nat, l: string, r: string)
    requires j + |l| + |r| <= |s| && s[j..j + |l| + |r|] == l + r
    ensures s[j..j + |l|] == l && s[j + |l|..j + |l| + |r|] == r
  {
    var t := s[j..j + |l| + |r|];
    assert t[..|l|] == l && t[|l|..] == r;
  }

  /** The leading digits stop where the groups, or the text after them, begin. */
  lemma LeadStops(s: string, a: nat, grp: string)
    requires a + |grp| <= |s| && s[a..a + |grp|] == grp
    requires grp == [] || grp[0] == '.'
    requires var g := a + |grp|; g == |s| || s[g] == ',' || IsSpace(s[g])
    ensures a == |s| || !IsDigit(s[a])
  {
    if a < |s| && grp != [] {
      assert s[a] == grp[0];
    }
  }

  /** Where the parts of `pre + Price(n, cents) + post` lie. */
  lemma PriceLayout(pre: string, n: nat, cents: Option<nat>, post: string)
    requires cents.Some? ==> cents.value <= 99
    requires '$' !in pre
    ensures var s := pre + Price(n, cents) + post;
      var j := |pre| + 1;
      var g := j + |Thousands(n)|;
      |s| == g + (if cents.Some? then 3 else 0) + |post|
      && (forall k :: 0 <= k < |pre| ==> s[k] != '$') && s[|pre|] == '$' && s[j..g] == Thousands(n)
      && (cents.Some? ==> s[g] == ',' && s[g + 1..g + 3] == Pad2(cents.value))
      && s[|s| - |post|..] == post
  {
  }

  /**
   * A receipt amount after text without a `$`, and followed by nothing or a
   * space, is read back as its value.
   */
  lemma {:induction false} OcrRoundTrip(pre: string, n: nat, cents: Option<nat>, post: string)
    requires cents.Some? ==> cents.value <= 99
    requires '$' !in pre
    requires post == [] || IsSpace(post[0])
    ensures OcrAmount(pre + Price(n, cents) + post)
            == Num(n as real + if cents.Some? then cents.value as real / 100.0 else 0.0)
  {
    var s := pre + Price(n, cents) + post;
    PriceLayout(pre, n, cents, post);
    var g := |pre| + 1 + |Thousands(n)|;
    if cents.Some? {
      CommaCents(s, g, cents.value);
    } else {
      assert g == |s| || IsSpace(s[g]) by {
        if g < |s| {
          assert s[g] == s[|s| - |post|..][0];
        }
      }
    }
    OcrReadsPrice(s, |pre|, g, n, cents);
  }

  /** The pattern reads a price laid out at `i` after text without a `$`. */
  lemma {:induction false} OcrReadsPrice(s: string, i: nat, g: nat, n: nat, cents: Option<nat>)
    requires cents.Some? ==> cents.value <= 99
    requires g == i + 1 + |Thousands(n)| && g <= |s|
    requires s[i] == '$' && s[i + 1..g] == Thousands(n)
    requires forall k :: 0 <= k < i ==> s[k] != '$'
    requires cents.Some? ==> CentsAt(s, g, ',') && s[g + 1..g + 3] == Pad2(cents.value)
    requires cents.None? ==> g == |s| || IsSpace(s[g])
    ensures OcrAmount(s) == Num(n as real + if cents.Some? then cents.value as real / 100.0 else 0.0)
  {
    var j := i + 1;
    var t := Thousands(n);
    assert t != [] && IsDigit(t[0]);
    assert s[j] == t[0];
    assert OcrDigitsAt(s, i) == Some(j);
    FirstOcrAt(s, i);
    assert g == |s| || s[g] == ',' || IsSpace(s[g]);
    ThousandsRead(s, j, n);
    OcrAmountValue(s, i, j, g);
    PriceValue(s, j, g, n, cents);
  }

  /** Two digits written after a comma make a `,\d{2}` group. */
  lemma CommaCents(s: string, g: nat, c: nat)
    requires c <= 99 && g + 3 <= |s| && s[g] == ',' && s[g + 1..g + 3] == Pad2(c)
    ensures CentsAt(s, g, ',')
  {
    assert s[g + 1] == Pad2(c)[0] && s[g + 2] == Pad2(c)[1];
  }

  /** The value the pattern reads from `Price(n, cents)` laid out at `j`. */
  lemma PriceValue(s: string, j: nat, g: nat, n: nat, cents: Option<nat>)
    requires j <= g <= |s| && s[j..g] == Thousands(n) && AllDigits(Remove(s[j..g], '.'))
    requires cents.Some? ==> cents.value <= 99 && CentsAt(s, g, ',') && s[g + 1..g + 3] == Pad2(cents.value)
    requires cents.None? ==> !CentsAt(s, g, ',')
    ensures DigitsValue(Remove(s[j..g], '.')) as real
            + (if CentsAt(s, g, ',') then DigitsValue(s[g + 1..g + 3]) as real / 100.0 else 0.0)
            == n as real + if cents.Some? then cents.value as real / 100.0 else 0.0
  {
    ThousandsValue(n);
    if cents.Some? {
      Pad2Value(cents.value);
    }
  }

  /** `$1.234,56` is read as 1234.56. */
  lemma OcrExample()
    ensures OcrAmount("$1.234,56") == Num(1234.56)
  {
    assert "" + Price(1234, Some(56)) + "" == "$1.234,56" by {
      PriceExample();
    }
    OcrRoundTrip("", 1234, Some(56), "");
  }

  lemma PriceExample()
    ensures Price(1234, Some(56)) == "$1.234,56"
  {
    assert Thousands(1234) == "1.234" by {
      assert Lead(1234) == 1 && NatText(1) == "1";
      assert Groups(1234) == "." + Pad3(234) by {
        assert Groups(1) == [];
      }
      assert Pad3(234) == "234";
    }
    assert Pad2(56) == "56";
  }

  /**
   * Without separators `\d{1,3}` stops after three digits, and the digit
   * that follows lets neither a thousands group nor the cents match: `$12345`
   * is read as 123.
   */
  lemma {:induction false} OcrUnseparated(d: string)
    requires d != [] && AllDigits(d)
    ensures OcrAmount("$" + d) == Num(DigitsValue(d[..if |d| <= 3 then |d| else 3]) as real)
  {
    var s := "$" + d;
    var m := if |d| <= 3 then |d| else 3;
    var l := 1 + m;
    assert s[1] == d[0];
    assert OcrDigitsAt(s, 0) == Some(1);
    FirstOcrAt(s, 0);
    assert s[1..1 + |d|] == d;
    DigitsEndOver(s, 1, d);
    assert LeadEnd(s, 1) == l;
    assert l == |s| || IsDigit(s[l]) by {
      if l < |s| {
        assert s[l] == d[m];
      }
    }
    assert GroupsEnd(s, l) == l;
    assert !CentsAt(s, l, ',');
    OcrAmountValue(s, 0, 1, l);
    assert s[1..l] == d[..m];
    DigitsExclude(d[..m], '.');
    RemoveAbsent(d[..m], '.');
  }

  /** Without a `$` nothing is read, whatever digits the text holds. */
  lemma {:induction false} OcrNeedsDollar(s: string)
    requires '$' !in s
    ensures OcrAmount(s) == Verifique
  {
    forall k | 0 <= k < |s| ensures OcrDigitsAt(s, k).None? {
      assert s[k] != '$';
    }
  }
}
