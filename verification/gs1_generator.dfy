/**
  * `Gs1Generator`: an Application Identifier record. It is built from a keyed array, read back
  * from text by a fixed sequence of regular expressions, and written out in a fixed order.
  * Weights are kept as whole hundredths; the other values are kept as the text they came from.
  */
module Gs1Generator {
  import opened Wrappers
  import opened Decimal

  // ---------------------------------------------------------------------------------------
  // The record
  // ---------------------------------------------------------------------------------------

  /** One entry of the `data` array: an AI key and its value, both as text. */
  datatype Entry = Entry(key: string, value: string)

  /** Every field of a generator object, as a value. */
  datatype Record = Record(
    data: seq<Entry>,
    gs1: Option<string>,
    sscc: Option<string>,
    gtin: Option<string>,
    content: Option<string>,
    netWeight: Option<int>,
    grossWeight: Option<int>,
    batch: Option<string>,
    serial: Option<string>,
    productionDate: Option<string>,
    expirationDate: Option<string>,
    pieces: Option<string>)

  /** The record with every field null and no data. */
  const Blank: Record := Record([], None, None, None, None, None, None, None, None, None, None, None)

  /** `$data[$key] ?? null`: the value of the first entry with that key. */
  function Lookup(data: seq<Entry>, key: string): (r: Option<string>)
    ensures r.Some? ==> Entry(key, r.value) in data
    ensures r.None? ==> forall e | e in data :: e.key != key
  {
    if data == [] then None
    else if data[0].key == key then Some(data[0].value)
    else Lookup(data[1..], key)
  }

  /** A PHP array holds each key once; a model list may repeat one, and then `Lookup` takes the first. */
  predicate DistinctKeys(data: seq<Entry>) {
    forall i, j | 0 <= i < j < |data| :: data[i].key != data[j].key
  }

  /** With each key held once, as in a PHP array, every entry is found under its own key. */
  lemma {:induction false} LookupDistinct(data: seq<Entry>, i: nat)
    requires DistinctKeys(data) && i < |data|
    ensures Lookup(data, data[i].key) == Some(data[i].value)
    decreases i
  {
    if i > 0 {
      assert data[0].key != data[i].key;
      assert data[1..][i - 1] == data[i];
      assert DistinctKeys(data[1..]) by {
        forall a, b | 0 <= a < b < |data[1..]|
          ensures data[1..][a].key != data[1..][b].key
        {
          assert data[1..][a] == data[a + 1] && data[1..][b] == data[b + 1];
        }
      }
      LookupDistinct(data[1..], i - 1);
    }
  }

  /**
    * What the constructor stores for `data`. `hundredths` stands for `(int) round($v * 100)`
    * and `perPound` for the pound conversion of a 3201 value, both floating-point arithmetic.
    * Keys 10 and 17 go to the expiration date and the batch, as written.
    */
  function FromData(data: seq<Entry>, hundredths: string -> int, perPound: string -> int): Record {
    var net := if Lookup(data, "3102").Some? then Some(hundredths(Lookup(data, "3102").value)) else None;
    Record(
      data, None, Lookup(data, "0"), Lookup(data, "1"), Lookup(data, "2"),
      if Lookup(data, "3201").Some? then Some(perPound(Lookup(data, "3201").value)) else net,
      if Lookup(data, "3302").Some? then Some(hundredths(Lookup(data, "3302").value)) else None,
      Lookup(data, "17"), Lookup(data, "21"), Lookup(data, "11"), Lookup(data, "10"), Lookup(data, "37"))
  }

  // ---------------------------------------------------------------------------------------
  // The patterns `([\(]?CODE[\)]?)(VALUE)`
  // ---------------------------------------------------------------------------------------

  /** The value part of a pattern: `[0-9]{n}`, the YYMMDD date, or `[0-9]{1,20}`. */
  datatype Kind = Digits(n: nat) | Date | Run

  /** `\d{2}(?:0\d|1[0-2])(?:[0-2]\d|3[01])`: two digits, a month 00-12, a day 00-31. */
  predicate IsDate(v: string) {
    && |v| == 6
    && AllDigits(v)
    && (v[2] == '0' || (v[2] == '1' && '0' <= v[3] <= '2'))
    && ('0' <= v[4] <= '2' || (v[4] == '3' && (v[5] == '0' || v[5] == '1')))
  }

  /** The texts a value part of the given kind matches. */
  predicate FitsKind(v: string, kind: Kind) {
    match kind
    case Digits(n) => |v| == n && AllDigits(v)
    case Date => IsDate(v)
    case Run => 1 <= |v| <= 20 && AllDigits(v)
  }

  /** The texts `[\(]?CODE[\)]?` matches. */
  predicate Framed(h: string, code: string) {
    h == code || h == "(" + code || h == code + ")" || h == "(" + code + ")"
  }

  /**
    * The length of the code part matched at the start of `t`. Both optional parentheses are
    * taken when present; giving one back never helps, since codes and values are digits.
    */
  function HeadLength(t: string, code: string): (n: Option<nat>)
    ensures n.Some? ==> n.value <= |t|
  {
    var a := if |t| > 0 && t[0] == '(' then 1 else 0;
    var b := a + |code|;
    if b <= |t| && t[a..b] == code then
      if b < |t| && t[b] == ')' then Some(b + 1) else Some(b)
    else None
  }

  /** What `HeadLength` measures is a framed code. */
  lemma HeadLengthFramed(t: string, code: string)
    requires HeadLength(t, code).Some?
    ensures Framed(t[..HeadLength(t, code).value], code)
  {
    var a := if |t| > 0 && t[0] == '(' then 1 else 0;
    var b := a + |code|;
    assert t[..b] == t[..a] + code;
    if b < |t| && t[b] == ')' {
      assert t[..b + 1] == t[..a] + code + ")";
    }
  }

  /** The length of the value part matched at the start of `t`; `[0-9]{1,20}` is greedy. */
  function ValueLength(t: string, kind: Kind): (n: Option<nat>)
    ensures n.Some? ==> n.value <= |t|
  {
    match kind
    case Digits(k) => if k <= |t| && AllDigits(t[..k]) then Some(k) else None
    case Date => if 6 <= |t| && IsDate(t[..6]) then Some(6) else None
    case Run =>
      var d := |LeadingDigits(t)|;
      if d == 0 then None else Some(Min(d, 20))
  }

  /** What `ValueLength` measures fits the kind, and a digit run stops only where it must. */
  lemma ValueLengthFits(t: string, kind: Kind)
    requires ValueLength(t, kind).Some?
    ensures var n := ValueLength(t, kind).value;
      && FitsKind(t[..n], kind)
      && (kind == Run ==> n == 20 || n == |t| || !IsDigit(t[n]))
  {
  }

  /** A match: where it starts, its whole text (`$m[0]`) and the captured value (`$m[2]`). */
  datatype Match = Match(start: nat, whole: string, text: string)

  /** The pattern for `code` and `kind`, tried at position `i` of `s`. */
  function MatchAt(s: string, i: nat, code: string, kind: Kind): (m: Option<Match>)
    requires i <= |s|
    ensures m.Some? ==> m.value.start == i && i + |m.value.whole| <= |s|
  {
    var t := s[i..];
    match HeadLength(t, code)
    case None => None
    case Some(h) =>
      match ValueLength(t[h..], kind)
      case None => None
      case Some(n) => Some(Match(i, t[..h + n], t[h..][..n]))
  }

  /**
    * A match is the text of `s` at `i`: a framed code followed by a value of the kind, and a
    * `[0-9]{1,20}` value stops only at its twentieth digit or before a character that is not
    * a digit.
    */
  lemma MatchShape(s: string, i: nat, code: string, kind: Kind)
    requires i <= |s| && MatchAt(s, i, code, kind).Some?
    ensures var m := MatchAt(s, i, code, kind).value;
      && |m.text| <= |m.whole|
      && (forall j | 0 <= j < |m.whole| :: m.whole[j] == s[i + j])
      && Framed(m.whole[..|m.whole| - |m.text|], code)
      && m.whole[|m.whole| - |m.text|..] == m.text
      && FitsKind(m.text, kind)
      && (kind == Run ==> |m.text| == 20 || i + |m.whole| == |s| || !IsDigit(s[i + |m.whole|]))
  {
    var t := s[i..];
    var h := HeadLength(t, code).value;
    var u := t[h..];
    var n := ValueLength(u, kind).value;
    HeadLengthFramed(t, code);
    ValueLengthFits(u, kind);
    var m := MatchAt(s, i, code, kind).value;
    assert m == Match(i, t[..h + n], u[..n]);
    assert |m.whole| == h + n && |m.text| == n;
    assert m.whole[..h] == t[..h];
    assert m.whole[h..] == m.text;
    assert FitsKind(m.text, kind);
    forall j | 0 <= j < |m.whole|
      ensures m.whole[j] == s[i + j]
    {
      assert m.whole[j] == t[j];
    }
    assert |u| == |s| - i - h;
    if kind == Run {
      assert n == 20 || n == |u| || !IsDigit(u[n]);
      if n < 20 && n < |u| {
        assert u[n] == s[i + |m.whole|];
      }
      assert |m.text| == 20 || i + |m.whole| == |s| || !IsDigit(s[i + |m.whole|]);
    }
  }

  /** `preg_match` from position `i` on: the match that starts leftmost. */
  function FindFrom(s: string, i: nat, code: string, kind: Kind): (m: Option<Match>)
    requires i <= |s|
    ensures m.Some? ==> i <= m.value.start <= |s| && MatchAt(s, m.value.start, code, kind) == m
    decreases |s| - i
  {
    var here := MatchAt(s, i, code, kind);
    if here.Some? then here
    else if i == |s| then None
    else FindFrom(s, i + 1, code, kind)
  }

  /** No position before the one `FindFrom` reports matches. */
  lemma {:induction false} FindFromLeftmost(s: string, i: nat, code: string, kind: Kind)
    requires i <= |s| && FindFrom(s, i, code, kind).Some?
    ensures forall j | i <= j < FindFrom(s, i, code, kind).value.start ::
      MatchAt(s, j, code, kind).None?
    decreases |s| - i
  {
    var here := MatchAt(s, i, code, kind);
    if here.Some? {
      assert FindFrom(s, i, code, kind) == here;
      assert here.value.start == i;
    } else {
      FindFromSkips(s, i, code, kind);
      FindFromLeftmost(s, i + 1, code, kind);
      var m := FindFrom(s, i + 1, code, kind);
      forall j | i <= j < m.value.start
        ensures MatchAt(s, j, code, kind).None?
      {
        if j == i {
          assert MatchAt(s, j, code, kind) == here;
        }
      }
    }
  }

  /** When `FindFrom` reports nothing, no position from `i` to the end matches. */
  lemma {:induction false} FindFromNone(s: string, i: nat, code: string, kind: Kind)
    requires i <= |s| && FindFrom(s, i, code, kind).None?
    ensures forall j | i <= j <= |s| :: MatchAt(s, j, code, kind).None?
    decreases |s| - i
  {
    if i < |s| {
      FindFromSkips(s, i, code, kind);
      FindFromNone(s, i + 1, code, kind);
    }
  }

  /** Where nothing matches at `i`, the search goes on from `i + 1`. */
  lemma FindFromSkips(s: string, i: nat, code: string, kind: Kind)
    requires i < |s| && MatchAt(s, i, code, kind).None?
    ensures FindFrom(s, i, code, kind) == FindFrom(s, i + 1, code, kind)
  {
  }

  /** `preg_match` on the whole of `s`. */
  function Find(s: string, code: string, kind: Kind): (m: Option<Match>)
    ensures m.Some? ==> m.value.start <= |s| && MatchAt(s, m.value.start, code, kind) == m
    ensures m.Some? ==> forall j | 0 <= j < m.value.start :: MatchAt(s, j, code, kind).None?
    ensures m.None? ==> forall j | 0 <= j <= |s| :: MatchAt(s, j, code, kind).None?
  {
    var m := FindFrom(s, 0, code, kind);
    if m.Some? then FindFromLeftmost(s, 0, code, kind); m
    else FindFromNone(s, 0, code, kind); m
  }

  // ---------------------------------------------------------------------------------------
  // `str_replace($p, "", $s)`
  // ---------------------------------------------------------------------------------------

  /** `p` occurs in `s` at position `j`. */
  predicate OccursAt(s: string, j: nat, p: string) {
    j + |p| <= |s| && s[j..j + |p|] == p
  }

  /**
    * `str_replace($p, "", $s)`: one pass from left to right deleting each occurrence of `p`;
    * the text left behind is not searched again.
    */
  function RemoveAll(s: string, p: string): (r: string)
    requires p != []
    ensures |r| <= |s|
    decreases |s|
  {
    if |s| < |p| then s
    else if s[..|p|] == p then RemoveAll(s[|p|..], p)
    else [s[0]] + RemoveAll(s[1..], p)
  }

  // ---------------------------------------------------------------------------------------
  // `parse`
  // ---------------------------------------------------------------------------------------

  /** One pattern's outcome: the captured value, if any, and the scratch string after it. */
  datatype Scanned = Scanned(text: Option<string>, rest: string)

  /**
    * What a match does to the scratch string: its whole text is deleted everywhere. PHP's
    * `str_replace` leaves the subject alone for an empty search string.
    */
  function Strip(s: string, m: Option<Match>): (r: Scanned)
    ensures r.text.Some? <==> m.Some?
    ensures m.Some? ==> r.text.value == m.value.text
  {
    if m.None? then Scanned(None, s)
    else if m.value.whole == [] then Scanned(Some(m.value.text), s)
    else Scanned(Some(m.value.text), RemoveAll(s, m.value.whole))
  }

  /** The anchored GTIN pattern `^([\(]?01[\)]?)([0-9]{14})`. */
  function ScanGtin(s: string): Scanned {
    Strip(s, MatchAt(s, 0, "01", Digits(14)))
  }

  /** One of the unanchored patterns, matched leftmost. */
  function Scan(s: string, code: string, kind: Kind): Scanned {
    Strip(s, Find(s, code, kind))
  }

  /** A record being filled in by `parse`, and the scratch string the next pattern sees. */
  datatype State = State(record: Record, scratch: string)

  /** Lines 99-103: the anchored 01 pattern sets the GTIN. */
  function GtinStep(st: State): State {
    var m := ScanGtin(st.scratch);
    State(st.record.(gtin := if m.text.Some? then m.text else st.record.gtin), m.rest)
  }

  /** Lines 104-108: a 3102 match sets the net weight. */
  function NetWeightStep(st: State): State {
    var m := Scan(st.scratch, "3102", Digits(6));
    State(st.record.(netWeight := if m.text.Some? then Some(ParseNat(m.text.value)) else st.record.netWeight), m.rest)
  }

  /** Lines 109-113: a 3302 match sets the gross weight. */
  function GrossWeightStep(st: State): State {
    var m := Scan(st.scratch, "3302", Digits(6));
    State(st.record.(grossWeight := if m.text.Some? then Some(ParseNat(m.text.value)) else st.record.grossWeight), m.rest)
  }

  /** Lines 114-118: a 3201 match overwrites the net weight with its pound conversion. */
  function PoundsStep(st: State, poundTenths: string -> int): State {
    var m := Scan(st.scratch, "3201", Digits(6));
    State(st.record.(netWeight := if m.text.Some? then Some(poundTenths(m.text.value)) else st.record.netWeight), m.rest)
  }

  /** Lines 119-123: an 11 date sets the production date. */
  function ProductionDateStep(st: State): State {
    var m := Scan(st.scratch, "11", Date);
    State(st.record.(productionDate := if m.text.Some? then m.text else st.record.productionDate), m.rest)
  }

  /** Lines 124-128: a 17 date sets the expiration date. */
  function ExpirationDateStep(st: State): State {
    var m := Scan(st.scratch, "17", Date);
    State(st.record.(expirationDate := if m.text.Some? then m.text else st.record.expirationDate), m.rest)
  }

  /** Lines 129-133: a run of digits after 10 sets the batch. */
  function BatchStep(st: State): State {
    var m := Scan(st.scratch, "10", Run);
    State(st.record.(batch := if m.text.Some? then m.text else st.record.batch), m.rest)
  }

  /** Lines 134-138: a run of digits after 21 sets the serial number. */
  function SerialStep(st: State): State {
    var m := Scan(st.scratch, "21", Run);
    State(st.record.(serial := if m.text.Some? then m.text else st.record.serial), m.rest)
  }

  /**
    * What `parse($input)` returns. The patterns run in the order 01, 3102, 3302, 3201, 11, 17,
    * 10, 21, each on what the earlier ones left. `poundTenths` stands for the floating-point
    * conversion of a 3201 value.
    */
  function ParseSpec(input: string, poundTenths: string -> int): Record {
    SerialStep(BatchStep(ExpirationDateStep(ProductionDateStep(
      PoundsStep(BeforePounds(input), poundTenths))))).record
  }

  /** The state after the 01, 3102 and 3302 patterns. */
  function BeforePounds(input: string): State {
    GrossWeightStep(NetWeightStep(GtinStep(State(Blank.(gs1 := Some(input)), input))))
  }

  // ---------------------------------------------------------------------------------------
  // `__toString` and `get`
  // ---------------------------------------------------------------------------------------

  /** PHP truthiness of a text field: null, "" and "0" are false. */
  predicate Truthy(v: Option<string>) {
    v.Some? && v.value != "" && v.value != "0"
  }

  /** PHP truthiness of a number field: null and 0 are false. */
  predicate TruthyNumber(v: Option<int>) {
    v.Some? && v.value != 0
  }

  /** `$v ? '(CODE)' . $v : null`, joined as text. */
  function Part(code: string, v: Option<string>): string {
    if Truthy(v) then "(" + code + ")" + v.value else ""
  }

  /** The net weight left-padded with zeros to six characters. */
  function NetPart(v: Option<int>): string {
    if TruthyNumber(v) then "(3102)" + LeftPad(IntToString(v.value), 6, '0') else ""
  }

  /** The gross weight right-padded with zeros to six characters, as written. */
  function GrossPart(v: Option<int>): string {
    if TruthyNumber(v) then "(3302)" + RightPad(IntToString(v.value), 6, '0') else ""
  }

  /** `__toString`: the GTIN first, then the fixed order 10, 11, 17, 21, 37, 3102, 3302. */
  function Render(r: Record): string {
    "(01)" + r.gtin.GetOr("") + Tail(r)
  }

  /** The text after the GTIN: the truthy parts in their fixed order. */
  function Tail(r: Record): string {
    Part("10", r.batch) + Part("11", r.productionDate) + Part("17", r.expirationDate)
    + Part("21", r.serial) + Part("37", r.pieces)
    + NetPart(r.netWeight) + GrossPart(r.grossWeight)
  }

  /** The codes `get` selects when none are given. */
  const DefaultCodes: seq<string> := ["1", "21", "17", "3102"]

  /** One selected entry as `(key)value`; 3102 and 3302 values are left-padded to six. */
  function Segment(e: Entry): string {
    "(" + e.key + ")" + (if e.key == "3102" || e.key == "3302" then LeftPad(e.value, 6, '0') else e.value)
  }

  /** `get($codes)`: the entries whose key is among `codes`, in the data's own order. */
  function Select(data: seq<Entry>, codes: seq<string>): string {
    if data == [] then ""
    else (if data[0].key in codes then Segment(data[0]) else "") + Select(data[1..], codes)
  }

  // ---------------------------------------------------------------------------------------
  // Properties of the matcher and of `str_replace`
  // ---------------------------------------------------------------------------------------

  /** Where `p` does not occur, `str_replace` changes nothing. */
  lemma {:induction false} RemoveAllAbsent(s: string, p: string)
    requires p != []
    requires forall j | 0 <= j <= |s| :: !OccursAt(s, j, p)
    ensures RemoveAll(s, p) == s
    decreases |s|
  {
    if |s| >= |p| {
      assert !OccursAt(s, 0, p);
      forall j | 0 <= j <= |s[1..]|
        ensures !OccursAt(s[1..], j, p)
      {
        assert !OccursAt(s, j + 1, p);
        if j + |p| <= |s[1..]| {
          assert s[1..][j..j + |p|] == s[j + 1..j + 1 + |p|];
        }
      }
      RemoveAllAbsent(s[1..], p);
    }
  }

  /** An occurrence at the very start is deleted and the pass goes on after it. */
  lemma RemoveAllLeading(p: string, t: string)
    requires p != []
    ensures RemoveAll(p + t, p) == RemoveAll(t, p)
  {
    var s := p + t;
    assert s[..|p|] == p;
    assert s[|p|..] == t;
  }

  /** Text in front of the first occurrence is kept as it is. */
  lemma {:induction false} RemoveAllKeepsFront(a: string, t: string, p: string)
    requires p != []
    requires forall j | 0 <= j < |a| :: !OccursAt(a + t, j, p)
    ensures RemoveAll(a + t, p) == a + RemoveAll(t, p)
    decreases |a|
  {
    var s := a + t;
    if a != [] && |s| < |p| {
      assert RemoveAll(t, p) == t;
    } else if a != [] {
      assert !OccursAt(s, 0, p);
      assert s[1..] == a[1..] + t;
      NoOccurrenceAfterFirst(a, t, p);
      RemoveAllKeepsFront(a[1..], t, p);
      assert [s[0]] + (a[1..] + RemoveAll(t, p)) == a + RemoveAll(t, p);
    } else {
      assert s == t;
    }
  }

  /** No occurrence starting in `a` means none starting in `a` without its first character. */
  lemma NoOccurrenceAfterFirst(a: string, t: string, p: string)
    requires a != []
    requires forall j | 0 <= j < |a| :: !OccursAt(a + t, j, p)
    ensures forall j | 0 <= j < |a| - 1 :: !OccursAt(a[1..] + t, j, p)
  {
    var s := a + t;
    assert s[1..] == a[1..] + t;
    forall j | 0 <= j < |a| - 1
      ensures !OccursAt(a[1..] + t, j, p)
    {
      assert !OccursAt(s, j + 1, p);
      if j + |p| <= |s[1..]| {
        assert s[1..][j..j + |p|] == s[j + 1..j + 1 + |p|];
      }
    }
  }

  /** A pattern whose code is framed by both parentheses matches the value that follows it. */
  lemma MatchFramed(s: string, code: string, v: string, rest: string, kind: Kind)
    requires |code| >= 1 && IsDigit(code[0]) && FitsKind(v, kind)
    requires kind == Run ==> |v| == 20 || rest == [] || !IsDigit(rest[0])
    requires s == "(" + code + ")" + v + rest
    ensures MatchAt(s, 0, code, kind) == Some(Match(0, "(" + code + ")" + v, v))
  {
    var h := "(" + code + ")";
    var t := s[0..];
    assert t == h + (v + rest);
    HeadOfFramed(code, v + rest);
    assert HeadLength(t, code) == Some(|h|);
    assert t[|h|..] == v + rest;
    ValueOfFitting(v, rest, kind);
    assert ValueLength(t[|h|..], kind) == Some(|v|);
    assert t[..|h| + |v|] == h + v;
    assert t[|h|..][..|v|] == v;
  }

  /** `(code)` at the start of a string is its code part. */
  lemma HeadOfFramed(code: string, u: string)
    requires |code| >= 1 && IsDigit(code[0])
    ensures HeadLength("(" + code + ")" + u, code) == Some(|code| + 2)
  {
    var t := "(" + code + ")" + u;
    assert t[1..1 + |code|] == code;
    assert t[1 + |code|] == ')';
  }

  /** A value of the kind at the start of `v + rest` is matched whole. */
  lemma ValueOfFitting(v: string, rest: string, kind: Kind)
    requires FitsKind(v, kind)
    requires kind == Run ==> |v| == 20 || rest == [] || !IsDigit(rest[0])
    ensures ValueLength(v + rest, kind) == Some(|v|)
  {
    assert (v + rest)[..|v|] == v;
    if kind == Run {
      if |v| == 20 {
        assert forall i | 0 <= i < 20 :: IsDigit((v + rest)[i]);
        LeadingDigitsAtLeast(v + rest, 20);
      } else {
        LeadingDigitsStop(v, rest);
      }
    }
  }

  /** The digits at the start of `v + rest`, where `v` is digits and `rest` does not go on with one. */
  lemma {:induction false} LeadingDigitsStop(v: string, rest: string)
    requires AllDigits(v)
    requires rest == [] || !IsDigit(rest[0])
    ensures LeadingDigits(v + rest) == v
    decreases |v|
  {
    if v != [] {
      assert (v + rest)[1..] == v[1..] + rest;
      LeadingDigitsStop(v[1..], rest);
    } else {
      assert v + rest == rest;
    }
  }

  /** A string whose first `k` characters are digits has at least `k` leading digits. */
  lemma {:induction false} LeadingDigitsAtLeast(s: string, k: nat)
    requires k <= |s| && forall i | 0 <= i < k :: IsDigit(s[i])
    ensures |LeadingDigits(s)| >= k
    decreases k
  {
    if k > 0 {
      assert forall i | 0 <= i < k - 1 :: IsDigit(s[1..][i]) by {
        forall i | 0 <= i < k - 1 ensures IsDigit(s[1..][i]) {
          assert s[1..][i] == s[i + 1];
        }
      }
      LeadingDigitsAtLeast(s[1..], k - 1);
    }
  }

  // ---------------------------------------------------------------------------------------
  // Properties of `parse`
  // ---------------------------------------------------------------------------------------

  /** Whatever a pattern captures has the form of its value part. */
  lemma ScanFits(s: string, code: string, kind: Kind)
    ensures Scan(s, code, kind).text.Some? ==> FitsKind(Scan(s, code, kind).text.value, kind)
  {
    var m := Find(s, code, kind);
    if m.Some? {
      MatchShape(s, m.value.start, code, kind);
    }
  }

  /** `parse` never sets the SSCC, the content or the pieces, and keeps no data. */
  lemma ParseLeavesUnset(input: string, poundTenths: string -> int)
    ensures var r := ParseSpec(input, poundTenths);
      && r.data == [] && r.gs1 == Some(input)
      && r.sscc.None? && r.content.None? && r.pieces.None?
  {
  }

  /**
    * The fixed-width values `parse` stores have the form of their patterns: fourteen digits
    * for the GTIN, six digits for the gross weight, and a YYMMDD date with month 00-12 and
    * day 00-31 for 11 and 17.
    */
  lemma ParsedFixedFieldsWellFormed(input: string, poundTenths: string -> int)
    ensures var r := ParseSpec(input, poundTenths);
      && (r.gtin.Some? ==> |r.gtin.value| == 14 && AllDigits(r.gtin.value))
      && (r.grossWeight.Some? ==> 0 <= r.grossWeight.value < 1000000)
      && (r.productionDate.Some? ==> IsDate(r.productionDate.value))
      && (r.expirationDate.Some? ==> IsDate(r.expirationDate.value))
  {
    var s0 := State(Blank.(gs1 := Some(input)), input);
    var s2 := NetWeightStep(GtinStep(s0));
    var s4 := PoundsStep(BeforePounds(input), poundTenths);
    var s5 := ProductionDateStep(s4);
    if MatchAt(input, 0, "01", Digits(14)).Some? {
      MatchShape(input, 0, "01", Digits(14));
    }
    ScanFits(s2.scratch, "3302", Digits(6));
    var gross := Scan(s2.scratch, "3302", Digits(6));
    if gross.text.Some? {
      ParseNatBound(gross.text.value);
      assert Pow10(6) == 1000000;
    }
    ScanFits(s4.scratch, "11", Date);
    ScanFits(s5.scratch, "17", Date);
  }

  /** The batch and the serial number `parse` stores are runs of one to twenty digits. */
  lemma ParsedRunsWellFormed(input: string, poundTenths: string -> int)
    ensures var r := ParseSpec(input, poundTenths);
      && (r.batch.Some? ==> 1 <= |r.batch.value| <= 20 && AllDigits(r.batch.value))
      && (r.serial.Some? ==> 1 <= |r.serial.value| <= 20 && AllDigits(r.serial.value))
  {
    var s6 := ExpirationDateStep(ProductionDateStep(PoundsStep(BeforePounds(input), poundTenths)));
    var s7 := BatchStep(s6);
    ScanFits(s6.scratch, "10", Run);
    ScanFits(s7.scratch, "21", Run);
  }

  /**
    * The GTIN is read only at the very start of the input: `01`, with or without either
    * parenthesis, followed by the fourteen digits stored.
    */
  lemma GtinOnlyAtStart(input: string, poundTenths: string -> int)
    requires ParseSpec(input, poundTenths).gtin.Some?
    ensures var g := ParseSpec(input, poundTenths).gtin.value;
      exists h | 2 <= h <= 4 && h + 14 <= |input| :: Framed(input[..h], "01") && input[h..h + 14] == g
  {
    ParsedGtin(input, poundTenths);
    GtinMatchAtStart(input);
  }

  /** Only the first pattern sets the GTIN. */
  lemma ParsedGtin(input: string, poundTenths: string -> int)
    ensures ParseSpec(input, poundTenths).gtin == ScanGtin(input).text
  {
  }

  /** The anchored GTIN pattern matches a framed `01` and fourteen digits at the start. */
  lemma GtinMatchAtStart(input: string)
    requires ScanGtin(input).text.Some?
    ensures var g := ScanGtin(input).text.value;
      exists h | 2 <= h <= 4 && h + 14 <= |input| :: Framed(input[..h], "01") && input[h..h + 14] == g
  {
    var m := MatchAt(input, 0, "01", Digits(14)).value;
    assert ScanGtin(input).text.value == m.text;
    MatchShape(input, 0, "01", Digits(14));
    var h := |m.whole| - 14;
    assert Framed(m.whole[..h], "01");
    assert 2 <= h <= 4 && h + 14 <= |input|;
    assert input[..h] == m.whole[..h];
    assert input[h..h + 14] == m.whole[h..];
    assert Framed(input[..h], "01") && input[h..h + 14] == m.text;
  }

  /** A GTIN written `(01)` and fourteen digits at the start of the input is read back. */
  lemma GtinAtStart(input: string, g: string, rest: string, poundTenths: string -> int)
    requires |g| == 14 && AllDigits(g)
    requires input == "(01)" + g + rest
    ensures ParseSpec(input, poundTenths).gtin == Some(g)
  {
    MatchFramed(input, "01", g, rest, Digits(14));
  }

  /**
    * A value that does not start with a digit is not captured after its code: `(10)ABC123`
    * gives no batch where it is written.
    */
  lemma LetteredValueNotCaptured(code: string, v: string)
    requires |code| >= 1 && IsDigit(code[0])
    requires v == [] || !IsDigit(v[0])
    ensures MatchAt("(" + code + ")" + v, 0, code, Run).None?
  {
    var s := "(" + code + ")" + v;
    HeadOfFramed(code, v);
    assert s[0..] == s;
    assert s[|code| + 2..] == v;
  }

  /** The instance in the batch example. */
  lemma LetteredBatchNotCaptured()
    ensures MatchAt("(10)ABC123", 0, "10", Run).None?
  {
    LetteredValueNotCaptured("10", "ABC123");
    assert "(" + "10" + ")" + "ABC123" == "(10)ABC123";
  }

  /**
    * A 3201 value overrides the net weight: when the 3201 pattern finds a value in what the
    * earlier patterns left, the net weight is its conversion whatever 3102 gave; otherwise it
    * is what 3102 gave. The later patterns leave it alone.
    */
  lemma PoundsOverrideNetWeight(input: string, poundTenths: string -> int)
    ensures var m := Scan(BeforePounds(input).scratch, "3201", Digits(6));
      ParseSpec(input, poundTenths).netWeight ==
        if m.text.Some? then Some(poundTenths(m.text.value)) else BeforePounds(input).record.netWeight
    ensures var m := Scan(BeforePounds(input).scratch, "3201", Digits(6));
      m.text.Some? ==> |m.text.value| == 6 && AllDigits(m.text.value)
  {
    ScanFits(BeforePounds(input).scratch, "3201", Digits(6));
  }

  // ---------------------------------------------------------------------------------------
  // Properties of `__toString`
  // ---------------------------------------------------------------------------------------

  /** The output always starts with `(01)` and the GTIN, an empty one when it is null. */
  lemma RenderStartsWithGtin(r: Record)
    ensures |Render(r)| >= 4 + |r.gtin.GetOr("")|
    ensures Render(r)[..4 + |r.gtin.GetOr("")|] == "(01)" + r.gtin.GetOr("")
  {
    var h := "(01)" + r.gtin.GetOr("");
    assert (h + Tail(r))[..|h|] == h;
  }

  /** A field is printed only when it is truthy: "" and "0", like null, print nothing, as does a zero weight. */
  lemma FalsyValuesOmitted(r: Record)
    ensures Render(r.(batch := Some("0"))) == Render(r.(batch := None))
    ensures Render(r.(serial := Some(""))) == Render(r.(serial := None))
    ensures Render(r.(netWeight := Some(0))) == Render(r.(netWeight := None))
    ensures Render(r.(grossWeight := Some(0))) == Render(r.(grossWeight := None))
  {
  }

  /**
    * For a weight of one to six digits, 3102 prints six digits worth the weight, while 3302's
    * zeros on the right multiply it by ten for every digit short of six.
    */
  lemma WeightPadding(n: nat)
    requires 1 <= n < 1000000
    ensures var w := LeftPad(IntToString(n), 6, '0');
      && NetPart(Some(n)) == "(3102)" + w && |w| == 6 && AllDigits(w) && ParseNat(w) == n
    ensures var w := RightPad(IntToString(n), 6, '0');
      && GrossPart(Some(n)) == "(3302)" + w && |w| == 6 && AllDigits(w)
      && ParseNat(w) == n * Pow10(6 - |IntToString(n)|)
  {
    var d := NatToString(n);
    assert IntToString(n) == d;
    assert Pow10(6) == 1000000;
    NatToStringLength(n, 6);
    var k := 6 - |d|;
    assert LeftPad(d, 6, '0') == Repeat('0', k) + d;
    LeadingZerosValue(k, d);
    ParseNatToString(n);
    AllDigitsConcat(Repeat('0', k), d);
    assert RightPad(d, 6, '0') == d + Repeat('0', k);
    ParseNatAppend(d, Repeat('0', k));
    ZerosValue(k);
    AllDigitsConcat(d, Repeat('0', k));
  }

  /** A gross weight of 7 hundredths prints as `(3302)700000`, which reads back as 7000.00. */
  lemma GrossWeightPaddedOnTheRight()
    ensures GrossPart(Some(7)) == "(3302)700000"
    ensures NetPart(Some(7)) == "(3102)000007"
  {
    assert IntToString(7) == "7";
  }

  /** A fourteen-digit GTIN in the output is what `parse` reads back from it. */
  lemma RenderedGtinReadBack(r: Record, poundTenths: string -> int)
    requires r.gtin.Some? && |r.gtin.value| == 14 && AllDigits(r.gtin.value)
    ensures ParseSpec(Render(r), poundTenths).gtin == r.gtin
  {
    GtinAtStart(Render(r), r.gtin.value, Tail(r), poundTenths);
  }

  // ---------------------------------------------------------------------------------------
  // Properties of `get`
  // ---------------------------------------------------------------------------------------

  /** `get` works entry by entry: the output for two runs of data is the two outputs joined. */
  lemma {:induction false} SelectAppend(a: seq<Entry>, b: seq<Entry>, codes: seq<string>)
    ensures Select(a + b, codes) == Select(a, codes) + Select(b, codes)
    decreases |a|
  {
    if a != [] {
      assert (a + b)[0] == a[0];
      assert (a + b)[1..] == a[1..] + b;
      SelectAppend(a[1..], b, codes);
    } else {
      assert a + b == b;
    }
  }

  /** Only which codes are asked for matters, not their order or repetition. */
  lemma {:induction false} SelectCodeOrderIrrelevant(data: seq<Entry>, c1: seq<string>, c2: seq<string>)
    requires forall k :: k in c1 <==> k in c2
    ensures Select(data, c1) == Select(data, c2)
    decreases |data|
  {
    if data != [] {
      SelectCodeOrderIrrelevant(data[1..], c1, c2);
    }
  }

  /** `get` prints nothing exactly when no entry's key is among the codes asked for. */
  lemma {:induction false} SelectEmpty(data: seq<Entry>, codes: seq<string>)
    ensures Select(data, codes) == "" <==> forall i | 0 <= i < |data| :: data[i].key !in codes
    decreases |data|
  {
    if data != [] {
      SelectEmpty(data[1..], codes);
      if data[0].key in codes {
        assert Segment(data[0])[0] == '(';
      } else {
        forall i | 1 <= i < |data|
          ensures data[i] == data[1..][i - 1]
        {
        }
      }
    }
  }

  /** An entry whose key is not asked for contributes nothing. */
  lemma SelectSkips(data: seq<Entry>, e: Entry, codes: seq<string>)
    requires e.key !in codes
    ensures Select(data + [e], codes) == Select(data, codes)
    ensures Select([e] + data, codes) == Select(data, codes)
  {
    SelectAppend(data, [e], codes);
    SelectAppend([e], data, codes);
  }

  /** An asked-for entry is printed as `(key)value`; a 3102 or 3302 value is left-padded to six. */
  lemma SelectOne(e: Entry, codes: seq<string>)
    requires e.key in codes
    ensures e.key != "3102" && e.key != "3302" ==> Select([e], codes) == "(" + e.key + ")" + e.value
    ensures e.key == "3102" || e.key == "3302" ==>
      && Select([e], codes) == "(" + e.key + ")" + LeftPad(e.value, 6, '0')
      && |LeftPad(e.value, 6, '0')| >= 6
      && (AllDigits(e.value) ==> ParseNat(LeftPad(e.value, 6, '0')) == ParseNat(e.value))
  {
    assert [e][1..] == [];
    if |e.value| < 6 {
      LeadingZerosValue(6 - |e.value|, e.value);
    }
  }

  /** The output follows the data's order: asking for 1 then 17 still prints 17 first if it comes first. */
  lemma SelectFollowsDataOrder(x: string, y: string)
    ensures Select([Entry("17", x), Entry("1", y)], ["1", "17"]) == "(17)" + x + "(1)" + y
  {
    var codes := ["1", "17"];
    assert [Entry("17", x), Entry("1", y)] == [Entry("17", x)] + [Entry("1", y)];
    SelectAppend([Entry("17", x)], [Entry("1", y)], codes);
    SelectOne(Entry("17", x), codes);
    SelectOne(Entry("1", y), codes);
  }

  /**
    * The constructor files key 17 as the batch and key 10 as the expiration date, so the same
    * value that `get` prints under 17 is printed by `__toString` under 10.
    */
  lemma ConstructorKeysAsWritten(g: string, x: string, hundredths: string -> int, perPound: string -> int)
    requires Truthy(Some(x))
    ensures var data := [Entry("1", g), Entry("17", x)];
      && Select(data, ["17"]) == "(17)" + x
      && Render(FromData(data, hundredths, perPound)) == "(01)" + g + "(10)" + x
  {
    SelectGtinAndBatch(g, x);
    FromDataGtinAndBatch(g, x, hundredths, perPound);
    RenderGtinAndBatch([Entry("1", g), Entry("17", x)], g, x);
  }

  /** `get(['17'])` on a GTIN and a key-17 entry prints the latter only. */
  lemma SelectGtinAndBatch(g: string, x: string)
    ensures Select([Entry("1", g), Entry("17", x)], ["17"]) == "(17)" + x
  {
    assert [Entry("1", g), Entry("17", x)] == [Entry("1", g)] + [Entry("17", x)];
    SelectSkips([Entry("17", x)], Entry("1", g), ["17"]);
    SelectOne(Entry("17", x), ["17"]);
  }

  /** The constructor on a GTIN and a key-17 entry fills in the GTIN and the batch only. */
  lemma FromDataGtinAndBatch(g: string, x: string, hundredths: string -> int, perPound: string -> int)
    ensures var data := [Entry("1", g), Entry("17", x)];
      FromData(data, hundredths, perPound) == Blank.(data := data, gtin := Some(g), batch := Some(x))
  {
    LookupPair(Entry("1", g), Entry("17", x));
  }

  /** Looking a key up in two entries. */
  lemma LookupPair(a: Entry, b: Entry)
    ensures forall key ::
      Lookup([a, b], key) == (if a.key == key then Some(a.value)
                              else if b.key == key then Some(b.value) else None)
  {
    assert [a, b][1..] == [b];
    assert [a, b][1..][1..] == [];
  }

  /** A record holding only a GTIN and a truthy batch prints those two. */
  lemma RenderGtinAndBatch(data: seq<Entry>, g: string, x: string)
    requires Truthy(Some(x))
    ensures Render(Blank.(data := data, gtin := Some(g), batch := Some(x))) == "(01)" + g + "(10)" + x
  {
    var r := Blank.(data := data, gtin := Some(g), batch := Some(x));
    assert Tail(r) == "(10)" + x;
  }

  // ---------------------------------------------------------------------------------------
  // The object
  // ---------------------------------------------------------------------------------------

  class Gs1Generator {
    var data: seq<Entry>
    var gs1: Option<string>
    var sscc: Option<string>
    var gtin: Option<string>
    var content: Option<string>
    var netWeight: Option<int>
    var grossWeight: Option<int>
    var batch: Option<string>
    var serial: Option<string>
    var productionDate: Option<string>
    var expirationDate: Option<string>
    var pieces: Option<string>

    function Value(): Record
      reads this
    {
      Record(data, gs1, sscc, gtin, content, netWeight, grossWeight, batch, serial,
        productionDate, expirationDate, pieces)
    }

    /** `new Gs1Generator($data)`: copies the known keys into the fields. */
    constructor (data: seq<Entry>, hundredths: string -> int, perPound: string -> int)
      ensures Value() == FromData(data, hundredths, perPound)
    {
      this.data := data;
      gs1 := None;
      gtin := Lookup(data, "1");
      content := Lookup(data, "2");
      sscc := Lookup(data, "0");
      expirationDate := Lookup(data, "10");
      productionDate := Lookup(data, "11");
      batch := Lookup(data, "17");
      serial := Lookup(data, "21");
      pieces := Lookup(data, "37");
      netWeight := if Lookup(data, "3102").Some? then Some(hundredths(Lookup(data, "3102").value)) else None;
      grossWeight := if Lookup(data, "3302").Some? then Some(hundredths(Lookup(data, "3302").value)) else None;
      new;
      if Lookup(data, "3201").Some? {
        netWeight := Some(perPound(Lookup(data, "3201").value));
      }
    }

    /** `get($codes)`, by default for the codes 1, 21, 17 and 3102. */
    function Get(codes: seq<string> := DefaultCodes): (s: string)
      reads this
      ensures s == Select(data, codes)
      ensures s == "" <==> forall i | 0 <= i < |data| :: data[i].key !in codes
    {
      SelectEmpty(data, codes);
      Select(data, codes)
    }

    /** `__toString`: `(01)` and the GTIN, then the truthy fields in their fixed order. */
    function ToString(): (s: string)
      reads this
      ensures s == Render(Value())
      ensures |s| >= 4 + |gtin.GetOr("")| && s[..4 + |gtin.GetOr("")|] == "(01)" + gtin.GetOr("")
    {
      RenderStartsWithGtin(Value());
      Render(Value())
    }

    /** `parse($input)`: a fresh object whose fields the patterns set one after another. */
    static method Parse(input: string, poundTenths: string -> int) returns (g: Gs1Generator)
      ensures fresh(g)
      ensures g.Value() == ParseSpec(input, poundTenths)
    {
      g := new Gs1Generator([], _ => 0, _ => 0);
      g.gs1 := Some(input);
      assert g.Value() == Blank.(gs1 := Some(input));
      var s := g.ReadGtin(input);
      s := g.ReadNetWeight(s);
      s := g.ReadGrossWeight(s);
      assert State(g.Value(), s) == BeforePounds(input);
      s := g.ReadPounds(s, poundTenths);
      s := g.ReadProductionDate(s);
      s := g.ReadExpirationDate(s);
      s := g.ReadBatch(s);
      s := g.ReadSerial(s);
    }

    /** The anchored 01 pattern sets the GTIN; returns the scratch string left. */
    method ReadGtin(s: string) returns (rest: string)
      modifies this
      ensures State(Value(), rest) == GtinStep(State(old(Value()), s))
    {
      var r := ScanGtin(s);
      if r.text.Some? {
        gtin := r.text;
      }
      rest := r.rest;
    }

    /** A 3102 match sets the net weight, in hundredths. */
    method ReadNetWeight(s: string) returns (rest: string)
      modifies this
      ensures State(Value(), rest) == NetWeightStep(State(old(Value()), s))
    {
      var r := Scan(s, "3102", Digits(6));
      if r.text.Some? {
        netWeight := Some(ParseNat(r.text.value));
      }
      rest := r.rest;
    }

    /** A 3302 match sets the gross weight, in hundredths. */
    method ReadGrossWeight(s: string) returns (rest: string)
      modifies this
      ensures State(Value(), rest) == GrossWeightStep(State(old(Value()), s))
    {
      var r := Scan(s, "3302", Digits(6));
      if r.text.Some? {
        grossWeight := Some(ParseNat(r.text.value));
      }
      rest := r.rest;
    }

    /** A 3201 match overwrites the net weight with the pound conversion. */
    method ReadPounds(s: string, poundTenths: string -> int) returns (rest: string)
      modifies this
      ensures State(Value(), rest) == PoundsStep(State(old(Value()), s), poundTenths)
    {
      var r := Scan(s, "3201", Digits(6));
      if r.text.Some? {
        netWeight := Some(poundTenths(r.text.value));
      }
      rest := r.rest;
    }

    /** An 11 date sets the production date. */
    method ReadProductionDate(s: string) returns (rest: string)
      modifies this
      ensures State(Value(), rest) == ProductionDateStep(State(old(Value()), s))
    {
      var r := Scan(s, "11", Date);
      if r.text.Some? {
        productionDate := r.text;
      }
      rest := r.rest;
    }

    /** A 17 date sets the expiration date. */
    method ReadExpirationDate(s: string) returns (rest: string)
      modifies this
      ensures State(Value(), rest) == ExpirationDateStep(State(old(Value()), s))
    {
      var r := Scan(s, "17", Date);
      if r.text.Some? {
        expirationDate := r.text;
      }
      rest := r.rest;
    }

    /** A run of digits after 10 sets the batch. */
    method ReadBatch(s: string) returns (rest: string)
      modifies this
      ensures State(Value(), rest) == BatchStep(State(old(Value()), s))
    {
      var r := Scan(s, "10", Run);
      if r.text.Some? {
        batch := r.text;
      }
      rest := r.rest;
    }

    /** A run of digits after 21 sets the serial number. */
    method ReadSerial(s: string) returns (rest: string)
      modifies this
      ensures State(Value(), rest) == SerialStep(State(old(Value()), s))
    {
      var r := Scan(s, "21", Run);
      if r.text.Some? {
        serial := r.text;
      }
      rest := r.rest;
    }
  }
}
