/**
  * `Gs1`, the older element-string reader: the text is split on its `(digits)` delimiters,
  * each even-numbered piece is read as an Application Identifier and the piece after it as
  * that identifier's value, and the recognised identifiers set the GTIN, the unit count and
  * the two weights. Weights are kept as the integer the value reads as, i.e. in hundredths.
  */
module Gs1 {
  import opened Wrappers
  import opened Decimal
  import opened Gs1Code

  // ---------------------------------------------------------------------------------------
  // `preg_split("/(\([0-9]*\))/", $gs1, -1, PREG_SPLIT_NO_EMPTY | PREG_SPLIT_DELIM_CAPTURE)`

  /**
    * The length of the delimiter `(`, digits, `)` that `s` starts with, or 0 when it starts
    * with none. The digit run is maximal, so at most one delimiter starts at any position.
    */
  function DelimiterLength(s: string): (n: nat)
    ensures n == 0 || (2 <= n <= |s| && s[0] == '(' && s[n - 1] == ')')
  {
    if |s| < 2 || s[0] != '(' then 0
    else
      var d := LeadingDigits(s[1..]);
      if 1 + |d| < |s| && s[1 + |d|] == ')' then |d| + 2 else 0
  }

  /** The number of characters before the leftmost delimiter of `s`, or all of them. */
  function TextLength(s: string): (n: nat)
    ensures n <= |s|
    ensures s != [] && DelimiterLength(s) == 0 ==> n >= 1
    decreases |s|
  {
    if s == [] || DelimiterLength(s) > 0 then 0 else 1 + TextLength(s[1..])
  }

  /**
    * The pieces of `s`: each delimiter is a piece of its own, and the text between two
    * delimiters is one piece; text that is empty gives no piece at all.
    */
  function Split(s: string): seq<string>
    decreases |s|
  {
    if s == [] then []
    else if DelimiterLength(s) > 0 then [s[..DelimiterLength(s)]] + Split(s[DelimiterLength(s)..])
    else [s[..TextLength(s)]] + Split(s[TextLength(s)..])
  }

  function Concat(pieces: seq<string>): string {
    if pieces == [] then "" else pieces[0] + Concat(pieces[1..])
  }

  /** Splitting loses nothing: the pieces, put back together, are the input. */
  lemma {:induction false} SplitConcat(s: string)
    ensures Concat(Split(s)) == s
    decreases |s|
  {
    if s != [] {
      var n := if DelimiterLength(s) > 0 then DelimiterLength(s) else TextLength(s);
      SplitConcat(s[n..]);
      assert ([s[..n]] + Split(s[n..]))[1..] == Split(s[n..]);
      assert s[..n] + s[n..] == s;
    }
  }

  /** No piece is empty. */
  lemma {:induction false} SplitPiecesNonEmpty(s: string)
    ensures forall i | 0 <= i < |Split(s)| :: Split(s)[i] != ""
    decreases |s|
  {
    if s != [] {
      var n := if DelimiterLength(s) > 0 then DelimiterLength(s) else TextLength(s);
      SplitPiecesNonEmpty(s[n..]);
      assert Split(s) == [s[..n]] + Split(s[n..]);
    }
  }

  /** `(`, a run of digits and `)` at the front of a string is a delimiter of exactly that length. */
  lemma DelimiterOf(k: string, rest: string)
    requires AllDigits(k)
    ensures DelimiterLength("(" + k + ")" + rest) == |k| + 2
  {
    var s := "(" + k + ")" + rest;
    var d := LeadingDigits(s[1..]);
    assert s[1..] == k + ")" + rest;
    assert s[1..][|k|] == ')';
    assert forall i | 0 <= i < |k| :: s[1..][i] == k[i];
    assert |d| == |k|;
  }

  /**
    * A value with no `(` in it, followed by the end of the text or by a delimiter, is one
    * text piece.
    */
  lemma {:induction false} TextLengthOfValue(v: string, rest: string)
    requires forall i | 0 <= i < |v| :: v[i] != '('
    requires rest == [] || DelimiterLength(rest) > 0
    ensures TextLength(v + rest) == |v|
    decreases |v|
  {
    if v != [] {
      assert (v + rest)[0] == v[0];
      assert (v + rest)[1..] == v[1..] + rest;
      TextLengthOfValue(v[1..], rest);
    } else {
      assert v + rest == rest;
    }
  }

  // ---------------------------------------------------------------------------------------
  // Element strings built from identifiers and values

  /** One Application Identifier and its value, as they appear in an element string. */
  datatype Element = Element(key: string, value: string)

  /** A value the splitter keeps whole: not empty, and no `(` in it. */
  predicate PlainValue(v: string) {
    v != "" && forall j | 0 <= j < |v| :: v[j] != '('
  }

  /** An element the splitter reads back as written: a digit key and a plain value. */
  predicate GoodElement(x: Element) {
    AllDigits(x.key) && PlainValue(x.value)
  }

  predicate WellFormed(e: seq<Element>) {
    forall i | 0 <= i < |e| :: GoodElement(e[i])
  }

  /** `(key)value` for each element in turn. */
  function ElementString(e: seq<Element>): string {
    if e == [] then "" else "(" + e[0].key + ")" + e[0].value + ElementString(e[1..])
  }

  /** The pieces an element string should split into: delimiter, value, delimiter, value, ... */
  function Pieces(e: seq<Element>): (p: seq<string>)
    ensures |p| == 2 * |e|
  {
    if e == [] then [] else ["(" + e[0].key + ")", e[0].value] + Pieces(e[1..])
  }

  /** The pieces of a longer list of elements are those of its two parts. */
  lemma {:induction false} PiecesAppend(a: seq<Element>, b: seq<Element>)
    ensures Pieces(a + b) == Pieces(a) + Pieces(b)
  {
    if a != [] {
      assert (a + b)[0] == a[0];
      assert (a + b)[1..] == a[1..] + b;
      PiecesAppend(a[1..], b);
    } else {
      assert a + b == b;
    }
  }

  /** The front of a well-formed element string: its first delimiter, then its first value. */
  lemma FirstElement(e: seq<Element>)
    requires WellFormed(e) && e != []
    ensures var s := ElementString(e); var k := e[0].key;
      && DelimiterLength(s) == |k| + 2
      && s[..|k| + 2] == "(" + k + ")"
      && s[|k| + 2..] == e[0].value + ElementString(e[1..])
  {
    var s := ElementString(e);
    var k := e[0].key;
    var rest := e[0].value + ElementString(e[1..]);
    assert GoodElement(e[0]);
    assert s == "(" + k + ")" + rest;
    DelimiterOf(k, rest);
  }

  /** The element string after the first delimiter: the first value is one text piece. */
  lemma FirstValue(e: seq<Element>)
    requires WellFormed(e) && e != []
    ensures var s := e[0].value + ElementString(e[1..]);
      && DelimiterLength(s) == 0
      && TextLength(s) == |e[0].value|
      && s[..|e[0].value|] == e[0].value
      && s[|e[0].value|..] == ElementString(e[1..])
  {
    var v := e[0].value;
    var rest := ElementString(e[1..]);
    assert GoodElement(e[0]);
    if e[1..] != [] {
      assert e[1..][0] == e[1];
      FirstElement(e[1..]);
    }
    assert (v + rest)[0] == v[0];
    TextLengthOfValue(v, rest);
  }

  lemma FirstElementTail(e: seq<Element>)
    requires WellFormed(e) && e != []
    ensures WellFormed(e[1..])
  {
    forall i | 0 <= i < |e[1..]| ensures GoodElement(e[1..][i]) {
      assert e[1..][i] == e[i + 1];
    }
  }

  /** A string that starts with a delimiter of length `n` splits off that delimiter. */
  lemma SplitDelimiterFront(s: string, n: nat)
    requires n > 0 && DelimiterLength(s) == n
    ensures Split(s) == [s[..n]] + Split(s[n..])
  {
  }

  /** A string that starts with text of length `n` splits off that text. */
  lemma SplitTextFront(s: string, n: nat)
    requires s != [] && DelimiterLength(s) == 0 && TextLength(s) == n
    ensures Split(s) == [s[..n]] + Split(s[n..])
  {
  }

  /**
    * An element string with well-formed elements splits into exactly its delimiters and
    * values, alternating, so that every delimiter lands at an even index.
    */
  lemma {:induction false} SplitElementString(e: seq<Element>)
    requires WellFormed(e)
    ensures Split(ElementString(e)) == Pieces(e)
  {
    if e != [] {
      SplitFirstElement(e);
      FirstElementTail(e);
      SplitElementString(e[1..]);
    }
  }

  /** The first element of a well-formed element string splits off as two pieces. */
  lemma SplitFirstElement(e: seq<Element>)
    requires WellFormed(e) && e != []
    ensures Split(ElementString(e))
            == ["(" + e[0].key + ")", e[0].value] + Split(ElementString(e[1..]))
  {
    var s := ElementString(e);
    var k := e[0].key;
    var v := e[0].value;
    var r := ElementString(e[1..]);
    var t := v + r;
    assert GoodElement(e[0]);
    FirstElement(e);
    SplitDelimiterFront(s, |k| + 2);
    assert Split(s) == ["(" + k + ")"] + Split(t);
    FirstValue(e);
    SplitTextFront(t, |v|);
    assert Split(t) == [v] + Split(r);
  }

  /**
    * Text before the first delimiter shifts every piece by one: the delimiters land at odd
    * indices, where they are never read as identifiers.
    */
  lemma LeadingTextShifts(t: string, e: seq<Element>)
    requires t != [] && forall i | 0 <= i < |t| :: t[i] != '('
    requires WellFormed(e) && e != []
    ensures Split(t + ElementString(e)) == [t] + Pieces(e)
    ensures forall i | 0 <= i < |e| ::
      Split(t + ElementString(e))[2 * i + 1] == "(" + e[i].key + ")"
  {
    FirstElement(e);
    TextLengthOfValue(t, ElementString(e));
    assert (t + ElementString(e))[0] == t[0];
    assert (t + ElementString(e))[..|t|] == t;
    assert (t + ElementString(e))[|t|..] == ElementString(e);
    SplitElementString(e);
    PiecesAt(e);
  }

  /** Piece `2i` of an element list is its `i`-th delimiter, piece `2i + 1` its `i`-th value. */
  lemma {:induction false} PiecesAt(e: seq<Element>)
    ensures forall i | 0 <= i < |e| ::
      Pieces(e)[2 * i] == "(" + e[i].key + ")" && Pieces(e)[2 * i + 1] == e[i].value
  {
    if e != [] {
      PiecesAt(e[1..]);
      forall i | 0 <= i < |e|
        ensures Pieces(e)[2 * i] == "(" + e[i].key + ")" && Pieces(e)[2 * i + 1] == e[i].value
      {
        if i > 0 {
          assert e[1..][i - 1] == e[i];
          assert Pieces(e)[2 * i] == Pieces(e[1..])[2 * (i - 1)];
        }
      }
    }
  }

  // ---------------------------------------------------------------------------------------
  // The fields the constructor sets

  /**
    * The four typed properties; `None` is a property the constructor never assigned. The
    * weights are the value's integer reading, i.e. hundredths of the unit.
    */
  datatype Fields = Fields(gtin: Option<int>, units: Option<int>, netWeight: Option<int>,
                           grossWeight: Option<int>)

  const Unset := Fields(None, None, None, None)

  /** `preg_replace("/[\(\)]/", "", $item)`: every parenthesis removed. */
  function StripParens(s: string): (r: string)
    ensures |r| <= |s|
  {
    if s == [] then ""
    else (if s[0] == '(' || s[0] == ')' then "" else [s[0]]) + StripParens(s[1..])
  }

  /** The `switch`: what one recognised identifier does with its value's integer reading. */
  function Apply(f: Fields, code: Gs1Code, v: int): Fields {
    match code
    case GTIN => f.(gtin := Some(v))
    case ITF => f.(gtin := Some(v))
    case NetWeight => f.(netWeight := Some(v))
    case GrossWeight => f.(grossWeight := Some(v))
    case Units => f.(units := Some(v))
    case _ => f
  }

  /** `Gs1Code::tryFrom($key)` and, when it is a case, that case's effect. */
  function Read(f: Fields, key: string, v: int): Fields {
    match TryFrom(key)
    case None => f
    case Some(code) => Apply(f, code, v)
  }

  /** `(int) $gs1Array[$index + 1]`: a missing piece reads as null, which is 0. */
  function ValueAfter(pieces: seq<string>, index: nat): int {
    if index + 1 < |pieces| then IntValue(pieces[index + 1]) else 0
  }

  /** One turn of the loop: odd pieces and unknown identifiers change nothing. */
  function Step(f: Fields, pieces: seq<string>, index: nat): Fields
    requires index < |pieces|
  {
    if index % 2 != 0 then f else Read(f, StripParens(pieces[index]), ValueAfter(pieces, index))
  }

  /** The fields after the loop has seen the first `n` pieces. */
  function Decode(pieces: seq<string>, n: nat): Fields
    requires n <= |pieces|
  {
    if n == 0 then Unset else Step(Decode(pieces, n - 1), pieces, n - 1)
  }

  /**
    * The reading an element string is meant to have: each identifier in turn applies its
    * value, so a later occurrence overrides an earlier one.
    */
  function Interpret(e: seq<Element>): Fields {
    if e == [] then Unset
    else Read(Interpret(e[..|e| - 1]), e[|e| - 1].key, IntValue(e[|e| - 1].value))
  }

  /** Removing the parentheses around a digit key leaves the key. */
  lemma {:induction false} StripParensOfDelimiter(k: string)
    requires AllDigits(k)
    ensures StripParens("(" + k + ")") == k
  {
    var s := "(" + k + ")";
    assert s[1..] == k + ")";
    StripParensKeeps(k, ")");
    assert StripParens(")") == "";
  }

  lemma {:induction false} StripParensKeeps(k: string, rest: string)
    requires AllDigits(k)
    ensures StripParens(k + rest) == k + StripParens(rest)
    decreases |k|
  {
    if k == [] {
      assert k + rest == rest;
    } else {
      assert (k + rest)[0] == k[0];
      assert (k + rest)[1..] == k[1..] + rest;
      StripParensKeeps(k[1..], rest);
      assert k == [k[0]] + k[1..];
    }
  }

  /** The loop over a prefix of even length is not affected by what follows it. */
  lemma {:induction false} DecodePrefix(p: seq<string>, q: seq<string>, n: nat)
    requires |p| % 2 == 0 && n <= |p|
    ensures Decode(p + q, n) == Decode(p, n)
  {
    if n > 0 {
      DecodePrefix(p, q, n - 1);
      assert (p + q)[n - 1] == p[n - 1];
      if (n - 1) % 2 == 0 {
        assert n < |p|;
        assert (p + q)[n] == p[n];
      }
    }
  }

  /** One more delimiter and value after an even number of pieces: the identifier's effect. */
  lemma DecodeTwoMore(p: seq<string>, k: string, v: string)
    requires |p| % 2 == 0 && AllDigits(k)
    ensures var q := p + ["(" + k + ")", v];
      Decode(q, |q|) == Read(Decode(p, |p|), k, IntValue(v))
  {
    var q := p + ["(" + k + ")", v];
    var f := Decode(p, |p|);
    DecodePrefix(p, ["(" + k + ")", v], |p|);
    StripParensOfDelimiter(k);
    assert q[|p|] == "(" + k + ")" && q[|p| + 1] == v;
    assert Decode(q, |p| + 1) == Read(f, k, IntValue(v));
  }

  /**
    * The loop reads a well-formed element string exactly as intended: the fields it ends
    * with are those of the reference reading.
    */
  lemma {:induction false} DecodeElements(e: seq<Element>)
    requires WellFormed(e)
    ensures Decode(Pieces(e), |Pieces(e)|) == Interpret(e)
  {
    if e != [] {
      var front := e[..|e| - 1];
      var last := e[|e| - 1];
      assert e == front + [last];
      assert GoodElement(last);
      assert WellFormed(front) by {
        forall i | 0 <= i < |front| ensures GoodElement(front[i]) {
          assert front[i] == e[i];
        }
      }
      DecodeElements(front);
      PiecesAppend(front, [last]);
      assert Pieces([last]) == ["(" + last.key + ")", last.value];
      DecodeTwoMore(Pieces(front), last.key, last.value);
    }
  }

  /** What the constructor makes of a well-formed element string. */
  lemma ReadsElementString(e: seq<Element>)
    requires WellFormed(e)
    ensures var p := Split(ElementString(e)); Decode(p, |p|) == Interpret(e)
  {
    SplitElementString(e);
    DecodeElements(e);
  }

  /** AI 01 and AI 02 both set the GTIN to their value's integer reading, the later winning. */
  lemma GtinFromEitherCode(e: seq<Element>, x: Element)
    requires x.key == "01" || x.key == "02"
    ensures Interpret(e + [x]) == Interpret(e).(gtin := Some(IntValue(x.value)))
  {
    assert (e + [x])[..|e|] == e;
  }

  /** AI 3102 and 3302 set net and gross weight, in hundredths. */
  lemma WeightsInHundredths(e: seq<Element>, x: Element)
    requires x.key == "3102" || x.key == "3302"
    ensures x.key == "3102" ==>
      Interpret(e + [x]) == Interpret(e).(netWeight := Some(IntValue(x.value)))
    ensures x.key == "3302" ==>
      Interpret(e + [x]) == Interpret(e).(grossWeight := Some(IntValue(x.value)))
  {
    assert (e + [x])[..|e|] == e;
  }

  /** A weight written with an exponent is read with it: `(3102)1e3` is a net weight of 1000. */
  lemma NetWeightWithExponent(d: string, x: string)
    requires AllDigits(d) && d != [] && AllDigits(x) && x != []
    ensures var p := Split("(3102)" + d + "e" + x);
      Decode(p, |p|).netWeight == Some(Pow10(ParseNat(x)) * ParseNat(d))
  {
    var v := d + "e" + x;
    var el := Element("3102", v);
    assert forall j | 0 <= j < |v| :: v[j] != '(' by {
      forall j | 0 <= j < |v| ensures v[j] != '(' {
        if j < |d| { assert v[j] == d[j]; }
        else if j > |d| { assert v[j] == x[j - |d| - 1]; }
      }
    }
    assert WellFormed([el]);
    assert ElementString([el]) == "(3102)" + d + "e" + x;
    ReadsElementString([el]);
    WeightsInHundredths([], el);
    IntValueExponent(d, x);
  }

  /** AI 37 sets the unit count. */
  lemma UnitsFromCode37(e: seq<Element>, x: Element)
    requires x.key == "37"
    ensures Interpret(e + [x]) == Interpret(e).(units := Some(IntValue(x.value)))
  {
    assert (e + [x])[..|e|] == e;
  }

  /**
    * Every other identifier changes nothing: unknown ones are skipped, and AI 10, 11 and 17
    * are recognised but have no field.
    */
  lemma OtherCodesInert(e: seq<Element>, x: Element)
    requires x.key !in {"01", "02", "3102", "3302", "37"}
    ensures Interpret(e + [x]) == Interpret(e)
  {
    assert (e + [x])[..|e|] == e;
  }

  // ---------------------------------------------------------------------------------------
  // The class

  class Gs1 {
    var gs1: string
    var gtin: Option<int>
    var units: Option<int>
    var netWeight: Option<int>
    var grossWeight: Option<int>

    function Value(): Fields
      reads this
    {
      Fields(gtin, units, netWeight, grossWeight)
    }

    /** `__toString`: the text the object was built from. */
    function ToString(): string
      reads this
    {
      gs1
    }

    /**
      * `new Gs1($gs1)`: keep the text, split it, and walk the pieces, reading each
      * even-numbered one as an identifier and the next as its value.
      */
    constructor (gs1: string)
      ensures ToString() == gs1
      ensures Value() == Decode(Split(gs1), |Split(gs1)|)
    {
      this.gs1 := gs1;
      gtin, units, netWeight, grossWeight := None, None, None, None;
      new;
      var pieces := Split(gs1);
      var index := 0;
      while index < |pieces|
        invariant index <= |pieces|
        invariant this.gs1 == gs1
        invariant Value() == Decode(pieces, index)
      {
        if index % 2 == 0 {
          var key := StripParens(pieces[index]);
          var code := TryFrom(key);
          if code.Some? {
            var value := ValueAfter(pieces, index);
            match code.value {
              case GTIN => gtin := Some(value);
              case ITF => gtin := Some(value);
              case NetWeight => netWeight := Some(value);
              case GrossWeight => grossWeight := Some(value);
              case Units => units := Some(value);
              case _ =>
            }
          }
        }
        index := index + 1;
      }
    }
  }
}
