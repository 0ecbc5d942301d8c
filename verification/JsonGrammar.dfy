/** The grammar of RFC 8259 as trees with their printed form, and the proof that `IsJson` accepts exactly the printed
    forms. Trees record every byte of a text: white space, the spelling of numbers and escapes. */
module JsonGrammar {
  import opened JsonText

  // ---------------------------------------------------------------- the grammar

  predicate Blank(c: char) {
    c in " \t\n\r"
  }

  predicate Decimal(c: char) {
    c in "0123456789"
  }

  predicate White(s: string) {
    forall i | 0 <= i < |s| :: Blank(s[i])
  }

  predicate AllDigits(s: string) {
    forall i | 0 <= i < |s| :: Decimal(s[i])
  }

  datatype Power = NoPower | Power(mark: char, sign: string, digits: string)

  /** An empty `fraction` stands for none. */
  datatype Numeral = Numeral(negative: bool, whole: string, fraction: string, power: Power)

  predicate PowerOk(p: Power) {
    p.NoPower? || (p.mark in "eE" && p.sign in ["", "+", "-"] && p.digits != "" && AllDigits(p.digits))
  }

  predicate NumeralOk(n: Numeral) {
    && n.whole != "" && AllDigits(n.whole) && (n.whole[0] == '0' ==> |n.whole| == 1)
    && AllDigits(n.fraction) && PowerOk(n.power)
  }

  function PrintPower(p: Power): string {
    if p.NoPower? then "" else [p.mark] + p.sign + p.digits
  }

  function PrintFraction(fraction: string): string {
    if fraction == "" then "" else "." + fraction
  }

  function PrintNumeral(n: Numeral): string {
    (if n.negative then "-" else "") + n.whole + PrintFraction(n.fraction) + PrintPower(n.power)
  }

  datatype Hex = Hex(value: nat, capital: bool)

  /** The four digits of a \u escape. */
  datatype Quad = Quad(a: Hex, b: Hex, c: Hex, d: Hex)

  datatype Unit =
    | Plain(c: char)
    | Short(c: char)
    | Code(code: Quad)
    | Pair(high: Quad, low: Quad)

  predicate QuadOk(q: Quad) {
    q.a.value < 16 && q.b.value < 16 && q.c.value < 16 && q.d.value < 16
  }

  function CodeOf(q: Quad): nat {
    4096 * q.a.value + 256 * q.b.value + 16 * q.c.value + q.d.value
  }

  /** Every character but the quote, the backslash and controls may stand for itself; an escape stands for a code
      that is neither NUL nor half of a surrogate pair, two escapes may form such a pair. */
  predicate UnitOk(u: Unit) {
    match u
    case Plain(c) => c >= ' ' && c != '\"' && c != '\\'
    case Short(c) => c in ['\"', '\\', '/', 'b', 'f', 'n', 'r', 't']
    case Code(q) => QuadOk(q) && 0 < CodeOf(q) < 0x10000 && !(0xD800 <= CodeOf(q) < 0xE000)
    case Pair(high, low) => QuadOk(high) && QuadOk(low) && 0xD800 <= CodeOf(high) < 0xDC00 <= CodeOf(low) < 0xE000
  }

  function PrintHex(h: Hex): char {
    if h.value >= 16 then '?' else if h.capital then "0123456789ABCDEF"[h.value] else "0123456789abcdef"[h.value]
  }

  function PrintQuad(q: Quad): string {
    "\\u" + [PrintHex(q.a), PrintHex(q.b), PrintHex(q.c), PrintHex(q.d)]
  }

  function PrintUnit(u: Unit): string {
    match u
    case Plain(c) => [c]
    case Short(c) => "\\" + [c]
    case Code(q) => PrintQuad(q)
    case Pair(high, low) => PrintQuad(high) + PrintQuad(low)
  }

  function PrintUnits(units: seq<Unit>): string {
    if units == [] then "" else PrintUnit(units[0]) + PrintUnits(units[1..])
  }

  predicate UnitsOk(units: seq<Unit>) {
    forall i | 0 <= i < |units| :: UnitOk(units[i])
  }

  /** A value with the white space around it. */
  datatype Tree = Tree(before: string, core: Core, after: string)

  datatype Core =
    | Word(text: string)
    | Num(numeral: Numeral)
    | Text(units: seq<Unit>)
    | NoItems(space: string)
    | Array(items: Items)
    | NoFields(space: string)
    | Object(fields: Fields)

  datatype Items = LastItem(item: Tree) | Item(item: Tree, more: Items)

  datatype Field = Field(before: string, name: seq<Unit>, after: string, value: Tree)

  datatype Fields = LastField(field: Field) | MoreFields(field: Field, more: Fields)

  predicate TreeOk(t: Tree) {
    White(t.before) && CoreOk(t.core) && White(t.after)
  }

  predicate CoreOk(c: Core) {
    match c
    case Word(text) => text in ["true", "false", "null"]
    case Num(n) => NumeralOk(n)
    case Text(units) => UnitsOk(units)
    case NoItems(space) => White(space)
    case Array(es) => ItemsOk(es)
    case NoFields(space) => White(space)
    case Object(ms) => FieldsOk(ms)
  }

  predicate ItemsOk(es: Items) {
    TreeOk(es.item) && (es.Item? ==> ItemsOk(es.more))
  }

  predicate FieldOk(m: Field) {
    White(m.before) && UnitsOk(m.name) && White(m.after) && TreeOk(m.value)
  }

  predicate FieldsOk(ms: Fields) {
    FieldOk(ms.field) && (ms.MoreFields? ==> FieldsOk(ms.more))
  }

  function Print(t: Tree): string {
    t.before + PrintCore(t.core) + t.after
  }

  function PrintText(units: seq<Unit>): string {
    "\"" + PrintUnits(units) + "\""
  }

  function PrintCore(c: Core): string {
    match c
    case Word(text) => text
    case Num(n) => PrintNumeral(n)
    case Text(units) => PrintText(units)
    case NoItems(space) => "[" + space + "]"
    case Array(es) => "[" + PrintItems(es) + "]"
    case NoFields(space) => "{" + space + "}"
    case Object(ms) => "{" + PrintFields(ms) + "}"
  }

  function PrintItems(es: Items): string {
    match es
    case LastItem(t) => Print(t)
    case Item(t, more) => Print(t) + "," + PrintItems(more)
  }

  function PrintField(m: Field): string {
    m.before + PrintText(m.name) + m.after + ":" + Print(m.value)
  }

  function PrintFields(ms: Fields): string {
    match ms
    case LastField(m) => PrintField(m)
    case MoreFields(m, more) => PrintField(m) + "," + PrintFields(more)
  }

  // ---------------------------------------------------------------- characters and white space

  lemma DigitChars(c: char)
    ensures IsDigit(c) <==> Decimal(c)
  {
    if IsDigit(c) { assert "0123456789"[c as int - '0' as int] == c; }
  }

  lemma SpaceChars(c: char)
    ensures IsSpace(c) <==> Blank(c)
  {
    if IsSpace(c) {
      assert " \t\n\r"[0] == ' ' && " \t\n\r"[1] == '\t' && " \t\n\r"[2] == '\n' && " \t\n\r"[3] == '\r';
    }
  }

  lemma HexChars(c: char) returns (h: Hex)
    requires HexDigit(c) >= 0
    ensures h.value == HexDigit(c) < 16 && PrintHex(h) == c
  {
    h := Hex(HexDigit(c), 'A' <= c <= 'F');
  }

  lemma PrintedHex(h: Hex)
    requires h.value < 16
    ensures HexDigit(PrintHex(h)) == h.value
  {
  }

  lemma {:induction false} TrimSkips(w: string, s: string)
    requires White(w) && (s == "" || !IsSpace(s[0]))
    ensures Trim(w + s) == s
  {
    hide Blank;
    if w == "" {
      assert w + s == s;
    } else {
      SpaceChars(w[0]);
      assert (w + s)[0] == w[0] && (w + s)[1..] == w[1..] + s;
      TrimSkips(w[1..], s);
    }
  }

  lemma {:induction false} TrimSplits(s: string) returns (w: string)
    ensures White(w) && s == w + Trim(s)
  {
    hide Blank;
    if s != "" && IsSpace(s[0]) {
      w := TrimSplits(s[1..]);
      SpaceChars(s[0]);
      w := [s[0]] + w;
      assert s == [s[0]] + s[1..];
    } else {
      w := "";
    }
  }

  lemma TrimTwice(s: string)
    ensures Trim(Trim(s)) == Trim(s)
  {
  }

  lemma AllSpace(w: string)
    requires White(w)
    ensures Trim(w) == ""
  {
    TrimSkips(w, "");
    assert w + "" == w;
  }

  // ---------------------------------------------------------------- numbers

  lemma {:induction false} DigitsSkip(d: string, s: string)
    requires AllDigits(d) && (s == "" || !IsDigit(s[0]))
    ensures Digits(d + s) == s
  {
    hide Decimal;
    if d == "" {
      assert d + s == s;
    } else {
      DigitChars(d[0]);
      assert (d + s)[0] == d[0] && (d + s)[1..] == d[1..] + s;
      DigitsSkip(d[1..], s);
    }
  }

  /** The digits a text begins with. */
  function DigitsOf(s: string): string {
    if s != "" && IsDigit(s[0]) then [s[0]] + DigitsOf(s[1..]) else ""
  }

  lemma {:induction false} DigitsSplit(s: string)
    ensures AllDigits(DigitsOf(s)) && s == DigitsOf(s) + Digits(s)
  {
    hide Decimal;
    if s != "" && IsDigit(s[0]) {
      DigitsSplit(s[1..]);
      DigitChars(s[0]);
      assert s == [s[0]] + s[1..];
    }
  }

  lemma OneAhead(c: char, s: string)
    ensures var all := [c] + s; all != "" && all[0] == c && all[1..] == s
  {
  }

  lemma TwoAhead(c: char, d: char, s: string)
    ensures var all := [c] + ([d] + s); |all| > 1 && all[0] == c && all[1] == d && all[1..] == [d] + s && all[2..] == s
  {
  }

  lemma SomeDigitsSkip(d: string, s: string)
    requires d != "" && AllDigits(d) && (s == "" || !IsDigit(s[0]))
    ensures SomeDigits(d + s) == Rest(s)
  {
    hide Decimal;
    DigitChars(d[0]);
    assert (d + s)[1..] == d[1..] + s;
    DigitsSkip(d[1..], s);
  }

  lemma SomeDigitsSplit(s: string) returns (d: string)
    requires SomeDigits(s).Rest?
    ensures d != "" && AllDigits(d) && s == d + SomeDigits(s).text
  {
    hide Decimal;
    DigitsSplit(s[1..]);
    DigitChars(s[0]);
    hide Digits, DigitsOf, IsDigit;
    d := [s[0]] + DigitsOf(s[1..]);
    assert s == [s[0]] + s[1..];
  }

  /** What can follow a value: nothing, white space or a structural character. */
  predicate Boundary(s: string) {
    s == "" || s[0] in [' ', '\t', '\n', '\r', ',', ']', '}']
  }

  /** What can follow the digits of a number. */
  predicate EndsDigits(s: string) {
    s == "" || !IsDigit(s[0])
  }

  lemma BoundaryEnds(s: string)
    requires Boundary(s)
    ensures EndsDigits(s) && (s != "" ==> s[0] !in ['e', 'E', '.'])
  {
  }

  lemma ExponentAhead(mark: char, tail: string)
    requires mark in "eE" && tail != "" && IsDigit(tail[0])
    ensures Exponent([mark] + tail) == SomeDigits(tail)
  {
    hide SomeDigits;
    OneAhead(mark, tail);
    assert mark == 'e' || mark == 'E';
  }

  lemma SignedExponentAhead(mark: char, sign: string, tail: string)
    requires mark in "eE" && (sign == "+" || sign == "-")
    ensures Exponent([mark] + sign + tail) == SomeDigits(tail)
  {
    hide SomeDigits;
    assert sign == [sign[0]];
    assert [mark] + sign + tail == [mark] + ([sign[0]] + tail);
    TwoAhead(mark, sign[0], tail);
    assert mark == 'e' || mark == 'E';
  }

  lemma PowerReads(p: Power, s: string)
    requires PowerOk(p) && Boundary(s)
    ensures Exponent(PrintPower(p) + s) == Rest(s)
    ensures EndsDigits(PrintPower(p) + s) && (PrintPower(p) + s != "" ==> (PrintPower(p) + s)[0] != '.')
  {
    BoundaryEnds(s);
    if p.NoPower? {
      assert PrintPower(p) + s == s;
      hide Boundary;
    } else {
      hide Boundary, AllDigits, SomeDigits, Exponent, EndsDigits;
      DigitAhead(p.digits, s);
      SomeDigitsSkip(p.digits, s);
      MarkEndsDigits(p.mark, p.sign + (p.digits + s));
      Regrouped([p.mark], p.sign, p.digits + s);
      Regrouped([p.mark] + p.sign, p.digits, s);
      if p.sign == "" {
        assert [p.mark] + "" == [p.mark];
        ExponentAhead(p.mark, p.digits + s);
      } else {
        SignedExponentAhead(p.mark, p.sign, p.digits + s);
      }
    }
  }

  lemma MarkEndsDigits(mark: char, tail: string)
    requires mark in "eE"
    ensures EndsDigits([mark] + tail) && ([mark] + tail)[0] != '.'
  {
    assert mark == 'e' || mark == 'E';
  }

  lemma DigitAhead(d: string, s: string)
    requires d != "" && AllDigits(d)
    ensures IsDigit((d + s)[0]) && (d + s)[0] == d[0]
  {
    hide Decimal;
    DigitChars(d[0]);
  }

  lemma PointAhead(tail: string)
    requires SomeDigits(tail).Rest?
    ensures FractionAndExponent("." + tail) == Exponent(SomeDigits(tail).text)
  {
    OneAhead('.', tail);
    hide Exponent, SomeDigits;
  }

  lemma FractionReads(fraction: string, p: Power, s: string)
    requires AllDigits(fraction) && PowerOk(p) && Boundary(s)
    ensures var all := PrintFraction(fraction) + (PrintPower(p) + s);
            FractionAndExponent(all) == Rest(s) && EndsDigits(all)
  {
    hide PowerOk, PrintPower, Boundary, Exponent, AllDigits, SomeDigits;
    var tail := PrintPower(p) + s;
    PowerReads(p, s);
    if fraction == "" {
      assert PrintFraction(fraction) + tail == tail;
    } else {
      SomeDigitsSkip(fraction, tail);
      PointAhead(fraction + tail);
      Regrouped(".", fraction, tail);
      assert ("." + (fraction + tail))[0] == '.';
      hide FractionAndExponent;
    }
  }

  /** A number without its sign. */
  lemma WholeReads(n: Numeral, s: string)
    requires NumeralOk(n) && Boundary(s)
    ensures var t := n.whole + (PrintFraction(n.fraction) + (PrintPower(n.power) + s));
            && t != "" && t[0] != '-' && IsDigit(t[0])
            && FractionAndExponent(if t[0] == '0' then t[1..] else Digits(t[1..])) == Rest(s)
  {
    hide Decimal;
    var tail := PrintFraction(n.fraction) + (PrintPower(n.power) + s);
    FractionReads(n.fraction, n.power, s);
    DigitAhead(n.whole, tail);
    var d := n.whole[1..];
    assert n.whole + tail == [n.whole[0]] + (d + tail);
    OneAhead(n.whole[0], d + tail);
    if n.whole[0] == '0' {
      assert d + tail == tail;
    } else {
      assert AllDigits(d) by { hide PowerOk; }
      hide PowerOk, PrintPower, Boundary, FractionAndExponent, AllDigits, PrintFraction;
      DigitsSkip(d, tail);
    }
  }

  lemma SignAhead(t: string)
    requires t != "" && t[0] != '-'
    ensures Number("-" + t) == Number(t)
  {
    OneAhead('-', t);
    hide FractionAndExponent, Digits;
  }

  lemma Flattened(a: string, b: string, c: string, d: string, e: string)
    ensures a + (b + (c + (d + e))) == a + b + c + d + e
  {
    Regrouped(a, b, c + (d + e));
    Regrouped(a + b, c, d + e);
    Regrouped(a + b + c, d, e);
  }

  lemma WholeIsNumber(n: Numeral, s: string)
    requires NumeralOk(n) && Boundary(s)
    ensures var t := n.whole + (PrintFraction(n.fraction) + (PrintPower(n.power) + s));
            t != "" && t[0] != '-' && Number(t) == Rest(s)
  {
    WholeReads(n, s);
    hide NumeralOk, Boundary, FractionAndExponent, Digits, PrintFraction, PrintPower;
  }

  lemma NumberReads(n: Numeral, s: string)
    requires NumeralOk(n) && Boundary(s)
    ensures Number(PrintNumeral(n) + s) == Rest(s)
  {
    hide NumeralOk, PrintPower, Boundary, PrintFraction, Number;
    WholeIsNumber(n, s);
    var sign, fraction, power := if n.negative then "-" else "", PrintFraction(n.fraction), PrintPower(n.power);
    var t := n.whole + (fraction + (power + s));
    SignAhead(t);
    Flattened(sign, n.whole, fraction, power, s);
    assert "" + t == t;
  }

  lemma PowerSplits(s: string) returns (p: Power)
    requires Exponent(s).Rest?
    ensures PowerOk(p) && s == PrintPower(p) + Exponent(s).text
  {
    hide AllDigits, SomeDigits;
    if s == "" || (s[0] != 'e' && s[0] != 'E') {
      p := NoPower;
    } else if |s| > 1 && (s[1] == '+' || s[1] == '-') {
      var d := SomeDigitsSplit(s[2..]);
      p := Power(s[0], [s[1]], d);
      SignListed(s[1]);
      assert s == [s[0]] + [s[1]] + s[2..];
      Regrouped([s[0]] + [s[1]], d, SomeDigits(s[2..]).text);
    } else {
      var d := SomeDigitsSplit(s[1..]);
      p := Power(s[0], "", d);
      assert s == [s[0]] + "" + s[1..];
      Regrouped([s[0]] + "", d, SomeDigits(s[1..]).text);
    }
  }

  lemma SignListed(c: char)
    requires c == '+' || c == '-'
    ensures [c] in ["", "+", "-"]
  {
    assert ["", "+", "-"][1] == "+" && ["", "+", "-"][2] == "-";
  }

  lemma Regrouped(a: string, b: string, c: string)
    ensures a + (b + c) == a + b + c
  {
  }

  lemma FractionSplits(s: string) returns (fraction: string, p: Power)
    requires FractionAndExponent(s).Rest?
    ensures AllDigits(fraction) && PowerOk(p)
    ensures s == PrintFraction(fraction) + (PrintPower(p) + FractionAndExponent(s).text)
  {
    hide PowerOk, PrintPower, Exponent, SomeDigits;
    if s == "" || s[0] != '.' {
      fraction := "";
      p := PowerSplits(s);
      assert s == "" + s;
    } else {
      hide AllDigits;
      fraction := SomeDigitsSplit(s[1..]);
      p := PowerSplits(SomeDigits(s[1..]).text);
      assert s == "." + s[1..];
      Regrouped(".", fraction, SomeDigits(s[1..]).text);
    }
  }

  lemma NumberSplits(s: string) returns (n: Numeral)
    requires Number(s).Rest?
    ensures NumeralOk(n) && s == PrintNumeral(n) + Number(s).text
  {
    hide FractionAndExponent, PowerOk, PrintPower, PrintFraction, Digits, DigitsOf, AllDigits;
    var negative := s != "" && s[0] == '-';
    var sign, t := if negative then "-" else "", if negative then s[1..] else s;
    assert s == sign + t;
    var digits := if t[0] == '0' then "" else DigitsOf(t[1..]);
    var tail := if t[0] == '0' then t[1..] else Digits(t[1..]);
    DigitsSplit(t[1..]);
    var fraction, p := FractionSplits(tail);
    NoDigitsOk();
    WholeOk(t[0], digits);
    n := Numeral(negative, [t[0]] + digits, fraction, p);
    assert t == [t[0]] + t[1..] && t[1..] == digits + tail;
    assert Number(s) == FractionAndExponent(tail);
    hide Number, IsDigit;
    Assembled(sign, [t[0]], digits, PrintFraction(fraction), PrintPower(p), FractionAndExponent(tail).text);
  }

  lemma NoDigitsOk()
    ensures AllDigits("")
  {
  }

  lemma WholeOk(c: char, digits: string)
    requires IsDigit(c) && AllDigits(digits) && (c == '0' ==> digits == "")
    ensures var whole := [c] + digits; AllDigits(whole) && whole[0] == c && (c == '0' ==> |whole| == 1)
  {
    hide Decimal;
    DigitChars(c);
  }

  lemma Assembled(a: string, b: string, c: string, d: string, e: string, f: string)
    ensures a + (b + (c + (d + (e + f)))) == a + (b + c) + d + e + f
  {
    Regrouped(b, c, d + (e + f));
    Regrouped(a, b + c, d + (e + f));
    Regrouped(a + (b + c), d, e + f);
    Regrouped(a + (b + c) + d, e, f);
  }

  // ---------------------------------------------------------------- strings

  lemma QuadReads(q: Quad, s: string)
    requires QuadOk(q)
    ensures var all := PrintQuad(q) + s;
            Escape(all) == CodeOf(q) && |all| >= 6 && all[0] == '\\' && all[1] == 'u' && all[6..] == s
  {
    PrintedHex(q.a);
    PrintedHex(q.b);
    PrintedHex(q.c);
    PrintedHex(q.d);
    hide PrintHex, HexDigit;
    var all := PrintQuad(q) + s;
    assert |PrintQuad(q)| == 6;
    assert all[2] == PrintHex(q.a) && all[3] == PrintHex(q.b) && all[4] == PrintHex(q.c) && all[5] == PrintHex(q.d);
  }

  lemma QuadSplits(s: string) returns (q: Quad)
    requires Escape(s) >= 0
    ensures QuadOk(q) && CodeOf(q) == Escape(s) && |s| >= 6 && s == PrintQuad(q) + s[6..]
  {
    var a := HexChars(s[2]);
    var b := HexChars(s[3]);
    var c := HexChars(s[4]);
    var d := HexChars(s[5]);
    hide PrintHex, HexDigit;
    q := Quad(a, b, c, d);
    assert s == "\\u" + [s[2], s[3], s[4], s[5]] + s[6..];
  }

  lemma ShortEscapes(c: char)
    ensures IsSimpleEscape(c) <==> UnitOk(Short(c))
    ensures UnitOk(Short(c)) ==> c != 'u'
  {
    var listed := "\"\\/bfnrt";
    assert listed[0] == '\"' && listed[1] == '\\' && listed[2] == '/' && listed[3] == 'b' && listed[4] == 'f'
           && listed[5] == 'n' && listed[6] == 'r' && listed[7] == 't';
  }

  lemma NoShortU()
    ensures !IsSimpleEscape('u')
  {
    ShortEscapes('u');
  }

  lemma CodeReads(q: Quad, s: string)
    requires UnitOk(Code(q))
    ensures StringBody(PrintQuad(q) + s) == StringBody(s)
  {
    QuadReads(q, s);
    NoShortU();
    hide PrintQuad, Escape, CodeOf, IsSimpleEscape;
  }

  lemma PairReads(high: Quad, low: Quad, s: string)
    requires UnitOk(Pair(high, low))
    ensures StringBody(PrintQuad(high) + (PrintQuad(low) + s)) == StringBody(s)
  {
    var tail := PrintQuad(low) + s;
    QuadReads(high, tail);
    QuadReads(low, s);
    NoShortU();
    var all := PrintQuad(high) + tail;
    assert all[12..] == all[6..][6..];
    hide PrintQuad, Escape, CodeOf, IsSimpleEscape;
  }

  lemma UnitReads(u: Unit, s: string)
    requires UnitOk(u)
    ensures StringBody(PrintUnit(u) + s) == StringBody(s)
  {
    match u
    case Plain(c) => OneAhead(c, s);
    case Short(c) =>
      ShortEscapes(c);
      assert PrintUnit(u) + s == ['\\'] + ([c] + s);
      TwoAhead('\\', c, s);
      hide IsSimpleEscape;
    case Code(q) => CodeReads(q, s);
    case Pair(high, low) =>
      PairReads(high, low, s);
      Regrouped(PrintQuad(high), PrintQuad(low), s);
      hide PrintQuad, StringBody;
  }

  lemma PrintUnitsStep(units: seq<Unit>, s: string)
    requires units != []
    ensures PrintUnits(units) + "\"" + s == PrintUnit(units[0]) + (PrintUnits(units[1..]) + "\"" + s)
  {
    var first, rest := PrintUnit(units[0]), PrintUnits(units[1..]);
    assert PrintUnits(units) == first + rest;
    hide *;
    Regrouped(first, rest, "\"");
    Regrouped(first, rest + "\"", s);
  }

  lemma {:induction false} UnitsRead(units: seq<Unit>, s: string)
    requires UnitsOk(units)
    ensures StringBody(PrintUnits(units) + "\"" + s) == Rest(s)
  {
    if units == [] {
      assert PrintUnits(units) + "\"" + s == ['\"'] + s;
      OneAhead('\"', s);
    } else {
      hide StringBody, PrintUnit, UnitOk, PrintUnits;
      UnitsRead(units[1..], s);
      PrintUnitsStep(units, s);
      UnitReads(units[0], PrintUnits(units[1..]) + "\"" + s);
    }
  }

  /** The first unit of a string that can be read, and what follows it. */
  lemma UnitSplits(s: string) returns (u: Unit, tail: string)
    requires StringBody(s).Rest? && s[0] != '\"'
    ensures UnitOk(u) && s == PrintUnit(u) + tail && StringBody(tail) == StringBody(s) && |tail| < |s|
  {
    if s[0] != '\\' {
      u, tail := Plain(s[0]), s[1..];
    } else if |s| > 1 && IsSimpleEscape(s[1]) {
      ShortEscapes(s[1]);
      u, tail := Short(s[1]), s[2..];
      assert s == "\\" + [s[1]] + s[2..];
    } else if Escape(s) < 0xD800 || 0xDFFF < Escape(s) {
      var q := QuadSplits(s);
      EscapeFits(q);
      u, tail := Code(q), s[6..];
      hide PrintQuad, Escape, CodeOf, IsSimpleEscape;
    } else {
      var high := QuadSplits(s);
      var low := QuadSplits(s[6..]);
      u, tail := Pair(high, low), s[12..];
      assert s[6..][6..] == s[12..];
      Regrouped(PrintQuad(high), PrintQuad(low), tail);
      hide PrintQuad, Escape, CodeOf, IsSimpleEscape;
    }
  }

  lemma EscapeFits(q: Quad)
    requires QuadOk(q)
    ensures CodeOf(q) < 0x10000
  {
  }

  lemma {:induction false} UnitsSplit(s: string) returns (units: seq<Unit>)
    requires StringBody(s).Rest?
    ensures UnitsOk(units) && s == PrintUnits(units) + "\"" + StringBody(s).text
    decreases |s|
  {
    if s[0] == '\"' {
      units := [];
      assert s == "" + "\"" + s[1..];
    } else {
      var u, tail := UnitSplits(s);
      var more := UnitsSplit(tail);
      hide StringBody, PrintUnit, UnitOk;
      units := [u] + more;
      assert units[1..] == more;
      Flattened("", PrintUnit(u), PrintUnits(more), "\"", StringBody(s).text);
      Regrouped(PrintUnits(more), "\"", StringBody(s).text);
      assert "" + PrintUnit(u) == PrintUnit(u);
      assert "" + (PrintUnit(u) + tail) == PrintUnit(u) + tail;
    }
  }

  // ---------------------------------------------------------------- every printed tree is accepted

  lemma ValueTrims(w: string, s: string)
    requires White(w)
    ensures Trim(s) == s ==> Value(w + s) == Value(s)
    ensures Elements(Trim(s)) == Elements(s) && Members(Trim(s)) == Members(s)
  {
    TrimTwice(s);
    TrimmedElements(s);
    TrimmedMembers(s);
    if Trim(s) == s {
      TrimmedStart(s);
      TrimSkips(w, s);
      hide White, Trim, StringBody, Number, Elements, Members, StartsWith;
    }
  }

  lemma TrimmedStart(s: string)
    requires Trim(s) == s
    ensures s == "" || !IsSpace(s[0])
  {
  }

  lemma TrimmedElements(s: string)
    ensures Elements(Trim(s)) == Elements(s)
  {
    TrimTwice(s);
    assert Value(Trim(s)) == Value(s) by { hide Elements, Members, StringBody, Number, StartsWith; }
    hide Value, Trim;
  }

  lemma TrimmedMembers(s: string)
    ensures Members(Trim(s)) == Members(s)
  {
    TrimTwice(s);
    hide Value, Trim, StringBody;
  }

  /** Where the text of a value begins. */
  predicate Begins(s: string) {
    s != "" && !IsSpace(s[0]) && s[0] !in [',', ':', ']', '}']
  }

  lemma CoreBegins(c: Core, s: string)
    requires CoreOk(c)
    ensures Begins(PrintCore(c) + s) && Trim(PrintCore(c) + s) == PrintCore(c) + s
  {
    hide NumeralOk, PrintNumeral, UnitsOk, White, ItemsOk, FieldsOk, PrintItems, PrintFields, PrintUnits, Begins;
    match c {
      case Word(text) => WordBegins(text);
      case Num(n) => WholeBegins(n); NumberBegins(PrintNumeral(n));
      case Text(units) => MarkBegins('\"', PrintUnits(units), "\"");
      case NoItems(space) => MarkBegins('[', space, "]");
      case Array(es) => MarkBegins('[', PrintItems(es), "]");
      case NoFields(space) => MarkBegins('{', space, "}");
      case Object(ms) => MarkBegins('{', PrintFields(ms), "}");
    }
    hide PrintCore, CoreOk;
    BeginsLonger(PrintCore(c), s);
  }

  lemma MarkBegins(mark: char, inner: string, close: string)
    requires mark in ['\"', '[', '{']
    ensures Begins([mark] + inner + close)
  {
    assert ([mark] + inner + close)[0] == mark;
  }

  lemma WordBegins(text: string)
    requires text in ["true", "false", "null"]
    ensures Begins(text)
  {
  }

  lemma NumberBegins(text: string)
    requires text != "" && (text[0] == '-' || IsDigit(text[0]))
    ensures Begins(text)
  {
  }

  lemma BeginsLonger(text: string, s: string)
    requires Begins(text)
    ensures Begins(text + s) && Trim(text + s) == text + s
  {
    assert (text + s)[0] == text[0];
  }

  lemma WholeBegins(n: Numeral)
    requires NumeralOk(n)
    ensures PrintNumeral(n) != "" && (PrintNumeral(n)[0] == '-' || IsDigit(PrintNumeral(n)[0]))
  {
    var sign, fraction, power := if n.negative then "-" else "", PrintFraction(n.fraction), PrintPower(n.power);
    var tail := n.whole + (fraction + power);
    DigitAhead(n.whole, fraction + power);
    assert PrintNumeral(n) == sign + n.whole + fraction + power;
    hide *;
    FourJoined(sign, n.whole, fraction, power);
    if n.negative { OneAhead('-', tail); } else { assert "" + tail == tail; }
  }

  lemma WordReads(text: string, s: string)
    requires text in ["true", "false", "null"]
    ensures Value(text + s) == Rest(s)
  {
    assert text == "true" || text == "false" || text == "null";
    assert (text + s)[..|text|] == text && (text + s)[|text|..] == s;
    var t := text + s;
    assert t[0] == text[0] && t[1] == text[1];
    assert Trim(t) == t;
    hide Number, StringBody, Elements, Members;
  }

  lemma ValueIsNumber(t: string)
    requires t != "" && (t[0] == '-' || IsDigit(t[0]))
    ensures Value(t) == Number(t)
  {
    NoWord(t);
    assert Trim(t) == t;
    hide StartsWith, Number, StringBody, Elements, Members;
  }

  lemma NumberIsValue(n: Numeral, s: string)
    requires NumeralOk(n) && Boundary(s)
    ensures Value(PrintNumeral(n) + s) == Rest(s)
  {
    hide NumeralOk, PrintNumeral, Boundary, Number, Value, IsDigit;
    WholeBegins(n);
    NumberReads(n, s);
    assert (PrintNumeral(n) + s)[0] == PrintNumeral(n)[0];
    ValueIsNumber(PrintNumeral(n) + s);
  }

  lemma WordIsFirst(t: string, word: string)
    requires word != ""
    ensures StartsWith(t, word) ==> t != "" && t[0] == word[0]
  {
    if StartsWith(t, word) { assert t[..|word|][0] == t[0]; }
  }

  lemma NoWord(t: string)
    requires t != "" && (t[0] == '-' || IsDigit(t[0]))
    ensures !StartsWith(t, "true") && !StartsWith(t, "null") && !StartsWith(t, "false")
  {
    WordIsFirst(t, "true");
    WordIsFirst(t, "null");
    WordIsFirst(t, "false");
    hide StartsWith;
  }

  lemma TextReads(units: seq<Unit>, s: string)
    requires UnitsOk(units)
    ensures StringBody((PrintText(units) + s)[1..]) == Rest(s) && (PrintText(units) + s)[0] == '\"'
  {
    UnitsRead(units, s);
    var body := PrintUnits(units);
    assert PrintText(units) == "\"" + body + "\"";
    hide *;
    FourJoined("\"", body, "\"", s);
    Regrouped(body, "\"", s);
    OneAhead('\"', body + "\"" + s);
  }

  lemma TextIsValue(units: seq<Unit>, s: string)
    requires UnitsOk(units)
    ensures Value(PrintText(units) + s) == Rest(s)
  {
    TextReads(units, s);
    hide StringBody, PrintText, UnitsOk, Elements, Members, Number;
  }

  /** Brackets with nothing but white space between them. */
  lemma EmptyReads(open: char, space: string, close: char, s: string)
    requires White(space) && ((open == '[' && close == ']') || (open == '{' && close == '}'))
    ensures Value([open] + space + [close] + s) == Rest(s)
  {
    var t, tail := [open] + space + [close] + s, [close] + s;
    assert t == [open] + (space + tail);
    OneAhead(open, space + tail);
    TrimSkips(space, tail);
    OneAhead(close, s);
    assert Trim(t) == t;
    hide White, StringBody, Elements, Members, Number;
  }

  lemma FilledReads(open: char, inner: string, s: string)
    requires (open == '[' && Elements(inner) == Rest(s)) || (open == '{' && Members(inner) == Rest(s))
    requires Trim(inner) != "" && Trim(inner)[0] != ']' && Trim(inner)[0] != '}'
    ensures Value([open] + inner) == Rest(s)
  {
    var t := [open] + inner;
    OneAhead(open, inner);
    ValueTrims("", inner);
    assert Trim(t) == t;
    hide StringBody, Elements, Members, Number;
  }

  lemma CoreReads(c: Core, s: string)
    requires CoreOk(c) && Boundary(s)
    ensures Value(PrintCore(c) + s) == Rest(s)
  {
    hide Value, Elements, Members, PrintItems, PrintFields, PrintText, PrintNumeral, Boundary;
    match c
    case Word(text) => WordReads(text, s);
    case Num(n) => NumberIsValue(n, s);
    case Text(units) => TextIsValue(units, s);
    case NoItems(space) => EmptyReads('[', space, ']', s);
    case NoFields(space) => EmptyReads('{', space, '}', s);
    case Array(es) =>
      ItemsRead(es, s);
      assert PrintCore(c) + s == ['['] + (PrintItems(es) + ("]" + s));
      FilledReads('[', PrintItems(es) + ("]" + s), s);
    case Object(ms) =>
      FieldsRead(ms, s);
      assert PrintCore(c) + s == ['{'] + (PrintFields(ms) + ("}" + s));
      FilledReads('{', PrintFields(ms) + ("}" + s), s);
  }

  /** A value that is followed by a comma or a closing bracket. */
  lemma TreeReads(t: Tree, mark: char, s: string)
    requires TreeOk(t) && mark in [',', ']', '}']
    ensures Value(Print(t) + ([mark] + s)) == Rest(t.after + ([mark] + s)) && Trim(t.after + ([mark] + s)) == [mark] + s
    ensures var u := Trim(Print(t) + ([mark] + s)); u != "" && u[0] != ']' && u[0] != '}'
  {
    hide Value, CoreOk, PrintCore, Begins, White;
    var tail := [mark] + s;
    var rest := t.after + tail;
    MarkIsBoundary(t.after, mark, s);
    CoreReads(t.core, rest);
    CoreBegins(t.core, rest);
    hide Boundary;
    ValueTrims(t.before, PrintCore(t.core) + rest);
    BeginsVisible(PrintCore(t.core) + rest);
    TrimSkips(t.before, PrintCore(t.core) + rest);
    TrimSkips(t.after, tail);
    assert Print(t) + tail == t.before + (PrintCore(t.core) + rest) by {
      Regrouped(t.before, PrintCore(t.core), rest);
      Regrouped(t.before + PrintCore(t.core), t.after, tail);
    }
  }

  lemma BeginsVisible(s: string)
    requires Begins(s)
    ensures s != "" && !IsSpace(s[0]) && s[0] != ']' && s[0] != '}'
  {
  }

  lemma MarkIsBoundary(w: string, mark: char, s: string)
    requires White(w) && mark in [',', ']', '}']
    ensures Boundary(w + ([mark] + s)) && !IsSpace(([mark] + s)[0])
  {
    if w != "" {
      SpaceChars(w[0]);
      assert (w + ([mark] + s))[0] == w[0];
    } else {
      assert (w + ([mark] + s))[0] == mark;
    }
  }

  lemma ItemsRead(es: Items, s: string)
    requires ItemsOk(es)
    ensures Elements(PrintItems(es) + ("]" + s)) == Rest(s)
    ensures var u := Trim(PrintItems(es) + ("]" + s)); u != "" && u[0] != ']' && u[0] != '}'
  {
    hide Value, Members, Print, TreeOk;
    match es
    case LastItem(t) =>
      TreeReads(t, ']', s);
      hide Trim;
      OneAhead(']', s);
      assert "]" + s == [']'] + s;
    case Item(t, more) =>
      var tail := PrintItems(more) + ("]" + s);
      ItemsRead(more, s);
      TreeReads(t, ',', tail);
      hide Trim;
      OneAhead(',', tail);
      Regrouped(Print(t), ",", tail);
      Regrouped(Print(t) + ",", PrintItems(more), "]" + s);
      assert PrintItems(es) + ("]" + s) == Print(t) + ([','] + tail);
      hide PrintItems;
  }

  /** The text of a member and what follows it, taken apart as `Members` does. */
  lemma FieldText(f: Field, tail: string)
    ensures PrintField(f) + tail == f.before + (PrintText(f.name) + (f.after + ([':'] + (Print(f.value) + tail))))
  {
    var name, value := PrintText(f.name), Print(f.value);
    assert PrintField(f) == f.before + name + f.after + ":" + value;
    hide *;
    Regrouped(f.before + name + f.after + ":", value, tail);
    Flattened(f.before, name, f.after, ":", value + tail);
  }

  lemma MembersStep(s: string, name: string, colon: string, value: string, rest: string, mark: char, tail: string)
    requires Trim(s) == name && name != "" && name[0] == '\"' && StringBody(name[1..]) == Rest(colon)
    requires Trim(colon) == [':'] + value && Value(value) == Rest(rest) && Trim(rest) == [mark] + tail
    requires mark == ',' || mark == '}'
    ensures Members(s) == if mark == ',' then Members(tail) else Rest(tail)
  {
    OneAhead(':', value);
    OneAhead(mark, tail);
    hide Value, Elements, StringBody, Trim;
  }

  lemma QuoteIsNoSpace(s: string)
    requires s != "" && s[0] == '\"'
    ensures !IsSpace(s[0])
  {
  }

  lemma FieldReads(f: Field, mark: char, s: string)
    requires FieldOk(f) && (mark == ',' || mark == '}')
    ensures Members(PrintField(f) + ([mark] + s)) == if mark == ',' then Members(s) else Rest(s)
    ensures var u := Trim(PrintField(f) + ([mark] + s)); u != "" && u[0] == '\"'
  {
    var value := Print(f.value) + ([mark] + s);
    var colon := f.after + ([':'] + value);
    var name := PrintText(f.name) + colon;
    assert White(f.before) && UnitsOk(f.name) && White(f.after) && TreeOk(f.value);
    hide *;
    assert mark in [',', ']', '}'];
    FieldText(f, [mark] + s);
    TreeReads(f.value, mark, s);
    TextReads(f.name, colon);
    QuoteIsNoSpace(name);
    TrimSkips(f.before, name);
    ColonIsNoSpace(value);
    TrimSkips(f.after, [':'] + value);
    MembersStep(f.before + name, name, colon, value, f.value.after + ([mark] + s), mark, s);
  }

  lemma ColonIsNoSpace(value: string)
    ensures !IsSpace(([':'] + value)[0])
  {
  }

  lemma FieldsRead(ms: Fields, s: string)
    requires FieldsOk(ms)
    ensures Members(PrintFields(ms) + ("}" + s)) == Rest(s)
    ensures var u := Trim(PrintFields(ms) + ("}" + s)); u != "" && u[0] != ']' && u[0] != '}'
  {
    hide Value, Elements, Members, PrintField, FieldOk, Trim;
    match ms
    case LastField(m) =>
      FieldReads(m, '}', s);
      assert "}" + s == ['}'] + s;
    case MoreFields(m, more) =>
      var tail := PrintFields(more) + ("}" + s);
      FieldsRead(more, s);
      FieldReads(m, ',', tail);
      Regrouped(PrintField(m), ",", tail);
      Regrouped(PrintField(m) + ",", PrintFields(more), "}" + s);
      assert PrintFields(ms) + ("}" + s) == PrintField(m) + ([','] + tail);
      hide PrintFields;
  }

  lemma PrintedIsJson(t: Tree)
    requires TreeOk(t)
    ensures IsJson(Print(t))
  {
    hide Value, CoreOk, PrintCore, White;
    WhiteIsBoundary(t.after);
    CoreReads(t.core, t.after);
    CoreBegins(t.core, t.after);
    ValueTrims(t.before, PrintCore(t.core) + t.after);
    AllSpace(t.after);
    Regrouped(t.before, PrintCore(t.core), t.after);
  }

  lemma WhiteIsBoundary(w: string)
    requires White(w)
    ensures Boundary(w)
  {
    if w != "" { SpaceChars(w[0]); }
  }

  // ---------------------------------------------------------------- everything accepted is a printed tree

  /** A tree that reads s up to its rest, without the white space after it. */
  lemma ValueSplits(s: string) returns (w: string, c: Core)
    requires Value(s).Rest?
    ensures White(w) && CoreOk(c) && s == w + (PrintCore(c) + Value(s).text)
    decreases |s|, 1
  {
    w := TrimSplits(s);
    hide White;
    var t := Trim(s);
    if t[0] == '{' || t[0] == '[' {
      c := BracketSplits(t);
    } else {
      hide Elements, Members;
      c := ScalarSplits(t);
    }
    assert Value(t) == Value(s) by { TrimTwice(s); hide Elements, Members, StringBody, Number, StartsWith; }
  }

  lemma ScalarSplits(t: string) returns (c: Core)
    requires Trim(t) == t && Value(t).Rest? && t[0] != '{' && t[0] != '['
    ensures CoreOk(c) && t == PrintCore(c) + Value(t).text
  {
    if t[0] == '\"' {
      var units := UnitsSplit(t[1..]);
      c := Text(units);
      assert t == "\"" + t[1..];
      Regrouped("\"", PrintUnits(units) + "\"", Value(t).text);
      Regrouped("\"", PrintUnits(units), "\"");
      hide StringBody, UnitsOk, PrintUnits;
    } else if StartsWith(t, "true") || StartsWith(t, "null") {
      c := Word(t[..4]);
      assert ["true", "false", "null"][0] == "true" && ["true", "false", "null"][2] == "null";
      assert t == t[..4] + t[4..];
    } else if StartsWith(t, "false") {
      c := Word(t[..5]);
      assert ["true", "false", "null"][1] == "false";
      assert t == t[..5] + t[5..];
    } else {
      var n := NumberSplits(t);
      c := Num(n);
      hide Number, NumeralOk, PrintNumeral;
    }
  }

  predicate ClosesAtOnce(t: string)
    requires t != ""
  {
    var u := Trim(t[1..]);
    u != "" && u[0] == if t[0] == '{' then '}' else ']'
  }

  lemma EmptySplits(t: string) returns (c: Core)
    requires t != "" && Trim(t) == t && (t[0] == '{' || t[0] == '[') && ClosesAtOnce(t)
    ensures Value(t).Rest? && CoreOk(c) && t == PrintCore(c) + Value(t).text
  {
    var u := Trim(t[1..]);
    var space := TrimSplits(t[1..]);
    c := if t[0] == '{' then NoFields(space) else NoItems(space);
    assert t == [t[0]] + t[1..] && u == [u[0]] + u[1..];
    assert Value(t) == Rest(u[1..]) by { hide Elements, Members, StringBody, Number, StartsWith; }
    hide White, Value, Trim;
    FourJoined([t[0]], space, [u[0]], u[1..]);
  }

  /** What is between the brackets has to be read. */
  lemma FilledValue(t: string)
    requires t != "" && Trim(t) == t && (t[0] == '{' || t[0] == '[') && !ClosesAtOnce(t)
    ensures Value(t) == if t[0] == '{' then Members(t[1..]) else Elements(t[1..])
  {
    ValueTrims("", t[1..]);
    hide Elements, Members, StringBody, Number, StartsWith;
  }

  lemma BracketSplits(t: string) returns (c: Core)
    requires t != "" && Trim(t) == t && Value(t).Rest? && (t[0] == '{' || t[0] == '[')
    ensures CoreOk(c) && t == PrintCore(c) + Value(t).text
    decreases |t|, 0
  {
    hide Value, Elements, Members, Trim, ClosesAtOnce, ItemsOk, FieldsOk, PrintItems, PrintFields;
    if ClosesAtOnce(t) {
      c := EmptySplits(t);
    } else {
      FilledValue(t);
      assert t == [t[0]] + t[1..];
      if t[0] == '{' {
        var ms := MembersSplit(t[1..]);
        c := Object(ms);
        FourJoined("{", PrintFields(ms), "}", Value(t).text);
      } else {
        var es := ElementsSplit(t[1..]);
        c := Array(es);
        FourJoined("[", PrintItems(es), "]", Value(t).text);
      }
    }
  }

  lemma FourJoined(a: string, b: string, c: string, d: string)
    ensures a + (b + (c + d)) == a + b + c + d
  {
    Regrouped(a, b, c + d);
    Regrouped(a + b, c, d);
  }

  lemma ElementsSplit(s: string) returns (es: Items)
    requires Elements(s).Rest?
    ensures ItemsOk(es) && s == PrintItems(es) + ("]" + Elements(s).text)
    decreases |s|, 2
  {
    var w, c := ValueSplits(s);
    var t := Value(s).text;
    var after := TrimSplits(t);
    var u := Trim(t);
    hide Value, CoreOk, White, Trim;
    var tree := Tree(w, c, after);
    assert u == [u[0]] + u[1..];
    assert s == Print(tree) + u by { FourJoined(w, PrintCore(c), after, u); hide PrintCore; }
    if u[0] == ',' {
      var more := ElementsSplit(u[1..]);
      es := Item(tree, more);
      hide Elements, Print;
      FourJoined(Print(tree), ",", PrintItems(more), "]" + Elements(s).text);
    } else {
      es := LastItem(tree);
    }
  }

  /** The stations of reading one member: t begins at its name, v at the colon, x behind its value. */
  lemma MembersView(s: string) returns (t: string, u: string, v: string, x: string)
    requires Members(s).Rest?
    ensures t == Trim(s) && t != "" && t[0] == '\"' && StringBody(t[1..]) == Rest(u)
    ensures v == Trim(u) && v != "" && v[0] == ':' && Value(v[1..]).Rest? && x == Trim(Value(v[1..]).text) && x != ""
    ensures |v| < |s| && |x| < |s|
    ensures (x[0] == ',' && Members(s) == Members(x[1..])) || (x[0] == '}' && Members(s) == Rest(x[1..]))
  {
    t := Trim(s);
    u := StringBody(t[1..]).text;
    v := Trim(u);
    x := Trim(Value(v[1..]).text);
    hide Value, StringBody, Trim;
  }

  lemma FieldSplits(s: string, t: string, u: string, v: string, x: string) returns (f: Field)
    requires t == Trim(s) && t != "" && t[0] == '\"' && StringBody(t[1..]) == Rest(u)
    requires v == Trim(u) && v != "" && v[0] == ':' && Value(v[1..]).Rest? && x == Trim(Value(v[1..]).text)
    requires |v| < |s|
    ensures FieldOk(f) && s == PrintField(f) + x
    decreases |s|, 0
  {
    hide Value, CoreOk, White, Trim, StringBody, UnitsOk, PrintUnits, PrintCore;
    var before := TrimSplits(s);
    var units := UnitsSplit(t[1..]);
    var after := TrimSplits(u);
    var w, c := ValueSplits(v[1..]);
    var end := TrimSplits(Value(v[1..]).text);
    var tree := Tree(w, c, end);
    FourJoined(w, PrintCore(c), end, x);
    f := Field(before, units, after, tree);
    FieldAssembled(s, t, u, v, f, x);
  }

  lemma MembersSplit(s: string) returns (ms: Fields)
    requires Members(s).Rest?
    ensures FieldsOk(ms) && s == PrintFields(ms) + ("}" + Members(s).text)
    decreases |s|, 2
  {
    hide Value, Trim, StringBody, Members, PrintField, FieldOk;
    var t, u, v, x := MembersView(s);
    var field := FieldSplits(s, t, u, v, x);
    assert x == [x[0]] + x[1..];
    if x[0] == ',' {
      var more := MembersSplit(x[1..]);
      ms := MoreFields(field, more);
      FourJoined(PrintField(field), ",", PrintFields(more), "}" + Members(s).text);
    } else {
      ms := LastField(field);
    }
  }

  lemma FieldAssembled(s: string, t: string, u: string, v: string, f: Field, x: string)
    requires s == f.before + t && t != "" && t[0] == '\"' && t[1..] == PrintUnits(f.name) + "\"" + u
    requires u == f.after + v && v != "" && v[0] == ':' && v[1..] == Print(f.value) + x
    ensures s == PrintField(f) + x
  {
    hide PrintUnits, Print;
    assert v == ":" + (Print(f.value) + x);
    assert t == "\"" + (PrintUnits(f.name) + "\"" + u);
    Regrouped("\"", PrintUnits(f.name) + "\"", u);
    Regrouped("\"", PrintUnits(f.name), "\"");
    assert t == PrintText(f.name) + (f.after + (":" + (Print(f.value) + x)));
    hide PrintText;
    Flattened(f.before, PrintText(f.name), f.after, ":", Print(f.value) + x);
    Regrouped(f.before + PrintText(f.name) + f.after + ":", Print(f.value), x);
  }

  /** Exactly the texts of the grammar are accepted. */
  lemma IsJsonIffPrinted(s: string)
    ensures IsJson(s) <==> exists t :: TreeOk(t) && Print(t) == s
  {
    hide Value, CoreOk, PrintCore, White;
    if IsJson(s) {
      var w, c := ValueSplits(s);
      var after := TrimSplits(Value(s).text);
      assert after + "" == after;
      Regrouped(w, PrintCore(c), after);
      var t := Tree(w, c, after);
      assert TreeOk(t) && Print(t) == s;
    }
    if t :| TreeOk(t) && Print(t) == s {
      PrintedIsJson(t);
    }
  }
}
