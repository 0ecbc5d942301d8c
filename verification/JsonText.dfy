/** Which texts PostgreSQL takes as jsonb: RFC 8259, section 2, and no escape that stands for NUL or for half
    of a surrogate pair. Each parser returns what follows the part it has read. */
module JsonText {
  datatype Parsed = NoMatch | Rest(text: string)

  predicate IsSpace(c: char) {
    c == ' ' || c == '\t' || c == '\n' || c == '\r'
  }

  predicate IsDigit(c: char) {
    '0' <= c <= '9'
  }

  function Trim(s: string): (r: string)
    ensures |r| <= |s| && (r != "" ==> !IsSpace(r[0]))
  {
    if s != "" && IsSpace(s[0]) then Trim(s[1..]) else s
  }

  function Digits(s: string): (r: string)
    ensures |r| <= |s| && (r != "" ==> !IsDigit(r[0]))
  {
    if s != "" && IsDigit(s[0]) then Digits(s[1..]) else s
  }

  /** At least one digit. */
  function SomeDigits(s: string): (r: Parsed)
    ensures r.Rest? ==> |r.text| < |s|
  {
    if s != "" && IsDigit(s[0]) then Rest(Digits(s[1..])) else NoMatch
  }

  function Exponent(s: string): (r: Parsed)
    ensures r.Rest? ==> |r.text| <= |s|
  {
    if s == "" || (s[0] != 'e' && s[0] != 'E') then Rest(s)
    else if |s| > 1 && (s[1] == '+' || s[1] == '-') then SomeDigits(s[2..])
    else SomeDigits(s[1..])
  }

  function FractionAndExponent(s: string): (r: Parsed)
    ensures r.Rest? ==> |r.text| <= |s|
  {
    if s == "" || s[0] != '.' then Exponent(s)
    else
      match SomeDigits(s[1..])
      case NoMatch => NoMatch
      case Rest(t) => Exponent(t)
  }

  function Number(s: string): (r: Parsed)
    ensures r.Rest? ==> |r.text| < |s|
  {
    var t := if s != "" && s[0] == '-' then s[1..] else s;
    if t == "" then NoMatch
    else if t[0] == '0' then FractionAndExponent(t[1..])
    else if IsDigit(t[0]) then FractionAndExponent(Digits(t[1..]))
    else NoMatch
  }

  function HexDigit(c: char): int {
    if '0' <= c <= '9' then c as int - '0' as int
    else if 'a' <= c <= 'f' then c as int - 'a' as int + 10
    else if 'A' <= c <= 'F' then c as int - 'A' as int + 10
    else -1
  }

  /** The number of a \u escape, or -1. */
  function Escape(s: string): (code: int) {
    if |s| < 6 || s[0] != '\\' || s[1] != 'u'
       || HexDigit(s[2]) < 0 || HexDigit(s[3]) < 0 || HexDigit(s[4]) < 0 || HexDigit(s[5]) < 0 then -1
    else ((HexDigit(s[2]) * 16 + HexDigit(s[3])) * 16 + HexDigit(s[4])) * 16 + HexDigit(s[5])
  }

  predicate IsSimpleEscape(c: char) {
    c in "\"\\/bfnrt"
  }

  /** From behind the opening quote to behind the closing one. */
  function StringBody(s: string): (r: Parsed)
    ensures r.Rest? ==> |r.text| < |s|
  {
    if s == "" then NoMatch
    else if s[0] == '\"' then Rest(s[1..])
    else if s[0] != '\\' then if s[0] < ' ' then NoMatch else StringBody(s[1..])
    else if |s| > 1 && IsSimpleEscape(s[1]) then StringBody(s[2..])
    else
      var code := Escape(s);
      if code <= 0 || 0xDC00 <= code <= 0xDFFF then NoMatch
      else if code < 0xD800 || 0xDFFF < code then StringBody(s[6..])
      else if 0xDC00 <= Escape(s[6..]) <= 0xDFFF then StringBody(s[12..])
      else NoMatch
  }

  predicate StartsWith(s: string, word: string) {
    |word| <= |s| && s[..|word|] == word
  }

  function Value(s: string): (r: Parsed)
    ensures r.Rest? ==> |r.text| < |s|
    decreases |s|, 0
  {
    var t := Trim(s);
    if t == "" then NoMatch
    else if t[0] == '{' then
      var u := Trim(t[1..]);
      if u != "" && u[0] == '}' then Rest(u[1..]) else Members(u)
    else if t[0] == '[' then
      var u := Trim(t[1..]);
      if u != "" && u[0] == ']' then Rest(u[1..]) else Elements(u)
    else if t[0] == '\"' then StringBody(t[1..])
    else if StartsWith(t, "true") || StartsWith(t, "null") then Rest(t[4..])
    else if StartsWith(t, "false") then Rest(t[5..])
    else Number(t)
  }

  function Elements(s: string): (r: Parsed)
    ensures r.Rest? ==> |r.text| < |s|
    decreases |s|, 1
  {
    match Value(s)
    case NoMatch => NoMatch
    case Rest(t) =>
      var u := Trim(t);
      if u == "" then NoMatch
      else if u[0] == ',' then Elements(u[1..])
      else if u[0] == ']' then Rest(u[1..])
      else NoMatch
  }

  function Members(s: string): (r: Parsed)
    ensures r.Rest? ==> |r.text| < |s|
    decreases |s|, 1
  {
    var t := Trim(s);
    if t == "" || t[0] != '\"' then NoMatch
    else
      match StringBody(t[1..])
      case NoMatch => NoMatch
      case Rest(u) =>
        var v := Trim(u);
        if v == "" || v[0] != ':' then NoMatch
        else
          match Value(v[1..])
          case NoMatch => NoMatch
          case Rest(w) =>
            var x := Trim(w);
            if x == "" then NoMatch
            else if x[0] == ',' then Members(x[1..])
            else if x[0] == '}' then Rest(x[1..])
            else NoMatch
  }

  predicate IsJson(s: string) {
    var r := Value(s);
    r.Rest? && Trim(r.text) == ""
  }
}
