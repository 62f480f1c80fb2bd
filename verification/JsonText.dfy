/** The JSON text of a schema document, and a reader for it after RFC 8259. */
module JsonText {
  import opened Options
  import opened Hexadecimal

  // ----- printing

  /** One field's value; `F64` and `Obj3` hold the text that `%g` prints for their numbers. */
  datatype FieldValue =
    | F64(g: string)
    | I32(i: int)
    | Bool(b: nat)
    | Str(s: Option<string>)
    | Obj3(x: string, y: string, z: string)
    | Unknown

  /** A name or string of `None` is a null pointer. */
  datatype Field = Field(name: Option<string>, value: FieldValue)

  /** What C sees of a character array: everything before the first NUL. */
  function CString(s: string): (r: string)
    ensures r <= s && '\0' !in r
    ensures '\0' !in s ==> r == s
  {
    if s == "" || s[0] == '\0' then "" else [s[0]] + CString(s[1..])
  }

  function Bytes(s: Option<string>): string {
    if s.Some? then CString(s.value) else ""
  }

  function EscapeChar(c: char): (r: string)
    ensures |r| > 0
  {
    if c == '"' || c == '\\' then ['\\', c]
    else if c as int < 0x20 then "\\u00" + [HexDigit(c as int / 16), HexDigit(c as int % 16)]
    else [c]
  }

  function Escaped(s: string): string {
    if s == "" then "" else EscapeChar(s[0]) + Escaped(s[1..])
  }

  function Quoted(s: Option<string>): string {
    "\"" + Escaped(Bytes(s)) + "\""
  }

  function Digit(n: nat): char
    requires n < 10
  {
    "0123456789"[n]
  }

  function Natural(n: nat): string {
    if n < 10 then [Digit(n)] else Natural(n / 10) + [Digit(n % 10)]
  }

  /** `%ld` */
  function Decimal(i: int): string {
    if i < 0 then "-" + Natural(-i) else Natural(i)
  }

  /** One call that prints: a fixed text, or a string through `append_quoted`. */
  datatype Piece = Raw(text: string) | Quote(s: Option<string>) | Bad

  function ValuePiece(v: FieldValue): Piece {
    match v
    case F64(g) => Raw(g)
    case I32(i) => Raw(Decimal(i))
    case Bool(b) => Raw(if b != 0 then "true" else "false")
    case Str(s) => Quote(s)
    case Obj3(x, y, z) => Raw("{\"x\":" + x + ",\"y\":" + y + ",\"z\":" + z + "}")
    case Unknown => Bad
  }

  function FieldPieces(f: Field): seq<Piece> {
    [Quote(f.name), Raw(":"), ValuePiece(f.value)]
  }

  /** The calls after the opening brace, `first` when no field has been printed yet. */
  function MemberPieces(fields: seq<Field>, first: bool): seq<Piece> {
    if fields == [] then [Raw("}")]
    else (if first then [] else [Raw(",")]) + FieldPieces(fields[0]) + MemberPieces(fields[1..], false)
  }

  function Pieces(fields: seq<Field>): seq<Piece> {
    [Raw("{")] + MemberPieces(fields, true)
  }

  function PieceText(p: Piece): string {
    match p
    case Raw(text) => text
    case Quote(s) => Quoted(s)
    case Bad => ""
  }

  function FullText(pieces: seq<Piece>): string {
    if pieces == [] then "" else PieceText(pieces[0]) + FullText(pieces[1..])
  }

  /** The full rendering of a document. */
  function Render(fields: seq<Field>): string {
    FullText(Pieces(fields))
  }

  predicate Known(fields: seq<Field>) {
    forall f :: f in fields ==> !f.value.Unknown?
  }

  // ----- reading (RFC 8259, sections 4, 6 and 7; no white space, arrays or null)

  datatype Json =
    | JString(s: string)
    | JNumber(text: string)
    | JBool(b: bool)
    | JObject(members: seq<(string, Json)>)

  predicate IsDigit(c: char) { '0' <= c <= '9' }

  /** The character of a `\uXXXX` escape below U+0080. */
  function HexChar(t: string): Option<char> {
    if |t| < 4 || !IsHex(t[0]) || !IsHex(t[1]) || !IsHex(t[2]) || !IsHex(t[3]) then None
    else
      var n := ((HexValue(t[0]) * 16 + HexValue(t[1])) * 16 + HexValue(t[2])) * 16 + HexValue(t[3]);
      if n < 0x80 then Some(n as char) else None
  }

  function SimpleEscape(c: char): Option<char> {
    match c
    case '"' => Some('"')
    case '\\' => Some('\\')
    case '/' => Some('/')
    case 'b' => Some('\U{8}')
    case 'f' => Some('\U{C}')
    case 'n' => Some('\n')
    case 'r' => Some('\r')
    case 't' => Some('\t')
    case _ => None
  }

  /** The characters up to the closing quotation mark, unescaped. */
  function ReadChars(t: string): (r: Option<(string, string)>)
    ensures r.Some? ==> |r.value.1| < |t|
    decreases |t|
  {
    if t == "" then None
    else if t[0] == '"' then Some(("", t[1..]))
    else if t[0] == '\\' && |t| >= 2 && t[1] == 'u' then
      var c :- HexChar(t[2..]);
      var (s, rest) :- ReadChars(t[6..]);
      Some(([c] + s, rest))
    else if t[0] == '\\' && |t| >= 2 then
      var c :- SimpleEscape(t[1]);
      var (s, rest) :- ReadChars(t[2..]);
      Some(([c] + s, rest))
    else if t[0] == '\\' || t[0] as int < 0x20 then None
    else
      var (s, rest) :- ReadChars(t[1..]);
      Some(([t[0]] + s, rest))
  }

  function ReadString(t: string): (r: Option<(string, string)>)
    ensures r.Some? ==> |r.value.1| < |t|
  {
    if t != "" && t[0] == '"' then ReadChars(t[1..]) else None
  }

  predicate NumberChar(c: char) {
    IsDigit(c) || c == '-' || c == '+' || c == '.' || c == 'e' || c == 'E'
  }

  function Digits(t: string): (n: nat)
    ensures n <= |t|
  {
    if t != "" && IsDigit(t[0]) then 1 + Digits(t[1..]) else 0
  }

  /** number = [ minus ] int [ frac ] [ exp ] */
  predicate IsNumber(t: string) {
    var u := if t != "" && t[0] == '-' then t[1..] else t;
    var n := Digits(u);
    n > 0 && (u[0] == '0' ==> n == 1) && IsFracExp(u[n..])
  }

  predicate IsFracExp(t: string) {
    if t != "" && t[0] == '.' then var n := Digits(t[1..]); n > 0 && IsExp(t[1 + n..])
    else IsExp(t)
  }

  predicate IsExp(t: string) {
    t == "" ||
    ((t[0] == 'e' || t[0] == 'E') &&
     var u := if |t| > 1 && (t[1] == '+' || t[1] == '-') then t[2..] else t[1..];
     u != "" && Digits(u) == |u|)
  }

  function NumberRun(t: string): (n: nat)
    ensures n <= |t|
  {
    if t != "" && NumberChar(t[0]) then 1 + NumberRun(t[1..]) else 0
  }

  function ReadNumber(t: string): (r: Option<(Json, string)>)
    ensures r.Some? ==> |r.value.1| < |t|
  {
    var n := NumberRun(t);
    if n > 0 && IsNumber(t[..n]) then Some((JNumber(t[..n]), t[n..])) else None
  }

  function ReadValue(t: string): (r: Option<(Json, string)>)
    ensures r.Some? ==> |r.value.1| < |t|
    decreases |t|, 0
  {
    if t == "" then None
    else if t[0] == '"' then
      var (s, rest) :- ReadString(t);
      Some((JString(s), rest))
    else if t[0] == '{' && |t| > 1 && t[1] == '}' then Some((JObject([]), t[2..]))
    else if t[0] == '{' then
      var (members, rest) :- ReadMembers(t[1..]);
      Some((JObject(members), rest))
    else if "true" <= t then Some((JBool(true), t[4..]))
    else if "false" <= t then Some((JBool(false), t[5..]))
    else ReadNumber(t)
  }

  /** member *( value-separator member ) end-object */
  function ReadMembers(t: string): (r: Option<(seq<(string, Json)>, string)>)
    ensures r.Some? ==> |r.value.1| < |t|
    decreases |t|, 1
  {
    var (name, rest) :- ReadString(t);
    if rest == "" || rest[0] != ':' then None
    else
      var (value, rest') :- ReadValue(rest[1..]);
      if rest' == "" then None
      else if rest'[0] == '}' then Some(([(name, value)], rest'[1..]))
      else if rest'[0] == ',' then
        var (members, end) :- ReadMembers(rest'[1..]);
        Some(([(name, value)] + members, end))
      else None
  }

  function ReadJson(t: string): Option<Json> {
    var (value, rest) :- ReadValue(t);
    if rest == "" then Some(value) else None
  }
}
