/** Reading back what the schema writer prints. */
module JsonRoundTrip {
  import opened Options
  import opened Hexadecimal
  import opened JsonText
  import opened JsonWriter

  // ----- strings

  lemma ReadEscape(c: char, tail: string)
    requires c as int < 0x20
    ensures HexChar(("00" + [HexDigit(c as int / 16), HexDigit(c as int % 16)] + tail)) == Some(c)
  {
    var h, l := c as int / 16, c as int % 16;
    assert HexValue(HexDigit(h)) == h && HexValue(HexDigit(l)) == l;
  }

  lemma ReadEscapedChar(c: char, tail: string)
    ensures
      var r := ReadChars(tail);
      ReadChars(EscapeChar(c) + tail) == if r.None? then None else Some(([c] + r.value.0, r.value.1))
  {
    var t := EscapeChar(c) + tail;
    if c == '"' || c == '\\' {
      assert t[2..] == tail;
    } else if c as int < 0x20 {
      ReadUnicodeEscape(c, tail);
    } else {
      assert t[1..] == tail;
    }
  }

  lemma ReadUnicodeEscape(c: char, tail: string)
    requires c as int < 0x20 && c != '"' && c != '\\'
    ensures
      var r := ReadChars(tail);
      ReadChars(EscapeChar(c) + tail) == if r.None? then None else Some(([c] + r.value.0, r.value.1))
  {
    hide HexChar;
    hide HexDigit;
    var t := EscapeChar(c) + tail;
    ReadEscape(c, tail);
    assert t[0] == '\\' && t[1] == 'u';
    assert t[2..] == "00" + [HexDigit(c as int / 16), HexDigit(c as int % 16)] + tail;
    assert t[6..] == tail;
  }

  lemma ReadClosingQuote(rest: string)
    ensures ReadChars("\"" + rest) == Some(("", rest))
  {
    assert ("\"" + rest)[1..] == rest;
  }

  /** Unescaping what `append_quoted` emits gives the original characters. */
  lemma {:induction false} ReadCharsBack(s: string, rest: string)
    ensures ReadChars(Escaped(s) + "\"" + rest) == Some((s, rest))
  {
    hide ReadChars;
    hide EscapeChar;
    if s == "" {
      assert Escaped(s) + "\"" + rest == "\"" + rest;
      ReadClosingQuote(rest);
    } else {
      var tail := Escaped(s[1..]) + "\"" + rest;
      ReadCharsBack(s[1..], rest);
      ReadEscapedChar(s[0], tail);
      assert Escaped(s) + "\"" + rest == EscapeChar(s[0]) + tail;
      assert [s[0]] + s[1..] == s;
    }
  }

  lemma ReadQuoted(s: Option<string>, rest: string)
    ensures ReadString(Quoted(s) + rest) == Some((Bytes(s), rest))
  {
    hide ReadChars;
    hide ReadString;
    hide Escaped;
    var inner := Escaped(Bytes(s)) + "\"" + rest;
    assert Quoted(s) + rest == "\"" + inner;
    ReadOpeningQuote(inner);
    ReadCharsBack(Bytes(s), rest);
  }

  lemma ReadOpeningQuote(t: string)
    ensures ReadString("\"" + t) == ReadChars(t)
  {}

  // ----- numbers

  lemma {:induction false} DigitsConcat(a: string, b: string)
    requires Digits(a) == |a|
    ensures Digits(a + b) == |a| + Digits(b)
  {
    if a == "" {
      assert a + b == b;
    } else {
      assert (a + b)[1..] == a[1..] + b;
      DigitsConcat(a[1..], b);
    }
  }

  lemma {:induction false} NaturalDigits(n: nat)
    ensures Natural(n) != "" && Digits(Natural(n)) == |Natural(n)|
    ensures Natural(n)[0] == '0' ==> n == 0
  {
    if n < 10 {
      assert Natural(n)[1..] == "";
    } else {
      NaturalDigits(n / 10);
      assert [Digit(n % 10)][1..] == "";
      DigitsConcat(Natural(n / 10), [Digit(n % 10)]);
    }
  }

  function NatOf(s: string): int {
    if s == "" then 0 else NatOf(s[..|s| - 1]) * 10 + (s[|s| - 1] as int - '0' as int)
  }

  function IntOf(s: string): int {
    if s != "" && s[0] == '-' then -NatOf(s[1..]) else NatOf(s)
  }

  lemma {:induction false} NaturalBack(n: nat)
    ensures NatOf(Natural(n)) == n
  {
    var s := Natural(n);
    if n < 10 {
      assert s[..0] == "";
    } else {
      NaturalBack(n / 10);
      assert s[..|s| - 1] == Natural(n / 10);
    }
  }

  /** `%ld` prints a number that reads back as the same integer. */
  lemma DecimalBack(i: int)
    ensures IsNumber(Decimal(i)) && IntOf(Decimal(i)) == i
    ensures Decimal(i)[0] == '-' <==> i < 0
  {
    var n := if i < 0 then -i else i;
    NaturalBack(n);
    NaturalDigits(n);
    assert i < 0 ==> Decimal(i)[1..] == Natural(n);
    assert Decimal(i)[0] == '-' <==> i < 0;
    assert Natural(n)[|Natural(n)|..] == "";
  }

  predicate NumberChars(t: string) {
    forall i :: 0 <= i < |t| ==> NumberChar(t[i])
  }

  lemma {:induction false} DigitsAre(t: string)
    ensures NumberChars(t[..Digits(t)])
  {
    if t != "" && IsDigit(t[0]) {
      DigitsAre(t[1..]);
      forall i | 0 <= i < Digits(t) ensures NumberChar(t[i]) {
        if i > 0 { assert t[i] == t[1..][..Digits(t[1..])][i - 1]; }
      }
    }
  }

  lemma NumberCharsSplit(t: string, n: nat)
    requires n <= |t| && NumberChars(t[..n]) && NumberChars(t[n..])
    ensures NumberChars(t)
  {}

  lemma ExpChars(t: string)
    requires IsExp(t)
    ensures NumberChars(t)
  {
    if t != "" {
      var k := if |t| > 1 && (t[1] == '+' || t[1] == '-') then 2 else 1;
      DigitsAre(t[k..]);
      assert t[k..][..|t[k..]|] == t[k..];
      NumberCharsSplit(t, k);
    }
  }

  lemma FracExpChars(t: string)
    requires IsFracExp(t)
    ensures NumberChars(t)
  {
    if t != "" && t[0] == '.' {
      var n := Digits(t[1..]);
      DigitsAre(t[1..]);
      ExpChars(t[1 + n..]);
      assert t[1..][n..] == t[1 + n..];
      NumberCharsSplit(t[1..], n);
      NumberCharsSplit(t, 1);
    } else {
      ExpChars(t);
    }
  }

  lemma NumberIsRun(t: string)
    requires IsNumber(t)
    ensures t != "" && NumberChars(t) && (IsDigit(t[0]) || t[0] == '-')
  {
    var k := if t[0] == '-' then 1 else 0;
    var u := t[k..];
    var n := Digits(u);
    DigitsAre(u);
    FracExpChars(u[n..]);
    NumberCharsSplit(u, n);
    NumberCharsSplit(t, k);
  }

  lemma {:induction false} NumberRunBack(t: string, rest: string)
    requires NumberChars(t) && (rest == "" || !NumberChar(rest[0]))
    ensures NumberRun(t + rest) == |t|
  {
    if t == "" {
      assert t + rest == rest;
    } else {
      assert (t + rest)[1..] == t[1..] + rest;
      assert NumberChar(t[0]);
      forall i | 0 <= i < |t[1..]| ensures NumberChar(t[1..][i]) { assert t[1..][i] == t[i + 1]; }
      NumberRunBack(t[1..], rest);
    }
  }

  predicate EndsNumber(rest: string) {
    rest == "" || !NumberChar(rest[0])
  }

  lemma ReadNumberBack(t: string, rest: string)
    requires IsNumber(t) && EndsNumber(rest)
    ensures ReadValue(t + rest) == Some((JNumber(t), rest))
  {
    NumberIsRun(t);
    NumberRunBack(t, rest);
    assert (t + rest)[0] == t[0];
    assert (t + rest)[..|t|] == t && (t + rest)[|t|..] == rest;
  }

  // ----- values

  /** What `%g` prints: a number, or one of the texts for infinities and NaNs. */
  predicate GText(t: string) {
    IsNumber(t) || NotFinite(t)
  }

  predicate NotFinite(t: string) {
    t == "inf" || t == "-inf" || t == "nan" || t == "-nan"
  }

  lemma ReadNotFinite(t: string, rest: string)
    requires NotFinite(t) && EndsNumber(rest)
    ensures !IsNumber(t) && ReadValue(t + rest) == None
  {}

  predicate Printed(v: FieldValue) {
    match v
    case F64(g) => GText(g)
    case Obj3(x, y, z) => GText(x) && GText(y) && GText(z)
    case _ => !v.Unknown?
  }

  predicate Finite(v: FieldValue) {
    match v
    case F64(g) => IsNumber(g)
    case Obj3(x, y, z) => IsNumber(x) && IsNumber(y) && IsNumber(z)
    case _ => true
  }

  /** The JSON value a field stands for. */
  function JsonOf(v: FieldValue): Json {
    match v
    case F64(g) => JNumber(g)
    case I32(i) => JNumber(Decimal(i))
    case Bool(b) => JBool(b != 0)
    case Str(s) => JString(Bytes(s))
    case Obj3(x, y, z) => JObject([("x", JNumber(x)), ("y", JNumber(y)), ("z", JNumber(z))])
    case Unknown => JObject([])
  }

  lemma ReadG(t: string, rest: string)
    requires GText(t) && EndsNumber(rest)
    ensures ReadValue(t + rest) == if IsNumber(t) then Some((JNumber(t), rest)) else None
  {
    if IsNumber(t) { ReadNumberBack(t, rest); } else { ReadNotFinite(t, rest); }
  }

  /** Reading one member, and what follows its value. */
  lemma ReadMember(name: Option<string>, body: string)
    ensures
      var value := ReadValue(body);
      ReadMembers(Quoted(name) + ":" + body) ==
      if value.None? || value.value.1 == "" then None
      else if value.value.1[0] == '}' then Some(([(Bytes(name), value.value.0)], value.value.1[1..]))
      else if value.value.1[0] == ',' then
        var more := ReadMembers(value.value.1[1..]);
        if more.None? then None else Some(([(Bytes(name), value.value.0)] + more.value.0, more.value.1))
      else None
  {
    hide ReadValue;
    hide ReadString;
    assert Quoted(name) + ":" + body == Quoted(name) + (":" + body);
    ReadQuoted(name, ":" + body);
    assert (":" + body)[1..] == body;
  }

  type ReadResult = Option<(seq<(string, Json)>, string)>

  function Before(name: string, g: string, more: ReadResult): ReadResult {
    if !IsNumber(g) || more.None? then None
    else Some(([(name, JNumber(g))] + more.value.0, more.value.1))
  }

  lemma ReadLastNumber(name: Option<string>, g: string, rest: string)
    requires GText(g)
    ensures ReadMembers(Quoted(name) + ":" + (g + ("}" + rest))) == Before(Bytes(name), g, Some(([], rest)))
  {
    ReadG(g, "}" + rest);
    ReadMember(name, g + ("}" + rest));
    assert ("}" + rest)[1..] == rest;
    assert [(Bytes(name), JNumber(g))] + [] == [(Bytes(name), JNumber(g))];
  }

  lemma ReadNextNumber(name: Option<string>, g: string, more: string)
    requires GText(g)
    ensures ReadMembers(Quoted(name) + ":" + (g + ("," + more))) == Before(Bytes(name), g, ReadMembers(more))
  {
    ReadG(g, "," + more);
    ReadMember(name, g + ("," + more));
    assert ("," + more)[1..] == more;
  }

  lemma ReadThreeNumbers(nx: Option<string>, ny: Option<string>, nz: Option<string>, x: string, y: string, z: string,
                         rest: string, inX: string, inY: string, inZ: string)
    requires GText(x) && GText(y) && GText(z)
    requires inZ == Quoted(nz) + ":" + (z + ("}" + rest))
    requires inY == Quoted(ny) + ":" + (y + ("," + inZ))
    requires inX == Quoted(nx) + ":" + (x + ("," + inY))
    ensures ReadMembers(inX) == Before(Bytes(nx), x, Before(Bytes(ny), y, Before(Bytes(nz), z, Some(([], rest)))))
  {
    assert ReadMembers(inZ) == Before(Bytes(nz), z, Some(([], rest))) by { ReadLastNumber(nz, z, rest); }
    assert ReadMembers(inY) == Before(Bytes(ny), y, ReadMembers(inZ)) by { ReadNextNumber(ny, y, inZ); }
    assert ReadMembers(inX) == Before(Bytes(nx), x, ReadMembers(inY)) by { ReadNextNumber(nx, x, inY); }
  }

  lemma Coordinates(x: string, y: string, z: string, rest: string)
    ensures Before("x", x, Before("y", y, Before("z", z, Some(([], rest))))) ==
      if Finite(Obj3(x, y, z)) then Some((JsonOf(Obj3(x, y, z)).members, rest)) else None
  {
    assert [("x", JNumber(x))] + ([("y", JNumber(y))] + ([("z", JNumber(z))] + []))
        == [("x", JNumber(x)), ("y", JNumber(y)), ("z", JNumber(z))];
  }

  lemma ReadCoordinates(x: string, y: string, z: string, rest: string)
    requires GText(x) && GText(y) && GText(z)
    ensures ReadValue(PieceText(ValuePiece(Obj3(x, y, z))) + rest) ==
      if Finite(Obj3(x, y, z)) then Some((JsonOf(Obj3(x, y, z)), rest)) else None
  {
    hide ReadMembers;
    hide ReadValue;
    hide Bytes;
    hide Quoted;
    hide PieceText;
    hide ValuePiece;
    var inZ := "\"z\"" + ":" + (z + ("}" + rest));
    var inY := "\"y\"" + ":" + (y + ("," + inZ));
    var inX := "\"x\"" + ":" + (x + ("," + inY));
    assert PieceText(ValuePiece(Obj3(x, y, z))) + rest == "{" + inX by { CoordinateText(x, y, z, rest, inX, inY, inZ); }
    assert ReadMembers(inX) == Before("x", x, Before("y", y, Before("z", z, Some(([], rest))))) by {
      Plain("x"); Plain("y"); Plain("z");
      ReadThreeNumbers(Some("x"), Some("y"), Some("z"), x, y, z, rest, inX, inY, inZ);
    }
    Coordinates(x, y, z, rest);
    ReadBraces(inX);
  }

  lemma ReadBraces(inner: string)
    requires inner != "" && inner[0] != '}'
    ensures
      var r := ReadMembers(inner);
      ReadValue("{" + inner) == if r.None? then None else Some((JObject(r.value.0), r.value.1))
  {}

  lemma Plain(s: string)
    requires s == "x" || s == "y" || s == "z"
    ensures Bytes(Some(s)) == s && Quoted(Some(s)) == "\"" + s + "\""
  {
    assert s[1..] == "";
    assert Escaped(s) == EscapeChar(s[0]) + Escaped("");
    assert Escaped(s) == s;
  }

  lemma CoordinateText(x: string, y: string, z: string, rest: string, inX: string, inY: string, inZ: string)
    requires inZ == "\"z\"" + ":" + (z + ("}" + rest))
    requires inY == "\"y\"" + ":" + (y + ("," + inZ))
    requires inX == "\"x\"" + ":" + (x + ("," + inY))
    ensures PieceText(ValuePiece(Obj3(x, y, z))) + rest == "{" + inX
  {
    var a, b, c := "{\"x\":" + x, ",\"y\":" + y, ",\"z\":" + z;
    assert "{\"x\":" + x + ",\"y\":" + y + ",\"z\":" + z + "}" == a + b + c + "}";
    assert "," + inZ == c + ("}" + rest);
    assert "," + inY == b + ("," + inZ);
    assert "{" + inX == a + ("," + inY);
    Regroup(a, b, c, "}", rest);
  }

  lemma Regroup(a: string, b: string, c: string, d: string, e: string)
    ensures a + b + c + d + e == a + (b + (c + (d + e)))
  {}

  lemma ReadValueBack(v: FieldValue, rest: string)
    requires Printed(v) && EndsNumber(rest)
    ensures ReadValue(PieceText(ValuePiece(v)) + rest) == if Finite(v) then Some((JsonOf(v), rest)) else None
  {
    match v
    case F64(g) => ReadG(g, rest);
    case I32(i) => DecimalBack(i); ReadNumberBack(Decimal(i), rest);
    case Bool(b) =>
      var t := PieceText(ValuePiece(v)) + rest;
      assert t[if b != 0 then 4 else 5..] == rest;
    case Str(s) => ReadQuoted(s, rest);
    case Obj3(x, y, z) => ReadCoordinates(x, y, z, rest);
  }

  // ----- documents

  predicate AllPrinted(fields: seq<Field>) {
    forall f :: f in fields ==> Printed(f.value)
  }

  predicate AllFinite(fields: seq<Field>) {
    forall f :: f in fields ==> Finite(f.value)
  }

  function Members(fields: seq<Field>): seq<(string, Json)> {
    seq(|fields|, i requires 0 <= i < |fields| => (Bytes(fields[i].name), JsonOf(fields[i].value)))
  }

  /** The text after a field: the closing brace, or a comma and the next field. */
  function TailText(fields: seq<Field>): string {
    FullText(MemberPieces(fields, false))
  }

  lemma {:induction false} FullConcat(a: seq<Piece>, b: seq<Piece>)
    ensures FullText(a + b) == FullText(a) + FullText(b)
  {
    if a == [] {
      assert a + b == b;
    } else {
      assert (a + b)[1..] == a[1..] + b;
      FullConcat(a[1..], b);
    }
  }

  lemma OnePiece(p: Piece)
    ensures FullText([p]) == PieceText(p)
  {
    assert [p][1..] == [];
    assert PieceText(p) + "" == PieceText(p);
  }

  lemma FieldText(f: Field)
    ensures FullText(FieldPieces(f)) == Quoted(f.name) + ":" + PieceText(ValuePiece(f.value))
  {
    var name, colon, value := [Quote(f.name)], [Raw(":")], [ValuePiece(f.value)];
    assert FieldPieces(f) == name + colon + value;
    FullConcat(name + colon, value);
    FullConcat(name, colon);
    OnePiece(name[0]);
    OnePiece(colon[0]);
    OnePiece(value[0]);
  }

  lemma MembersText(fields: seq<Field>)
    requires fields != []
    ensures FullText(MemberPieces(fields, true))
      == Quoted(fields[0].name) + ":" + (PieceText(ValuePiece(fields[0].value)) + TailText(fields[1..]))
  {
    var f, rest := FieldPieces(fields[0]), MemberPieces(fields[1..], false);
    assert MemberPieces(fields, true) == f + rest;
    FullConcat(f, rest);
    FieldText(fields[0]);
    Group(Quoted(fields[0].name), ":", PieceText(ValuePiece(fields[0].value)), FullText(rest));
  }

  lemma Group(a: string, b: string, c: string, d: string)
    ensures a + b + c + d == a + b + (c + d)
  {}

  lemma TailIsMembers(fields: seq<Field>)
    requires fields != []
    ensures TailText(fields) == "," + FullText(MemberPieces(fields, true))
  {
    assert MemberPieces(fields, false) == [Raw(",")] + MemberPieces(fields, true);
    FullConcat([Raw(",")], MemberPieces(fields, true));
    OnePiece(Raw(","));
  }

  /** Reading one field of a document and what its tail leads to. */
  lemma ReadField(f: Field, tail: string)
    requires Printed(f.value) && tail != "" && (tail[0] == '}' || tail[0] == ',')
    ensures
      var more := if tail[0] == '}' then Some(([], tail[1..])) else ReadMembers(tail[1..]);
      ReadMembers(Quoted(f.name) + ":" + (PieceText(ValuePiece(f.value)) + tail)) ==
      if !Finite(f.value) || more.None? then None
      else Some(([(Bytes(f.name), JsonOf(f.value))] + more.value.0, more.value.1))
  {
    ReadValueBack(f.value, tail);
    ReadMember(f.name, PieceText(ValuePiece(f.value)) + tail);
    assert [(Bytes(f.name), JsonOf(f.value))] + [] == [(Bytes(f.name), JsonOf(f.value))];
  }

  lemma MembersCons(fields: seq<Field>)
    requires fields != []
    ensures Members(fields) == [(Bytes(fields[0].name), JsonOf(fields[0].value))] + Members(fields[1..])
    ensures AllFinite(fields) <==> Finite(fields[0].value) && AllFinite(fields[1..])
    ensures AllPrinted(fields) <==> Printed(fields[0].value) && AllPrinted(fields[1..])
  {}

  lemma {:induction false} ReadMembersBack(fields: seq<Field>)
    requires fields != [] && AllPrinted(fields)
    ensures ReadMembers(FullText(MemberPieces(fields, true))) == if AllFinite(fields) then Some((Members(fields), "")) else None
    decreases |fields|
  {
    var rest := fields[1..];
    var tail := TailText(rest);
    MembersCons(fields);
    MembersText(fields);
    if rest == [] {
      OnePiece(Raw("}"));
      assert tail == "}" && tail[1..] == "";
    } else {
      TailIsMembers(rest);
      assert tail[1..] == FullText(MemberPieces(rest, true));
      ReadMembersBack(rest);
    }
    ReadField(fields[0], tail);
  }

  /**
   * The rendering of a document is JSON text exactly when its numbers are finite,
   * and then it reads back as the same fields in the same order.
   */
  lemma JsonRoundTrip(fields: seq<Field>)
    requires AllPrinted(fields)
    ensures ReadJson(Render(fields)) == if AllFinite(fields) then Some(JObject(Members(fields))) else None
  {
    var inner := FullText(MemberPieces(fields, true));
    assert Pieces(fields)[1..] == MemberPieces(fields, true);
    assert Render(fields) == "{" + inner;
    assert Render(fields)[1..] == inner;
    if fields == [] {
      assert MemberPieces(fields, true)[1..] == [];
      assert Render(fields) == "{}" && Render(fields)[2..] == "";
      assert Members(fields) == [];
    } else {
      MembersText(fields);
      assert inner[0] == '"';
      ReadMembersBack(fields);
    }
  }

  // ----- a last string that does not fit

  /** Calls that fit are made before the rest. */
  lemma {:induction false} WriteThrough(text: string, front: seq<Piece>, rest: seq<Piece>, outSize: nat, propagate: bool)
    requires NoBad(front) && |text + FullText(front)| < outSize
    ensures Write(text, front + rest, outSize, propagate) == Write(text + FullText(front), rest, outSize, propagate)
    decreases |front|
  {
    hide PieceText;
    if front == [] {
      assert front + rest == rest;
      Associate(text, "", "");
    } else {
      assert front[0] in front && (front + rest)[1..] == front[1..] + rest;
      Associate(text, PieceText(front[0]), FullText(front[1..]));
      WriteThrough(text + PieceText(front[0]), front[1..], rest, outSize, propagate);
    }
  }

  /** A last quoted string that does not fit is left out, and 0 is returned. */
  lemma LastQuoteLost(front: seq<Piece>, s: Option<string>, outSize: nat)
    requires NoBad(front) && |FullText(front)| + 1 < outSize <= |FullText(front)| + |Quoted(s)|
    ensures Write("", front + [Quote(s), Raw("}")], outSize, false) == Some(FullText(front) + "}")
  {
    var last: seq<Piece> := [Raw("}")];
    assert "" + FullText(front) == FullText(front);
    WriteThrough("", front, [Quote(s), Raw("}")], outSize, false);
    assert [Quote(s), Raw("}")][1..] == last && last[1..] == [];
  }

  /** The calls up to the value of the field `name` that follows `fields`. */
  function FrontPieces(fields: seq<Field>, name: Option<string>, first: bool): seq<Piece> {
    (if first then [] else [Raw(",")]) +
    (if fields == [] then [Quote(name), Raw(":")] else FieldPieces(fields[0]) + FrontPieces(fields[1..], name, false))
  }

  /** The members `fields`, then a name without a value, and the closing brace. */
  function LostText(fields: seq<Field>, name: Option<string>): string {
    if fields == [] then Quoted(name) + ":" + "}"
    else Quoted(fields[0].name) + ":" + (PieceText(ValuePiece(fields[0].value)) + ("," + LostText(fields[1..], name)))
  }

  lemma {:induction false} FrontThenValue(fields: seq<Field>, name: Option<string>, s: Option<string>, first: bool)
    requires Known(fields)
    ensures MemberPieces(fields + [Field(name, Str(s))], first) == FrontPieces(fields, name, first) + [Quote(s), Raw("}")]
    ensures NoBad(FrontPieces(fields, name, first))
    decreases |fields|
  {
    var all := fields + [Field(name, Str(s))];
    if fields == [] {
      assert all[1..] == [];
    } else {
      assert all[1..] == fields[1..] + [Field(name, Str(s))];
      assert fields[0] in fields;
      FrontThenValue(fields[1..], name, s, false);
    }
  }

  lemma CommaText()
    ensures FullText([Raw(",")]) == ","
  {
    OnePiece(Raw(","));
  }

  lemma NameText(name: Option<string>)
    ensures FullText([Quote(name)]) == Quoted(name) && FullText([Raw(":")]) == ":"
  {
    OnePiece(Quote(name));
    OnePiece(Raw(":"));
  }

  lemma {:induction false} FrontText(fields: seq<Field>, name: Option<string>)
    ensures FullText(FrontPieces(fields, name, true)) + "}" == LostText(fields, name)
    ensures FullText(FrontPieces(fields, name, false)) + "}" == "," + LostText(fields, name)
    decreases |fields|
  {
    hide PieceText;
    hide FieldPieces;
    hide Quoted;
    var members := FrontPieces(fields, name, true);
    assert FrontPieces(fields, name, false) == [Raw(",")] + members;
    FullConcat([Raw(",")], members);
    CommaText();
    Associate(",", FullText(members), "}");
    if fields == [] {
      assert members == [Quote(name)] + [Raw(":")];
      FullConcat([Quote(name)], [Raw(":")]);
      NameText(name);
    } else {
      var rest := FrontPieces(fields[1..], name, false);
      assert members == FieldPieces(fields[0]) + rest;
      FullConcat(FieldPieces(fields[0]), rest);
      FieldText(fields[0]);
      FrontText(fields[1..], name);
      Group(Quoted(fields[0].name), ":", PieceText(ValuePiece(fields[0].value)), "," + LostText(fields[1..], name));
      Associate(FullText(FieldPieces(fields[0])), FullText(rest), "}");
    }
  }

  lemma {:induction false} LostUnreadable(fields: seq<Field>, name: Option<string>)
    requires AllPrinted(fields)
    ensures ReadMembers(LostText(fields, name)) == None
    decreases |fields|
  {
    if fields == [] {
      ReadMember(name, "}");
    } else {
      var tail := "," + LostText(fields[1..], name);
      assert tail[1..] == LostText(fields[1..], name);
      MembersCons(fields);
      LostUnreadable(fields[1..], name);
      ReadField(fields[0], tail);
    }
  }

  function Front(fields: seq<Field>, name: Option<string>): seq<Piece> {
    [Raw("{")] + FrontPieces(fields, name, true)
  }

  lemma FrontThenString(fields: seq<Field>, name: Option<string>, s: Option<string>)
    requires Known(fields)
    ensures Pieces(fields + [Field(name, Str(s))]) == Front(fields, name) + [Quote(s), Raw("}")] && NoBad(Front(fields, name))
  {
    FrontThenValue(fields, name, s, true);
  }

  lemma FrontIsLost(fields: seq<Field>, name: Option<string>)
    ensures FullText(Front(fields, name)) + "}" == "{" + LostText(fields, name)
  {
    var members := FrontPieces(fields, name, true);
    FullConcat([Raw("{")], members);
    OnePiece(Raw("{"));
    FrontText(fields, name);
    Associate("{", FullText(members), "}");
  }

  lemma WholeLength(front: seq<Piece>, s: Option<string>)
    ensures |FullText(front + [Quote(s), Raw("}")])| == |FullText(front)| + |Quoted(s)| + 1
  {
    FullConcat(front, [Quote(s), Raw("}")]);
    FullConcat([Quote(s)], [Raw("}")]);
    OnePiece(Quote(s));
    OnePiece(Raw("}"));
    assert [Quote(s), Raw("}")] == [Quote(s)] + [Raw("}")];
  }

  lemma LostIsNotJson(fields: seq<Field>, name: Option<string>)
    requires AllPrinted(fields)
    ensures ReadJson("{" + LostText(fields, name)) == None
  {
    LostUnreadable(fields, name);
    assert ("{" + LostText(fields, name))[1..] == LostText(fields, name);
    assert LostText(fields, name)[0] == '"';
  }

  /**
   * Whatever the buffer size: a document whose last value is a string that alone does not fit gives 0
   * and the text without that value, which is not JSON.
   */
  lemma LastStringLost(fields: seq<Field>, name: Option<string>, s: Option<string>, outSize: nat)
    requires Known(fields) && AllPrinted(fields)
    requires
      var whole := |Render(fields + [Field(name, Str(s))])|;
      whole - |Quoted(s)| < outSize < whole
    ensures
      var text := "{" + LostText(fields, name);
      Write("", Pieces(fields + [Field(name, Str(s))]), outSize, false) == Some(text) && ReadJson(text) == None
  {
    hide Quoted;
    hide Front;
    hide LostText;
    FrontThenString(fields, name, s);
    WholeLength(Front(fields, name), s);
    FrontIsLost(fields, name);
    LastQuoteLost(Front(fields, name), s, outSize);
    LostIsNotJson(fields, name);
  }
}
