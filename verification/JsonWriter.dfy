/** The bounded JSON writer: `append_quoted` and `schema_to_json` over a caller's buffer. */
module JsonWriter {
  import opened Options
  import opened JsonText

  /** What `snprintf(&out[p], size, ...)` leaves in the buffer when it prints `text`. */
  function AfterPrint(buffer: string, p: nat, size: nat, text: string): (r: string)
    requires p + size <= |buffer|
    ensures |r| == |buffer|
  {
    if size == 0 then buffer
    else
      var n := if |text| < size then |text| else size - 1;
      buffer[..p] + text[..n] + ['\0'] + buffer[p + n + 1..]
  }

  /** The library call: at most `size` characters are written, the last one a NUL. */
  method Snprintf(out: array<char>, p: nat, size: nat, text: string) returns (rc: int)
    requires p + size <= out.Length
    modifies out
    ensures rc == |text|
    ensures out[..] == AfterPrint(old(out[..]), p, size, text)
  {
    if size > 0 {
      var n := if |text| < size then |text| else size - 1;
      forall i | 0 <= i < n { out[p + i] := text[i]; }
      out[p + n] := '\0';
    }
    rc := |text|;
  }

  // ----- what a sequence of calls leaves

  /** The buffer holds the C string `text`: its characters, then a NUL. */
  ghost predicate Holds(buffer: string, text: string) {
    |text| < |buffer| && buffer[..|text|] == text && buffer[|text|] == '\0'
  }

  /**
   * The text after the given calls when `text` is already there, `None` when the writer gives up.
   * Only a call that fits in `outSize` with its NUL succeeds. A quoted string that does not
   * fit ends the writing when `propagate` is set, and is left out when it is not.
   */
  function Write(text: string, pieces: seq<Piece>, outSize: nat, propagate: bool): (r: Option<string>)
    ensures r.Some? && |text| < outSize ==> |r.value| < outSize
    decreases |pieces|
  {
    if pieces == [] then Some(text)
    else
      var next :- Call(text, pieces[0], outSize, propagate);
      Write(next, pieces[1..], outSize, propagate)
  }

  function Call(text: string, piece: Piece, outSize: nat, propagate: bool): (r: Option<string>)
    ensures r.Some? && |text| < outSize ==> |r.value| < outSize
  {
    if piece.Bad? then None
    else if |text| + |PieceText(piece)| < outSize then Some(text + PieceText(piece))
    else if piece.Raw? || propagate then None
    else Some(text)
  }

  lemma {:induction false} CStringTake(s: string, i: nat)
    requires i <= |CString(s)|
    ensures i < |CString(s)| ==> i < |s| && s[i] == CString(s)[i] && s[i] != '\0'
    ensures i == |CString(s)| ==> i == |s| || s[i] == '\0'
  {
    if s != "" && s[0] != '\0' && i > 0 { CStringTake(s[1..], i - 1); }
  }

  lemma {:induction false} EscapedSnoc(s: string, c: char)
    ensures Escaped(s + [c]) == Escaped(s) + EscapeChar(c)
  {
    if s == "" {
      assert (s + [c])[1..] == "";
      assert EscapeChar(c) + "" == EscapeChar(c) == "" + EscapeChar(c);
    } else {
      assert (s + [c])[1..] == s[1..] + [c];
      EscapedSnoc(s[1..], c);
    }
  }

  lemma {:induction false} EscapedConcat(a: string, b: string)
    ensures Escaped(a + b) == Escaped(a) + Escaped(b)
  {
    if a == "" {
      assert a + b == b;
    } else {
      assert (a + b)[1..] == a[1..] + b;
      EscapedConcat(a[1..], b);
    }
  }

  // ----- what a result says about the full rendering

  predicate NoBad(pieces: seq<Piece>) {
    forall p :: p in pieces ==> !p.Bad?
  }

  /** A text that fits is written whole, whether failures are propagated or not. */
  lemma {:induction false} WriteFits(text: string, pieces: seq<Piece>, outSize: nat, propagate: bool)
    requires NoBad(pieces) && |text + FullText(pieces)| < outSize
    ensures Write(text, pieces, outSize, propagate) == Some(text + FullText(pieces))
    decreases |pieces|
  {
    if pieces == [] {
      assert text + "" == text;
    } else {
      assert pieces[0] in pieces;
      var next := text + PieceText(pieces[0]);
      assert next + FullText(pieces[1..]) == text + FullText(pieces);
      WriteFits(next, pieces[1..], outSize, propagate);
    }
  }

  /** With failures propagated nothing else succeeds. */
  lemma {:induction false} WritePropagates(text: string, pieces: seq<Piece>, outSize: nat)
    requires |text| < outSize
    ensures Write(text, pieces, outSize, true).Some? <==> NoBad(pieces) && |text + FullText(pieces)| < outSize
    decreases |pieces|
  {
    if NoBad(pieces) && |text + FullText(pieces)| < outSize {
      WriteFits(text, pieces, outSize, true);
    } else if pieces != [] {
      var next := Call(text, pieces[0], outSize, true);
      if next.Some? {
        assert next.value + FullText(pieces[1..]) == text + FullText(pieces);
        assert forall p :: p in pieces <==> p == pieces[0] || p in pieces[1..];
        WritePropagates(next.value, pieces[1..], outSize);
      }
    }
  }

  /** The text without the quoted strings that do not fit where they stand. */
  function Kept(text: string, pieces: seq<Piece>, outSize: nat): (r: string)
    ensures |r| >= |text|
    decreases |pieces|
  {
    if pieces == [] then text
    else if pieces[0].Quote? && |text| + |PieceText(pieces[0])| >= outSize then Kept(text, pieces[1..], outSize)
    else Kept(text + PieceText(pieces[0]), pieces[1..], outSize)
  }

  /** As written, what counts is whether the text fits after those strings are left out. */
  lemma {:induction false} WriteKeeps(text: string, pieces: seq<Piece>, outSize: nat)
    requires |text| < outSize
    ensures Write(text, pieces, outSize, false) ==
      if NoBad(pieces) && |Kept(text, pieces, outSize)| < outSize then Some(Kept(text, pieces, outSize)) else None
    decreases |pieces|
  {
    if pieces != [] {
      assert forall p :: p in pieces <==> p == pieces[0] || p in pieces[1..];
      var next := Call(text, pieces[0], outSize, false);
      if next.Some? { WriteKeeps(next.value, pieces[1..], outSize); }
    }
  }

  lemma {:induction false} MembersNoBad(fields: seq<Field>, first: bool)
    ensures NoBad(MemberPieces(fields, first)) <==> Known(fields)
    decreases |fields|
  {
    if fields != [] {
      MembersNoBad(fields[1..], false);
      assert forall f :: f in fields <==> f == fields[0] || f in fields[1..];
      var v := ValuePiece(fields[0].value);
      assert v in FieldPieces(fields[0]) && (v.Bad? <==> fields[0].value.Unknown?);
      assert forall p :: (p in MemberPieces(fields, first)
        <==> ((!first && p == Raw(",")) || p in FieldPieces(fields[0]) || p in MemberPieces(fields[1..], false)));
      assert forall p :: p in FieldPieces(fields[0]) <==> p == Quote(fields[0].name) || p == Raw(":") || p == v;
    } else {
      assert MemberPieces(fields, first) == [Raw("}")];
    }
  }

  lemma DocumentNoBad(fields: seq<Field>)
    ensures NoBad(Pieces(fields)) <==> Known(fields)
  {
    MembersNoBad(fields, true);
    assert forall p :: p in Pieces(fields) <==> p == Raw("{") || p in MemberPieces(fields, true);
  }

  /** A document that fits is written whole; with failures propagated nothing else gives 0. */
  lemma DocumentFits(fields: seq<Field>, outSize: nat, propagate: bool)
    requires outSize >= 8
    ensures Known(fields) && |Render(fields)| < outSize ==> Write("", Pieces(fields), outSize, propagate) == Some(Render(fields))
    ensures propagate && Write("", Pieces(fields), outSize, propagate).Some? ==> Known(fields) && |Render(fields)| < outSize
  {
    DocumentNoBad(fields);
    assert "" + Render(fields) == Render(fields);
    WritePropagates("", Pieces(fields), outSize);
    if Known(fields) && |Render(fields)| < outSize { WriteFits("", Pieces(fields), outSize, propagate); }
  }

  // ----- the strings that are left out, described without running the writer

  /** The text of the pieces that `keep` marks. */
  function Selected(pieces: seq<Piece>, keep: seq<bool>): string
    requires |keep| == |pieces|
  {
    if pieces == [] then ""
    else (if keep[0] then PieceText(pieces[0]) else "") + Selected(pieces[1..], keep[1..])
  }

  /** Only quoted strings are left out, each because it does not fit behind what is kept before it. */
  predicate LeavesOut(text: string, pieces: seq<Piece>, keep: seq<bool>, outSize: nat) {
    && |keep| == |pieces|
    && forall i :: 0 <= i < |pieces| && !keep[i] ==>
      pieces[i].Quote? && |text + Selected(pieces[..i], keep[..i])| + |PieceText(pieces[i])| >= outSize
  }

  lemma Associate(a: string, b: string, c: string)
    ensures a + b + c == a + (b + c)
    ensures a + "" == a
  {}

  lemma NothingLeftOut(text: string, outSize: nat)
    ensures LeavesOut(text, [], [], outSize) && text + Selected([], []) == text
  {}

  lemma SelectedBefore(pieces: seq<Piece>, keep: seq<bool>, i: nat)
    requires |keep| == |pieces| && 1 <= i <= |pieces|
    ensures Selected(pieces[..i], keep[..i])
      == (if keep[0] then PieceText(pieces[0]) else "") + Selected(pieces[1..][..i - 1], keep[1..][..i - 1])
  {
    assert pieces[..i][1..] == pieces[1..][..i - 1] && keep[..i][1..] == keep[1..][..i - 1];
  }

  lemma LeavesOutCons(text: string, pieces: seq<Piece>, keep: seq<bool>, outSize: nat)
    requires pieces != [] && |keep| == |pieces|
    ensures LeavesOut(text, pieces, keep, outSize) <==>
      && (keep[0] || (pieces[0].Quote? && |text| + |PieceText(pieces[0])| >= outSize))
      && LeavesOut(text + if keep[0] then PieceText(pieces[0]) else "", pieces[1..], keep[1..], outSize)
  {
    var text' := text + if keep[0] then PieceText(pieces[0]) else "";
    assert Selected(pieces[..0], keep[..0]) == "";
    forall i | 1 <= i < |pieces|
      ensures |text + Selected(pieces[..i], keep[..i])| == |text' + Selected(pieces[1..][..i - 1], keep[1..][..i - 1])|
    {
      SelectedBefore(pieces, keep, i);
    }
    if LeavesOut(text', pieces[1..], keep[1..], outSize) {
      forall i | 1 <= i < |pieces| && !keep[i]
        ensures pieces[i].Quote? && |text + Selected(pieces[..i], keep[..i])| + |PieceText(pieces[i])| >= outSize
      {
        assert !keep[1..][i - 1] && pieces[1..][i - 1] == pieces[i];
      }
    }
  }

  lemma {:induction false} KeptSelects(text: string, pieces: seq<Piece>, outSize: nat) returns (keep: seq<bool>)
    ensures |keep| == |pieces|
    ensures LeavesOut(text, pieces, keep, outSize) && Kept(text, pieces, outSize) == text + Selected(pieces, keep)
    decreases |pieces|
  {
    hide LeavesOut;
    hide PieceText;
    if pieces == [] {
      keep := [];
      NothingLeftOut(text, outSize);
    } else {
      var first := !(pieces[0].Quote? && |text| + |PieceText(pieces[0])| >= outSize);
      var part := if first then PieceText(pieces[0]) else "";
      var rest := KeptSelects(text + part, pieces[1..], outSize);
      keep := [first] + rest;
      assert keep[1..] == rest;
      Associate(text, part, Selected(pieces[1..], rest));
      LeavesOutCons(text, pieces, keep, outSize);
    }
  }

  lemma {:induction false} SelectedIsKept(text: string, pieces: seq<Piece>, keep: seq<bool>, outSize: nat)
    requires LeavesOut(text, pieces, keep, outSize) && |text + Selected(pieces, keep)| < outSize
    ensures Kept(text, pieces, outSize) == text + Selected(pieces, keep)
    decreases |pieces|
  {
    hide PieceText;
    if pieces == [] {
      Associate(text, "", "");
    } else {
      var part := if keep[0] then PieceText(pieces[0]) else "";
      LeavesOutCons(text, pieces, keep, outSize);
      Associate(text, part, Selected(pieces[1..], keep[1..]));
      SelectedIsKept(text + part, pieces[1..], keep[1..], outSize);
    }
  }

  /**
   * As written, the calls succeed with the text `t` exactly when `t` fits and is all the pieces but
   * quoted strings, each left out because it does not fit behind what stands before it.
   */
  lemma WriteSelects(pieces: seq<Piece>, outSize: nat, t: string)
    requires outSize > 0
    ensures Write("", pieces, outSize, false) == Some(t) <==>
      NoBad(pieces) && |t| < outSize && exists keep :: LeavesOut("", pieces, keep, outSize) && t == Selected(pieces, keep)
  {
    WriteKeeps("", pieces, outSize);
    var keep := KeptSelects("", pieces, outSize);
    assert Kept("", pieces, outSize) == Selected(pieces, keep);
    if NoBad(pieces) && |t| < outSize && exists k :: LeavesOut("", pieces, k, outSize) && t == Selected(pieces, k) {
      var k :| LeavesOut("", pieces, k, outSize) && t == Selected(pieces, k);
      assert "" + Selected(pieces, k) == t;
      SelectedIsKept("", pieces, k, outSize);
    }
  }

  /**
   * As written, 0 is returned without the whole document exactly when all types are known, the document
   * does not fit, and it fits once the strings that do not fit where they stand are left out.
   */
  lemma ZeroWithoutDocument(fields: seq<Field>, outSize: nat)
    requires outSize >= 8
    ensures
      var r := Write("", Pieces(fields), outSize, false);
      (r.Some? && r != Some(Render(fields))) <==>
      && Known(fields) && outSize <= |Render(fields)|
      && exists keep :: LeavesOut("", Pieces(fields), keep, outSize) && |Selected(Pieces(fields), keep)| < outSize
  {
    var r := Write("", Pieces(fields), outSize, false);
    DocumentNoBad(fields);
    DocumentFits(fields, outSize, false);
    if r.Some? {
      WriteSelects(Pieces(fields), outSize, r.value);
    }
    if Known(fields) && exists keep :: LeavesOut("", Pieces(fields), keep, outSize) && |Selected(Pieces(fields), keep)| < outSize {
      var keep :| LeavesOut("", Pieces(fields), keep, outSize) && |Selected(Pieces(fields), keep)| < outSize;
      WriteSelects(Pieces(fields), outSize, Selected(Pieces(fields), keep));
    }
  }

  lemma LongNameLeftOut(name: Option<string>)
    requires |Quoted(name)| >= 8
    ensures Write("", [Raw("{"), Quote(name), Raw(":"), Raw("1"), Raw("}")], 8, false) == Some("{:1}")
  {
    var p4: seq<Piece> := [Raw("}")];
    var p3 := [Raw("1")] + p4;
    var p2 := [Raw(":")] + p3;
    var p1 := [Quote(name)] + p2;
    assert [Raw("{"), Quote(name), Raw(":"), Raw("1"), Raw("}")] == [Raw("{")] + p1;
    WriteCons("", Raw("{"), p1, 8, false);
    assert "" + "{" == "{" && "{" + ":" == "{:" && "{:" + "1" == "{:1" && "{:1" + "}" == "{:1}";
    WriteCons("{", Quote(name), p2, 8, false);
    WriteCons("{", Raw(":"), p3, 8, false);
    WriteCons("{:", Raw("1"), p4, 8, false);
    assert p4 == [Raw("}")] + [];
    WriteCons("{:1", Raw("}"), [], 8, false);
  }

  lemma NameAndOne(name: string)
    ensures Pieces([Field(Some(name), I32(1))]) == [Raw("{"), Quote(Some(name)), Raw(":"), Raw("1"), Raw("}")]
  {
    var fields := [Field(Some(name), I32(1))];
    assert fields[1..] == [];
    assert Natural(1) == ['1'];
    assert ValuePiece(fields[0].value) == Raw("1");
    assert MemberPieces(fields, true) == FieldPieces(fields[0]) + [Raw("}")];
  }

  /** In eight bytes a field with a longer name loses it, and the call still returns 0. */
  lemma NameLost(name: string)
    requires |name| >= 6 && '\0' !in name
    ensures Write("", Pieces([Field(Some(name), I32(1))]), 8, false) == Some("{:1}")
    ensures ReadJson("{:1}") == None
  {
    EscapedLonger(name);
    LongNameLeftOut(Some(name));
    NameAndOne(name);
    assert "{:1}"[1..] == ":1}";
  }

  lemma {:induction false} EscapedLonger(s: string)
    ensures |Escaped(s)| >= |s|
  {
    if s != "" { EscapedLonger(s[1..]); }
  }

  /** One call: prints `text` behind `done`, what is in the buffer so far, if it fits below `outSize`. */
  method Append(out: array<char>, outSize: nat, p: nat, text: string, ghost done: string) returns (ok: bool, p': nat)
    requires p < outSize <= out.Length && out[..p] == done
    modifies out
    ensures ok <==> p + |text| < outSize
    ensures out[..p] == done && out[outSize..] == old(out[outSize..])
    ensures p' == p + |text|
    ensures ok ==> out[..p'] == done + text && out[p'] == '\0'
  {
    var rc := Snprintf(out, p, outSize - p, text);
    p' := p + |text|;
    ok := p' < outSize;
  }

  /** The first quotation mark and the first `i` characters behind `before`. */
  ghost function Partial(before: string, full: string, i: nat): (r: string)
    requires i <= |full|
    ensures before <= r
  {
    before + "\"" + Escaped(full[..i])
  }

  lemma Associate3(a: string, b: string, c: string, d: string)
    ensures a + b + c + d == a + b + (c + d)
  {}

  lemma EscapedPrefix(full: string, i: nat)
    requires i <= |full|
    ensures |Escaped(full[..i])| <= |Escaped(full)|
  {
    EscapedConcat(full[..i], full[i..]);
    assert full == full[..i] + full[i..];
  }

  lemma PartialStep(before: string, full: string, i: nat)
    requires i < |full|
    ensures Partial(before, full, i + 1) == Partial(before, full, i) + EscapeChar(full[i])
    ensures |Partial(before, full, i + 1)| < |before| + |Escaped(full)| + 2
  {
    var c := full[i];
    EscapedSnoc(full[..i], c);
    assert full[..i + 1] == full[..i] + [c];
    Associate3(before, "\"", Escaped(full[..i]), EscapeChar(c));
    EscapedPrefix(full, i + 1);
  }

  lemma PartialStart(before: string, full: string)
    ensures Partial(before, full, 0) == before + "\""
  {}

  lemma PartialEnd(before: string, s: Option<string>)
    ensures Partial(before, Bytes(s), |Bytes(s)|) + "\"" == before + Quoted(s)
  {
    assert Bytes(s)[..|Bytes(s)|] == Bytes(s);
    Regroup(before, "\"", Escaped(Bytes(s)), "\"");
  }

  lemma Regroup(a: string, b: string, c: string, d: string)
    ensures a + b + c + d == a + (b + c + d)
  {}

  lemma KeepsPrefix(buffer: string, before: string, p: nat)
    requires p <= |buffer| && before <= buffer[..p]
    ensures |before| <= p && buffer[..|before|] == before
  {}

  /** `append_quoted`: the position moves only when the whole quoted string fits. */
  method AppendQuoted(out: array<char>, outSize: nat, pos: nat, s: Option<string>, ghost before: string)
    returns (rc: int, pos': nat)
    requires pos < outSize <= out.Length && out[..pos] == before
    modifies out
    ensures rc == 0 || rc == -1
    ensures rc == 0 <==> pos + |Quoted(s)| < outSize
    ensures out[..pos] == before && out[outSize..] == old(out[outSize..])
    ensures rc == 0 ==> pos' == pos + |Quoted(s)| && out[..pos'] == before + Quoted(s) && out[pos'] == '\0'
    ensures rc != 0 ==> pos' == pos
  {
    hide Escaped;
    hide EscapeChar;
    hide CString;
    hide Partial;
    ghost var full := Bytes(s);
    var ok, p := Append(out, outSize, pos, "\"", before);
    if !ok { return -1, pos; }
    PartialStart(before, full);
    var i := 0;
    while s.Some? && i < |s.value| && s.value[i] != '\0'
      invariant 0 <= i <= |full|
      invariant p == |Partial(before, full, i)| < outSize
      invariant out[..p] == Partial(before, full, i)
      invariant out[outSize..] == old(out[outSize..])
      decreases |full| - i
    {
      CStringTake(s.value, i);
      PartialStep(before, full, i);
      KeepsPrefix(out[..], before, p);
      var c := s.value[i];
      ok, p := Append(out, outSize, p, EscapeChar(c), Partial(before, full, i));
      KeepsPrefix(out[..], before, |Partial(before, full, i)|);
      if !ok { return -1, pos; }
      i := i + 1;
    }
    if s.Some? { CStringTake(s.value, i); }
    PartialEnd(before, s);
    ghost var q := p;
    ok, p := Append(out, outSize, p, "\"", Partial(before, full, i));
    KeepsPrefix(out[..], before, q);
    if !ok { return -1, pos; }
    return 0, p;
  }

  datatype Document = Document(timestampMs: nat, fields: seq<Field>)

  /** The value of one field: the `switch` of the loop, with the calls it makes. */
  method AppendValue(out: array<char>, outSize: nat, pos: nat, v: FieldValue, propagate: bool, ghost before: string)
    returns (ok: bool, pos': nat)
    requires pos < outSize <= out.Length && out[..pos] == before
    modifies out
    ensures out[outSize..] == old(out[outSize..])
    ensures ok <==> Call(before, ValuePiece(v), outSize, propagate).Some?
    ensures ok ==> pos' < outSize && out[..pos'] == Call(before, ValuePiece(v), outSize, propagate).value
  {
    match v
    case Str(s) =>
      var rc;
      rc, pos' := AppendQuoted(out, outSize, pos, s, before);
      ok := rc == 0 || !propagate;
    case Unknown =>
      ok, pos' := false, pos;
    case _ =>
      ok, pos' := Append(out, outSize, pos, ValuePiece(v).text, before);
  }

  /** One field behind `text`: comma, name, colon, value. */
  function WriteField(text: string, f: Field, first: bool, outSize: nat, propagate: bool): Option<string> {
    var t0 :- if first then Some(text) else Call(text, Raw(","), outSize, propagate);
    var t1 :- WriteName(t0, f.name, outSize, propagate);
    Call(t1, ValuePiece(f.value), outSize, propagate)
  }

  function WriteName(text: string, name: Option<string>, outSize: nat, propagate: bool): Option<string> {
    var t :- Call(text, Quote(name), outSize, propagate);
    Call(t, Raw(":"), outSize, propagate)
  }

  lemma WriteCons(text: string, p: Piece, rest: seq<Piece>, outSize: nat, propagate: bool)
    ensures
      var r := Call(text, p, outSize, propagate);
      Write(text, [p] + rest, outSize, propagate) == if r.None? then None else Write(r.value, rest, outSize, propagate)
  {}

  lemma WriteFieldPieces(text: string, f: Field, rest: seq<Piece>, outSize: nat, propagate: bool)
    ensures
      var r := WriteField(text, f, true, outSize, propagate);
      Write(text, FieldPieces(f) + rest, outSize, propagate) == if r.None? then None else Write(r.value, rest, outSize, propagate)
  {
    var value := [ValuePiece(f.value)] + rest;
    var colon := [Raw(":")] + value;
    assert FieldPieces(f) + rest == [Quote(f.name)] + colon;
    WriteCons(text, Quote(f.name), colon, outSize, propagate);
    var t1 := Call(text, Quote(f.name), outSize, propagate);
    if t1.Some? {
      WriteCons(t1.value, Raw(":"), value, outSize, propagate);
      var t2 := Call(t1.value, Raw(":"), outSize, propagate);
      if t2.Some? { WriteCons(t2.value, ValuePiece(f.value), rest, outSize, propagate); }
    }
  }

  /** The fields from `i` on behind `text`, then the closing brace. */
  function WriteFrom(text: string, fields: seq<Field>, i: nat, outSize: nat, propagate: bool): Option<string>
    requires i <= |fields|
    decreases |fields| - i
  {
    if i == |fields| then Call(text, Raw("}"), outSize, propagate)
    else
      var next :- WriteField(text, fields[i], i == 0, outSize, propagate);
      WriteFrom(next, fields, i + 1, outSize, propagate)
  }

  lemma {:induction false} WriteFromIsWrite(text: string, fields: seq<Field>, i: nat, outSize: nat, propagate: bool)
    requires i <= |fields|
    ensures WriteFrom(text, fields, i, outSize, propagate) == Write(text, MemberPieces(fields[i..], i == 0), outSize, propagate)
    decreases |fields| - i
  {
    if i == |fields| {
      assert [Raw("}")] + [] == [Raw("}")];
      WriteCons(text, Raw("}"), [], outSize, propagate);
    } else {
      var rest := MemberPieces(fields[i + 1..], false);
      var next := WriteField(text, fields[i], i == 0, outSize, propagate);
      MembersSplit(fields, i);
      if i == 0 { WriteFieldPieces(text, fields[i], rest, outSize, propagate); }
      else { WriteNextField(text, fields[i], rest, outSize, propagate); }
      if next.Some? { WriteFromIsWrite(next.value, fields, i + 1, outSize, propagate); }
    }
  }

  lemma DocumentIsWrite(fields: seq<Field>, outSize: nat, propagate: bool)
    requires outSize >= 2
    ensures Write("", Pieces(fields), outSize, propagate) == WriteFrom("{", fields, 0, outSize, propagate)
  {
    WriteCons("", Raw("{"), MemberPieces(fields, true), outSize, propagate);
    assert "" + "{" == "{" && fields[0..] == fields;
    WriteFromIsWrite("{", fields, 0, outSize, propagate);
  }

  lemma MembersSplit(fields: seq<Field>, i: nat)
    requires i < |fields|
    ensures
      var rest := FieldPieces(fields[i]) + MemberPieces(fields[i + 1..], false);
      MemberPieces(fields[i..], i == 0) == if i == 0 then rest else [Raw(",")] + rest
  {}

  lemma WriteNextField(text: string, f: Field, rest: seq<Piece>, outSize: nat, propagate: bool)
    ensures
      var r := WriteField(text, f, false, outSize, propagate);
      Write(text, [Raw(",")] + (FieldPieces(f) + rest), outSize, propagate)
      == if r.None? then None else Write(r.value, rest, outSize, propagate)
  {
    WriteCons(text, Raw(","), FieldPieces(f) + rest, outSize, propagate);
    var comma := Call(text, Raw(","), outSize, propagate);
    if comma.Some? { WriteFieldPieces(comma.value, f, rest, outSize, propagate); }
  }

  /** The name of a field and its colon. */
  method AppendName(out: array<char>, outSize: nat, pos: nat, name: Option<string>, propagate: bool, ghost before: string)
    returns (ok: bool, pos': nat)
    requires pos < outSize <= out.Length && out[..pos] == before
    modifies out
    ensures out[outSize..] == old(out[outSize..])
    ensures ok <==> WriteName(before, name, outSize, propagate).Some?
    ensures ok ==> pos' < outSize && out[..pos'] == WriteName(before, name, outSize, propagate).value
  {
    ghost var text := before;
    var rc;
    rc, pos' := AppendQuoted(out, outSize, pos, name, text);
    if propagate && rc != 0 { ok := false; return; }
    if rc == 0 { text := text + Quoted(name); }
    ok, pos' := Append(out, outSize, pos', ":", text);
  }

  /** The body of the loop over the fields. */
  method AppendField(out: array<char>, outSize: nat, pos: nat, f: Field, first: bool, propagate: bool, ghost before: string)
    returns (ok: bool, pos': nat)
    requires pos < outSize <= out.Length && out[..pos] == before
    modifies out
    ensures out[outSize..] == old(out[outSize..])
    ensures ok <==> WriteField(before, f, first, outSize, propagate).Some?
    ensures ok ==> pos' < outSize && out[..pos'] == WriteField(before, f, first, outSize, propagate).value
  {
    pos' := pos;
    ghost var text := before;
    if !first {
      ok, pos' := Append(out, outSize, pos', ",", text);
      if !ok { return; }
      text := text + ",";
    }
    ok, pos' := AppendName(out, outSize, pos', f.name, propagate, text);
    if !ok { return; }
    ok, pos' := AppendValue(out, outSize, pos', f.value, propagate, WriteName(text, f.name, outSize, propagate).value);
  }

  /** The loop of `schema_to_json`, behind the opening brace. */
  method WriteFields(fields: seq<Field>, out: array<char>, outSize: nat, propagate: bool) returns (ok: bool, pos: nat)
    requires 8 <= outSize <= out.Length && out[..1] == "{"
    modifies out
    ensures out[outSize..] == old(out[outSize..])
    ensures !ok ==> WriteFrom("{", fields, 0, outSize, propagate) == None
    ensures ok ==> pos < outSize && WriteFrom("{", fields, 0, outSize, propagate) == Call(out[..pos], Raw("}"), outSize, propagate)
  {
    hide WriteField;
    pos := 1;
    ghost var result := WriteFrom("{", fields, 0, outSize, propagate);
    for i := 0 to |fields|
      invariant 0 <= pos < outSize
      invariant WriteFrom(out[..pos], fields, i, outSize, propagate) == result
      invariant out[outSize..] == old(out[outSize..])
    {
      ok, pos := AppendField(out, outSize, pos, fields[i], i == 0, propagate, out[..pos]);
      if !ok { return; }
    }
    ok := true;
  }

  /** `schema_to_json` after its checks. */
  method WriteDocument(fields: seq<Field>, out: array<char>, outSize: nat, propagate: bool) returns (ok: bool, pos: nat)
    requires 8 <= outSize <= out.Length
    modifies out
    ensures ok <==> WriteFrom("{", fields, 0, outSize, propagate).Some?
    ensures ok ==> pos < outSize && out[..pos] == WriteFrom("{", fields, 0, outSize, propagate).value && out[pos] == '\0'
    ensures out[outSize..] == old(out[outSize..])
  {
    ok, pos := Append(out, outSize, 0, "{", "");
    assert "" + "{" == "{";
    ok, pos := WriteFields(fields, out, outSize, propagate);
    if ok {
      ok, pos := Append(out, outSize, pos, "}", out[..pos]);
    }
  }

  /**
   * `schema_to_json`. With `propagate` false this is the source, which discards what
   * `append_quoted` returns (lines 110 and 123); with `propagate` true it returns -1 there.
   */
  method SchemaToJson(doc: Option<Document>, out: array?<char>, outSize: nat, propagate: bool) returns (rc: int)
    requires out != null ==> outSize <= out.Length
    modifies out
    ensures rc == 0 || rc == -1
    ensures rc == 0 <==>
      doc.Some? && out != null && outSize >= 8 && Write("", Pieces(doc.value.fields), outSize, propagate).Some?
    ensures rc == 0 ==> Holds(out[..outSize], Write("", Pieces(doc.value.fields), outSize, propagate).value)
    ensures doc.Some? && out != null && outSize >= 8 && Known(doc.value.fields) && |Render(doc.value.fields)| < outSize
      ==> rc == 0 && Holds(out[..outSize], Render(doc.value.fields))
    ensures propagate && rc == 0 ==> Known(doc.value.fields) && |Render(doc.value.fields)| < outSize
    ensures out != null ==> out[outSize..] == old(out[outSize..])
    ensures out != null && (doc.None? || outSize < 8) ==> out[..] == old(out[..])
  {
    if doc.None? || out == null || outSize < 8 {
      return -1;
    }
    DocumentFits(doc.value.fields, outSize, propagate);
    DocumentIsWrite(doc.value.fields, outSize, propagate);
    var ok, pos := WriteDocument(doc.value.fields, out, outSize, propagate);
    if ok { assert out[..outSize][..pos] == out[..pos]; }
    return if ok then 0 else -1;
  }
}
