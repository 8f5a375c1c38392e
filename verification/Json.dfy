/**
 The text `json.dumps(..., sort_keys=True)` writes, and why no proper prefix of an object can be
 read back: until its last byte an object has an open bracket (sections 2 to 7 of RFC 8259).
 A parser is any function that accepts only texts whose brackets and quotes close.
 */
module Json {
  type Byte = b: int | 0 <= b < 256
  type Text = seq<Byte>

  const NEWLINE: Byte := 10
  const QUOTE: Byte := 34
  const BACKSLASH: Byte := 92

  /** A value as the encoder meets it: strings are code points, numbers are already formatted. */
  datatype Value =
    | Literal(text: Text)
    | Str(points: seq<nat>)
    | Arr(items: seq<Value>)
    | Obj(fields: seq<(seq<nat>, Value)>)

  /** `null`, `true`, `false` and numbers: no quote, bracket, backslash or newline. */
  predicate PlainByte(b: Byte) {
    b != QUOTE && b != BACKSLASH && b != NEWLINE && b != 123 && b != 125 && b != 91 && b != 93
  }

  ghost predicate WellFormed(v: Value) {
    match v
    case Literal(text) => forall i :: 0 <= i < |text| ==> PlainByte(text[i])
    case Str(_) => true
    case Arr(items) => forall i :: 0 <= i < |items| ==> WellFormed(items[i])
    case Obj(fields) => forall i :: 0 <= i < |fields| ==> WellFormed(fields[i].1)
  }

  /******* Encoding *******/

  function HexDigit(n: nat): Byte
    requires n < 16
  {
    if n < 10 then 48 + n else 87 + n
  }

  /** A `\u` escape of one 16-bit unit. */
  function EscapeUnit(u: nat): Text
  {
    [BACKSLASH, 117, HexDigit(u / 4096 % 16), HexDigit(u / 256 % 16), HexDigit(u / 16 % 16), HexDigit(u % 16)]
  }

  function EncodePoint(c: nat): Text {
    if c == 34 || c == 92 then [BACKSLASH, c]
    else if c == 10 then [BACKSLASH, 110]
    else if c == 13 then [BACKSLASH, 114]
    else if c == 9 then [BACKSLASH, 116]
    else if c == 12 then [BACKSLASH, 102]
    else if c == 8 then [BACKSLASH, 98]
    else if 32 <= c <= 126 then [c]
    else if c < 0x10000 then EscapeUnit(c)
    else EscapeUnit(0xd800 + (c - 0x10000) / 1024 % 1024) + EscapeUnit(0xdc00 + (c - 0x10000) % 1024)
  }

  function EncodePoints(points: seq<nat>): Text {
    if points == [] then [] else EncodePoint(points[0]) + EncodePoints(points[1..])
  }

  function EncodeString(points: seq<nat>): Text {
    [QUOTE] + EncodePoints(points) + [QUOTE]
  }

  const COMMA: Text := [44, 32]
  const COLON: Text := [58, 32]

  function Encode(v: Value): Text
    decreases v, 0
  {
    match v
    case Literal(text) => text
    case Str(points) => EncodeString(points)
    case Arr(items) => [91] + EncodeItems(v, items) + [93]
    case Obj(fields) => [123] + EncodeFields(v, fields) + [125]
  }

  function EncodeItems(owner: Value, items: seq<Value>): Text
    requires forall i :: 0 <= i < |items| ==> items[i] < owner
    decreases owner, 0, |items|
  {
    if items == [] then [] else Encode(items[0]) + (if |items| == 1 then [] else COMMA) + EncodeItems(owner, items[1..])
  }

  function EncodeFields(owner: Value, fields: seq<(seq<nat>, Value)>): Text
    requires forall i :: 0 <= i < |fields| ==> fields[i].1 < owner
    decreases owner, 0, |fields|
  {
    if fields == [] then []
    else EncodeString(fields[0].0) + COLON + Encode(fields[0].1)
         + (if |fields| == 1 then [] else COMMA) + EncodeFields(owner, fields[1..])
  }

  /******* Scanning brackets and quotes *******/

  datatype Mode = Plain | InString | Escaped
  datatype Scan = Scan(depth: int, mode: Mode)

  function Next(s: Scan, b: Byte): Scan {
    match s.mode
    case Plain =>
      if b == QUOTE then s.(mode := InString)
      else if b == 123 || b == 91 then s.(depth := s.depth + 1)
      else if b == 125 || b == 93 then s.(depth := s.depth - 1)
      else s
    case InString =>
      if b == QUOTE then s.(mode := Plain) else if b == BACKSLASH then s.(mode := Escaped) else s
    case Escaped => s.(mode := InString)
  }

  function ScanText(s: Scan, t: Text): Scan {
    if t == [] then s else Next(ScanText(s, t[..|t| - 1]), t[|t| - 1])
  }

  /** What any JSON parser demands of a text it accepts: every bracket and quote is closed. */
  predicate Balanced(t: Text) {
    ScanText(Scan(0, Plain), t) == Scan(0, Plain)
  }

  lemma {:induction false} ScanConcat(s: Scan, a: Text, b: Text)
    ensures ScanText(s, a + b) == ScanText(ScanText(s, a), b)
  {
    if b == [] {
      assert a + b == a;
    } else {
      ScanConcat(s, a, b[..|b| - 1]);
      assert (a + b)[..|a + b| - 1] == a + b[..|b| - 1];
    }
  }

  /** Scanning `t` from `s` ends in `s'` and on the way stays at least `floor` deep, with no newline. */
  ghost predicate Passes(s: Scan, t: Text, s': Scan, floor: int) {
    && ScanText(s, t) == s'
    && (forall k :: 0 <= k <= |t| ==> ScanText(s, t[..k]).depth >= floor)
    && forall i :: 0 <= i < |t| ==> t[i] != NEWLINE
  }

  lemma PassesConcat(s: Scan, a: Text, mid: Scan, b: Text, s': Scan, floor: int)
    requires Passes(s, a, mid, floor) && Passes(mid, b, s', floor)
    ensures Passes(s, a + b, s', floor)
  {
    ScanConcat(s, a, b);
    forall k | 0 <= k <= |a + b| ensures ScanText(s, (a + b)[..k]).depth >= floor {
      if k <= |a| {
        assert (a + b)[..k] == a[..k];
      } else {
        assert (a + b)[..k] == a + b[..k - |a|];
        ScanConcat(s, a, b[..k - |a|]);
      }
    }
  }

  lemma PassesOne(s: Scan, b: Byte, floor: int)
    requires b != NEWLINE && s.depth >= floor && Next(s, b).depth >= floor
    ensures Passes(s, [b], Next(s, b), floor)
  {
  }

  lemma PassesNone(s: Scan, floor: int)
    requires s.depth >= floor
    ensures Passes(s, [], s, floor)
  {
  }

  lemma {:induction false} PassesQuiet(s: Scan, t: Text)
    requires !s.mode.Escaped? && forall i :: 0 <= i < |t| ==> PlainByte(t[i])
    ensures Passes(s, t, s, s.depth)
  {
    if t != [] {
      var front := t[..|t| - 1];
      PassesQuiet(s, front);
      PassesOne(s, t[|t| - 1], s.depth);
      PassesConcat(s, front, s, [t[|t| - 1]], s, s.depth);
      assert t == front + [t[|t| - 1]];
    }
  }

  /** A backslash, the byte it escapes, then quiet bytes: the scan is inside the string again. */
  lemma PassesEscape(depth: int, b: Byte, rest: Text)
    requires b != NEWLINE && forall i :: 0 <= i < |rest| ==> PlainByte(rest[i])
    ensures Passes(Scan(depth, InString), [BACKSLASH, b] + rest, Scan(depth, InString), depth)
  {
    var s := Scan(depth, InString);
    PassesOne(s, BACKSLASH, depth);
    PassesOne(Scan(depth, Escaped), b, depth);
    PassesConcat(s, [BACKSLASH], Scan(depth, Escaped), [b], s, depth);
    PassesQuiet(s, rest);
    PassesConcat(s, [BACKSLASH] + [b], s, rest, s, depth);
    assert [BACKSLASH, b] == [BACKSLASH] + [b];
  }

  lemma UnitPasses(depth: int, u: nat)
    ensures Passes(Scan(depth, InString), EscapeUnit(u), Scan(depth, InString), depth)
  {
    var digits := [HexDigit(u / 4096 % 16), HexDigit(u / 256 % 16), HexDigit(u / 16 % 16), HexDigit(u % 16)];
    PassesEscape(depth, 117, digits);
    assert EscapeUnit(u) == [BACKSLASH, 117] + digits;
  }

  lemma PointPasses(depth: int, c: nat)
    ensures Passes(Scan(depth, InString), EncodePoint(c), Scan(depth, InString), depth)
  {
    var s := Scan(depth, InString);
    if c in {34, 92, 10, 13, 9, 12, 8} {
      var t := EncodePoint(c);
      PassesEscape(depth, t[1], []);
      assert t == [BACKSLASH, t[1]] + [];
    } else if 32 <= c <= 126 {
      PassesOne(s, c, depth);
    } else if c < 0x10000 {
      UnitPasses(depth, c);
    } else {
      var high, low := 0xd800 + (c - 0x10000) / 1024 % 1024, 0xdc00 + (c - 0x10000) % 1024;
      UnitPasses(depth, high);
      UnitPasses(depth, low);
      PassesConcat(s, EscapeUnit(high), s, EscapeUnit(low), s, depth);
    }
  }

  lemma {:induction false} PointsPass(depth: int, points: seq<nat>)
    ensures Passes(Scan(depth, InString), EncodePoints(points), Scan(depth, InString), depth)
  {
    var s := Scan(depth, InString);
    if points == [] {
      PassesNone(s, depth);
    } else {
      PointPasses(depth, points[0]);
      PointsPass(depth, points[1..]);
      PassesConcat(s, EncodePoint(points[0]), s, EncodePoints(points[1..]), s, depth);
    }
  }

  lemma StringPasses(depth: int, points: seq<nat>)
    ensures Passes(Scan(depth, Plain), EncodeString(points), Scan(depth, Plain), depth)
  {
    var outside, inside := Scan(depth, Plain), Scan(depth, InString);
    PassesOne(outside, QUOTE, depth);
    PointsPass(depth, points);
    PassesOne(inside, QUOTE, depth);
    PassesConcat(outside, [QUOTE], inside, EncodePoints(points), inside, depth);
    PassesConcat(outside, [QUOTE] + EncodePoints(points), inside, [QUOTE], outside, depth);
  }

  /** An opening bracket, a body that stays inside, and the closing bracket. */
  lemma BracketsPass(depth: int, open: Byte, body: Text, close: Byte)
    requires (open == 123 || open == 91) && (close == 125 || close == 93)
    requires Passes(Scan(depth + 1, Plain), body, Scan(depth + 1, Plain), depth + 1)
    ensures Passes(Scan(depth, Plain), [open] + body + [close], Scan(depth, Plain), depth)
  {
    var outside, inside := Scan(depth, Plain), Scan(depth + 1, Plain);
    PassesOne(outside, open, depth);
    PassesOne(inside, close, depth);
    assert Passes(inside, body, inside, depth);
    PassesConcat(outside, [open], inside, body, inside, depth);
    PassesConcat(outside, [open] + body, inside, [close], outside, depth);
  }

  lemma SeparatorPasses(depth: int, last: bool)
    ensures Passes(Scan(depth, Plain), if last then [] else COMMA, Scan(depth, Plain), depth)
    ensures Passes(Scan(depth, Plain), COLON, Scan(depth, Plain), depth)
  {
    PassesNone(Scan(depth, Plain), depth);
    PassesQuiet(Scan(depth, Plain), COMMA);
    PassesQuiet(Scan(depth, Plain), COLON);
  }

  lemma {:induction false} EncodePasses(depth: int, v: Value)
    requires WellFormed(v)
    ensures Passes(Scan(depth, Plain), Encode(v), Scan(depth, Plain), depth)
    decreases v, 0
  {
    match v
    case Literal(text) => PassesQuiet(Scan(depth, Plain), text);
    case Str(points) => StringPasses(depth, points);
    case Arr(items) =>
      ItemsPass(depth + 1, v, items);
      BracketsPass(depth, 91, EncodeItems(v, items), 93);
    case Obj(fields) =>
      FieldsPass(depth + 1, v, fields);
      BracketsPass(depth, 123, EncodeFields(v, fields), 125);
  }

  lemma {:induction false} ItemsPass(depth: int, owner: Value, items: seq<Value>)
    requires forall i :: 0 <= i < |items| ==> items[i] < owner && WellFormed(items[i])
    ensures Passes(Scan(depth, Plain), EncodeItems(owner, items), Scan(depth, Plain), depth)
    decreases owner, 0, |items|
  {
    var s := Scan(depth, Plain);
    if items == [] {
      PassesNone(s, depth);
    } else {
      var sep := if |items| == 1 then [] else COMMA;
      EncodePasses(depth, items[0]);
      SeparatorPasses(depth, |items| == 1);
      ItemsPass(depth, owner, items[1..]);
      PassesConcat(s, Encode(items[0]), s, sep, s, depth);
      PassesConcat(s, Encode(items[0]) + sep, s, EncodeItems(owner, items[1..]), s, depth);
    }
  }

  lemma {:induction false} FieldsPass(depth: int, owner: Value, fields: seq<(seq<nat>, Value)>)
    requires forall i :: 0 <= i < |fields| ==> fields[i].1 < owner && WellFormed(fields[i].1)
    ensures Passes(Scan(depth, Plain), EncodeFields(owner, fields), Scan(depth, Plain), depth)
    decreases owner, 0, |fields|
  {
    var s := Scan(depth, Plain);
    if fields == [] {
      PassesNone(s, depth);
    } else {
      var name, value := EncodeString(fields[0].0), Encode(fields[0].1);
      var sep := if |fields| == 1 then [] else COMMA;
      StringPasses(depth, fields[0].0);
      EncodePasses(depth, fields[0].1);
      SeparatorPasses(depth, |fields| == 1);
      FieldsPass(depth, owner, fields[1..]);
      PassesConcat(s, name, s, COLON, s, depth);
      PassesConcat(s, name + COLON, s, value, s, depth);
      PassesConcat(s, name + COLON + value, s, sep, s, depth);
      PassesConcat(s, name + COLON + value + sep, s, EncodeFields(owner, fields[1..]), s, depth);
    }
  }

  /** An object's text is one balanced line, and no proper nonempty prefix of it is balanced. */
  lemma ObjectPrefixIsUnbalanced(v: Value, k: nat)
    requires v.Obj? && WellFormed(v) && 1 <= k <= |Encode(v)|
    ensures Balanced(Encode(v)[..k]) <==> k == |Encode(v)|
    ensures Encode(v)[0] == 123 && NEWLINE !in Encode(v)
  {
    var t, start, inside := Encode(v), Scan(0, Plain), Scan(1, Plain);
    EncodePasses(0, v);
    assert t[..|t|] == t;
    if k < |t| {
      var body := EncodeFields(v, v.fields);
      FieldsPass(1, v, v.fields);
      ScanConcat(start, [123], body[..k - 1]);
      assert t[..k] == [123] + body[..k - 1];
      assert ScanText(start, [123]) == inside by { PassesOne(start, 123, 0); }
    }
  }
}
