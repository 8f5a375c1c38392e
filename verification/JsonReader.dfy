/**
 A reader for the texts `Json.Encode` writes, following the grammar of RFC 8259. It gives back every
 value it can be given, and it is a parser in the sense the logs need: what is proved of the logs for
 any parser holds of one that exists.
 */
module JsonReader {
  import opened Json
  import opened Jsonl

  datatype Reading<+T> = Fail | Got(value: T, rest: Text)

  predicate StartsWith(t: Text, start: Text) {
    |start| <= |t| && t[..|start|] == start
  }

  /******* Strings *******/

  function DigitValue(b: Byte): nat {
    if 48 <= b <= 57 then b - 48 else if 97 <= b <= 102 then b - 87 else if 65 <= b <= 70 then b - 55 else 16
  }

  /** The sixteen-bit unit four hexadecimal digits stand for. */
  function UnitValue(digits: Text): nat
    requires |digits| == 4
  {
    DigitValue(digits[0]) * 4096 + DigitValue(digits[1]) * 256 + DigitValue(digits[2]) * 16 + DigitValue(digits[3])
  }

  predicate HexDigits(digits: Text) {
    forall i :: 0 <= i < |digits| ==> DigitValue(digits[i]) < 16
  }

  /** What the letter after a backslash stands for (section 7 of RFC 8259). */
  function Escaped(b: Byte): nat {
    match b
    case 34 => 34
    case 92 => 92
    case 47 => 47
    case 98 => 8
    case 102 => 12
    case 110 => 10
    case 114 => 13
    case 116 => 9
    case _ => 0
  }

  /** The units of a string, from behind its opening quote to behind its closing one. */
  function ReadUnits(t: Text): (reading: Reading<seq<nat>>)
    ensures reading.Got? ==> |reading.rest| < |t|
    decreases |t|
  {
    if t == [] || t[0] < 32 || t[0] > 126 then Fail
    else if t[0] == QUOTE then Got([], t[1..])
    else if t[0] != BACKSLASH then InFrontOf([t[0]], ReadUnits(t[1..]))
    else if |t| >= 6 && t[1] == 117 && HexDigits(t[2..6]) then InFrontOf([UnitValue(t[2..6])], ReadUnits(t[6..]))
    else if |t| >= 2 && Escaped(t[1]) != 0 then InFrontOf([Escaped(t[1])], ReadUnits(t[2..]))
    else Fail
  }

  function InFrontOf(units: seq<nat>, reading: Reading<seq<nat>>): Reading<seq<nat>> {
    match reading case Fail => Fail case Got(others, rest) => Got(units + others, rest)
  }

  predicate High(u: nat) {
    0xd800 <= u < 0xdc00
  }

  predicate Low(u: nat) {
    0xdc00 <= u < 0xe000
  }

  /** A high unit and the low one behind it are one code point. */
  function Joined(units: seq<nat>): seq<nat> {
    if |units| >= 2 && High(units[0]) && Low(units[1]) then
      [0x10000 + (units[0] - 0xd800) * 1024 + (units[1] - 0xdc00)] + Joined(units[2..])
    else if units == [] then []
    else [units[0]] + Joined(units[1..])
  }

  /******* Values *******/

  predicate LiteralByte(b: Byte) {
    PlainByte(b) && b > 32 && b != 44 && b != 58
  }

  /** The bytes up to the first that cannot be part of a number or a name. */
  function LiteralLength(t: Text): (n: nat)
    ensures n <= |t|
  {
    if t == [] || !LiteralByte(t[0]) then 0 else 1 + LiteralLength(t[1..])
  }

  function ReadValue(t: Text): (reading: Reading<Value>)
    ensures reading.Got? ==> |reading.rest| < |t|
    decreases |t|, 0
  {
    if t == [] then Fail
    else if t[0] == QUOTE then
      match ReadUnits(t[1..]) case Fail => Fail case Got(units, rest) => Got(Str(Joined(units)), rest)
    else if t[0] == 91 then
      if StartsWith(t[1..], [93]) then Got(Arr([]), t[2..])
      else match ReadItems(t[1..]) case Fail => Fail case Got(items, rest) => Got(Arr(items), rest)
    else if t[0] == 123 then
      if StartsWith(t[1..], [125]) then Got(Obj([]), t[2..])
      else match ReadFields(t[1..]) case Fail => Fail case Got(fields, rest) => Got(Obj(fields), rest)
    else if LiteralLength(t) == 0 then Fail
    else Got(Literal(t[..LiteralLength(t)]), t[LiteralLength(t)..])
  }

  function ReadItems(t: Text): (reading: Reading<seq<Value>>)
    ensures reading.Got? ==> |reading.rest| < |t|
    decreases |t|, 1
  {
    match ReadValue(t)
    case Fail => Fail
    case Got(v, rest) =>
      if StartsWith(rest, [93]) then Got([v], rest[1..])
      else if StartsWith(rest, COMMA) then
        match ReadItems(rest[2..]) case Fail => Fail case Got(others, after) => Got([v] + others, after)
      else Fail
  }

  function ReadFields(t: Text): (reading: Reading<seq<(seq<nat>, Value)>>)
    ensures reading.Got? ==> |reading.rest| < |t|
    decreases |t|, 2
  {
    match ReadField(t)
    case Fail => Fail
    case Got(field, rest) =>
      if StartsWith(rest, [125]) then Got([field], rest[1..])
      else if StartsWith(rest, COMMA) then
        match ReadFields(rest[2..]) case Fail => Fail case Got(others, after) => Got([field] + others, after)
      else Fail
  }

  function ReadField(t: Text): (reading: Reading<(seq<nat>, Value)>)
    ensures reading.Got? ==> |reading.rest| < |t|
    decreases |t|, 1
  {
    if !StartsWith(t, [QUOTE]) then Fail
    else match ReadUnits(t[1..])
      case Fail => Fail
      case Got(units, rest) =>
        if !StartsWith(rest, COLON) then Fail
        else match ReadValue(rest[2..])
          case Fail => Fail
          case Got(v, after) => Got((Joined(units), v), after)
  }

  /** One line of a log: a whole value and nothing behind it. */
  function ParseLine(t: Text): Parsed<Value> {
    match ReadValue(t)
    case Fail => Malformed
    case Got(v, rest) => if rest != [] then Malformed else if v.Obj? then Object(v) else NotObject
  }

  /******* Reading back what was written *******/

  /** Code points that are no surrogates. */
  predicate Scalars(points: seq<nat>) {
    forall i :: 0 <= i < |points| ==> points[i] < 0x110000 && !High(points[i]) && !Low(points[i])
  }

  /** The values that survive: scalar strings, and literals that look like numbers or names. */
  ghost predicate Readable(v: Value) {
    match v
    case Literal(text) => text != [] && forall i :: 0 <= i < |text| ==> LiteralByte(text[i])
    case Str(points) => Scalars(points)
    case Arr(items) => forall i :: 0 <= i < |items| ==> Readable(items[i])
    case Obj(fields) => forall i :: 0 <= i < |fields| ==> Scalars(fields[i].0) && Readable(fields[i].1)
  }

  function UnitsOf(c: nat): seq<nat> {
    if c < 0x10000 then [c] else [0xd800 + (c - 0x10000) / 1024 % 1024, 0xdc00 + (c - 0x10000) % 1024]
  }

  function AllUnits(points: seq<nat>): seq<nat> {
    if points == [] then [] else UnitsOf(points[0]) + AllUnits(points[1..])
  }

  lemma HexDigitReads(n: nat)
    requires n < 16
    ensures DigitValue(HexDigit(n)) == n
  {
  }

  function UnitDigits(u: nat): Text {
    [HexDigit(u / 4096 % 16), HexDigit(u / 256 % 16), HexDigit(u / 16 % 16), HexDigit(u % 16)]
  }

  lemma HexSplit(u: nat)
    requires u < 0x10000
    ensures (u / 4096 % 16) * 4096 + (u / 256 % 16) * 256 + (u / 16 % 16) * 16 + u % 16 == u
  {
    var a := u / 16;
    var b := a / 16;
    assert u == 16 * a + u % 16 && a == 16 * b + a % 16 && b == 16 * (b / 16) + b % 16;
    assert u / 256 == b && u / 4096 == b / 16;
  }

  /** Four hexadecimal digits stand for the unit they were written from. */
  lemma DigitsStandForUnit(u: nat)
    requires u < 0x10000
    ensures HexDigits(UnitDigits(u)) && UnitValue(UnitDigits(u)) == u
  {
    HexSplit(u);
    HexDigitReads(u / 4096 % 16);
    HexDigitReads(u / 256 % 16);
    HexDigitReads(u / 16 % 16);
    HexDigitReads(u % 16);
  }

  lemma EscapeReads(digits: Text, rest: Text)
    requires |digits| == 4 && HexDigits(digits)
    ensures ReadUnits([BACKSLASH, 117] + digits + rest) == InFrontOf([UnitValue(digits)], ReadUnits(rest))
  {
    var t := [BACKSLASH, 117] + digits + rest;
    assert t[2..6] == digits;
    assert t[6..] == rest;
  }

  lemma UnitReads(u: nat, rest: Text)
    requires u < 0x10000
    ensures ReadUnits(EscapeUnit(u) + rest) == InFrontOf([u], ReadUnits(rest))
  {
    DigitsStandForUnit(u);
    EscapeReads(UnitDigits(u), rest);
    assert EscapeUnit(u) == [BACKSLASH, 117] + UnitDigits(u);
  }

  lemma InFrontTwice(a: seq<nat>, b: seq<nat>, reading: Reading<seq<nat>>)
    ensures InFrontOf(a, InFrontOf(b, reading)) == InFrontOf(a + b, reading)
  {
    if reading.Got? {
      assert a + (b + reading.value) == (a + b) + reading.value;
    }
  }

  lemma ShortEscapeReads(b: Byte, rest: Text)
    requires b != 117 && Escaped(b) != 0
    ensures ReadUnits([BACKSLASH, b] + rest) == InFrontOf([Escaped(b)], ReadUnits(rest))
  {
    assert ([BACKSLASH, b] + rest)[2..] == rest;
  }

  lemma PlainReads(b: Byte, rest: Text)
    requires 32 <= b <= 126 && b != QUOTE && b != BACKSLASH
    ensures ReadUnits([b] + rest) == InFrontOf([b], ReadUnits(rest))
  {
    assert ([b] + rest)[1..] == rest;
  }

  lemma PairReads(high: nat, low: nat, rest: Text)
    requires high < 0x10000 && low < 0x10000
    ensures ReadUnits(EscapeUnit(high) + EscapeUnit(low) + rest) == InFrontOf([high, low], ReadUnits(rest))
  {
    UnitReads(low, rest);
    UnitReads(high, EscapeUnit(low) + rest);
    assert EscapeUnit(high) + EscapeUnit(low) + rest == EscapeUnit(high) + (EscapeUnit(low) + rest);
    InFrontTwice([high], [low], ReadUnits(rest));
    assert [high] + [low] == [high, low];
  }

  lemma PointReads(c: nat, rest: Text)
    requires c < 0x110000
    ensures ReadUnits(EncodePoint(c) + rest) == InFrontOf(UnitsOf(c), ReadUnits(rest))
  {
    if c in {34, 92, 10, 13, 9, 12, 8} {
      ShortEscapeReads(EncodePoint(c)[1], rest);
    } else if 32 <= c <= 126 {
      PlainReads(c, rest);
    } else if c < 0x10000 {
      UnitReads(c, rest);
    } else {
      PairReads(0xd800 + (c - 0x10000) / 1024 % 1024, 0xdc00 + (c - 0x10000) % 1024, rest);
    }
  }

  lemma {:induction false} PointsRead(points: seq<nat>, rest: Text)
    requires Scalars(points)
    ensures ReadUnits(EncodePoints(points) + rest) == InFrontOf(AllUnits(points), ReadUnits(rest))
  {
    if points == [] {
      assert EncodePoints(points) + rest == rest;
      InFrontOfNothing(ReadUnits(rest));
    } else {
      var others := EncodePoints(points[1..]) + rest;
      PointsRead(points[1..], rest);
      PointReads(points[0], others);
      assert EncodePoints(points) + rest == EncodePoint(points[0]) + others;
      InFrontTwice(UnitsOf(points[0]), AllUnits(points[1..]), ReadUnits(rest));
    }
  }

  lemma InFrontOfNothing(reading: Reading<seq<nat>>)
    ensures InFrontOf([], reading) == reading
  {
    if reading.Got? {
      assert [] + reading.value == reading.value;
    }
  }

  lemma PairJoins(c: nat)
    requires 0x10000 <= c < 0x110000
    ensures High(UnitsOf(c)[0]) && Low(UnitsOf(c)[1])
    ensures 0x10000 + (UnitsOf(c)[0] - 0xd800) * 1024 + (UnitsOf(c)[1] - 0xdc00) == c
  {
  }

  lemma {:induction false} UnitsJoin(points: seq<nat>)
    requires Scalars(points)
    ensures Joined(AllUnits(points)) == points
  {
    if points != [] {
      var c, others := points[0], AllUnits(points[1..]);
      UnitsJoin(points[1..]);
      if c < 0x10000 {
        assert AllUnits(points)[1..] == others;
      } else {
        PairJoins(c);
        assert AllUnits(points)[2..] == others;
      }
      assert points == [c] + points[1..];
    }
  }

  /** A string's text, then `rest`: the string is read from behind its opening quote. */
  lemma {:induction false} StringReads(points: seq<nat>, rest: Text)
    requires Scalars(points)
    ensures (EncodeString(points) + rest)[0] == QUOTE
    ensures ReadUnits((EncodeString(points) + rest)[1..]) == Got(AllUnits(points), rest)
    ensures Joined(AllUnits(points)) == points
  {
    var behind := [QUOTE] + rest;
    assert (EncodeString(points) + rest)[1..] == EncodePoints(points) + behind;
    PointsRead(points, behind);
    assert behind[1..] == rest;
    assert AllUnits(points) + [] == AllUnits(points);
    UnitsJoin(points);
  }

  /** Nothing of a number or name follows. */
  predicate Ended(rest: Text) {
    rest == [] || !LiteralByte(rest[0])
  }

  lemma {:induction false} LiteralReads(text: Text, rest: Text)
    requires (forall i :: 0 <= i < |text| ==> LiteralByte(text[i])) && Ended(rest)
    ensures LiteralLength(text + rest) == |text|
  {
    if text == [] {
      assert text + rest == rest;
    } else {
      assert (text + rest)[1..] == text[1..] + rest;
      LiteralReads(text[1..], rest);
    }
  }

  lemma LiteralIsRead(text: Text, rest: Text)
    requires text != [] && (forall i :: 0 <= i < |text| ==> LiteralByte(text[i])) && Ended(rest)
    ensures ReadValue(text + rest) == Got(Literal(text), rest)
  {
    LiteralReads(text, rest);
    assert (text + rest)[..|text|] == text && (text + rest)[|text|..] == rest;
  }

  lemma ArrayIsRead(body: Text, items: seq<Value>, rest: Text)
    requires body != [] && body[0] != 93 && ReadItems(body) == Got(items, rest)
    ensures ReadValue([91] + body) == Got(Arr(items), rest)
  {
    assert ([91] + body)[1..] == body;
    assert body[..1] == [body[0]];
  }

  lemma ObjectIsRead(body: Text, fields: seq<(seq<nat>, Value)>, rest: Text)
    requires body != [] && body[0] != 125 && ReadFields(body) == Got(fields, rest)
    ensures ReadValue([123] + body) == Got(Obj(fields), rest)
  {
    assert ([123] + body)[1..] == body;
    assert body[..1] == [body[0]];
  }

  lemma EmptyIsRead(rest: Text)
    ensures ReadValue([91, 93] + rest) == Got(Arr([]), rest)
    ensures ReadValue([123, 125] + rest) == Got(Obj([]), rest)
  {
    assert ([91, 93] + rest)[2..] == rest && ([91, 93] + rest)[1..][..1] == [93];
    assert ([123, 125] + rest)[2..] == rest && ([123, 125] + rest)[1..][..1] == [125];
  }

  /** Every readable value comes back, whatever ends it. */
  lemma {:induction false} ValueReads(v: Value, rest: Text)
    requires Readable(v) && Ended(rest)
    ensures ReadValue(Encode(v) + rest) == Got(v, rest)
    decreases v, 2
  {
    match v
    case Literal(text) => LiteralIsRead(text, rest);
    case Str(points) => StringReads(points, rest);
    case Arr(items) => ArrayReads(v, items, rest);
    case Obj(fields) => ObjectReads(v, fields, rest);
  }

  lemma {:induction false} ArrayReads(v: Value, items: seq<Value>, rest: Text)
    requires v == Arr(items) && Readable(v)
    ensures ReadValue(Encode(v) + rest) == Got(v, rest)
    decreases v, 1
  {
    if items == [] {
      EmptyIsRead(rest);
      assert Encode(v) == [91, 93];
    } else {
      var inner := EncodeItems(v, items);
      ItemsRead(v, items, rest);
      ItemsStart(v, items, [93] + rest);
      ArrayIsRead(inner + ([93] + rest), items, rest);
      assert [91] + inner + [93] + rest == [91] + (inner + ([93] + rest));
    }
  }

  lemma {:induction false} ObjectReads(v: Value, fields: seq<(seq<nat>, Value)>, rest: Text)
    requires v == Obj(fields) && Readable(v)
    ensures ReadValue(Encode(v) + rest) == Got(v, rest)
    decreases v, 1
  {
    if fields == [] {
      EmptyIsRead(rest);
      assert Encode(v) == [123, 125];
    } else {
      var inner := EncodeFields(v, fields);
      FieldsRead(v, fields, rest);
      assert inner[0] == QUOTE;
      ObjectIsRead(inner + ([125] + rest), fields, rest);
      assert [123] + inner + [125] + rest == [123] + (inner + ([125] + rest));
    }
  }

  lemma {:induction false} EncodeIsNonempty(v: Value)
    requires Readable(v)
    ensures Encode(v) != [] && Encode(v)[0] != 93
  {
  }

  lemma {:induction false} ItemsStart(owner: Value, items: seq<Value>, rest: Text)
    requires items != [] && forall i :: 0 <= i < |items| ==> items[i] < owner && Readable(items[i])
    ensures var t := EncodeItems(owner, items) + rest; t != [] && t[0] != 93
  {
    EncodeIsNonempty(items[0]);
  }

  lemma LastItemIsRead(text: Text, v: Value, rest: Text)
    requires ReadValue(text + ([93] + rest)) == Got(v, [93] + rest)
    ensures ReadItems(text + ([93] + rest)) == Got([v], rest)
  {
    var close := [93] + rest;
    assert close[..1] == [93] && close[1..] == rest;
  }

  lemma NextItemIsRead(text: Text, v: Value, body: Text, others: seq<Value>, rest: Text)
    requires ReadValue(text + (COMMA + body)) == Got(v, COMMA + body) && ReadItems(body) == Got(others, rest)
    ensures ReadItems(text + (COMMA + body)) == Got([v] + others, rest)
  {
    var behind := COMMA + body;
    assert behind[..2] == COMMA && behind[2..] == body && behind[..1] == [44];
  }

  lemma {:induction false} ItemsSplit(owner: Value, items: seq<Value>, close: Text)
    requires items != [] && forall i :: 0 <= i < |items| ==> items[i] < owner
    ensures EncodeItems(owner, items) + close
         == if |items| == 1 then Encode(items[0]) + close
            else Encode(items[0]) + (COMMA + (EncodeItems(owner, items[1..]) + close))
  {
    var first, others := Encode(items[0]), EncodeItems(owner, items[1..]);
    if |items| == 1 {
      assert first + [] + [] == first;
    } else {
      assert first + COMMA + others + close == first + (COMMA + (others + close));
    }
  }

  lemma {:induction false} ItemsRead(owner: Value, items: seq<Value>, rest: Text)
    requires items != [] && forall i :: 0 <= i < |items| ==> items[i] < owner && Readable(items[i])
    ensures ReadItems(EncodeItems(owner, items) + ([93] + rest)) == Got(items, rest)
    decreases owner, 0, |items|
  {
    var close := [93] + rest;
    ItemsSplit(owner, items, close);
    if |items| == 1 {
      ValueReads(items[0], close);
      LastItemIsRead(Encode(items[0]), items[0], rest);
      assert items == [items[0]];
    } else {
      var body := EncodeItems(owner, items[1..]) + close;
      ValueReads(items[0], COMMA + body);
      ItemsRead(owner, items[1..], rest);
      NextItemIsRead(Encode(items[0]), items[0], body, items[1..], rest);
      assert items == [items[0]] + items[1..];
    }
  }

  function FieldText(field: (seq<nat>, Value)): Text {
    EncodeString(field.0) + COLON + Encode(field.1)
  }

  lemma FieldTextSplits(field: (seq<nat>, Value), rest: Text)
    ensures FieldText(field) + rest == EncodeString(field.0) + (COLON + (Encode(field.1) + rest))
    ensures (COLON + (Encode(field.1) + rest))[..2] == COLON
    ensures (COLON + (Encode(field.1) + rest))[2..] == Encode(field.1) + rest
  {
  }

  lemma {:induction false} FieldReads(field: (seq<nat>, Value), rest: Text)
    requires Scalars(field.0) && Readable(field.1) && Ended(rest)
    ensures ReadField(FieldText(field) + rest) == Got(field, rest)
    decreases field.1, 3
  {
    var t := FieldText(field) + rest;
    ValueReads(field.1, rest);
    FieldTextSplits(field, rest);
    StringReads(field.0, COLON + (Encode(field.1) + rest));
    assert t[..1] == [QUOTE];
  }

  lemma LastFieldIsRead(text: Text, field: (seq<nat>, Value), rest: Text)
    requires ReadField(text + ([125] + rest)) == Got(field, [125] + rest)
    ensures ReadFields(text + ([125] + rest)) == Got([field], rest)
  {
    var close := [125] + rest;
    assert close[..1] == [125] && close[1..] == rest;
  }

  lemma NextFieldIsRead(text: Text, field: (seq<nat>, Value), body: Text, others: seq<(seq<nat>, Value)>, rest: Text)
    requires ReadField(text + (COMMA + body)) == Got(field, COMMA + body) && ReadFields(body) == Got(others, rest)
    ensures ReadFields(text + (COMMA + body)) == Got([field] + others, rest)
  {
    var behind := COMMA + body;
    assert behind[..2] == COMMA && behind[2..] == body && behind[..1] == [44];
  }

  lemma {:induction false} FieldsSplit(owner: Value, fields: seq<(seq<nat>, Value)>, close: Text)
    requires fields != [] && forall i :: 0 <= i < |fields| ==> fields[i].1 < owner
    ensures EncodeFields(owner, fields) + close
         == if |fields| == 1 then FieldText(fields[0]) + close
            else FieldText(fields[0]) + (COMMA + (EncodeFields(owner, fields[1..]) + close))
  {
    var first, others := FieldText(fields[0]), EncodeFields(owner, fields[1..]);
    if |fields| == 1 {
      assert first + [] + [] == first;
    } else {
      assert first + COMMA + others + close == first + (COMMA + (others + close));
    }
  }

  lemma {:induction false} FieldsRead(owner: Value, fields: seq<(seq<nat>, Value)>, rest: Text)
    requires fields != []
    requires forall i :: 0 <= i < |fields| ==> fields[i].1 < owner && Scalars(fields[i].0) && Readable(fields[i].1)
    ensures ReadFields(EncodeFields(owner, fields) + ([125] + rest)) == Got(fields, rest)
    decreases owner, 0, |fields|
  {
    var close := [125] + rest;
    FieldsSplit(owner, fields, close);
    if |fields| == 1 {
      FieldReads(fields[0], close);
      LastFieldIsRead(FieldText(fields[0]), fields[0], rest);
      assert fields == [fields[0]];
    } else {
      var body := EncodeFields(owner, fields[1..]) + close;
      FieldReads(fields[0], COMMA + body);
      FieldsRead(owner, fields[1..], rest);
      NextFieldIsRead(FieldText(fields[0]), fields[0], body, fields[1..], rest);
      assert fields == [fields[0]] + fields[1..];
    }
  }

  /** The writer loses nothing: no two readable values have the same text. */
  lemma EncodeIsInjective(v: Value, w: Value)
    requires Readable(v) && Readable(w) && Encode(v) == Encode(w)
    ensures v == w
  {
    ValueReads(v, []);
    ValueReads(w, []);
    assert Encode(v) + [] == Encode(v) && Encode(w) + [] == Encode(w);
  }

  /******* What is accepted closes its brackets and quotes *******/

  /** From `t` to its tail `rest` the scan goes from one state to another. */
  ghost predicate Walks(s: Scan, t: Text, rest: Text, s': Scan) {
    |rest| <= |t| && t[|t| - |rest|..] == rest && ScanText(s, t[..|t| - |rest|]) == s'
  }

  lemma WalksOn(s: Scan, t: Text, mid: Text, s': Scan, rest: Text, s'': Scan)
    requires Walks(s, t, mid, s') && Walks(s', mid, rest, s'')
    ensures Walks(s, t, rest, s'')
  {
    var k, n := |t| - |mid|, |mid| - |rest|;
    ScanConcat(s, t[..k], mid[..n]);
    assert t[..k] + mid[..n] == t[..k + n];
    assert t[k + n..] == mid[n..];
  }

  lemma WalksByte(s: Scan, t: Text)
    requires t != []
    ensures Walks(s, t, t[1..], Next(s, t[0]))
  {
    assert t[..1] == [t[0]] && [t[0]][..0] == [];
    assert t[|t| - |t[1..]|..] == t[1..];
  }

  /** Bytes that neither open, close nor quote. */
  lemma {:induction false} WalksQuietly(s: Scan, t: Text, k: nat)
    requires k <= |t| && !s.mode.Escaped? && forall i :: 0 <= i < k ==> PlainByte(t[i])
    ensures Walks(s, t, t[k..], s)
  {
    PassesQuiet(s, t[..k]);
    assert |t| - |t[k..]| == k;
  }

  lemma WalksEscape(depth: int, t: Text, k: nat)
    requires 2 <= k <= |t| && t[0] == BACKSLASH && forall i :: 2 <= i < k ==> PlainByte(t[i])
    ensures Walks(Scan(depth, InString), t, t[k..], Scan(depth, InString))
  {
    var inside, escaped := Scan(depth, InString), Scan(depth, Mode.Escaped);
    WalksByte(inside, t);
    WalksByte(escaped, t[1..]);
    WalksOn(inside, t, t[1..], escaped, t[1..][1..], inside);
    assert t[1..][1..] == t[2..];
    assert forall i :: 0 <= i < k - 2 ==> t[2..][i] == t[i + 2];
    WalksQuietly(inside, t[2..], k - 2);
    assert t[2..][k - 2..] == t[k..];
    WalksOn(inside, t, t[2..], inside, t[k..], inside);
  }

  lemma HexIsPlain(b: Byte)
    requires DigitValue(b) < 16
    ensures PlainByte(b)
  {
  }

  lemma {:induction false} UnitsClose(depth: int, t: Text)
    requires ReadUnits(t).Got?
    ensures Walks(Scan(depth, InString), t, ReadUnits(t).rest, Scan(depth, Plain))
    decreases |t|
  {
    var inside, outside := Scan(depth, InString), Scan(depth, Plain);
    if t[0] == QUOTE {
      WalksByte(inside, t);
    } else if t[0] != BACKSLASH {
      WalksByte(inside, t);
      UnitsClose(depth, t[1..]);
      WalksOn(inside, t, t[1..], inside, ReadUnits(t).rest, outside);
    } else if |t| >= 6 && t[1] == 117 && HexDigits(t[2..6]) {
      forall i | 2 <= i < 6 ensures PlainByte(t[i]) {
        assert t[2..6][i - 2] == t[i];
        HexIsPlain(t[i]);
      }
      WalksEscape(depth, t, 6);
      UnitsClose(depth, t[6..]);
      WalksOn(inside, t, t[6..], inside, ReadUnits(t).rest, outside);
    } else {
      WalksEscape(depth, t, 2);
      UnitsClose(depth, t[2..]);
      WalksOn(inside, t, t[2..], inside, ReadUnits(t).rest, outside);
    }
  }

  /** A string, from its opening quote. */
  lemma StringCloses(depth: int, t: Text)
    requires t != [] && t[0] == QUOTE && ReadUnits(t[1..]).Got?
    ensures Walks(Scan(depth, Plain), t, ReadUnits(t[1..]).rest, Scan(depth, Plain))
  {
    WalksByte(Scan(depth, Plain), t);
    UnitsClose(depth, t[1..]);
    WalksOn(Scan(depth, Plain), t, t[1..], Scan(depth, InString), ReadUnits(t[1..]).rest, Scan(depth, Plain));
  }

  lemma {:induction false} LiteralIsPlain(t: Text)
    ensures forall i :: 0 <= i < LiteralLength(t) ==> PlainByte(t[i])
  {
    if t != [] && LiteralByte(t[0]) {
      LiteralIsPlain(t[1..]);
      assert forall i :: 1 <= i < LiteralLength(t) ==> t[i] == t[1..][i - 1];
    }
  }

  lemma {:induction false} ValueCloses(depth: int, t: Text)
    requires ReadValue(t).Got?
    ensures Walks(Scan(depth, Plain), t, ReadValue(t).rest, Scan(depth, Plain))
    decreases |t|, 0
  {
    var here, inner, rest := Scan(depth, Plain), Scan(depth + 1, Plain), ReadValue(t).rest;
    if t[0] == QUOTE {
      StringCloses(depth, t);
    } else if t[0] == 91 || t[0] == 123 {
      WalksByte(here, t);
      BracketCloses(depth, t);
      WalksOn(here, t, t[1..], inner, rest, here);
    } else {
      LiteralIsPlain(t);
      WalksQuietly(here, t, LiteralLength(t));
    }
  }

  /** From behind an opening bracket to behind its closing one. */
  lemma {:induction false} BracketCloses(depth: int, t: Text)
    requires t != [] && (t[0] == 91 || t[0] == 123) && ReadValue(t).Got?
    ensures Walks(Scan(depth + 1, Plain), t[1..], ReadValue(t).rest, Scan(depth, Plain))
    decreases |t| - 1, 3
  {
    if StartsWith(t[1..], [93]) || StartsWith(t[1..], [125]) {
      assert t[1..][..1][0] == t[1];
      if (t[0] == 91 && t[1] == 93) || (t[0] == 123 && t[1] == 125) {
        WalksByte(Scan(depth + 1, Plain), t[1..]);
        assert t[1..][1..] == t[2..];
      } else if t[0] == 91 {
        ItemsClose(depth, t[1..]);
      } else {
        FieldsClose(depth, t[1..]);
      }
    } else if t[0] == 91 {
      ItemsClose(depth, t[1..]);
    } else {
      FieldsClose(depth, t[1..]);
    }
  }

  lemma CommaIsQuiet(s: Scan, t: Text)
    requires s.mode.Plain? && (StartsWith(t, COMMA) || StartsWith(t, COLON))
    ensures Walks(s, t, t[2..], s)
  {
    assert t[..2][0] == t[0] && t[..2][1] == t[1];
    WalksQuietly(s, t, 2);
  }

  /** The last element of a bracket, and its closing byte. */
  lemma LastCloses(depth: int, t: Text, rest: Text)
    requires Walks(Scan(depth + 1, Plain), t, rest, Scan(depth + 1, Plain))
    requires StartsWith(rest, [93]) || StartsWith(rest, [125])
    ensures Walks(Scan(depth + 1, Plain), t, rest[1..], Scan(depth, Plain))
  {
    assert rest[..1][0] == rest[0];
    WalksByte(Scan(depth + 1, Plain), rest);
    WalksOn(Scan(depth + 1, Plain), t, rest, Scan(depth + 1, Plain), rest[1..], Scan(depth, Plain));
  }

  /** Any other element, the comma behind it and the elements that follow. */
  lemma NextCloses(depth: int, t: Text, rest: Text, end: Text)
    requires Walks(Scan(depth + 1, Plain), t, rest, Scan(depth + 1, Plain)) && StartsWith(rest, COMMA)
    requires Walks(Scan(depth + 1, Plain), rest[2..], end, Scan(depth, Plain))
    ensures Walks(Scan(depth + 1, Plain), t, end, Scan(depth, Plain))
  {
    var inner := Scan(depth + 1, Plain);
    CommaIsQuiet(inner, rest);
    WalksOn(inner, t, rest, inner, rest[2..], inner);
    WalksOn(inner, t, rest[2..], inner, end, Scan(depth, Plain));
  }

  lemma {:induction false} ItemsClose(depth: int, t: Text)
    requires ReadItems(t).Got?
    ensures Walks(Scan(depth + 1, Plain), t, ReadItems(t).rest, Scan(depth, Plain))
    decreases |t|, 1
  {
    var rest := ReadValue(t).rest;
    ValueCloses(depth + 1, t);
    if StartsWith(rest, [93]) {
      LastCloses(depth, t, rest);
    } else {
      ItemsClose(depth, rest[2..]);
      NextCloses(depth, t, rest, ReadItems(t).rest);
    }
  }

  lemma {:induction false} FieldCloses(depth: int, t: Text)
    requires ReadField(t).Got?
    ensures Walks(Scan(depth, Plain), t, ReadField(t).rest, Scan(depth, Plain))
    decreases |t|, 1
  {
    var here, rest := Scan(depth, Plain), ReadUnits(t[1..]).rest;
    assert t[..1][0] == t[0];
    StringCloses(depth, t);
    CommaIsQuiet(here, rest);
    WalksOn(here, t, rest, here, rest[2..], here);
    ValueCloses(depth, rest[2..]);
    WalksOn(here, t, rest[2..], here, ReadField(t).rest, here);
  }

  lemma {:induction false} FieldsClose(depth: int, t: Text)
    requires ReadFields(t).Got?
    ensures Walks(Scan(depth + 1, Plain), t, ReadFields(t).rest, Scan(depth, Plain))
    decreases |t|, 2
  {
    var rest := ReadField(t).rest;
    FieldCloses(depth + 1, t);
    if StartsWith(rest, [125]) {
      LastCloses(depth, t, rest);
    } else {
      FieldsClose(depth, rest[2..]);
      NextCloses(depth, t, rest, ReadFields(t).rest);
    }
  }

  /******* A parser for the logs *******/

  /** This reader is a parser in the logs' sense, and it reads back every readable object. */
  lemma ParserExists()
    ensures JsonParser(ParseLine)
    ensures forall v: Value :: v.Obj? && WellFormed(v) && Readable(v) ==> ReadsBack(ParseLine, w => w, v)
  {
    forall t: Text | Blank(t) ensures ParseLine(t).Malformed? {
    }
    forall t: Text | !ParseLine(t).Malformed? ensures Balanced(t) {
      ValueCloses(0, t);
      assert t[..|t|] == t;
    }
    forall v: Value | v.Obj? && WellFormed(v) && Readable(v) ensures ReadsBack(ParseLine, w => w, v) {
      ValueReads(v, []);
      assert Encode(v) + [] == Encode(v);
    }
  }

  /** So the law of torn appends holds of it outright, for every log it can read and all readable records. */
  lemma TornAppendsOutright(raw: Text, r: Value, k: nat, later: seq<Value>)
    requires Reader(ParseLine, raw).Rows? && k <= |Encode(r)| + 1
    requires r.Obj? && WellFormed(r) && Readable(r)
    requires forall i :: 0 <= i < |later| ==> later[i].Obj? && WellFormed(later[i]) && Readable(later[i])
    ensures var torn := Repaired(ParseLine, raw) + (Encode(r) + [NEWLINE])[..k];
      Reader(ParseLine, Appended(w => w, Repaired(ParseLine, torn), later))
      == Rows(Reader(ParseLine, raw).rows + (if k < |Encode(r)| then [] else [r]) + later)
  {
    ParserExists();
    TornAppendThenRepair(ParseLine, w => w, raw, r, k, later);
  }
}
