/**
 The record codecs of the parser tasks: quoted fields, with the reference formatter and the reference
 parser's quote-state loop, and escaped fields. `d` is the delimiter, `s` the quote or escape character.
 */
module Codec {
  import opened Common
  import opened Selections
  import opened Splitting

  type Field = string
  type Fields = seq<Field>

  /** Each character replaced by a short text. */
  function Expand(f: char -> string, field: Field): string {
    if field == [] then [] else f(field[0]) + Expand(f, field[1..])
  }

  lemma {:induction false} ExpandOneMore(f: char -> string, field: Field, c: char)
    ensures Expand(f, field + [c]) == Expand(f, field) + f(c)
  {
    if field == [] {
      assert [c][1..] == [] && [] + [c] == [c];
    } else {
      assert (field + [c])[1..] == field[1..] + [c];
      ExpandOneMore(f, field[1..], c);
      assert f(field[0]) + (Expand(f, field[1..]) + f(c)) == (f(field[0]) + Expand(f, field[1..])) + f(c);
    }
  }

  /******* Quoted fields *******/

  function Doubling(s: char): char -> string {
    c => if c == s then [s, s] else [c]
  }

  /** `field.replace(s, s + s)`. */
  function Doubled(s: char, field: Field): string {
    Expand(Doubling(s), field)
  }

  predicate Plain(d: char, s: char, field: Field) {
    d !in field && s !in field
  }

  function QuotedField(d: char, s: char, field: Field): string {
    if Plain(d, s, field) then field else [s] + Doubled(s, field) + [s]
  }

  function Quoted(d: char, s: char, fields: Fields): Fields {
    seq(|fields|, i requires 0 <= i < |fields| => QuotedField(d, s, fields[i]))
  }

  function FormatQuoted(d: char, s: char, fields: Fields): string {
    Join(d, Quoted(d, s, fields))
  }

  /** The parser's loop as recursion: `buf` is the field collected so far. */
  function ParseQuoted(d: char, s: char, text: string, inQuotes: bool, buf: string): Fields {
    if text == [] then [buf]
    else if text[0] == s then
      if inQuotes && |text| > 1 && text[1] == s then ParseQuoted(d, s, text[2..], inQuotes, buf + [s])
      else ParseQuoted(d, s, text[1..], !inQuotes, buf)
    else if text[0] == d && !inQuotes then [buf] + ParseQuoted(d, s, text[1..], inQuotes, [])
    else ParseQuoted(d, s, text[1..], inQuotes, buf + [text[0]])
  }

  function Parse(d: char, s: char, text: string): Fields {
    ParseQuoted(d, s, text, false, [])
  }

  method Replace(s: char, field: Field) returns (body: string)
    ensures body == Doubled(s, field)
  {
    body := [];
    for i := 0 to |field|
      invariant body == Doubled(s, field[..i])
    {
      ExpandOneMore(Doubling(s), field[..i], field[i]);
      assert field[..i + 1] == field[..i] + [field[i]];
      body := body + (if field[i] == s then [s, s] else [field[i]]);
    }
    assert field[..|field|] == field;
  }

  /** The reference `format_record`. */
  method FormatRecord(d: char, s: char, fields: Fields) returns (text: string)
    ensures text == FormatQuoted(d, s, fields)
  {
    var parts: Fields := [];
    for i := 0 to |fields|
      invariant |parts| == i && forall k :: 0 <= k < i ==> parts[k] == QuotedField(d, s, fields[k])
    {
      var field := fields[i];
      if s in field || d in field {
        var body := Replace(s, field);
        parts := parts + [[s] + body + [s]];
        continue;
      }
      parts := parts + [field];
    }
    assert parts == Quoted(d, s, fields);
    text := Join(d, parts);
  }

  /** The holdout's own `_expected_format` for quoted fields. */
  method ExpectedQuoted(d: char, s: char, fields: Fields) returns (text: string)
    ensures text == FormatQuoted(d, s, fields)
  {
    var parts: Fields := [];
    for i := 0 to |fields|
      invariant |parts| == i && forall k :: 0 <= k < i ==> parts[k] == QuotedField(d, s, fields[k])
    {
      var field := fields[i];
      if d in field || s in field {
        var body := Replace(s, field);
        parts := parts + [[s] + body + [s]];
      } else {
        parts := parts + [field];
      }
    }
    assert parts == Quoted(d, s, fields);
    text := Join(d, parts);
  }

  /** The reference `parse_record`. */
  method ParseRecord(d: char, s: char, text: string) returns (fields: Fields)
    ensures fields == Parse(d, s, text)
  {
    fields := [];
    var buf: string := [];
    var index := 0;
    var inQuotes := false;
    while index < |text|
      invariant index <= |text|
      invariant Parse(d, s, text) == fields + ParseQuoted(d, s, text[index..], inQuotes, buf)
    {
      var ch := text[index];
      assert text[index..][1..] == text[index + 1..];
      if ch == s {
        var doubled := index + 1 < |text| && text[index + 1] == s;
        if inQuotes && doubled {
          assert text[index..][2..] == text[index + 2..];
          buf := buf + [s];
          index := index + 2;
          continue;
        }
        inQuotes := !inQuotes;
        index := index + 1;
        continue;
      }
      if ch == d && !inQuotes {
        fields := fields + [buf];
        buf := [];
      } else {
        buf := buf + [ch];
      }
      index := index + 1;
    }
    fields := fields + [buf];
  }

  /** Inside quotes a doubled field and its closing quote give back the field. */
  lemma {:induction false} ParseDoubled(d: char, s: char, field: Field, rest: string, buf: string)
    requires rest == [] || rest[0] != s
    ensures ParseQuoted(d, s, Doubled(s, field) + [s] + rest, true, buf) == ParseQuoted(d, s, rest, false, buf + field)
  {
    var text := Doubled(s, field) + [s] + rest;
    if field == [] {
      assert text[1..] == rest;
      assert buf + field == buf;
    } else {
      var behind := Doubled(s, field[1..]) + [s] + rest;
      ParseDoubled(d, s, field[1..], rest, buf + [field[0]]);
      assert buf + [field[0]] + field[1..] == buf + field;
      if field[0] == s {
        assert text[2..] == behind;
      } else {
        assert text[1..] == behind;
      }
    }
  }

  lemma {:induction false} ParsePlain(d: char, s: char, field: Field, rest: string, buf: string)
    requires Plain(d, s, field)
    ensures ParseQuoted(d, s, field + rest, false, buf) == ParseQuoted(d, s, rest, false, buf + field)
  {
    if field == [] {
      assert field + rest == rest && buf + field == buf;
    } else {
      assert (field + rest)[1..] == field[1..] + rest;
      ParsePlain(d, s, field[1..], rest, buf + [field[0]]);
      assert buf + [field[0]] + field[1..] == buf + field;
    }
  }

  lemma ParseWrapped(d: char, s: char, field: Field, rest: string)
    requires rest == [] || rest[0] != s
    ensures ParseQuoted(d, s, [s] + Doubled(s, field) + [s] + rest, false, []) == ParseQuoted(d, s, rest, false, field)
  {
    assert ([s] + Doubled(s, field) + [s] + rest)[1..] == Doubled(s, field) + [s] + rest;
    ParseDoubled(d, s, field, rest, []);
    assert [] + field == field;
  }

  lemma ParseField(d: char, s: char, field: Field, rest: string)
    requires d != s && (rest == [] || rest[0] == d)
    ensures ParseQuoted(d, s, QuotedField(d, s, field) + rest, false, []) == ParseQuoted(d, s, rest, false, field)
  {
    if Plain(d, s, field) {
      ParsePlain(d, s, field, rest, []);
      assert [] + field == field;
    } else {
      ParseWrapped(d, s, field, rest);
    }
  }

  lemma FormatQuotedSplits(d: char, s: char, fields: Fields)
    requires |fields| > 1
    ensures FormatQuoted(d, s, fields) == QuotedField(d, s, fields[0]) + ([d] + FormatQuoted(d, s, fields[1..]))
  {
    assert Quoted(d, s, fields)[1..] == Quoted(d, s, fields[1..]);
  }

  lemma {:induction false} ParseOfFormat(d: char, s: char, fields: Fields)
    requires d != s && fields != []
    ensures Parse(d, s, FormatQuoted(d, s, fields)) == fields
  {
    var first, others := QuotedField(d, s, fields[0]), fields[1..];
    assert fields == [fields[0]] + others;
    if |fields| == 1 {
      ParseField(d, s, fields[0], []);
      assert FormatQuoted(d, s, fields) == first + [];
      assert fields == [fields[0]];
    } else {
      var rest := [d] + FormatQuoted(d, s, others);
      FormatQuotedSplits(d, s, fields);
      ParseField(d, s, fields[0], rest);
      assert rest[0] == d && rest[1..] == FormatQuoted(d, s, others);
      ParseOfFormat(d, s, others);
    }
  }

  function Is(s: char): char -> bool {
    c => c == s
  }

  lemma {:induction false} DoubledLength(s: char, field: Field)
    ensures |Doubled(s, field)| == |field| + |Chosen(field, Is(s))|
  {
    if field == [] {
      CountNothing(Is(s));
    } else {
      var front, last := field[..|field| - 1], field[|field| - 1];
      assert field == front + [last];
      DoubledLength(s, front);
      ExpandOneMore(Doubling(s), front, last);
      CountAppend(front, last, Is(s));
    }
  }

  /** A quoted field is longer by its two quotes and by one for each quote inside; a plain one is as it was. */
  lemma QuotedLength(d: char, s: char, field: Field)
    ensures |QuotedField(d, s, field)| == |field| + if d in field || s in field then 2 + |Chosen(field, Is(s))| else 0
    ensures d !in field && s !in field ==> QuotedField(d, s, field) == field
  {
    DoubledLength(s, field);
  }

  /******* Any text, well formed or not *******/

  /** The delimiters with an even number of quotes before them. */
  function Cuts(d: char, s: char, text: string, inQuotes: bool): nat {
    if text == [] then 0
    else if text[0] == s then Cuts(d, s, text[1..], !inQuotes)
    else (if text[0] == d && !inQuotes then 1 else 0) + Cuts(d, s, text[1..], inQuotes)
  }

  /** Whatever the text, it is cut into fields at exactly those delimiters. */
  lemma {:induction false} ParseCuts(d: char, s: char, text: string, inQuotes: bool, buf: string)
    requires d != s
    ensures |ParseQuoted(d, s, text, inQuotes, buf)| == 1 + Cuts(d, s, text, inQuotes)
    decreases |text|
  {
    if text != [] {
      if text[0] == s && inQuotes && |text| > 1 && text[1] == s {
        assert text[1..][1..] == text[2..];
        ParseCuts(d, s, text[2..], inQuotes, buf + [s]);
      } else if text[0] == s {
        ParseCuts(d, s, text[1..], !inQuotes, buf);
      } else if text[0] == d && !inQuotes {
        ParseCuts(d, s, text[1..], inQuotes, []);
      } else {
        ParseCuts(d, s, text[1..], inQuotes, buf + [text[0]]);
      }
    }
  }

  /** The text without its quotes. */
  function Unquoted(s: char): char -> string {
    c => if c == s then [] else [c]
  }

  function Stripped(s: char, text: string): string {
    Expand(Unquoted(s), text)
  }

  lemma {:induction false} ExpandConcat(f: char -> string, a: string, b: string)
    ensures Expand(f, a + b) == Expand(f, a) + Expand(f, b)
  {
    if a == [] {
      assert a + b == b;
    } else {
      assert (a + b)[1..] == a[1..] + b;
      ExpandConcat(f, a[1..], b);
      assert f(a[0]) + (Expand(f, a[1..]) + Expand(f, b)) == f(a[0]) + Expand(f, a[1..]) + Expand(f, b);
    }
  }

  /** Moving a character from the text to the buffer moves it in the stripped texts. */
  lemma StrippedMove(s: char, buf: string, text: string)
    requires text != []
    ensures Stripped(s, buf + [text[0]]) + Stripped(s, text[1..]) == Stripped(s, buf) + Stripped(s, text)
  {
    ExpandOneMore(Unquoted(s), buf, text[0]);
    var one := Unquoted(s)(text[0]);
    assert (Stripped(s, buf) + one) + Stripped(s, text[1..]) == Stripped(s, buf) + (one + Stripped(s, text[1..]));
  }

  lemma StrippedCut(d: char, s: char, buf: string, rest: Fields)
    requires d != s && rest != []
    ensures Stripped(s, Join(d, [buf] + rest)) == Stripped(s, buf + [d]) + Stripped(s, Join(d, rest))
  {
    assert ([buf] + rest)[1..] == rest;
    ExpandConcat(Unquoted(s), buf + [d], Join(d, rest));
  }

  /** Whatever the text, only quotes are lost: the fields joined again are the text, quotes aside. */
  lemma {:induction false} ParseLosesOnlyQuotes(d: char, s: char, text: string, inQuotes: bool, buf: string)
    requires d != s
    ensures Stripped(s, Join(d, ParseQuoted(d, s, text, inQuotes, buf))) == Stripped(s, buf) + Stripped(s, text)
    decreases |text|
  {
    if text != [] {
      StrippedMove(s, buf, text);
      if text[0] == s {
        assert Stripped(s, text) == Stripped(s, text[1..]);
        if inQuotes && |text| > 1 && text[1] == s {
          StrippedMove(s, buf + [s], text[1..]);
          assert text[1..][1..] == text[2..];
          assert Stripped(s, text[1..]) == Stripped(s, text[2..]);
          ParseLosesOnlyQuotes(d, s, text[2..], inQuotes, buf + [s]);
        } else {
          ParseLosesOnlyQuotes(d, s, text[1..], !inQuotes, buf);
        }
      } else if text[0] == d && !inQuotes {
        var rest := ParseQuoted(d, s, text[1..], inQuotes, []);
        ParseLosesOnlyQuotes(d, s, text[1..], inQuotes, []);
        ParseCuts(d, s, text[1..], inQuotes, []);
        StrippedCut(d, s, buf, rest);
      } else {
        ParseLosesOnlyQuotes(d, s, text[1..], inQuotes, buf + [text[0]]);
      }
    }
  }

  /** A quote survives only where two stand together. */
  lemma {:induction false} LoneQuotesVanish(d: char, s: char, text: string, inQuotes: bool, buf: string)
    requires d != s && s !in buf
    requires forall i :: 0 <= i < |text| - 1 ==> !(text[i] == s && text[i + 1] == s)
    ensures forall i :: 0 <= i < |ParseQuoted(d, s, text, inQuotes, buf)| ==>
              s !in ParseQuoted(d, s, text, inQuotes, buf)[i]
    decreases |text|
  {
    if text != [] {
      assert |text| > 1 && text[0] == s ==> text[1] != s;
      if text[0] == s {
        LoneQuotesVanish(d, s, text[1..], !inQuotes, buf);
      } else if text[0] == d && !inQuotes {
        LoneQuotesVanish(d, s, text[1..], inQuotes, []);
      } else {
        LoneQuotesVanish(d, s, text[1..], inQuotes, buf + [text[0]]);
      }
    }
  }

  /** The round-trip law holds of a field list if and only if the list is not empty. */
  lemma QuotedRoundTripIff(d: char, s: char, fields: Fields)
    requires d != s
    ensures Parse(d, s, FormatQuoted(d, s, fields)) == fields <==> fields != []
  {
    if fields != [] {
      ParseOfFormat(d, s, fields);
    }
  }

  /** No two nonempty lists are written alike if and only if the two characters differ. */
  lemma QuotedIsInjectiveIff(d: char, s: char)
    ensures (forall a: Fields, b: Fields ::
               a != [] && b != [] && FormatQuoted(d, s, a) == FormatQuoted(d, s, b) ==> a == b)
       <==> d != s
  {
    if d != s {
      forall a: Fields, b: Fields | a != [] && b != [] && FormatQuoted(d, s, a) == FormatQuoted(d, s, b)
        ensures a == b
      {
        ParseOfFormat(d, s, a);
        ParseOfFormat(d, s, b);
      }
    } else {
      QuotedClash(d);
    }
  }

  /** Were the quote also the delimiter, one quoted quote would read like five empty fields. */
  lemma QuotedClash(c: char)
    ensures FormatQuoted(c, c, [[c]]) == FormatQuoted(c, c, [[], [], [], [], []]) && [[c]] != [[], [], [], [], []]
  {
    assert QuotedField(c, c, [c]) == [c, c, c, c] by {
      ExpandOneMore(Doubling(c), [], c);
      assert [] + [c] == [c];
    }
    assert Quoted(c, c, [[c]]) == [[c, c, c, c]];
    var five: Fields := [[], [], [], [], []];
    assert Quoted(c, c, five) == five;
    JoinOfEmpties(c, five);
  }

  /******* Escaped fields *******/

  function Escaping(d: char, s: char): char -> string {
    c => if c == s || c == d then [s, c] else [c]
  }

  function EscapedField(d: char, s: char, field: Field): string {
    Expand(Escaping(d, s), field)
  }

  function Escaped(d: char, s: char, fields: Fields): Fields {
    seq(|fields|, i requires 0 <= i < |fields| => EscapedField(d, s, fields[i]))
  }

  function FormatEscaped(d: char, s: char, fields: Fields): string {
    Join(d, Escaped(d, s, fields))
  }

  /** The holdout's own `_expected_format` for the escaping archetypes. */
  method ExpectedEscaped(d: char, s: char, fields: Fields) returns (text: string)
    ensures text == FormatEscaped(d, s, fields)
  {
    var parts: Fields := [];
    for i := 0 to |fields|
      invariant |parts| == i && forall k :: 0 <= k < i ==> parts[k] == EscapedField(d, s, fields[k])
    {
      var field := fields[i];
      var encoded: string := [];
      for j := 0 to |field|
        invariant encoded == EscapedField(d, s, field[..j])
      {
        ExpandOneMore(Escaping(d, s), field[..j], field[j]);
        assert field[..j + 1] == field[..j] + [field[j]];
        var character := field[j];
        if character == s || character == d {
          encoded := encoded + [s];
        }
        encoded := encoded + [character];
      }
      assert field[..|field|] == field;
      parts := parts + [encoded];
    }
    assert parts == Escaped(d, s, fields);
    text := Join(d, parts);
  }

  function IsEither(d: char, s: char): char -> bool {
    c => c == d || c == s
  }

  /** An escaped field is longer by one for each delimiter and each escape in it, and by nothing else. */
  lemma {:induction false} EscapedLength(d: char, s: char, field: Field)
    ensures |EscapedField(d, s, field)| == |field| + |Chosen(field, IsEither(d, s))|
  {
    if field == [] {
      CountNothing(IsEither(d, s));
    } else {
      var front, last := field[..|field| - 1], field[|field| - 1];
      assert field == front + [last];
      EscapedLength(d, s, front);
      ExpandOneMore(Escaping(d, s), front, last);
      CountAppend(front, last, IsEither(d, s));
    }
  }

  lemma {:induction false} PlainIsNotEscaped(d: char, s: char, field: Field)
    ensures Plain(d, s, field) ==> EscapedField(d, s, field) == field
    ensures !Plain(d, s, field) ==> |EscapedField(d, s, field)| > |field|
  {
    EscapedLength(d, s, field);
    if Plain(d, s, field) {
      if field != [] {
        PlainIsNotEscaped(d, s, field[1..]);
      }
    } else {
      var i :| 0 <= i < |field| && (field[i] == d || field[i] == s);
      assert i in Chosen(field, IsEither(d, s));
    }
  }

  /** The only way to read an escaped record; an escape with nothing behind it is an error. */
  function Unescape(d: char, s: char, text: string, buf: string): Option<Fields> {
    if text == [] then Some([buf])
    else if text[0] == s then if |text| == 1 then None else Unescape(d, s, text[2..], buf + [text[1]])
    else if text[0] == d then
      match Unescape(d, s, text[1..], [])
      case None => None
      case Some(others) => Some([buf] + others)
    else Unescape(d, s, text[1..], buf + [text[0]])
  }

  lemma {:induction false} UnescapeField(d: char, s: char, field: Field, rest: string, buf: string)
    requires d != s
    ensures Unescape(d, s, EscapedField(d, s, field) + rest, buf) == Unescape(d, s, rest, buf + field)
  {
    var text := EscapedField(d, s, field) + rest;
    if field == [] {
      assert text == rest && buf + field == buf;
    } else {
      UnescapeField(d, s, field[1..], rest, buf + [field[0]]);
      assert buf + [field[0]] + field[1..] == buf + field;
      if field[0] == s || field[0] == d {
        assert text[2..] == EscapedField(d, s, field[1..]) + rest;
      } else {
        assert text[1..] == EscapedField(d, s, field[1..]) + rest;
      }
    }
  }

  lemma FormatEscapedSplits(d: char, s: char, fields: Fields)
    requires |fields| > 1
    ensures FormatEscaped(d, s, fields) == EscapedField(d, s, fields[0]) + ([d] + FormatEscaped(d, s, fields[1..]))
  {
    assert Escaped(d, s, fields)[1..] == Escaped(d, s, fields[1..]);
  }

  lemma {:induction false} UnescapeOfFormat(d: char, s: char, fields: Fields)
    requires d != s && fields != []
    ensures Unescape(d, s, FormatEscaped(d, s, fields), []) == Some(fields)
  {
    var first, others := EscapedField(d, s, fields[0]), fields[1..];
    assert [] + fields[0] == fields[0] && fields == [fields[0]] + others;
    if |fields| == 1 {
      UnescapeField(d, s, fields[0], [], []);
      assert FormatEscaped(d, s, fields) == first + [];
      assert fields == [fields[0]];
      assert Unescape(d, s, [], fields[0]) == Some([fields[0]]);
    } else {
      var rest := [d] + FormatEscaped(d, s, others);
      FormatEscapedSplits(d, s, fields);
      UnescapeField(d, s, fields[0], rest, []);
      assert rest[0] == d && rest[1..] == FormatEscaped(d, s, others);
      UnescapeOfFormat(d, s, others);
    }
  }

  lemma EscapedIsInjectiveIff(d: char, s: char)
    ensures (forall a: Fields, b: Fields ::
               a != [] && b != [] && FormatEscaped(d, s, a) == FormatEscaped(d, s, b) ==> a == b)
       <==> d != s
  {
    if d != s {
      forall a: Fields, b: Fields | a != [] && b != [] && FormatEscaped(d, s, a) == FormatEscaped(d, s, b)
        ensures a == b
      {
        UnescapeOfFormat(d, s, a);
        UnescapeOfFormat(d, s, b);
      }
    } else {
      EscapedClash(d);
    }
  }

  /** Were the escape also the delimiter, one escaped character would read like three empty fields. */
  lemma EscapedClash(c: char)
    ensures FormatEscaped(c, c, [[c]]) == FormatEscaped(c, c, [[], [], []]) && [[c]] != [[], [], []]
  {
    assert EscapedField(c, c, [c]) == [c, c] by {
      ExpandOneMore(Escaping(c, c), [], c);
      assert [] + [c] == [c];
    }
    assert Escaped(c, c, [[c]]) == [[c, c]];
    var three: Fields := [[], [], []];
    assert Escaped(c, c, three) == three;
    JoinOfEmpties(c, three);
  }

  lemma {:induction false} UnescapeDangling(d: char, s: char, word: string, buf: string)
    requires Plain(d, s, word)
    ensures Unescape(d, s, word + [s], buf) == None
  {
    if word != [] {
      assert (word + [s])[1..] == word[1..] + [s];
      UnescapeDangling(d, s, word[1..], buf + [word[0]]);
    }
  }

  /** A plain word and a dangling escape is the text of no record, so refusing it costs no round trip. */
  lemma DanglingEscapeIsNoRecord(d: char, s: char, word: string, fields: Fields)
    requires d != s && Plain(d, s, word)
    ensures FormatEscaped(d, s, fields) != word + [s]
  {
    if fields != [] {
      UnescapeOfFormat(d, s, fields);
      UnescapeDangling(d, s, word, []);
    }
  }

  /******* The starter's parser and the stripped reference *******/

  lemma SplitAfterPiece(d: char, piece: string, rest: string)
    requires d !in piece
    ensures Split(d, piece + [d] + rest) == [piece] + Split(d, rest)
  {
    SplitAtSeparator(d, piece, rest);
    SplitWithoutSeparator(d, piece);
  }

  /** What remains of the reference parser once its marked quote handling is deleted. */
  method StrippedParseRecord(d: char, text: string) returns (fields: Fields)
    ensures fields == Split(d, text)
  {
    fields := [];
    var buf: string := [];
    var index := 0;
    assert buf + text[0..] == text;
    while index < |text|
      invariant index <= |text|
      invariant d !in buf
      invariant Split(d, text) == fields + Split(d, buf + text[index..])
    {
      var ch := text[index];
      assert text[index..][1..] == text[index + 1..];
      assert buf + text[index..] == buf + [ch] + text[index + 1..] by {
        assert text[index..] == [ch] + text[index + 1..];
      }
      if ch == d {
        SplitAfterPiece(d, buf, text[index + 1..]);
        assert [] + text[index + 1..] == text[index + 1..];
        fields := fields + [buf];
        buf := [];
      } else {
        buf := buf + [ch];
      }
      index := index + 1;
    }
    assert buf + text[index..] == buf;
    SplitWithoutSeparator(d, buf);
    fields := fields + [buf];
  }

  ghost predicate AllPlain(d: char, s: char, fields: Fields) {
    forall i :: 0 <= i < |fields| ==> Plain(d, s, fields[i])
  }

  lemma {:induction false} DoubledIsLonger(s: char, field: Field)
    ensures |Doubled(s, field)| >= |field|
  {
    if field != [] {
      DoubledIsLonger(s, field[1..]);
    }
  }

  /** Quoting changes nothing in plain fields and makes every other list of fields longer. */
  lemma {:induction false} QuotingGrows(d: char, s: char, fields: Fields)
    ensures AllPlain(d, s, fields) ==> Quoted(d, s, fields) == fields
    ensures |Join(d, Quoted(d, s, fields))| >= |Join(d, fields)|
    ensures !AllPlain(d, s, fields) ==> |Join(d, Quoted(d, s, fields))| > |Join(d, fields)|
  {
    if fields != [] {
      DoubledIsLonger(s, fields[0]);
      QuotingGrows(d, s, fields[1..]);
      assert Quoted(d, s, fields)[1..] == Quoted(d, s, fields[1..]);
      if Plain(d, s, fields[0]) && AllPlain(d, s, fields[1..]) {
        assert fields == [fields[0]] + fields[1..];
      }
    }
  }

  lemma {:induction false} EscapingGrows(d: char, s: char, fields: Fields)
    ensures AllPlain(d, s, fields) ==> Escaped(d, s, fields) == fields
    ensures |Join(d, Escaped(d, s, fields))| >= |Join(d, fields)|
    ensures !AllPlain(d, s, fields) ==> |Join(d, Escaped(d, s, fields))| > |Join(d, fields)|
  {
    if fields != [] {
      PlainIsNotEscaped(d, s, fields[0]);
      EscapingGrows(d, s, fields[1..]);
      assert Escaped(d, s, fields)[1..] == Escaped(d, s, fields[1..]);
      if Plain(d, s, fields[0]) && AllPlain(d, s, fields[1..]) {
        assert fields == [fields[0]] + fields[1..];
      }
    }
  }

  /** The escaping formatter only joins if and only if no field holds a delimiter or an escape. */
  lemma EscapingChangesIff(d: char, s: char, fields: Fields)
    ensures FormatEscaped(d, s, fields) == Join(d, fields) <==> AllPlain(d, s, fields)
  {
    EscapingGrows(d, s, fields);
  }

  /** Splitting on the delimiter reads a quoted record back if and only if no field needed quotes. */
  lemma SplitReadsBackIff(d: char, s: char, fields: Fields)
    requires fields != []
    ensures Split(d, FormatQuoted(d, s, fields)) == fields <==> AllPlain(d, s, fields)
    ensures Join(d, fields) == FormatQuoted(d, s, fields) <==> AllPlain(d, s, fields)
  {
    QuotingGrows(d, s, fields);
    if AllPlain(d, s, fields) {
      SplitOfJoin(d, fields);
    } else {
      JoinOfSplit(d, FormatQuoted(d, s, fields));
    }
  }
}
