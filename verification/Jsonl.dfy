/**
 The append-only record logs: the reader that forgives a torn last line, the repair pass that must
 agree with it, and the append that may stop at any byte.
 The JSON parser is a parameter; decoding the bytes is part of it.
 */
module Jsonl {
  import opened Json
  import opened Selections
  import Splitting

  datatype Parsed<R> = Malformed | NotObject | Object(row: R)

  datatype ReadResult<R> = Rows(rows: seq<R>) | Corrupt(line: nat) | NotAnObject(line: nat)

  /** Either what the reader says of the finished lines, or that the unfinished one is no object. */
  datatype RepairError<R> = InFinishedLines(reading: ReadResult<R>) | TailNotAnObject

  datatype RepairResult<R> = Unchanged | Rewritten(contents: Text) | Refused(error: RepairError<R>)

  predicate Whitespace(b: Byte) {
    9 <= b <= 13 || b == 32
  }

  predicate Blank(line: Text) {
    forall i :: 0 <= i < |line| ==> Whitespace(line[i])
  }

  predicate Terminated(raw: Text) {
    raw != [] && raw[|raw| - 1] == NEWLINE
  }

  /** Nothing of a record is waiting for its newline. */
  predicate Complete(raw: Text) {
    raw == [] || Terminated(raw)
  }

  function Split(raw: Text): (lines: seq<Text>)
    ensures lines != []
  {
    Splitting.Split(NEWLINE, raw)
  }

  function LinesOf(raw: Text): seq<Text> {
    var pieces := Split(raw);
    if Terminated(raw) then pieces[..|pieces| - 1] else pieces
  }

  /** The reader's loop, from line number `index` on. */
  function ReadLines<R>(parse: Text -> Parsed<R>, lines: seq<Text>, index: nat, terminated: bool): ReadResult<R>
    decreases |lines|
  {
    if lines == [] then Rows([])
    else if Blank(lines[0]) then ReadLines(parse, lines[1..], index + 1, terminated)
    else match parse(lines[0])
      case Malformed => if !terminated && |lines| == 1 then Rows([]) else Corrupt(index)
      case NotObject => NotAnObject(index)
      case Object(row) => Then(Rows([row]), ReadLines(parse, lines[1..], index + 1, terminated))
  }

  /** Two stretches of a log read one after the other: the first error wins. */
  function Then<R>(first: ReadResult<R>, second: ReadResult<R>): ReadResult<R> {
    if !first.Rows? then first else if !second.Rows? then second else Rows(first.rows + second.rows)
  }

  lemma ThenIsAssociative<R>(a: ReadResult<R>, b: ReadResult<R>, c: ReadResult<R>)
    ensures Then(Then(a, b), c) == Then(a, Then(b, c))
  {
  }

  function Reader<R>(parse: Text -> Parsed<R>, raw: Text): ReadResult<R> {
    ReadLines(parse, LinesOf(raw), 1, Terminated(raw))
  }

  /** Everything up to and including the last newline. */
  function CompletePart(raw: Text): (prefix: Text)
    ensures Complete(prefix) && prefix <= raw
    ensures NEWLINE !in raw[|prefix|..]
  {
    if Complete(raw) then raw
    else
      var prefix := CompletePart(raw[..|raw| - 1]);
      assert raw[|prefix|..] == raw[..|raw| - 1][|prefix|..] + [raw[|raw| - 1]];
      prefix
  }

  function Repair<R>(parse: Text -> Parsed<R>, raw: Text): RepairResult<R> {
    var prefix := CompletePart(raw);
    var checked := Reader(parse, prefix);
    if !checked.Rows? then Refused(InFinishedLines(checked))
    else if Complete(raw) then Unchanged
    else match parse(raw[|prefix|..])
      case Malformed => Rewritten(prefix)
      case NotObject => Refused(TailNotAnObject)
      case Object(_) => Rewritten(raw + [NEWLINE])
  }

  /** The file's contents once the repair pass has returned or raised. */
  function Repaired<R>(parse: Text -> Parsed<R>, raw: Text): Text {
    match Repair(parse, raw)
    case Rewritten(contents) => contents
    case _ => raw
  }

  /** Blank texts are no JSON, and whatever is accepted has its brackets and quotes closed. */
  ghost predicate JsonParser<R>(parse: Text -> Parsed<R>) {
    && (forall t: Text :: Blank(t) ==> parse(t).Malformed?)
    && (forall t: Text :: !parse(t).Malformed? ==> Balanced(t))
  }

  /** This record is written as an object and read back as itself. */
  ghost predicate ReadsBack<R>(parse: Text -> Parsed<R>, represent: R -> Value, r: R) {
    represent(r).Obj? && WellFormed(represent(r)) && parse(Encode(represent(r))) == Object(r)
  }

  /******* Splitting and reading concatenations *******/

  /** The finished lines of a complete text. */
  function FinishedLines(raw: Text): seq<Text> {
    Split(raw)[..|Split(raw)| - 1]
  }

  lemma SplitAfterComplete(f: Text, g: Text)
    requires Complete(f)
    ensures Split(f + g) == FinishedLines(f) + Split(g)
  {
    if f == [] {
      assert f + g == g;
    } else {
      var a := f[..|f| - 1];
      assert f == a + [NEWLINE] + [] && f + g == a + [NEWLINE] + g;
      Splitting.SplitAtSeparator(NEWLINE, a, []);
      Splitting.SplitAtSeparator(NEWLINE, a, g);
    }
  }

  lemma {:induction false} ReadLinesConcat<R>(parse: Text -> Parsed<R>, a: seq<Text>, b: seq<Text>,
                                              index: nat, terminated: bool)
    requires terminated || b != []
    ensures ReadLines(parse, a + b, index, terminated)
         == Then(ReadLines(parse, a, index, true), ReadLines(parse, b, index + |a|, terminated))
    decreases |a|
  {
    if a == [] {
      assert a + b == b;
    } else {
      ReadLinesConcat(parse, a[1..], b, index + 1, terminated);
      assert (a + b)[1..] == a[1..] + b;
    }
  }

  lemma ReaderOfComplete<R>(parse: Text -> Parsed<R>, f: Text)
    requires Complete(f)
    ensures Reader(parse, f) == ReadLines(parse, FinishedLines(f), 1, true)
  {
  }

  lemma LinesOfConcat(f: Text, g: Text)
    requires Complete(f) && g != []
    ensures Terminated(f + g) == Terminated(g)
    ensures LinesOf(f + g) == FinishedLines(f) + LinesOf(g)
    ensures LinesOf(g) != []
  {
    SplitAfterComplete(f, g);
    var done, pieces := FinishedLines(f), Split(g);
    if Terminated(g) {
      var body := g[..|g| - 1];
      Splitting.SplitAtSeparator(NEWLINE, body, []);
      assert g == body + [NEWLINE] + [];
      assert (done + pieces)[..|done + pieces| - 1] == done + pieces[..|pieces| - 1];
    }
  }

  /** What follows the complete part of a log is read as if it stood alone, only its line numbers shift. */
  lemma ReaderConcat<R>(parse: Text -> Parsed<R>, f: Text, g: Text)
    requires Complete(f) && g != []
    ensures Reader(parse, f + g)
         == Then(Reader(parse, f), ReadLines(parse, LinesOf(g), |Split(f)|, Terminated(g)))
  {
    ReaderOfComplete(parse, f);
    LinesOfConcat(f, g);
    ReadLinesConcat(parse, FinishedLines(f), LinesOf(g), 1, Terminated(g));
  }

  lemma ReadOneLine<R>(parse: Text -> Parsed<R>, line: Text, index: nat, terminated: bool)
    requires JsonParser(parse)
    ensures ReadLines(parse, [line], index, terminated)
         == match parse(line)
            case Malformed => if Blank(line) || !terminated then Rows([]) else Corrupt(index)
            case NotObject => NotAnObject(index)
            case Object(row) => Rows([row])
  {
  }

  /******* What the reader returns *******/

  /** Spaces, tabs, line and page breaks only. */
  ghost predicate Empty(line: Text) {
    forall i :: 0 <= i < |line| ==> line[i] in {9, 10, 11, 12, 13, 32}
  }

  function IsRecord<R>(parse: Text -> Parsed<R>): Text -> bool {
    line => !Blank(line) && parse(line).Object?
  }

  /** The record of a line that is one. */
  function RecordOf<R>(parse: Text -> Parsed<R>, fallback: R): Text -> R {
    line => match parse(line) case Object(row) => row case _ => fallback
  }

  /** The reader goes on past this line. */
  ghost predicate Passable<R>(parse: Text -> Parsed<R>, line: Text) {
    Empty(line) || parse(line).Object?
  }

  /** The first line the reader cannot go on past is number `k`, counted from zero. */
  ghost predicate StopsAt<R>(parse: Text -> Parsed<R>, lines: seq<Text>, k: nat) {
    k < |lines| && !Passable(parse, lines[k]) && forall i :: 0 <= i < k ==> Passable(parse, lines[i])
  }

  lemma ReadsOneMore<R(!new)>(parse: Text -> Parsed<R>, front: seq<Text>, last: Text, fallback: R)
    requires JsonParser(parse) && ReadLines(parse, front, 1, true).Rows? && Passable(parse, last)
    ensures var before, after := ReadLines(parse, front, 1, true), ReadLines(parse, front + [last], 1, true);
      && after.Rows?
      && (IsRecord(parse)(last) ==> after.rows == before.rows + [RecordOf(parse, fallback)(last)])
      && (!IsRecord(parse)(last) ==> after.rows == before.rows)
  {
    ReadLinesConcat(parse, front, [last], 1, true);
    ReadOneLine(parse, last, |front| + 1, true);
    assert Empty(last) <==> Blank(last);
  }

  ghost predicate ReadsAs<R(!new)>(parse: Text -> Parsed<R>, lines: seq<Text>, fallback: R) {
    && ReadLines(parse, lines, 1, true).Rows?
    && Lists(lines, IsRecord(parse), RecordOf(parse, fallback), ReadLines(parse, lines, 1, true).rows)
  }

  lemma ReadsAsAppend<R(!new)>(parse: Text -> Parsed<R>, front: seq<Text>, last: Text, fallback: R)
    requires JsonParser(parse) && ReadsAs(parse, front, fallback) && Passable(parse, last)
    ensures ReadsAs(parse, front + [last], fallback)
  {
    ReadsOneMore(parse, front, last, fallback);
    ListsAppend(front, last, IsRecord(parse), RecordOf(parse, fallback), ReadLines(parse, front, 1, true).rows);
  }

  lemma {:induction false} PassableReads<R(!new)>(parse: Text -> Parsed<R>, lines: seq<Text>, fallback: R)
    requires JsonParser(parse) && forall i :: 0 <= i < |lines| ==> Passable(parse, lines[i])
    ensures ReadsAs(parse, lines, fallback)
  {
    if lines == [] {
      ListsNothing(IsRecord(parse), RecordOf(parse, fallback));
    } else {
      var front, last := lines[..|lines| - 1], lines[|lines| - 1];
      PassableReads(parse, front, fallback);
      assert lines == front + [last];
      ReadsAsAppend(parse, front, last, fallback);
    }
  }

  /** How it ends: at the first line it cannot pass, unless that is an unfinished malformed one. */
  lemma ReaderStops<R(!new)>(parse: Text -> Parsed<R>, raw: Text, k: nat, fallback: R)
    requires JsonParser(parse) && StopsAt(parse, LinesOf(raw), k)
    ensures var lines := LinesOf(raw);
      if parse(lines[k]).NotObject? then Reader(parse, raw) == NotAnObject(k + 1)
      else if k + 1 == |lines| && !Terminated(raw) then
        && Reader(parse, raw).Rows?
        && Lists(lines[..k], IsRecord(parse), RecordOf(parse, fallback), Reader(parse, raw).rows)
      else Reader(parse, raw) == Corrupt(k + 1)
  {
    var lines := LinesOf(raw);
    PassableReads(parse, lines[..k], fallback);
    assert lines == lines[..k] + lines[k..];
    ReadLinesConcat(parse, lines[..k], lines[k..], 1, Terminated(raw));
    assert lines[k..][0] == lines[k];
    var rows := ReadLines(parse, lines[..k], 1, true).rows;
    assert rows + [] == rows;
  }

  /** Nothing stops it: every record is returned, in order, and nothing else. */
  lemma ReaderReadsAll<R(!new)>(parse: Text -> Parsed<R>, raw: Text, fallback: R)
    requires JsonParser(parse) && forall i :: 0 <= i < |LinesOf(raw)| ==> Passable(parse, LinesOf(raw)[i])
    ensures Reader(parse, raw).Rows?
    ensures Lists(LinesOf(raw), IsRecord(parse), RecordOf(parse, fallback), Reader(parse, raw).rows)
  {
    var lines := LinesOf(raw);
    PassableReads(parse, lines, fallback);
    AllPassableEnds(parse, lines, 1, Terminated(raw));
  }

  /** With nothing malformed it does not matter whether the last line is finished. */
  lemma {:induction false} AllPassableEnds<R>(parse: Text -> Parsed<R>, lines: seq<Text>, index: nat, terminated: bool)
    requires forall i :: 0 <= i < |lines| ==> Passable(parse, lines[i])
    ensures ReadLines(parse, lines, index, terminated) == ReadLines(parse, lines, index, true)
    decreases |lines|
  {
    if lines != [] {
      AllPassableEnds(parse, lines[1..], index + 1, terminated);
      assert Passable(parse, lines[0]);
    }
  }

  /******* Repair against the reader *******/

  lemma {:induction false} CompletePartSplits(raw: Text)
    ensures raw == CompletePart(raw) + raw[|CompletePart(raw)|..]
    ensures Complete(raw) <==> raw[|CompletePart(raw)|..] == []
    ensures !Complete(raw) ==> |Split(raw)| == |Split(CompletePart(raw))|
  {
    var prefix := CompletePart(raw);
    if raw[|prefix|..] == [] {
      assert raw == prefix;
    } else {
      SplitAfterComplete(prefix, raw[|prefix|..]);
      Splitting.SplitWithoutSeparator(NEWLINE, raw[|prefix|..]);
    }
  }

  lemma LinesOfOne(tail: Text)
    requires NEWLINE !in tail && tail != []
    ensures !Terminated(tail) && LinesOf(tail) == [tail] && LinesOf(tail + [NEWLINE]) == [tail]
  {
    Splitting.SplitWithoutSeparator(NEWLINE, tail);
    Splitting.SplitAtSeparator(NEWLINE, tail, []);
    assert tail + [NEWLINE] + [] == tail + [NEWLINE];
  }

  /** The part after the last newline is read as one more line, with or without a newline behind it. */
  lemma ReaderOfTail<R>(parse: Text -> Parsed<R>, prefix: Text, tail: Text)
    requires Complete(prefix) && NEWLINE !in tail && tail != []
    ensures Reader(parse, prefix + tail)
         == Then(Reader(parse, prefix), ReadLines(parse, [tail], |Split(prefix)|, false))
    ensures Reader(parse, prefix + tail + [NEWLINE])
         == Then(Reader(parse, prefix), ReadLines(parse, [tail], |Split(prefix)|, true))
  {
    LinesOfOne(tail);
    ReaderConcat(parse, prefix, tail);
    assert prefix + tail + [NEWLINE] == prefix + (tail + [NEWLINE]);
    ReaderConcat(parse, prefix, tail + [NEWLINE]);
  }

  /** What the reader makes of a file with an unfinished last line, in terms of its two parts. */
  lemma ReaderOfTorn<R>(parse: Text -> Parsed<R>, raw: Text, prefix: Text, tail: Text)
    requires JsonParser(parse) && !Complete(raw)
    requires prefix == CompletePart(raw) && tail == raw[|prefix|..]
    ensures Reader(parse, raw)
         == Then(Reader(parse, prefix),
                 match parse(tail)
                 case Malformed => Rows([])
                 case NotObject => NotAnObject(|Split(raw)|)
                 case Object(row) => Rows([row]))
    ensures parse(tail).Object? ==> Reader(parse, raw + [NEWLINE]) == Reader(parse, raw)
  {
    CompletePartSplits(raw);
    ReaderOfTail(parse, prefix, tail);
    ReadOneLine(parse, tail, |Split(prefix)|, false);
    ReadOneLine(parse, tail, |Split(prefix)|, true);
  }

  /** For every byte string: the pass leaves what the reader returns, rows or error, as it was. */
  lemma RepairKeepsTheReading<R>(parse: Text -> Parsed<R>, raw: Text)
    requires JsonParser(parse)
    ensures Reader(parse, Repaired(parse, raw)) == Reader(parse, raw)
  {
    if !Complete(raw) {
      var prefix := CompletePart(raw);
      ReaderOfTorn(parse, raw, prefix, raw[|prefix|..]);
    }
  }

  /**
   The pass refuses exactly the files the reader refuses: with the reader's error, except that an
   unfinished last line that is no object is reported without its line number.
   */
  lemma RepairRefusesIff<R>(parse: Text -> Parsed<R>, raw: Text)
    requires JsonParser(parse)
    ensures Repair(parse, raw).Refused? <==> !Reader(parse, raw).Rows?
    ensures Repair(parse, raw).Refused? ==>
      match Repair(parse, raw).error
      case InFinishedLines(reading) => reading == Reader(parse, raw)
      case TailNotAnObject => Reader(parse, raw) == NotAnObject(|Split(raw)|) && !Complete(raw)
  {
    if !Complete(raw) {
      var prefix := CompletePart(raw);
      ReaderOfTorn(parse, raw, prefix, raw[|prefix|..]);
    }
  }

  /** After a pass that did not refuse, the file is complete and a second pass rewrites nothing. */
  lemma RepairIsIdempotent<R>(parse: Text -> Parsed<R>, raw: Text)
    requires JsonParser(parse)
    ensures !Repair(parse, raw).Refused? ==>
      Complete(Repaired(parse, raw)) && Repair(parse, Repaired(parse, raw)).Unchanged?
    ensures Repaired(parse, Repaired(parse, raw)) == Repaired(parse, raw)
  {
    RepairRefusesIff(parse, raw);
    RepairKeepsTheReading(parse, raw);
    RepairRefusesIff(parse, Repaired(parse, raw));
  }

  /******* Appends, torn and whole *******/

  function Line<R>(represent: R -> Value, r: R): Text {
    Encode(represent(r)) + [NEWLINE]
  }

  function Appended<R>(represent: R -> Value, f: Text, rows: seq<R>): Text
    decreases |rows|
  {
    if rows == [] then f else Appended(represent, f + Line(represent, rows[0]), rows[1..])
  }

  /** A record's text is one nonempty line that reads back as the record. */
  lemma RecordText<R(!new)>(parse: Text -> Parsed<R>, represent: R -> Value, r: R)
    requires ReadsBack(parse, represent, r)
    ensures var t := Encode(represent(r));
      parse(t) == Object(r) && NEWLINE !in t && t != [] && Line(represent, r) == t + [NEWLINE]
  {
    ObjectPrefixIsUnbalanced(represent(r), |Encode(represent(r))|);
  }

  lemma AppendIsRead<R(!new)>(parse: Text -> Parsed<R>, represent: R -> Value, f: Text, r: R)
    requires JsonParser(parse) && ReadsBack(parse, represent, r) && Complete(f)
    ensures Complete(f + Line(represent, r))
    ensures Reader(parse, f + Line(represent, r)) == Then(Reader(parse, f), Rows([r]))
  {
    var t := Encode(represent(r));
    RecordText(parse, represent, r);
    ReaderOfTail(parse, f, t);
    ReadOneLine(parse, t, |Split(f)|, true);
    assert f + (t + [NEWLINE]) == f + t + [NEWLINE];
  }

  lemma {:induction false} AppendsAreRead<R(!new)>(parse: Text -> Parsed<R>, represent: R -> Value,
                                                   f: Text, rows: seq<R>)
    requires JsonParser(parse) && Complete(f)
    requires forall i :: 0 <= i < |rows| ==> ReadsBack(parse, represent, rows[i])
    ensures Complete(Appended(represent, f, rows))
    ensures Reader(parse, Appended(represent, f, rows)) == Then(Reader(parse, f), Rows(rows))
    decreases |rows|
  {
    if rows != [] {
      var first, others := rows[0], rows[1..];
      var next := f + Line(represent, first);
      AppendIsRead(parse, represent, f, first);
      AppendsAreRead(parse, represent, next, others);
      ThenIsAssociative(Reader(parse, f), Rows([first]), Rows(others));
      assert Then(Rows([first]), Rows(others)) == Rows(rows) by {
        assert rows == [first] + others;
      }
    }
  }

  /** One record torn after `k` bytes: the reader returns it only if all of its object text is there. */
  lemma TornRecordIsRead<R(!new)>(parse: Text -> Parsed<R>, represent: R -> Value, f: Text, r: R, k: nat)
    requires JsonParser(parse) && ReadsBack(parse, represent, r) && Complete(f)
    requires k <= |Line(represent, r)|
    ensures Reader(parse, f + Line(represent, r)[..k])
         == Then(Reader(parse, f), Rows(if k < |Line(represent, r)| - 1 then [] else [r]))
  {
    var t := Encode(represent(r));
    if k == 0 {
      assert f + Line(represent, r)[..0] == f;
      ObjectPrefixIsUnbalanced(represent(r), |t|);
    } else if k <= |t| {
      ObjectPrefixIsUnbalanced(represent(r), k);
      assert Line(represent, r)[..k] == t[..k];
      ReaderOfTail(parse, f, t[..k]);
      ReadOneLine(parse, t[..k], |Split(f)|, false);
      assert k == |t| ==> t[..k] == t;
    } else {
      AppendIsRead(parse, represent, f, r);
      assert Line(represent, r)[..k] == Line(represent, r);
    }
  }

  /**
   A log with any past: repaired, appended to until the writer dies after `k` bytes, repaired again,
   appended to some more. The reader returns the old rows, the torn record exactly when its object
   text was written in full, and the later rows.
   */
  lemma TornAppendThenRepair<R(!new)>(parse: Text -> Parsed<R>, represent: R -> Value, raw: Text,
                                      r: R, k: nat, later: seq<R>)
    requires JsonParser(parse) && ReadsBack(parse, represent, r)
    requires forall i :: 0 <= i < |later| ==> ReadsBack(parse, represent, later[i])
    requires Reader(parse, raw).Rows? && k <= |Line(represent, r)|
    ensures Reader(parse, Appended(represent, Repaired(parse, Repaired(parse, raw) + Line(represent, r)[..k]), later))
         == Rows(Reader(parse, raw).rows + (if k < |Line(represent, r)| - 1 then [] else [r]) + later)
  {
    var f := Repaired(parse, raw);
    RepairRefusesIff(parse, raw);
    RepairIsIdempotent(parse, raw);
    RepairKeepsTheReading(parse, raw);
    var torn := f + Line(represent, r)[..k];
    TornRecordIsRead(parse, represent, f, r, k);
    RepairRefusesIff(parse, torn);
    RepairIsIdempotent(parse, torn);
    RepairKeepsTheReading(parse, torn);
    AppendsAreRead(parse, represent, Repaired(parse, torn), later);
  }

  /******* The file operations *******/

  method ReadTolerant<R>(parse: Text -> Parsed<R>, raw: Text) returns (result: ReadResult<R>)
    ensures result == Reader(parse, raw)
  {
    var terminated := Terminated(raw);
    var lines := Split(raw);
    if terminated { lines := lines[..|lines| - 1]; }
    var rows: seq<R> := [];
    for index := 0 to |lines|
      invariant Reader(parse, raw) == Then(Rows(rows), ReadLines(parse, lines[index..], index + 1, terminated))
    {
      var line := lines[index];
      assert lines[index..][0] == line && lines[index..][1..] == lines[index + 1..];
      if Blank(line) { continue; }
      match parse(line)
      case Malformed =>
        if !terminated && index + 1 == |lines| { break; }
        return Corrupt(index + 1);
      case NotObject =>
        return NotAnObject(index + 1);
      case Object(row) =>
        ThenIsAssociative(Rows(rows), Rows([row]), ReadLines(parse, lines[index + 1..], index + 2, terminated));
        rows := rows + [row];
    }
    return Rows(rows);
  }

  /** The repair pass's own loop over the finished lines. */
  method CheckComplete<R>(parse: Text -> Parsed<R>, prefix: Text) returns (result: ReadResult<R>)
    requires Complete(prefix)
    ensures result == Reader(parse, prefix)
  {
    ReaderOfComplete(parse, prefix);
    var lines := Split(prefix);
    lines := lines[..|lines| - 1];
    var rows: seq<R> := [];
    for index := 0 to |lines|
      invariant Reader(parse, prefix) == Then(Rows(rows), ReadLines(parse, lines[index..], index + 1, true))
    {
      var line := lines[index];
      assert lines[index..][0] == line && lines[index..][1..] == lines[index + 1..];
      if Blank(line) { continue; }
      match parse(line)
      case Malformed => return Corrupt(index + 1);
      case NotObject => return NotAnObject(index + 1);
      case Object(row) =>
        ThenIsAssociative(Rows(rows), Rows([row]), ReadLines(parse, lines[index + 1..], index + 2, true));
        rows := rows + [row];
    }
    return Rows(rows);
  }

  /** `raw.rfind(b"\n") + 1`. */
  method AfterLastNewline(raw: Text) returns (cut: nat)
    ensures cut <= |raw| && raw[..cut] == CompletePart(raw)
  {
    cut := |raw|;
    while cut > 0 && raw[cut - 1] != NEWLINE
      invariant cut <= |raw| && CompletePart(raw[..cut]) == CompletePart(raw)
    {
      assert raw[..cut][..cut - 1] == raw[..cut - 1];
      cut := cut - 1;
    }
  }

  class LogFile {
    var contents: Text

    constructor ()
      ensures contents == []
    {
      contents := [];
    }

    /** The kernel may take any part of what it is offered; a write that takes nothing raises. */
    method WriteAll(payload: Text) returns (ok: bool, written: nat)
      modifies this
      ensures written <= |payload| && contents == old(contents) + payload[..written]
      ensures ok <==> written == |payload|
    {
      written := 0;
      while written < |payload|
        invariant written <= |payload| && contents == old(contents) + payload[..written]
      {
        var taken: int :| taken <= |payload| - written;
        if taken <= 0 { return false, written; }
        contents := contents + payload[written..written + taken];
        assert payload[..written + taken] == payload[..written] + payload[written..written + taken];
        written := written + taken;
      }
      ok := true;
    }

    /** One record and its newline; after a failure `written` bytes of the line are in the file. */
    method AppendRecord<R>(represent: R -> Value, r: R) returns (ok: bool, ghost written: nat)
      modifies this
      ensures written <= |Line(represent, r)| && contents == old(contents) + Line(represent, r)[..written]
      ensures ok <==> written == |Line(represent, r)|
    {
      ok, written := WriteAll(Encode(represent(r)) + [NEWLINE]);
    }

    /** Replaces the file in one step, so nothing in between is ever seen. */
    method RepairTail<R>(parse: Text -> Parsed<R>) returns (result: RepairResult<R>)
      modifies this
      ensures result == Repair(parse, old(contents))
      ensures contents == Repaired(parse, old(contents))
    {
      var raw := contents;
      if raw == [] || Terminated(raw) {
        var whole := ReadTolerant(parse, raw);
        return if whole.Rows? then Unchanged else Refused(InFinishedLines(whole));
      }
      var cut := AfterLastNewline(raw);
      var prefix, tail := raw[..cut], raw[cut..];
      assert |prefix| == cut;
      var checked := CheckComplete(parse, prefix);
      if !checked.Rows? { return Refused(InFinishedLines(checked)); }
      match parse(tail)
      case Malformed =>
        contents := prefix;
        return Rewritten(prefix);
      case NotObject =>
        return Refused(TailNotAnObject);
      case Object(_) =>
        contents := raw + [NEWLINE];
        return Rewritten(contents);
    }
  }
}
