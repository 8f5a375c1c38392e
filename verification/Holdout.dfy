/**
 The validator's private holdout: random round-trip cases for a codec, and the verdict on a task
 whose reference must pass them while every known-wrong probe must not.
 Python's random draws are arbitrary choices within their ranges.
 */
module Holdout {
  import opened Codec
  import opened Splitting

  const ALPHABET := "abcdefghijkmnpqrstuvwxyz23456789"
  const DRAWN := 20

  function FixedCases(d: char, s: char): seq<Fields> {
    [[""], ["", [d], [s], ""], [[d, s, d]], [[s, s], [d, d]]]
  }

  /** Two to ten letters and digits with one of four markers put in somewhere. */
  ghost predicate IsToken(d: char, s: char, token: string) {
    exists value: string, marker: string, offset: nat :: TokenOf(d, s, token, value, marker, offset)
  }

  ghost predicate TokenOf(d: char, s: char, token: string, value: string, marker: string, offset: nat) {
    && 2 <= |value| <= 10 && (forall i :: 0 <= i < |value| ==> value[i] in ALPHABET)
    && (marker == [d] || marker == [s] || marker == [d, s] || marker == [s, s])
    && offset <= |value| && token == value[..offset] + marker + value[offset..]
  }

  lemma TokenIsMarked(d: char, s: char, token: string)
    requires IsToken(d, s, token)
    ensures 3 <= |token| <= 12 && !Plain(d, s, token)
  {
    var value: string, marker: string, offset: nat :| TokenOf(d, s, token, value, marker, offset);
    assert token[offset] == marker[0];
  }

  /** A drawn case: one to six tokens. */
  ghost predicate DrawnCase(d: char, s: char, fields: Fields) {
    1 <= |fields| <= 6 && forall i :: 0 <= i < |fields| ==> IsToken(d, s, fields[i])
  }

  ghost predicate Drawn(d: char, s: char, drawn: seq<Fields>) {
    forall i :: 0 <= i < |drawn| ==> DrawnCase(d, s, drawn[i])
  }

  /** The fixed cases and twenty drawn ones, in any order. */
  ghost predicate ArePrivateCases(d: char, s: char, cases: seq<Fields>) {
    exists drawn: seq<Fields> ::
      |drawn| == DRAWN && Drawn(d, s, drawn) && multiset(cases) == multiset(FixedCases(d, s) + drawn)
  }

  method Token(d: char, s: char) returns (token: string)
    ensures IsToken(d, s, token)
  {
    var size: int :| 2 <= size <= 10;
    var value: string := [];
    for i := 0 to size
      invariant |value| == i && forall k :: 0 <= k < i ==> value[k] in ALPHABET
    {
      var index: int :| 0 <= index < |ALPHABET|;
      value := value + [ALPHABET[index]];
    }
    var insertions := [[d], [s], [d, s], [s, s]];
    var choice: int :| 0 <= choice < 4;
    var marker := insertions[choice];
    var offset: int :| 0 <= offset <= |value|;
    token := value[..offset] + marker + value[offset..];
    assert TokenOf(d, s, token, value, marker, offset);
  }

  method Shuffle<T>(items: array<T>)
    modifies items
    ensures multiset(items[..]) == multiset(old(items[..]))
  {
    if items.Length == 0 { return; }
    for i := items.Length downto 1
      invariant multiset(items[..]) == multiset(old(items[..]))
    {
      var j: int :| 0 <= j <= i;
      items[i], items[j] := items[j], items[i];
    }
  }

  method PrivateCases(d: char, s: char) returns (cases: seq<Fields>)
    ensures ArePrivateCases(d, s, cases)
  {
    cases := FixedCases(d, s);
    ghost var drawn: seq<Fields> := [];
    for n := 0 to DRAWN
      invariant |drawn| == n && Drawn(d, s, drawn)
      invariant cases == FixedCases(d, s) + drawn
    {
      var count: int :| 1 <= count <= 6;
      var fields: Fields := [];
      for m := 0 to count
        invariant |fields| == m && forall i :: 0 <= i < m ==> IsToken(d, s, fields[i])
      {
        var token := Token(d, s);
        fields := fields + [token];
      }
      cases := cases + [fields];
      drawn := drawn + [fields];
    }
    var order := new Fields[|cases|](i requires 0 <= i < |cases| => cases[i]);
    assert order[..] == cases;
    Shuffle(order);
    cases := order[..];
  }

  /** A submitted codec: its two functions. */
  datatype Candidate = Candidate(format: Fields -> string, parse: string -> Fields)

  function Reference(d: char, s: char): Candidate {
    Candidate(fields => FormatQuoted(d, s, fields), text => Parse(d, s, text))
  }

  /** The starter's formatter is the reference's; its parser only splits. */
  function Starter(d: char, s: char): Candidate {
    Candidate(fields => FormatQuoted(d, s, fields), text => Split(d, text))
  }

  /** The reference with its marked quoting lines deleted: a plain join and a plain split. */
  function EdgeRemoved(d: char): Candidate {
    Candidate(fields => Join(d, fields), text => Split(d, text))
  }

  predicate PassesCase(d: char, s: char, candidate: Candidate, fields: Fields) {
    candidate.format(fields) == FormatQuoted(d, s, fields) && candidate.parse(FormatQuoted(d, s, fields)) == fields
  }

  predicate PassesAll(d: char, s: char, candidate: Candidate, cases: seq<Fields>) {
    forall i :: 0 <= i < |cases| ==> PassesCase(d, s, candidate, cases[i])
  }

  /** The generated round-trip test: it stops at the first case that fails. */
  method RoundTripTest(d: char, s: char, candidate: Candidate, cases: seq<Fields>) returns (passed: bool)
    ensures passed <==> PassesAll(d, s, candidate, cases)
  {
    for i := 0 to |cases|
      invariant PassesAll(d, s, candidate, cases[..i])
    {
      var expected := ExpectedQuoted(d, s, cases[i]);
      if candidate.format(cases[i]) != expected || candidate.parse(expected) != cases[i] {
        assert !PassesCase(d, s, candidate, cases[i]);
        return false;
      }
      assert cases[..i + 1] == cases[..i] + [cases[i]];
    }
    assert cases[..|cases|] == cases;
    passed := true;
  }

  /******* What the cases decide *******/

  lemma CasesAreNonempty(d: char, s: char, cases: seq<Fields>)
    requires ArePrivateCases(d, s, cases)
    ensures |cases| == 24
    ensures forall fields :: fields in FixedCases(d, s) ==> fields in cases
    ensures [""] in cases && ["", [d], [s], ""] in cases && [[d, s, d]] in cases && [[s, s], [d, d]] in cases
    ensures forall fields :: fields in cases ==> fields != [] && (AllPlain(d, s, fields) <==> fields == [""])
  {
    var drawn: seq<Fields> :|
      |drawn| == DRAWN && Drawn(d, s, drawn) && multiset(cases) == multiset(FixedCases(d, s) + drawn);
    var all := FixedCases(d, s) + drawn;
    assert |multiset(cases)| == |multiset(all)|;
    forall fields | fields in FixedCases(d, s) ensures fields in cases {
      assert fields in multiset(all);
      assert fields in multiset(cases);
    }
    forall fields | fields in cases ensures fields != [] && (AllPlain(d, s, fields) <==> fields == [""]) {
      assert fields in multiset(cases);
      assert fields in all;
      if fields in FixedCases(d, s) {
        FixedCasesMarked(d, s, fields);
      } else {
        assert fields in drawn;
        TokenIsMarked(d, s, fields[0]);
        assert !Plain(d, s, fields[0]);
      }
    }
  }

  lemma FixedCasesMarked(d: char, s: char, fields: Fields)
    requires fields in FixedCases(d, s)
    ensures fields != [] && (AllPlain(d, s, fields) <==> fields == [""])
  {
    if fields == [""] {
    } else if fields == ["", [d], [s], ""] {
      assert !Plain(d, s, fields[1]);
    } else if fields == [[d, s, d]] {
      assert fields[0][0] == d && !Plain(d, s, fields[0]);
    } else {
      assert fields[0][0] == s && !Plain(d, s, fields[0]);
    }
  }

  /** Whatever was drawn, the reference codec passes every private case. */
  lemma ReferencePasses(d: char, s: char, cases: seq<Fields>)
    requires d != s && ArePrivateCases(d, s, cases)
    ensures PassesAll(d, s, Reference(d, s), cases)
  {
    CasesAreNonempty(d, s, cases);
    forall i | 0 <= i < |cases| ensures PassesCase(d, s, Reference(d, s), cases[i]) {
      assert cases[i] in cases;
      ParseOfFormat(d, s, cases[i]);
    }
  }

  /** Whatever was drawn, both probes pass the one-empty-field case and no other. */
  lemma ProbesPassOnlyTheEmptyField(d: char, s: char, cases: seq<Fields>, i: nat)
    requires ArePrivateCases(d, s, cases) && i < |cases|
    ensures PassesCase(d, s, Starter(d, s), cases[i]) <==> cases[i] == [""]
    ensures PassesCase(d, s, EdgeRemoved(d), cases[i]) <==> cases[i] == [""]
  {
    CasesAreNonempty(d, s, cases);
    assert cases[i] in cases;
    SplitReadsBackIff(d, s, cases[i]);
  }

  lemma ProbesFail(d: char, s: char, cases: seq<Fields>)
    requires ArePrivateCases(d, s, cases)
    ensures !PassesAll(d, s, Starter(d, s), cases) && !PassesAll(d, s, EdgeRemoved(d), cases)
  {
    CasesAreNonempty(d, s, cases);
    var fields: Fields := [[d, s, d]];
    assert fields in FixedCases(d, s);
    var i :| 0 <= i < |cases| && cases[i] == fields;
    ProbesPassOnlyTheEmptyField(d, s, cases, i);
  }

  /******* The verdict *******/

  datatype Run = Run(passed: bool, executed: bool, containerized: bool)

  datatype Status = Unsupported | InfraError | Failed | Passed

  datatype Evidence = Evidence(passed: bool, status: Status, referencePassed: bool, probesCaught: map<string, bool>)

  /** `planned` is false when the policy refused the task; `run` is what the runner answers for a probe. */
  method EvaluateHoldout(planned: bool, hasSecret: bool, reference: Run, probes: seq<string>, run: string -> Run,
                         requireContainerized: bool) returns (evidence: Evidence)
    ensures evidence.passed <==> evidence.status == Passed
    ensures evidence.referencePassed <==> planned && reference.passed
    ensures evidence.passed <==>
         && planned && reference.passed && reference.executed && (reference.containerized || !requireContainerized)
         && probes != []
         && forall id :: id in probes ==>
              !run(id).passed && run(id).executed && (run(id).containerized || !requireContainerized)
    ensures evidence.status == Unsupported <==> !planned && hasSecret
    ensures evidence.status == InfraError <==>
         if planned then !reference.executed || (requireContainerized && !reference.containerized) else !hasSecret
    ensures forall id :: id in evidence.probesCaught <==>
         && id in probes && planned && reference.passed
         && reference.executed && (reference.containerized || !requireContainerized)
    ensures forall id :: id in evidence.probesCaught ==>
         (evidence.probesCaught[id] <==>
          !run(id).passed && run(id).executed && (run(id).containerized || !requireContainerized))
  {
    if !planned {
      return Evidence(false, if !hasSecret then InfraError else Unsupported, false, map[]);
    }
    var referenceOk := reference.passed;
    var isolationOk :=
      if requireContainerized then reference.containerized && reference.executed else reference.executed;
    var probesCaught: map<string, bool> := map[];
    if referenceOk && isolationOk {
      for i := 0 to |probes|
        invariant forall id :: id in probesCaught <==> id in probes[..i]
        invariant forall id :: id in probesCaught ==>
          (probesCaught[id] <==>
           !run(id).passed && run(id).executed && (run(id).containerized || !requireContainerized))
      {
        var result := run(probes[i]);
        var probeIsolated := if requireContainerized then result.containerized && result.executed else result.executed;
        probesCaught := probesCaught[probes[i] := !result.passed && probeIsolated];
        assert probes[..i + 1] == probes[..i] + [probes[i]];
      }
      assert probes[..|probes|] == probes;
      assert probesCaught == map[] <==> probes == [] by {
        if probes != [] { assert probes[0] in probesCaught; }
      }
    }
    var allCaught := forall id :: id in probesCaught ==> probesCaught[id];
    var passed := referenceOk && isolationOk && probesCaught != map[] && allCaught;
    var status;
    if !reference.executed {
      status := InfraError;
    } else if requireContainerized && !reference.containerized {
      status := InfraError;
    } else if !referenceOk {
      status := Failed;
    } else if probesCaught == map[] {
      status := Failed;
    } else if !allCaught {
      status := Failed;
    } else {
      status := Passed;
    }
    evidence := Evidence(passed, status, referenceOk, probesCaught);
  }

  /** The three runs of the quoted-fields task against one draw of the private cases. */
  method RunQuotedTask(d: char, s: char) returns (reference: bool, starter: bool, stripped: bool)
    requires d != s
    ensures reference && !starter && !stripped
  {
    var cases := PrivateCases(d, s);
    ReferencePasses(d, s, cases);
    ProbesFail(d, s, cases);
    reference := RoundTripTest(d, s, Reference(d, s), cases);
    starter := RoundTripTest(d, s, Starter(d, s), cases);
    stripped := RoundTripTest(d, s, EdgeRemoved(d), cases);
  }

  /** Run truthfully in a container, the quoted-fields task passes on every draw of the private cases. */
  method JudgeQuotedTask(d: char, s: char) returns (evidence: Evidence)
    requires d != s
    ensures evidence.passed
    ensures evidence.probesCaught == map["starter_files" := true, "family_edge_removed" := true]
  {
    var reference, starter, stripped := RunQuotedTask(d, s);
    evidence := EvaluateHoldout(true, true, Run(reference, true, true), ["starter_files", "family_edge_removed"],
                                id => Run(if id == "starter_files" then starter else stripped, true, true), true);
  }
}
