/**
 The source-distribution normaliser. A file is a gzip stream or something else; an archive is its gzip
 time stamp and its members in order; tar and gzip themselves are left out.
 Mode bits are the low twelve bits of the tar header.
 */
module Sdist {
  import opened Common
  import opened NameOrder
  import Splitting

  const EPOCH_MIN := 315_532_800
  const EPOCH_MAX := 0x7fff_ffff

  datatype Kind = Directory | Regular | Special

  datatype Member = Member(name: string, kind: Kind, mode: bv12, uid: int, gid: int, uname: string, gname: string,
                           mtime: int, size: nat, data: string)

  datatype Archive = Archive(gzip: bool, gzipTime: int, members: seq<Member>)

  /** All that normalisation keeps of a member besides its name. */
  datatype Payload = Folder | File(executable: bool, data: string)

  type Entry = Named<Payload>

  predicate Executable(mode: bv12) {
    mode & 0x49 != 0
  }

  /******* Names *******/

  predicate Control(c: char) {
    c as int < 32 || c as int == 127
  }

  function Kept(parts: seq<string>): seq<string> {
    if parts == [] then []
    else (if parts[0] == "" || parts[0] == "." then [] else [parts[0]]) + Kept(parts[1..])
  }

  /** `PurePosixPath(name).as_posix()` of a relative name: empty and `.` components disappear. */
  function AsPosix(name: string): string {
    var parts := Kept(Splitting.Split('/', name));
    if parts == [] then "." else Splitting.Join('/', parts)
  }

  predicate CleanPart(part: string) {
    part != "" && part != "." && part != ".."
  }

  predicate CleanParts(parts: seq<string>) {
    forall i :: 0 <= i < |parts| ==> CleanPart(parts[i])
  }

  predicate Printable(name: string) {
    '\\' !in name && forall i :: 0 <= i < |name| ==> !Control(name[i])
  }

  /** The test `_safe_name` and the release check's `_validate_archive_path` both make. */
  predicate SafeName(name: string) {
    name != "" && Printable(name) && name[0] != '/' && CleanParts(Splitting.Split('/', name)) && name == AsPosix(name)
  }

  /** The name's first component, `PurePosixPath(name).parts[0]`. */
  function Root(name: string): string {
    Splitting.Split('/', name)[0]
  }

  /** The root is what stands before the first slash. */
  lemma RootIs(name: string)
    ensures '/' !in Root(name) && (Root(name) == name || Root(name) + "/" <= name)
  {
    var parts := Splitting.Split('/', name);
    Splitting.JoinOfSplit('/', name);
    Splitting.PiecesHoldNoSeparator('/', name);
    if |parts| > 1 {
      assert Splitting.Join('/', parts) == parts[0] + ['/'] + Splitting.Join('/', parts[1..]);
      assert parts[0] + "/" <= name;
    } else {
      assert parts == [parts[0]];
    }
  }

  lemma {:induction false} KeptOfClean(parts: seq<string>)
    requires CleanParts(parts)
    ensures Kept(parts) == parts
  {
    if parts != [] {
      assert CleanPart(parts[0]);
      KeptOfClean(parts[1..]);
    }
  }

  lemma EmptyFirstPart(name: string)
    ensures name == "" || name[0] == '/' ==> Splitting.Split('/', name)[0] == ""
  {
  }

  /** No backslash, no control character. */
  ghost predicate Legible(name: string) {
    forall i :: 0 <= i < |name| ==> name[i] != '\\' && 32 <= name[i] as int && name[i] as int != 127
  }

  /** No component between slashes is empty, a dot or two dots. */
  ghost predicate ProperParts(name: string) {
    forall part :: part in Splitting.Split('/', name) ==> part !in {"", ".", ".."}
  }

  lemma ProperPartsIff(name: string)
    ensures ProperParts(name) <==> CleanParts(Splitting.Split('/', name))
  {
    var parts := Splitting.Split('/', name);
    if CleanParts(parts) {
      forall part | part in parts ensures part !in {"", ".", ".."} {
        var i :| 0 <= i < |parts| && parts[i] == part;
        assert CleanPart(parts[i]);
      }
    }
    if ProperParts(name) {
      forall i | 0 <= i < |parts| ensures CleanPart(parts[i]) {
        assert parts[i] in parts;
      }
    }
  }

  /** Three of the tests never decide: proper components already make the name nonempty, relative and canonical. */
  lemma SafeNameIff(name: string)
    ensures SafeName(name) <==> Legible(name) && ProperParts(name)
  {
    var parts := Splitting.Split('/', name);
    ProperPartsIff(name);
    if CleanParts(parts) {
      KeptOfClean(parts);
      Splitting.JoinOfSplit('/', name);
      EmptyFirstPart(name);
      assert CleanPart(parts[0]);
    }
    LegibleIff(name);
  }

  lemma LegibleIff(name: string)
    ensures Legible(name) <==> Printable(name)
  {
  }

  /******* Reading *******/

  datatype Error = BadEpoch | NotAnArchive | UnsafeName | Empty | DuplicateMembers | ManyRoots | SpecialMember

  function PayloadOf(member: Member): Payload {
    if member.kind == Directory then Folder else File(Executable(member.mode), member.data)
  }

  function EntriesOf(members: seq<Member>): seq<Entry> {
    seq(|members|, i requires 0 <= i < |members| => Named(members[i].name, PayloadOf(members[i])))
  }

  function Names(members: seq<Member>): set<string> {
    set i | 0 <= i < |members| :: members[i].name
  }

  function Roots(members: seq<Member>): set<string> {
    set i | 0 <= i < |members| :: Root(members[i].name)
  }

  ghost predicate Distinct(members: seq<Member>) {
    forall i, j :: 0 <= i < j < |members| ==> members[i].name != members[j].name
  }

  /** Why an archive is refused, the first reason in the source's order. */
  function Problem(members: seq<Member>): Option<Error> {
    if exists i :: 0 <= i < |members| && !SafeName(members[i].name) then Some(UnsafeName)
    else if members == [] then Some(Empty)
    else if |Names(members)| != |members| then Some(DuplicateMembers)
    else if |Roots(members)| != 1 then Some(ManyRoots)
    else if exists i :: 0 <= i < |members| && members[i].kind == Special then Some(SpecialMember)
    else None
  }

  method AllSafe(members: seq<Member>) returns (safe: bool)
    ensures safe <==> forall i :: 0 <= i < |members| ==> SafeName(members[i].name)
  {
    for i := 0 to |members|
      invariant forall k :: 0 <= k < i ==> SafeName(members[k].name)
    {
      if !SafeName(members[i].name) { return false; }
    }
    safe := true;
  }

  /** The entries in archive order, or nothing when a link or special member turns up. */
  method Collect(members: seq<Member>) returns (collected: Option<seq<Entry>>)
    ensures collected == if exists i :: 0 <= i < |members| && members[i].kind == Special then None
                         else Some(EntriesOf(members))
  {
    var entries: seq<Entry> := [];
    for i := 0 to |members|
      invariant |entries| == i
      invariant forall k :: 0 <= k < i ==> members[k].kind != Special && entries[k] == EntriesOf(members)[k]
    {
      var member := members[i];
      if member.kind == Special { return None; }
      var payload := if member.kind == Directory then Folder else File(Executable(member.mode), member.data);
      entries := entries + [Named(member.name, payload)];
    }
    assert entries == EntriesOf(members);
    collected := Some(entries);
  }

  function Read(archive: Archive): Result<seq<Entry>, Error> {
    if !archive.gzip then Err(NotAnArchive)
    else match Problem(archive.members)
      case Some(error) => Err(error)
      case None => Ok(Sort(EntriesOf(archive.members)))
  }

  method ReadMembers(archive: Archive) returns (result: Result<seq<Entry>, Error>)
    ensures result == Read(archive)
  {
    if !archive.gzip { return Err(NotAnArchive); }
    var members := archive.members;
    var safe := AllSafe(members);
    if !safe { return Err(UnsafeName); }
    if members == [] { return Err(Empty); }
    if |Names(members)| != |members| { return Err(DuplicateMembers); }
    if |Roots(members)| != 1 { return Err(ManyRoots); }
    var collected := Collect(members);
    if collected.None? { return Err(SpecialMember); }
    result := Ok(Sort(collected.value));
  }

  /******* Rewriting *******/

  function Written(entry: Entry, epoch: int): Member {
    match entry.item
    case Folder => Member(entry.name, Directory, 0x1ed, 0, 0, "", "", epoch, 0, "")
    case File(executable, data) =>
      Member(entry.name, Regular, if executable then 0x1ed else 0x1a4, 0, 0, "", "", epoch, |data|, data)
  }

  /** Nothing of the host stays in a member: its owner, time and mode are fixed and its size is that of its data. */
  ghost predicate Neutral(m: Member, epoch: int) {
    && m.uid == 0 && m.gid == 0 && m.uname == "" && m.gname == "" && m.mtime == epoch && m.size == |m.data|
    && (m.kind == Directory ==> m.mode == 0x1ed && m.data == "")
    && (m.kind == Regular ==> m.mode == 0x1ed || m.mode == 0x1a4)
  }

  lemma WrittenIsNeutral(entry: Entry, epoch: int)
    ensures Neutral(Written(entry, epoch), epoch) && Written(entry, epoch).name == entry.name
    ensures entry.item.Folder? <==> Written(entry, epoch).kind == Directory
    ensures entry.item.File? ==>
      && Written(entry, epoch).kind == Regular && Written(entry, epoch).data == entry.item.data
      && (Written(entry, epoch).mode == 0x1ed <==> entry.item.executable)
  {
  }

  function WrittenAll(entries: seq<Entry>, epoch: int): seq<Member> {
    seq(|entries|, i requires 0 <= i < |entries| => Written(entries[i], epoch))
  }

  function Normalize(archive: Archive, epoch: int): Result<Archive, Error> {
    if !(EPOCH_MIN <= epoch <= EPOCH_MAX) then Err(BadEpoch)
    else match Read(archive)
      case Err(error) => Err(error)
      case Ok(entries) => Ok(Archive(true, epoch, WrittenAll(entries, epoch)))
  }

  method WriteMembers(entries: seq<Entry>, epoch: int) returns (output: seq<Member>)
    ensures output == WrittenAll(entries, epoch)
  {
    output := [];
    for i := 0 to |entries|
      invariant |output| == i && forall k :: 0 <= k < i ==> output[k] == WrittenAll(entries, epoch)[k]
    {
      var name, item := entries[i].name, entries[i].item;
      var folder := item.Folder?;
      var kind := if folder then Directory else Regular;
      var mode := if folder || item.executable then 0x1ed else 0x1a4;
      var data := if folder then "" else item.data;
      output := output + [Member(name, kind, mode, 0, 0, "", "", epoch, |data|, data)];
    }
  }

  method NormalizeSdist(archive: Archive, epoch: int) returns (result: Result<Archive, Error>)
    ensures result == Normalize(archive, epoch)
  {
    if !(EPOCH_MIN <= epoch <= EPOCH_MAX) { return Err(BadEpoch); }
    var read := ReadMembers(archive);
    if read.Err? { return Err(read.error); }
    var output := WriteMembers(read.value, epoch);
    result := Ok(Archive(true, epoch, output));
  }

  /******* What normalisation keeps *******/

  /** The map from names to what is kept of them. */
  ghost function Content(members: seq<Member>): map<string, Payload> {
    map name | name in Names(members) :: PayloadOf(members[IndexOf(members, name)])
  }

  function IndexOf(members: seq<Member>, name: string): (i: nat)
    requires name in Names(members)
    ensures i < |members| && members[i].name == name
  {
    if members[0].name == name then 0
    else
      assert name in Names(members[1..]) by {
        var k :| 0 <= k < |members| && members[k].name == name;
        assert members[1..][k - 1].name == name;
      }
      1 + IndexOf(members[1..], name)
  }

  lemma {:induction false} NamesCount(members: seq<Member>)
    ensures |Names(members)| <= |members|
    ensures |Names(members)| == |members| <==> Distinct(members)
  {
    if members == [] {
      assert Names(members) == {};
    } else {
      var n := |members| - 1;
      var front := members[..n];
      NamesCount(front);
      NamesOfFront(members);
      DistinctOfFront(members);
    }
  }

  lemma NamesOfFront(members: seq<Member>)
    requires members != []
    ensures Names(members) == Names(members[..|members| - 1]) + {members[|members| - 1].name}
  {
  }

  lemma DistinctOfFront(members: seq<Member>)
    requires members != []
    ensures Distinct(members) <==>
            Distinct(members[..|members| - 1]) && members[|members| - 1].name !in Names(members[..|members| - 1])
  {
  }

  lemma EntriesMatchContent(members: seq<Member>, y: Entry)
    requires Distinct(members)
    ensures y in EntriesOf(members) <==> y.name in Content(members) && Content(members)[y.name] == y.item
  {
    if y in EntriesOf(members) {
      var i :| 0 <= i < |members| && EntriesOf(members)[i] == y;
      assert y.name in Names(members);
      assert IndexOf(members, y.name) == i;
    }
    if y.name in Content(members) && Content(members)[y.name] == y.item {
      var i := IndexOf(members, y.name);
      assert EntriesOf(members)[i] == y;
    }
  }

  lemma AcceptedIsDistinct(members: seq<Member>)
    requires Problem(members).None?
    ensures Distinct(members) && DistinctNames(EntriesOf(members)) && Sorted(Sort(EntriesOf(members)))
  {
    NamesCount(members);
    SortIsSorted(EntriesOf(members));
  }

  /** All members hang below one root. */
  ghost predicate OneRoot(members: seq<Member>) {
    members != [] && forall i :: 0 <= i < |members| ==> Root(members[i].name) == Root(members[0].name)
  }

  ghost predicate AllNamesSafe(members: seq<Member>) {
    forall i :: 0 <= i < |members| ==> SafeName(members[i].name)
  }

  ghost predicate NoSpecial(members: seq<Member>) {
    forall i :: 0 <= i < |members| ==> members[i].kind == Regular || members[i].kind == Directory
  }

  lemma OneRootIff(members: seq<Member>)
    requires members != []
    ensures |Roots(members)| == 1 <==> OneRoot(members)
  {
    var first := Root(members[0].name);
    assert first in Roots(members);
    if |Roots(members)| == 1 {
      forall i | 0 <= i < |members| ensures Root(members[i].name) == first {
        assert Root(members[i].name) in Roots(members);
        if Root(members[i].name) != first {
          assert {first, Root(members[i].name)} <= Roots(members);
          SubsetCount({first, Root(members[i].name)}, Roots(members));
        }
      }
    }
    if OneRoot(members) {
      assert Roots(members) == {first};
    }
  }

  lemma {:induction false} SubsetCount(a: set<string>, b: set<string>)
    requires a <= b
    ensures |a| <= |b|
  {
    if a != {} {
      var x :| x in a;
      SubsetCount(a - {x}, b - {x});
    }
  }

  /** What is normalised: exactly these archives, and each refusal names the first condition that fails. */
  lemma NormalizesIff(archive: Archive, epoch: int)
    ensures var result, members := Normalize(archive, epoch), archive.members;
      && (result == Err(BadEpoch) <==> !(315_532_800 <= epoch <= 2_147_483_647))
      && (result != Err(BadEpoch) ==>
          && (result == Err(NotAnArchive) <==> !archive.gzip)
          && (archive.gzip ==>
              && (result == Err(UnsafeName) <==> !AllNamesSafe(members))
              && (AllNamesSafe(members) ==>
                  && (result == Err(Empty) <==> members == [])
                  && (members != [] ==>
                      && (result == Err(DuplicateMembers) <==> !Distinct(members))
                      && (Distinct(members) ==>
                          && (result == Err(ManyRoots) <==> !OneRoot(members))
                          && (OneRoot(members) ==>
                              && (result == Err(SpecialMember) <==> !NoSpecial(members))
                              && (NoSpecial(members) ==> result.Ok?)))))))
  {
    NamesCount(archive.members);
    if archive.members != [] {
      OneRootIff(archive.members);
    }
  }

  /** What was written reads back as what it was written from. */
  lemma EntriesOfWritten(entries: seq<Entry>, epoch: int)
    ensures EntriesOf(WrittenAll(entries, epoch)) == entries
  {
  }

  /** Equal contents sort alike. */
  lemma SortsAgree(a: seq<Member>, b: seq<Member>)
    requires Distinct(a) && Distinct(b) && Content(a) == Content(b)
    requires DistinctNames(EntriesOf(a)) && DistinctNames(EntriesOf(b))
    ensures Sort(EntriesOf(a)) == Sort(EntriesOf(b))
  {
    var sa, sb := Sort(EntriesOf(a)), Sort(EntriesOf(b));
    SortIsSorted(EntriesOf(a));
    SortIsSorted(EntriesOf(b));
    NamesCount(a);
    NamesCount(b);
    assert Names(a) == Content(a).Keys && Names(b) == Content(b).Keys;
    forall y ensures y in sa <==> y in sb {
      EntriesMatchContent(a, y);
      EntriesMatchContent(b, y);
    }
    SortedIsUnique(sa, sb);
  }

  lemma ContentsAgree(a: seq<Member>, b: seq<Member>)
    requires Distinct(a) && Distinct(b) && Sort(EntriesOf(a)) == Sort(EntriesOf(b))
    ensures Content(a) == Content(b)
  {
    forall name ensures name in Content(a) ==> name in Content(b) && Content(a)[name] == Content(b)[name] {
      if name in Content(a) {
        var y := Named(name, Content(a)[name]);
        EntriesMatchContent(a, y);
        EntriesMatchContent(b, y);
        assert y in Sort(EntriesOf(a));
      }
    }
    forall name ensures name in Content(b) ==> name in Content(a) {
      if name in Content(b) {
        var y := Named(name, Content(b)[name]);
        EntriesMatchContent(a, y);
        EntriesMatchContent(b, y);
        assert y in Sort(EntriesOf(b));
      }
    }
  }

  /**
   Two accepted archives normalise alike if and only if they map the same names to the same payloads:
   member order, owners, times and all mode bits but a file's execute bits are forgotten, nothing else.
   */
  lemma NormalizedAlikeIff(a: Archive, b: Archive, epoch: int)
    requires Normalize(a, epoch).Ok? && Normalize(b, epoch).Ok?
    ensures Normalize(a, epoch) == Normalize(b, epoch) <==> Content(a.members) == Content(b.members)
  {
    AcceptedIsDistinct(a.members);
    AcceptedIsDistinct(b.members);
    if Content(a.members) == Content(b.members) {
      SortsAgree(a.members, b.members);
    }
    if Normalize(a, epoch) == Normalize(b, epoch) {
      EntriesOfWritten(Sort(EntriesOf(a.members)), epoch);
      EntriesOfWritten(Sort(EntriesOf(b.members)), epoch);
      ContentsAgree(a.members, b.members);
    }
  }

  /** What every member of a normalised archive looks like. */
  lemma OutputShape(archive: Archive, epoch: int)
    requires Normalize(archive, epoch).Ok?
    ensures var out := Normalize(archive, epoch).value.members;
      && |out| == |archive.members|
      && Names(out) == Names(archive.members) && Roots(out) == Roots(archive.members)
      && EntriesOf(out) == Sort(EntriesOf(archive.members))
      && Problem(out).None?
  {
    var entries := Sort(EntriesOf(archive.members));
    var out := WrittenAll(entries, epoch);
    AcceptedIsDistinct(archive.members);
    EntriesOfWritten(entries, epoch);
    SameNames(archive.members, out);
  }

  lemma SameNames(a: seq<Member>, b: seq<Member>)
    requires |a| == |b| && forall y :: y in EntriesOf(a) <==> y in EntriesOf(b)
    ensures Names(a) == Names(b) && Roots(a) == Roots(b)
    ensures (forall i :: 0 <= i < |a| ==> SafeName(a[i].name)) ==> forall i :: 0 <= i < |b| ==> SafeName(b[i].name)
  {
    forall i | 0 <= i < |a| ensures exists j :: 0 <= j < |b| && b[j].name == a[i].name {
      assert EntriesOf(a)[i] in EntriesOf(b);
      var j :| 0 <= j < |b| && EntriesOf(b)[j] == EntriesOf(a)[i];
      assert b[j].name == a[i].name;
    }
    forall j | 0 <= j < |b| ensures exists i :: 0 <= i < |a| && a[i].name == b[j].name {
      assert EntriesOf(b)[j] in EntriesOf(a);
      var i :| 0 <= i < |a| && EntriesOf(a)[i] == EntriesOf(b)[j];
      assert a[i].name == b[j].name;
    }
  }

  /** Normalising again, to any epoch, is normalising once to that epoch: the same epoch changes nothing. */
  lemma NormalizingAgain(archive: Archive, first: int, second: int)
    requires Normalize(archive, first).Ok? && EPOCH_MIN <= second <= EPOCH_MAX
    ensures Normalize(Normalize(archive, first).value, second) == Normalize(archive, second)
  {
    OutputShape(archive, first);
    var entries := Sort(EntriesOf(archive.members));
    AcceptedIsDistinct(archive.members);
    AcceptedIsDistinct(Normalize(archive, first).value.members);
    SortedIsUnique(Sort(entries), entries);
  }
}
