/**
 The release check of a source distribution: gzip header, members, and the identity its PKG-INFO claims.
 The normaliser's output must pass it. Parsing PKG-INFO's headers is a parameter.
 */
module ReleaseCheck {
  import opened Common
  import opened NameOrder
  import opened Sdist

  const MAX_MEMBER_BYTES := 128 * 1024 * 1024
  const MAX_TOTAL_BYTES := 512 * 1024 * 1024
  const ROOT_PREFIX := "dolores_bittensor_subnet-"

  /** What is being released. */
  datatype Release = Release(distribution: string, version: string, epoch: int) {
    function Root(): string {
      ROOT_PREFIX + version
    }

    function MetadataName(): string {
      Root() + "/PKG-INFO"
    }
  }

  /** The `Name` and `Version` headers, each absent or a text. */
  datatype Headers = Headers(name: Option<string>, version: Option<string>)

  type HeaderParser = string -> Headers

  const SMALL := "abcdefghijklmnopqrstuvwxyz"

  predicate Separator(c: char) {
    c == '-' || c == '_' || c == '.'
  }

  function Lower(c: char): char {
    if 'A' <= c <= 'Z' then (c as int + 32) as char else c
  }

  /** Runs of `-`, `_` and `.` become one `-`, letters become lower case. */
  function CanonicalName(name: string): string {
    if name == "" then ""
    else if !Separator(name[0]) then [Lower(name[0])] + CanonicalName(name[1..])
    else if |name| > 1 && Separator(name[1]) then CanonicalName(name[1..])
    else ['-'] + CanonicalName(name[1..])
  }

  /** The last step: whose metadata this is. */
  function IdentityFault(parse: HeaderParser, release: Release, metadata: string): Option<Fault> {
    var headers := parse(metadata);
    if headers.name.None? || CanonicalName(headers.name.value) != release.distribution then Some(WrongName)
    else if headers.version != Some(release.version) then Some(WrongVersion)
    else None
  }

  datatype Fault =
    | TooLargeCompressed | NotGzip | WrongGzipTime | NotSorted | Duplicates | UnsafePath | NotPlain | MemberTooLarge
    | TotalTooLarge | WrongTime | HostOwner | WrongMode | OutsideRoot | NoMetadata | WrongName | WrongVersion

  /** One member's checks, in order; `total` counts the bytes up to and including it. */
  function MemberFault(member: Member, total: nat, root: string, epoch: int): Option<Fault> {
    if !SafeName(member.name) then Some(UnsafePath)
    else if member.kind == Special then Some(NotPlain)
    else if member.size > MAX_MEMBER_BYTES then Some(MemberTooLarge)
    else if total > MAX_TOTAL_BYTES then Some(TotalTooLarge)
    else if member.mtime != epoch then Some(WrongTime)
    else if member.uid != 0 || member.gid != 0 || member.uname != "" || member.gname != "" then Some(HostOwner)
    else if member.mode != (if member.kind == Directory || Executable(member.mode) then 0x1ed else 0x1a4) then
      Some(WrongMode)
    else if Root(member.name) != root then Some(OutsideRoot)
    else None
  }

  function TotalSize(members: seq<Member>): nat {
    if members == [] then 0 else TotalSize(members[..|members| - 1]) + members[|members| - 1].size
  }

  predicate SortedNames(members: seq<Member>) {
    forall i :: 0 <= i < |members| - 1 ==>
      members[i].name == members[i + 1].name || Below(members[i].name, members[i + 1].name)
  }

  function MetadataMembers(members: seq<Member>, release: Release): seq<Member> {
    if members == [] then []
    else
      var front, last := MetadataMembers(members[..|members| - 1], release), members[|members| - 1];
      if last.name == release.MetadataName() then front + [last] else front
  }

  /** A member's checks as a function of the member and the running total. */
  function MemberCheck(root: string, epoch: int): (Member, nat) -> Option<Fault> {
    (member: Member, total: nat) => MemberFault(member, total, root, epoch)
  }

  /** The first fault of the members from number `i` on, when those before it add up to `total`. */
  function FirstFault(check: (Member, nat) -> Option<Fault>, members: seq<Member>, i: nat, total: nat): Option<Fault>
    requires i <= |members|
    decreases |members| - i
  {
    if i == |members| then None
    else
      var fault := check(members[i], total + members[i].size);
      if fault.Some? then fault else FirstFault(check, members, i + 1, total + members[i].size)
  }

  function ReleaseFault(parse: HeaderParser, archive: Archive, compressedSize: nat, release: Release): Option<Fault> {
    var members := archive.members;
    if compressedSize > MAX_MEMBER_BYTES then Some(TooLargeCompressed)
    else if !archive.gzip then Some(NotGzip)
    else if archive.gzipTime != release.epoch then Some(WrongGzipTime)
    else if !SortedNames(members) then Some(NotSorted)
    else if |Names(members)| != |members| then Some(Duplicates)
    else
      var fault := FirstFault(MemberCheck(release.Root(), release.epoch), members, 0, 0);
      var metadata := MetadataMembers(members, release);
      if fault.Some? then fault
      else if |metadata| != 1 || metadata[0].kind != Regular then Some(NoMetadata)
      else IdentityFault(parse, release, metadata[0].data)
  }

  method CheckMembers(members: seq<Member>, root: string, epoch: int) returns (fault: Option<Fault>)
    ensures fault == FirstFault(MemberCheck(root, epoch), members, 0, 0)
  {
    ghost var check := MemberCheck(root, epoch);
    var total: nat := 0;
    for i := 0 to |members|
      invariant FirstFault(check, members, 0, 0) == FirstFault(check, members, i, total)
    {
      var member := members[i];
      if !SafeName(member.name) { return Some(UnsafePath); }
      if member.kind == Special { return Some(NotPlain); }
      if member.size > MAX_MEMBER_BYTES { return Some(MemberTooLarge); }
      total := total + member.size;
      if total > MAX_TOTAL_BYTES { return Some(TotalTooLarge); }
      if member.mtime != epoch { return Some(WrongTime); }
      if member.uid != 0 || member.gid != 0 || member.uname != "" || member.gname != "" { return Some(HostOwner); }
      var expectedMode: bv12 := if member.kind == Directory || Executable(member.mode) then 0x1ed else 0x1a4;
      if member.mode != expectedMode { return Some(WrongMode); }
      if Root(member.name) != root { return Some(OutsideRoot); }
    }
    fault := None;
  }

  method ValidateSdist(parse: HeaderParser, archive: Archive, compressedSize: nat, release: Release)
    returns (fault: Option<Fault>)
    ensures fault == ReleaseFault(parse, archive, compressedSize, release)
  {
    if compressedSize > MAX_MEMBER_BYTES { return Some(TooLargeCompressed); }
    if !archive.gzip { return Some(NotGzip); }
    if archive.gzipTime != release.epoch { return Some(WrongGzipTime); }
    var members := archive.members;
    if !SortedNames(members) { return Some(NotSorted); }
    if |Names(members)| != |members| { return Some(Duplicates); }
    fault := CheckMembers(members, release.Root(), release.epoch);
    if fault.Some? { return fault; }
    var metadata := MetadataMembers(members, release);
    if |metadata| != 1 || metadata[0].kind != Regular { return Some(NoMetadata); }
    fault := IdentityFault(parse, release, metadata[0].data);
  }

  /** A member without regard to the running total: safe, plain, small, canonical and under the root. */
  ghost predicate Canonical(member: Member, root: string, epoch: int) {
    MemberFault(member, 0, root, epoch).None?
  }

  lemma TotalOfPrefix(members: seq<Member>, i: nat)
    requires i < |members|
    ensures TotalSize(members[..i + 1]) == TotalSize(members[..i]) + members[i].size
  {
    assert members[..i + 1][..i] == members[..i];
  }

  /** The running total decides nothing but the limit on itself. */
  ghost predicate ChecksTotalOnly(check: (Member, nat) -> Option<Fault>) {
    forall m: Member, total: nat :: check(m, total).None? <==> check(m, 0).None? && total <= MAX_TOTAL_BYTES
  }

  lemma MemberFaultSplits(member: Member, total: nat, root: string, epoch: int)
    ensures MemberFault(member, total, root, epoch).None? <==>
            Canonical(member, root, epoch) && total <= MAX_TOTAL_BYTES
  {
  }

  /** The running total only matters through its final value, because it never shrinks. */
  lemma {:induction false} NoFaultIff(check: (Member, nat) -> Option<Fault>, members: seq<Member>, i: nat)
    requires i <= |members|
    requires ChecksTotalOnly(check)
    requires TotalSize(members[..i]) <= MAX_TOTAL_BYTES
    ensures FirstFault(check, members, i, TotalSize(members[..i])).None? <==>
            (forall k :: i <= k < |members| ==> check(members[k], 0).None?) && TotalSize(members) <= MAX_TOTAL_BYTES
    decreases |members| - i
  {
    if i == |members| {
      assert members[..i] == members;
    } else {
      TotalOfPrefix(members, i);
      TotalGrows(members, i + 1);
      if TotalSize(members[..i + 1]) <= MAX_TOTAL_BYTES {
        NoFaultIff(check, members, i + 1);
      }
    }
  }

  /** Member number `i` is faulty, given the bytes up to and including it, and none before it is. */
  ghost predicate FirstFaulty(check: (Member, nat) -> Option<Fault>, members: seq<Member>, i: nat) {
    && i < |members| && check(members[i], TotalSize(members[..i + 1])).Some?
    && forall k :: 0 <= k < i ==> check(members[k], TotalSize(members[..k + 1])).None?
  }

  /** What the loop over the members reports is the fault of the first faulty one. */
  lemma {:induction false} FirstFaultIs(check: (Member, nat) -> Option<Fault>, members: seq<Member>, i: nat)
    requires i <= |members|
    requires forall k :: 0 <= k < i ==> check(members[k], TotalSize(members[..k + 1])).None?
    ensures var fault := FirstFault(check, members, i, TotalSize(members[..i]));
      if fault.None? then forall k :: 0 <= k < |members| ==> check(members[k], TotalSize(members[..k + 1])).None?
      else exists k: nat :: FirstFaulty(check, members, k) && check(members[k], TotalSize(members[..k + 1])) == fault
    decreases |members| - i
  {
    if i < |members| {
      TotalOfPrefix(members, i);
      if check(members[i], TotalSize(members[..i + 1])).None? {
        FirstFaultIs(check, members, i + 1);
      } else {
        assert FirstFaulty(check, members, i);
      }
    }
  }

  /** What the release wants of each member on its own. */
  ghost predicate Publishable(member: Member, release: Release) {
    && SafeName(member.name) && Root(member.name) == "dolores_bittensor_subnet-" + release.version
    && (member.kind == Regular || member.kind == Directory)
    && member.size <= 134_217_728
    && member.mtime == release.epoch
    && member.uid == 0 && member.gid == 0 && member.uname == "" && member.gname == ""
    && (member.mode == 0x1ed || (member.mode == 0x1a4 && member.kind == Regular))
  }

  lemma CanonicalIff(member: Member, release: Release)
    ensures Canonical(member, release.Root(), release.epoch) <==> Publishable(member, release)
  {
  }

  /** A member's fault is the first of these, in this order. */
  lemma MemberFaultSays(member: Member, total: nat, root: string, epoch: int)
    ensures var fault := MemberFault(member, total, root, epoch);
      var owned := member.uid != 0 || member.gid != 0 || member.uname != "" || member.gname != "";
      if !SafeName(member.name) then fault == Some(UnsafePath)
      else if member.kind != Regular && member.kind != Directory then fault == Some(NotPlain)
      else if member.size > 134_217_728 then fault == Some(MemberTooLarge)
      else if total > 536_870_912 then fault == Some(TotalTooLarge)
      else if member.mtime != epoch then fault == Some(WrongTime)
      else if owned then fault == Some(HostOwner)
      else if member.mode != 0x1ed && (member.mode != 0x1a4 || member.kind == Directory) then fault == Some(WrongMode)
      else if Root(member.name) != root then fault == Some(OutsideRoot)
      else fault == None
  {
  }

  /** Names in strictly ascending order: sorted, and none twice. */
  ghost predicate AscendingNames(members: seq<Member>) {
    forall i, j :: 0 <= i < j < |members| ==> Below(members[i].name, members[j].name)
  }

  lemma {:induction false} SortedUpTo(members: seq<Member>, i: nat, j: nat)
    requires SortedNames(members) && i <= j < |members|
    ensures members[i].name == members[j].name || Below(members[i].name, members[j].name)
    decreases j - i
  {
    if i + 1 < j {
      SortedUpTo(members, i + 1, j);
      if Below(members[i].name, members[i + 1].name) && Below(members[i + 1].name, members[j].name) {
        BelowIsTransitive(members[i].name, members[i + 1].name, members[j].name);
      }
    }
  }

  lemma AscendingIff(members: seq<Member>)
    ensures SortedNames(members) && Distinct(members) <==> AscendingNames(members)
  {
    if SortedNames(members) && Distinct(members) {
      forall i, j | 0 <= i < j < |members| ensures Below(members[i].name, members[j].name) {
        SortedUpTo(members, i, j);
      }
    }
    if AscendingNames(members) {
      forall i, j | 0 <= i < j < |members| ensures members[i].name != members[j].name {
        BelowIsStrict(members[i].name, members[j].name);
      }
    }
  }

  /** Member number `i` is the release's PKG-INFO, and says whose it is. */
  ghost predicate Identifies(parse: HeaderParser, release: Release, members: seq<Member>, i: nat) {
    && i < |members| && members[i].kind == Regular
    && members[i].name == "dolores_bittensor_subnet-" + release.version + "/PKG-INFO"
    && var headers := parse(members[i].data);
      && headers.name.Some? && CanonicalName(headers.name.value) == release.distribution
      && headers.version == Some(release.version)
  }

  lemma IdentifiesIff(parse: HeaderParser, release: Release, members: seq<Member>)
    requires Distinct(members)
    ensures (exists i: nat :: Identifies(parse, release, members, i)) <==>
      var found := MetadataMembers(members, release);
      |found| == 1 && found[0].kind == Regular && IdentityFault(parse, release, found[0].data).None?
  {
    var found := MetadataMembers(members, release);
    MetadataOfDistinct(members, release);
    if i: nat :| Identifies(parse, release, members, i) {
      assert members[i].name in Names(members);
      assert found[0] in found;
      var k :| 0 <= k < |members| && members[k] == found[0];
      assert k == i;
    }
    if |found| == 1 && found[0].kind == Regular && IdentityFault(parse, release, found[0].data).None? {
      assert found[0] in found;
      var k: nat :| k < |members| && members[k] == found[0];
      assert Identifies(parse, release, members, k);
    }
  }

  /** Any archive, normalised or not: the check accepts it exactly when all of this holds. */
  lemma ReleaseAcceptsIff(parse: HeaderParser, archive: Archive, compressedSize: nat, release: Release)
    ensures ReleaseFault(parse, archive, compressedSize, release).None? <==>
      && compressedSize <= 134_217_728 && archive.gzip && archive.gzipTime == release.epoch
      && AscendingNames(archive.members)
      && (forall i :: 0 <= i < |archive.members| ==> Publishable(archive.members[i], release))
      && TotalSize(archive.members) <= 536_870_912
      && exists i: nat :: Identifies(parse, release, archive.members, i)
  {
    var members := archive.members;
    NamesCount(members);
    AscendingIff(members);
    MembersPassIff(members, release);
    if Distinct(members) { IdentifiesIff(parse, release, members); }
  }

  lemma MembersPassIff(members: seq<Member>, release: Release)
    ensures FirstFault(MemberCheck(release.Root(), release.epoch), members, 0, 0).None? <==>
      && (forall i :: 0 <= i < |members| ==> Publishable(members[i], release))
      && TotalSize(members) <= 536_870_912
  {
    var check := MemberCheck(release.Root(), release.epoch);
    ChecksAreTotalOnly(release.Root(), release.epoch);
    assert members[..0] == [];
    NoFaultIff(check, members, 0);
    forall i | 0 <= i < |members| ensures check(members[i], 0).None? <==> Publishable(members[i], release) {
      CanonicalIff(members[i], release);
    }
  }

  /** And what it reports otherwise is the first of these, in this order. */
  lemma ReleaseFaultSays(parse: HeaderParser, archive: Archive, compressedSize: nat, release: Release)
    ensures var fault, members := ReleaseFault(parse, archive, compressedSize, release), archive.members;
      var member := FirstFault(MemberCheck(release.Root(), release.epoch), members, 0, 0);
      if compressedSize > 134_217_728 then fault == Some(TooLargeCompressed)
      else if !archive.gzip then fault == Some(NotGzip)
      else if archive.gzipTime != release.epoch then fault == Some(WrongGzipTime)
      else if exists i :: 0 <= i < |members| - 1 && Below(members[i + 1].name, members[i].name) then
        fault == Some(NotSorted)
      else if !Distinct(members) then fault == Some(Duplicates)
      else if member.Some? then fault == member
      else if !exists i: nat :: i < |members| && members[i].kind == Regular && members[i].name == release.MetadataName()
      then fault == Some(NoMetadata)
      else fault in {None, Some(WrongName), Some(WrongVersion)}
  {
    var members := archive.members;
    NamesCount(members);
    forall i | 0 <= i < |members| - 1
      ensures Below(members[i + 1].name, members[i].name) <==>
              !(members[i].name == members[i + 1].name || Below(members[i].name, members[i + 1].name))
    {
      BelowIsTotal(members[i].name, members[i + 1].name);
      if Below(members[i + 1].name, members[i].name) { BelowIsStrict(members[i + 1].name, members[i].name); }
    }
    if Distinct(members) { PresentIff(members, release); }
  }

  lemma PresentIff(members: seq<Member>, release: Release)
    requires Distinct(members)
    ensures (exists i: nat :: i < |members| && members[i].kind == Regular && members[i].name == release.MetadataName())
      <==> |MetadataMembers(members, release)| == 1 && MetadataMembers(members, release)[0].kind == Regular
  {
    var found := MetadataMembers(members, release);
    MetadataOfDistinct(members, release);
    if i: nat :| i < |members| && members[i].kind == Regular && members[i].name == release.MetadataName() {
      assert members[i].name in Names(members);
      assert found[0] in found;
      var k :| 0 <= k < |members| && members[k] == found[0];
      assert k == i;
    }
    if |found| == 1 {
      assert found[0] in found;
    }
  }

  lemma ChecksAreTotalOnly(root: string, epoch: int)
    ensures ChecksTotalOnly(MemberCheck(root, epoch))
  {
    var check := MemberCheck(root, epoch);
    forall m: Member, total: nat ensures check(m, total).None? <==> check(m, 0).None? && total <= MAX_TOTAL_BYTES {
      MemberFaultSplits(m, total, root, epoch);
    }
  }

  /** Both headers must be there; the name counts up to case and separators, the version to the letter. */
  lemma IdentityIff(parse: HeaderParser, release: Release, metadata: string)
    ensures var headers := parse(metadata);
      IdentityFault(parse, release, metadata).None? <==>
        && headers.name.Some? && CanonicalName(headers.name.value) == release.distribution
        && headers.version.Some? && headers.version.value == release.version
    ensures IdentityFault(parse, release, metadata) == Some(WrongName) <==>
      parse(metadata).name.None? || CanonicalName(parse(metadata).name.value) != release.distribution
    ensures IdentityFault(parse, release, metadata) in {None, Some(WrongName), Some(WrongVersion)}
  {
  }

  /** Capitals become the small letters of the same place in the alphabet. */
  lemma LowerIs(c: char)
    ensures 'A' <= c <= 'Z' ==> Lower(c) == SMALL[c as int - 'A' as int]
    ensures !('A' <= c <= 'Z') ==> Lower(c) == c
  {
  }

  /** A canonical name has no capitals, no `_` or `.`, and no two separators in a row. */
  ghost predicate IsCanonicalName(name: string) {
    && (forall i :: 0 <= i < |name| ==> !('A' <= name[i] <= 'Z') && name[i] != '_' && name[i] != '.')
    && forall i :: 0 <= i < |name| - 1 ==> name[i] != '-' || name[i + 1] != '-'
  }

  lemma {:induction false} CanonicalNameIsCanonical(name: string)
    ensures IsCanonicalName(CanonicalName(name))
    ensures CanonicalName(name) != "" && CanonicalName(name)[0] == '-' <==> name != "" && Separator(name[0])
  {
    if name != "" {
      CanonicalNameIsCanonical(name[1..]);
    }
  }

  /** A name that is canonical is left alone. */
  lemma {:induction false} CanonicalNameIsStable(name: string)
    requires IsCanonicalName(name)
    ensures CanonicalName(name) == name
  {
    if name != "" {
      var rest := name[1..];
      assert forall i :: 0 <= i < |rest| ==> rest[i] == name[i + 1];
      CanonicalNameIsStable(rest);
      assert name == [name[0]] + rest;
    }
  }

  /** What stands between the separators. */
  function Letters(name: string): string {
    if name == "" then "" else (if Separator(name[0]) then "" else [name[0]]) + Letters(name[1..])
  }

  /** Only separators are merged: the letters come out in order, each in lower case. */
  lemma {:induction false} LettersAreKept(name: string)
    ensures |Letters(CanonicalName(name))| == |Letters(name)|
    ensures forall i :: 0 <= i < |Letters(name)| ==> Letters(CanonicalName(name))[i] == Lower(Letters(name)[i])
  {
    if name != "" {
      var c := [if Separator(name[0]) then '-' else Lower(name[0])];
      LettersAreKept(name[1..]);
      assert (c + CanonicalName(name[1..]))[1..] == CanonicalName(name[1..]);
    }
  }

  lemma {:induction false} TotalGrows(members: seq<Member>, k: nat)
    requires k <= |members|
    ensures TotalSize(members[..k]) <= TotalSize(members)
  {
    if k < |members| {
      TotalGrows(members[..|members| - 1], k);
      assert members[..|members| - 1][..k] == members[..k];
    } else {
      assert members[..k] == members;
    }
  }

  /** With distinct names there is at most one metadata member, and it is the one so named. */
  lemma {:induction false} MetadataOfDistinct(members: seq<Member>, release: Release)
    requires Distinct(members)
    ensures |MetadataMembers(members, release)| == 1 <==> release.MetadataName() in Names(members)
    ensures |MetadataMembers(members, release)| <= 1
    ensures forall m :: m in MetadataMembers(members, release) ==> m in members && m.name == release.MetadataName()
  {
    if members != [] {
      var n := |members| - 1;
      MetadataOfDistinct(members[..n], release);
      NamesOfFront(members);
      DistinctOfFront(members);
    }
  }

  lemma OutputIsSorted(archive: Archive, epoch: int)
    requires Normalize(archive, epoch).Ok?
    ensures SortedNames(Normalize(archive, epoch).value.members)
  {
    AcceptedIsDistinct(archive.members);
  }

  /** The archive holds a PKG-INFO file under the release's root. */
  ghost predicate HasMetadata(members: seq<Member>, release: Release) {
    release.MetadataName() in Content(members) && Content(members)[release.MetadataName()].File?
  }

  lemma MetadataIsKept(archive: Archive, epoch: int, release: Release)
    requires Normalize(archive, epoch).Ok?
    ensures var found := MetadataMembers(Normalize(archive, epoch).value.members, release);
      && (|found| == 1 && found[0].kind == Regular <==> HasMetadata(archive.members, release))
      && (HasMetadata(archive.members, release) ==>
          found[0].data == Content(archive.members)[release.MetadataName()].data)
  {
    var out := Normalize(archive, epoch).value.members;
    OutputShape(archive, epoch);
    AcceptedIsDistinct(archive.members);
    AcceptedIsDistinct(out);
    MetadataOfDistinct(out, release);
    var found := MetadataMembers(out, release);
    if |found| == 1 {
      assert found[0] in found;
      var i :| 0 <= i < |out| && out[i] == found[0];
      var y := EntriesOf(out)[i];
      assert y == Named(found[0].name, PayloadOf(found[0])) && y in EntriesOf(archive.members);
      EntriesMatchContent(archive.members, y);
    }
  }

  /** A written member is publishable exactly when epoch, root and size are as the release wants them. */
  lemma WrittenIsPublishableIff(entry: Entry, epoch: int, release: Release)
    requires SafeName(entry.name)
    ensures Publishable(Written(entry, epoch), release) <==>
            && epoch == release.epoch && Root(entry.name) == release.Root()
            && Written(entry, epoch).size <= MAX_MEMBER_BYTES
  {
  }

  lemma RootsAreOneIff(members: seq<Member>, entries: seq<Entry>, root: string)
    requires members != [] && |entries| == |members| && forall y :: y in entries <==> y in EntriesOf(members)
    ensures Roots(members) == {root} <==> forall i :: 0 <= i < |entries| ==> Root(entries[i].name) == root
  {
    forall i | 0 <= i < |entries| ensures Root(entries[i].name) in Roots(members) {
      assert entries[i] in EntriesOf(members);
      var k :| 0 <= k < |members| && EntriesOf(members)[k] == entries[i];
      assert members[k].name == entries[i].name;
    }
    if forall i :: 0 <= i < |entries| ==> Root(entries[i].name) == root {
      forall k | 0 <= k < |members| ensures Root(members[k].name) == root {
        assert EntriesOf(members)[k] in entries;
      }
      assert Root(members[0].name) in Roots(members);
    }
  }

  lemma SortedNamesAreSafe(members: seq<Member>)
    requires forall k :: 0 <= k < |members| ==> SafeName(members[k].name)
    ensures forall y :: y in Sort(EntriesOf(members)) ==> SafeName(y.name)
  {
    forall y | y in Sort(EntriesOf(members)) ensures SafeName(y.name) {
      var k :| 0 <= k < |members| && EntriesOf(members)[k] == y;
      assert members[k].name == y.name;
    }
  }

  lemma OutputIsPublishableIff(archive: Archive, epoch: int, release: Release)
    requires Normalize(archive, epoch).Ok?
    ensures (forall i :: 0 <= i < |Normalize(archive, epoch).value.members| ==>
              Publishable(Normalize(archive, epoch).value.members[i], release)) <==>
        && release.epoch == epoch && Roots(archive.members) == {release.Root()}
        && (forall m :: m in Normalize(archive, epoch).value.members ==> m.size <= MAX_MEMBER_BYTES)
  {
    var entries := Sort(EntriesOf(archive.members));
    var out := WrittenAll(entries, epoch);
    RootsAreOneIff(archive.members, entries, release.Root());
    SortedNamesAreSafe(archive.members);
    forall i | 0 <= i < |out|
      ensures Publishable(out[i], release) <==>
              epoch == release.epoch && Root(entries[i].name) == release.Root() && out[i].size <= MAX_MEMBER_BYTES
    {
      WrittenIsPublishableIff(entries[i], epoch, release);
    }
    assert out[0] in out;
  }

  /**
   The release check accepts a normalised archive if and only if it was normalised to the release epoch,
   its one root is the release's and holds a regular PKG-INFO that names the distribution and version,
   and the size limits are met.
   */
  lemma NormalizedIsAcceptedIff(parse: HeaderParser, archive: Archive, epoch: int,
                                compressedSize: nat, release: Release)
    requires Normalize(archive, epoch).Ok?
    ensures ReleaseFault(parse, Normalize(archive, epoch).value, compressedSize, release).None? <==>
        && compressedSize <= MAX_MEMBER_BYTES && release.epoch == epoch
        && Roots(archive.members) == {release.Root()}
        && HasMetadata(archive.members, release)
        && IdentityFault(parse, release, Content(archive.members)[release.MetadataName()].data).None?
        && (forall m :: m in Normalize(archive, epoch).value.members ==> m.size <= MAX_MEMBER_BYTES)
        && TotalSize(Normalize(archive, epoch).value.members) <= MAX_TOTAL_BYTES
  {
    var out := Normalize(archive, epoch).value;
    OutputShape(archive, epoch);
    OutputIsSorted(archive, epoch);
    AcceptedIsDistinct(out.members);
    AscendingIff(out.members);
    IdentifiesIff(parse, release, out.members);
    ReleaseAcceptsIff(parse, out, compressedSize, release);
    MetadataIsKept(archive, epoch, release);
    OutputIsPublishableIff(archive, epoch, release);
  }
}
