/** Choosing a NIC by its PCI distance from a GPU, and a GID by its kind. */
module Topology {
  import opened Basics
  import opened TokenCodec

  const INT_MAX: int := 0x7FFF_FFFF

  // ----- The distance between two PCI buses -----

  /** Everything before the last ':', or all of it when there is none. */
  function BusNumber(id: string): (bus: string)
    ensures |bus| <= |id| && bus == id[..|bus|]
    ensures ':' in id ==> |bus| < |id| && id[|bus|] == ':' && ':' !in id[|bus| + 1..]
    ensures ':' !in id ==> bus == id
  {
    BusPrefix(id, |id|)
  }

  /** The part of `id` before its last ':' when the characters from `end` on have none. */
  function BusPrefix(id: string, end: nat): (bus: string)
    requires end <= |id| && ':' !in id[end..]
    ensures |bus| <= |id| && bus == id[..|bus|]
    ensures ':' in id ==> |bus| < |id| && id[|bus|] == ':' && ':' !in id[|bus| + 1..]
    ensures ':' !in id ==> bus == id
  {
    if end == 0 then assert id[0..] == id; id
    else if id[end - 1] == ':' then id[..end - 1]
    else
      assert id[end - 1..] == [id[end - 1]] + id[end..];
      BusPrefix(id, end - 1)
  }

  /** The length of the longest common prefix. */
  function CommonPrefix(a: string, b: string): (k: nat)
    ensures k <= |a| && k <= |b|
  {
    if a == "" || b == "" || a[0] != b[0] then 0 else 1 + CommonPrefix(a[1..], b[1..])
  }

  /** How far apart two buses are: the steps from each up to their longest common prefix. */
  function BusDistance(a: string, b: string): nat { |a| - CommonPrefix(a, b) + |b| - CommonPrefix(a, b) }

  /** It is the longest: the strings agree on a prefix exactly when it is no longer. */
  lemma {:induction false} CommonPrefixIsLongest(a: string, b: string, k: nat)
    requires k <= |a| && k <= |b|
    ensures a[..k] == b[..k] <==> k <= CommonPrefix(a, b)
  {
    if k == 0 {
    } else {
      if a[0] == b[0] {
        CommonPrefixIsLongest(a[1..], b[1..], k - 1);
        assert a[..k] == [a[0]] + a[1..][..k - 1] && b[..k] == [b[0]] + b[1..][..k - 1];
        if a[..k] == b[..k] {
          assert a[1..][..k - 1] == a[..k][1..] && b[1..][..k - 1] == b[..k][1..];
        }
      } else {
        assert a[..k][0] != b[..k][0];
      }
    }
  }

  lemma CommonPrefixIs(a: string, b: string, k: nat)
    requires k <= |a| && k <= |b| && a[..k] == b[..k]
    requires k == |a| || k == |b| || a[k] != b[k]
    ensures CommonPrefix(a, b) == k
  {
    CommonPrefixIsLongest(a, b, k);
    if k < |a| && k < |b| {
      assert a[..k + 1][k] != b[..k + 1][k];
      CommonPrefixIsLongest(a, b, k + 1);
    }
  }

  lemma {:induction false} CommonPrefixSymmetric(a: string, b: string)
    ensures CommonPrefix(a, b) == CommonPrefix(b, a)
  {
    if a != "" && b != "" && a[0] == b[0] { CommonPrefixSymmetric(a[1..], b[1..]); }
  }

  /** Two strings agree at least as far as both agree with a third. */
  lemma {:induction false} CommonPrefixThrough(a: string, b: string, c: string)
    ensures CommonPrefix(a, c) >= CommonPrefix(a, b) || CommonPrefix(a, c) >= CommonPrefix(b, c)
  {
    if a != "" && b != "" && c != "" && a[0] == b[0] == c[0] { CommonPrefixThrough(a[1..], b[1..], c[1..]); }
  }

  /** The distance of two buses is what is left of each after their common part. */
  lemma BusDistanceOf(common: string, x: string, y: string)
    requires x == "" || y == "" || x[0] != y[0]
    ensures BusDistance(common + x, common + y) == |x| + |y|
  {
    var a, b := common + x, common + y;
    assert a[..|common|] == b[..|common|];
    CommonPrefixIs(a, b, |common|);
  }

  /** The prefix distance is a metric on buses. */
  lemma BusDistanceIsAMetric(a: string, b: string, c: string)
    ensures BusDistance(a, b) == BusDistance(b, a)
    ensures BusDistance(a, b) == 0 <==> a == b
    ensures BusDistance(a, c) <= BusDistance(a, b) + BusDistance(b, c)
  {
    CommonPrefixSymmetric(a, b);
    CommonPrefixThrough(a, b, c);
    CommonPrefixSymmetric(b, c);
    if BusDistance(a, b) == 0 {
      CommonPrefixIsLongest(a, b, |a|);
      assert a[..|a|] == a && b[..|a|] == b;
    }
    if a == b { CommonPrefixIsLongest(a, b, |a|); }
  }

  /** The distance between two bus ids: an id that is not known is as far as can be. */
  function IdDistance(idA: string, idB: string): int {
    if idA == "" || idB == "" then INT_MAX else BusDistance(BusNumber(idA), BusNumber(idB))
  }

  /** static_cast<int>() of a size. */
  function ToInt(n: nat): int {
    var low := n % 0x1_0000_0000;
    if low <= INT_MAX then low else low - 0x1_0000_0000
  }

  method GetBusIdDistance(idA: string, idB: string) returns (d: int)
    ensures |idA| + |idB| <= INT_MAX ==> d == IdDistance(idA, idB)
  {
    if idA == "" || idB == "" {
      return INT_MAX;
    }
    var a, b := BusNumber(idA), BusNumber(idB);
    BusDistanceIsAMetric(a, b, b);
    if a == b {
      return 0;
    }
    var i := CommonLength(a, b);
    SmallFits(|a| - i);
    SmallFits(|b| - i);
    d := ToInt(|a| - i) + ToInt(|b| - i);
  }

  lemma SmallFits(n: nat)
    ensures n <= INT_MAX ==> ToInt(n) == n
  {
  }

  /** The loop over both strings. */
  method CommonLength(a: string, b: string) returns (i: nat)
    ensures i == CommonPrefix(a, b)
  {
    i := 0;
    while i < |a| && i < |b| && a[i] == b[i]
      invariant i <= |a| && i <= |b| && a[..i] == b[..i]
    {
      assert a[..i + 1] == a[..i] + [a[i]] && b[..i + 1] == b[..i] + [b[i]];
      i := i + 1;
    }
    CommonPrefixIs(a, b, i);
  }

  // ----- The closest NIC -----

  datatype NicInfo = NicInfo(name: string, busId: string)
  datatype RdmaNic = RdmaNic(index: nat, name: string)

  /** The characters before the first NUL, or all of them. */
  function UpToNul(buf: string): (s: string)
    ensures '\0' !in s && |s| <= |buf| && s == buf[..|s|] && (|s| < |buf| ==> buf[|s|] == '\0')
  {
    if buf == "" || buf[0] == '\0' then "" else [buf[0]] + UpToNul(buf[1..])
  }

  /** Bus ids are file names and a 32-character buffer, so a distance fits in an int. */
  predicate Short(nics: seq<NicInfo>, gpu: string) {
    forall i :: 0 <= i < |nics| ==> |nics[i].busId| + |gpu| < INT_MAX
  }

  /** NIC `i` is the first of the closest, among those whose bus id is known. */
  predicate FirstClosest(nics: seq<NicInfo>, gpu: string, i: nat) {
    && i < |nics| && nics[i].busId != "" && gpu != ""
    && forall j :: 0 <= j < |nics| && nics[j].busId != "" ==>
         var mine, other := BusDistance(BusNumber(nics[i].busId), BusNumber(gpu)),
           BusDistance(BusNumber(nics[j].busId), BusNumber(gpu));
         if j < i then mine < other else mine <= other
  }

  lemma KnownIsFinite(id: string, gpu: string)
    requires |id| + |gpu| < INT_MAX
    ensures IdDistance(id, gpu) <= INT_MAX
    ensures IdDistance(id, gpu) == INT_MAX <==> id == "" || gpu == ""
  {
  }

  /** `gpuId`: what HIP wrote for the GPU's bus id, or nothing when it failed. The choice is the
      first of the closest NICs with a known bus id, and there is none exactly when no NIC has a
      known bus id or the GPU's is not known. */
  method GetClosestNicToGpu(gpuId: Option<string>, nics: seq<NicInfo>) returns (r: Option<RdmaNic>)
    ensures gpuId.None? ==> r.None?
    ensures gpuId.Some? && Short(nics, UpToNul(gpuId.value)) ==>
      && (r.Some? ==>
            FirstClosest(nics, UpToNul(gpuId.value), r.value.index) && r.value.name == nics[r.value.index].name)
      && (r.None? <==> UpToNul(gpuId.value) == "" || forall i :: 0 <= i < |nics| ==> nics[i].busId == "")
  {
    if gpuId.None? {
      return None;
    }
    var gpu := UpToNul(gpuId.value);
    if |nics| == 0 {
      return None;
    }
    var best := 0;
    var least := GetBusIdDistance(nics[0].busId, gpu);
    for i := 1 to |nics|
      invariant best < i
      invariant Short(nics, gpu) ==> LeastSoFar(nics, gpu, i, best, least)
    {
      var d := GetBusIdDistance(nics[i].busId, gpu);
      if Short(nics, gpu) { LeastNext(nics, gpu, i, best, least, d); }
      if d < least {
        best, least := i, d;
      }
    }
    if Short(nics, gpu) { LeastIsClosest(nics, gpu, best, least); }
    if least == INT_MAX {
      return None;
    }
    r := Some(RdmaNic(best, nics[best].name));
  }

  lemma LeastNext(nics: seq<NicInfo>, gpu: string, n: nat, best: nat, least: int, d: int)
    requires n < |nics| && LeastSoFar(nics, gpu, n, best, least) && d == IdDistance(nics[n].busId, gpu)
    ensures if d < least then LeastSoFar(nics, gpu, n + 1, n, d) else LeastSoFar(nics, gpu, n + 1, best, least)
  {
  }

  /** The least distance is finite exactly when there is a NIC to choose, and then the choice is right. */
  lemma LeastIsClosest(nics: seq<NicInfo>, gpu: string, best: nat, least: int)
    requires Short(nics, gpu) && LeastSoFar(nics, gpu, |nics|, best, least)
    ensures least == INT_MAX <==> gpu == "" || forall i :: 0 <= i < |nics| ==> nics[i].busId == ""
    ensures least != INT_MAX ==> FirstClosest(nics, gpu, best)
  {
    forall j | 0 <= j < |nics|
      ensures IdDistance(nics[j].busId, gpu) <= INT_MAX
      ensures IdDistance(nics[j].busId, gpu) == INT_MAX <==> nics[j].busId == "" || gpu == ""
    {
      KnownIsFinite(nics[j].busId, gpu);
    }
  }

  /** Among the first `n` NICs, `best` is the first at the least distance. */
  predicate LeastSoFar(nics: seq<NicInfo>, gpu: string, n: nat, best: nat, least: int) {
    && best < n <= |nics| && least == IdDistance(nics[best].busId, gpu)
    && (forall j :: 0 <= j < n ==> least <= IdDistance(nics[j].busId, gpu))
    && (forall j :: 0 <= j < best ==> least < IdDistance(nics[j].busId, gpu))
  }

  /** The choice is determined: there is only one first closest NIC. */
  lemma FirstClosestIsUnique(nics: seq<NicInfo>, gpu: string, i: nat, j: nat)
    requires FirstClosest(nics, gpu, i) && FirstClosest(nics, gpu, j)
    ensures i == j
  {
  }

  // ----- The preferred GID -----

  datatype RoceVersion = V1 | V2 | UnknownVersion

  datatype GidCandidate = GidCandidate(index: int, gid: Gid, roceVersion: RoceVersion)

  const NO_PRIORITY: int := -1

  predicate Configured(gid: Gid) { exists i :: 0 <= i < GID_LEN && gid[i] != 0 }

  predicate Ipv4Mapped(gid: Gid) { (forall i :: 0 <= i < 10 ==> gid[i] == 0) && gid[10] == 0xff && gid[11] == 0xff }

  predicate LinkLocal(gid: Gid) { gid[0] == 0xfe && gid[1] == 0x80 }

  /** The rank of a GID, or -1 when its RoCE version is not known. */
  function Priority(c: GidCandidate): int {
    match c.roceVersion
    case V2 => if Ipv4Mapped(c.gid) then 5 else if LinkLocal(c.gid) then 2 else 3
    case V1 => if LinkLocal(c.gid) then 0 else 1
    case UnknownVersion => NO_PRIORITY
  }

  /** How GIDs rank, by their bytes: RoCE v2 before v1; within v2 an IPv4-mapped GID before a global one
      before a link-local one; within v1 a global one before a link-local one; and the all-zero GID and an
      unknown version do not qualify. */
  lemma RanksByKind(a: GidCandidate, b: GidCandidate)
    ensures a.roceVersion == V2 && b.roceVersion == V1 ==> Priority(a) > Priority(b)
    ensures a.roceVersion == b.roceVersion == V2 ==>
      var mappedPrefix: seq<byte> := [0, 0, 0, 0, 0, 0, 0, 0, 0, 0, 0xff, 0xff];
      && (a.gid[..12] == mappedPrefix && b.gid[..12] != mappedPrefix ==> Priority(a) > Priority(b))
      && (a.gid[..12] == mappedPrefix && b.gid[..12] == mappedPrefix ==> Priority(a) == Priority(b))
      && (a.gid[..12] != mappedPrefix && b.gid[..12] != mappedPrefix ==>
            (Priority(a) > Priority(b) <==> a.gid[..2] != [0xfe, 0x80] && b.gid[..2] == [0xfe, 0x80]))
    ensures a.roceVersion == b.roceVersion == V1 ==>
      (Priority(a) > Priority(b) <==> a.gid[..2] != [0xfe, 0x80] && b.gid[..2] == [0xfe, 0x80])
    ensures Qualifies(a) <==> a.roceVersion != UnknownVersion && a.gid != seq(GID_LEN, _ => 0)
  {
    MappedByBytes(a.gid);
    MappedByBytes(b.gid);
    assert LinkLocal(a.gid) <==> a.gid[..2] == [0xfe, 0x80] by { LinkLocalByBytes(a.gid); }
    assert LinkLocal(b.gid) <==> b.gid[..2] == [0xfe, 0x80] by { LinkLocalByBytes(b.gid); }
    if !Configured(a.gid) {
      assert a.gid == seq(GID_LEN, _ => 0);
    }
  }

  lemma LinkLocalByBytes(gid: Gid)
    ensures LinkLocal(gid) <==> gid[..2] == [0xfe, 0x80]
  {
    assert gid[..2][0] == gid[0] && gid[..2][1] == gid[1];
  }

  lemma MappedByBytes(gid: Gid)
    ensures Ipv4Mapped(gid) <==> gid[..12] == [0, 0, 0, 0, 0, 0, 0, 0, 0, 0, 0xff, 0xff]
    ensures Ipv4Mapped(gid) ==> !LinkLocal(gid)
  {
    var prefix: seq<byte> := [0, 0, 0, 0, 0, 0, 0, 0, 0, 0, 0xff, 0xff];
    assert forall i :: 0 <= i < 12 ==> gid[..12][i] == gid[i];
    if gid[..12] == prefix {
      assert forall i :: 0 <= i < 10 ==> gid[i] == prefix[i];
    }
  }

  predicate Qualifies(c: GidCandidate) { Configured(c.gid) && c.roceVersion != UnknownVersion }

  /** Candidate `i` is the first of those ranked highest, among the ones that qualify. */
  predicate FirstBest(cs: seq<GidCandidate>, i: nat) {
    && i < |cs| && Qualifies(cs[i])
    && forall j :: 0 <= j < |cs| && Qualifies(cs[j]) ==>
         if j < i then Priority(cs[j]) < Priority(cs[i]) else Priority(cs[j]) <= Priority(cs[i])
  }

  method PickBestGid(candidates: seq<GidCandidate>) returns (r: Option<int>)
    ensures r.Some? ==> exists i: nat :: FirstBest(candidates, i) && candidates[i].index == r.value
    ensures r.None? ==> forall i :: 0 <= i < |candidates| ==> !Qualifies(candidates[i])
  {
    r := None;
    var bestPriority := NO_PRIORITY;
    ghost var best := 0;
    for k := 0 to |candidates|
      invariant r.None? ==> forall i :: 0 <= i < k ==> !Qualifies(candidates[i])
      invariant r.Some? ==>
        best < k && FirstBest(candidates[..k], best)
        && candidates[best].index == r.value && Priority(candidates[best]) == bestPriority
    {
      var c := candidates[k];
      ghost var seen := candidates[..k + 1];
      assert forall i :: 0 <= i < k ==> seen[i] == candidates[..k][i];
      if !Configured(c.gid) {
        continue;
      }
      var priority := Priority(c);
      if priority != NO_PRIORITY && (r.None? || priority > bestPriority) {
        r, bestPriority, best := Some(c.index), priority, k;
      }
    }
    assert candidates[..|candidates|] == candidates;
  }

  // ----- The list of device names -----

  predicate Blank(c: char) { c == ' ' || c == '\t' }

  /** An entry without the blanks before it; an entry of only blanks is left as it is. */
  function Strip(entry: string): string { if DropBlanks(entry) == "" then entry else DropBlanks(entry) }

  function DropBlanks(s: string): string { if s != "" && Blank(s[0]) then DropBlanks(s[1..]) else s }

  /** [i, j) is an entry of the comma-separated list. */
  predicate Entry(list: string, i: nat, j: nat) {
    && i <= j <= |list| && ',' !in list[i..j]
    && (i == 0 || list[i - 1] == ',') && (j == |list| || list[j] == ',')
  }

  /** Where the first comma at or after `i` is, or the end. */
  function CommaFrom(list: string, i: nat): (j: nat)
    requires i <= |list|
    ensures i <= j <= |list| && ',' !in list[i..j] && (j == |list| || list[j] == ',')
    decreases |list| - i
  {
    if i == |list| || list[i] == ',' then i
    else
      var j := CommaFrom(list, i + 1);
      assert list[i..j] == [list[i]] + list[i + 1..j];
      j
  }

  lemma NoCommaInside(list: string, i: nat, j: nat)
    requires i <= j <= |list| && ',' !in list[i..j]
    ensures forall k :: i <= k < j ==> list[k] != ','
  {
    forall k | i <= k < j
      ensures list[k] != ','
    {
      assert list[k] == list[i..j][k - i];
    }
  }

  lemma EntriesEndAtTheComma(list: string, i: nat, j: nat)
    requires Entry(list, i, j)
    ensures j == CommaFrom(list, i)
  {
    var end := CommaFrom(list, i);
    NoCommaInside(list, i, j);
    NoCommaInside(list, i, end);
  }

  method HcaListIncludes(list: string, devName: string) returns (found: bool)
    ensures found <==> exists i: nat, j: nat :: Entry(list, i, j) && Strip(list[i..j]) == devName
  {
    var start := 0;
    while true
      invariant start <= |list| && (start == 0 || list[start - 1] == ',')
      invariant forall i: nat, j: nat :: Entry(list, i, j) && i < start ==> Strip(list[i..j]) != devName
      decreases |list| - start
    {
      var comma := CommaFrom(list, start);
      forall i: nat, j: nat | Entry(list, i, j) && i <= comma
        ensures i < start || (i == start && j == comma)
      {
        EntriesEndAtTheComma(list, i, j);
        NoCommaInside(list, start, comma);
      }
      if Strip(list[start..comma]) == devName {
        assert Entry(list, start, comma);
        return true;
      }
      if comma == |list| {
        return false;
      }
      start := comma + 1;
    }
  }

  predicate AllBlank(s: string) { forall i :: 0 <= i < |s| ==> Blank(s[i]) }

  /** `entry` is blanks and then `name`, which is not empty and does not start with a blank. */
  predicate IsAfterBlanks(entry: string, name: string) {
    && name != "" && !Blank(name[0]) && |name| <= |entry|
    && entry[|entry| - |name|..] == name && AllBlank(entry[..|entry| - |name|])
  }

  lemma {:induction false} DropBlanksIs(entry: string, name: string)
    ensures DropBlanks(entry) == "" <==> AllBlank(entry)
    ensures name != "" ==> (DropBlanks(entry) == name <==> IsAfterBlanks(entry, name))
  {
    if entry == "" {
    } else if !Blank(entry[0]) {
      BlankFirst(entry, |entry| - |name|);
      assert entry[0..] == entry && entry[..0] == "";
    } else {
      var rest := entry[1..];
      DropBlanksIs(rest, name);
      assert forall i :: 0 < i < |entry| ==> entry[i] == rest[i - 1];
      AllBlankFrom(entry);
      if |name| < |entry| {
        AllBlankFrom(entry[..|entry| - |name|]);
        assert entry[..|entry| - |name|][1..] == rest[..|rest| - |name|];
        assert rest[|rest| - |name|..] == entry[|entry| - |name|..];
      }
    }
  }

  lemma BlankFirst(s: string, n: int)
    ensures 0 < n <= |s| && AllBlank(s[..n]) ==> Blank(s[0])
  {
    if 0 < n <= |s| { assert s[0] == s[..n][0]; }
  }

  lemma AllBlankFrom(s: string)
    requires s != "" && Blank(s[0])
    ensures AllBlank(s) <==> AllBlank(s[1..])
  {
    var rest := s[1..];
    if AllBlank(rest) {
      forall i | 0 <= i < |s|
        ensures Blank(s[i])
      {
        if i > 0 { assert Blank(rest[i - 1]); }
      }
    }
  }

  /** Spaces and tabs are the blanks, and nothing else is. */
  lemma BlanksAre()
    ensures Strip(" \tmlx5_1") == "mlx5_1" && Strip("\nmlx5_1") == "\nmlx5_1" && Strip(" ") == " "
  {
    assert " \tmlx5_1"[1..] == "\tmlx5_1" && "\tmlx5_1"[1..] == "mlx5_1" && " "[1..] == "";
  }

  /** What an entry names, for every name: an entry of only blanks names itself, and any other entry
      names what follows its blanks. */
  lemma StripIs(entry: string, name: string)
    ensures Strip(entry) == name <==> if AllBlank(entry) then name == entry else IsAfterBlanks(entry, name)
  {
    DropBlanksIs(entry, name);
  }
}
