/**
  Growing a vault: the image file, the LUKS device inside it and the filesystem
  on the device are resized one after another, and any step can fail. The
  database records the size in whole GiB.
 */
module Growing {

  const MIB: nat := 0x10_0000
  const GIB: nat := 0x4000_0000

  /** The LUKS2 header in front of the payload. */
  const HEADER: nat := 16 * MIB

  type Byte = b: int | 0 <= b < 256

  function Payload(image: nat): nat {
    if image < HEADER then 0 else image - HEADER
  }

  /** Sizes in bytes, but `record` in GiB; `device` counts while it is open. */
  datatype Layers = Layers(image: nat, device: nat, fs: nat, record: nat, open: bool, mounted: bool)

  /** What the steps of one grow answer; a failing dd may have written a part. */
  datatype Answers = Answers(
    space: bool, fallocate: bool, stat: bool, dd: bool, written: nat, resize: bool, resize2fs: bool, update: bool)

  // ---- the image --------------------------------------------------------

  function Zeros(n: nat): seq<Byte> {
    seq(n, _ => 0)
  }

  /** fallocate -l extends a file and never shortens it. */
  function Fallocated(image: seq<Byte>, size: nat): seq<Byte> {
    if size <= |image| then image else image + Zeros(size - |image|)
  }

  /** dd of n zero bytes with conv=notrunc and seek in whole MiB. */
  function Appended(image: seq<Byte>, n: nat): seq<Byte> {
    var offset := |image| / MIB * MIB;
    image[..offset] + Zeros(n) + (if offset + n < |image| then image[offset + n..] else [])
  }

  function AppendedSize(size: nat, n: nat): nat {
    var end := size / MIB * MIB + n;
    if end < size then size else end
  }

  /** Byte by byte: n zeros at the offset, every other old byte where it was, and no more. */
  ghost predicate Overwrites(image: seq<Byte>, was: seq<Byte>, offset: nat, n: nat) {
    && |image| == (if |was| < offset + n then offset + n else |was|)
    && (forall k :: offset <= k < offset + n ==> image[k] == 0)
    && (forall k :: 0 <= k < |was| && !(offset <= k < offset + n) ==> image[k] == was[k])
  }

  lemma AppendedOverwrites(image: seq<Byte>, n: nat)
    ensures Overwrites(Appended(image, n), image, |image| / MIB * MIB, n)
  {
  }

  /** The bytes dd writes when `delta` GiB are asked for. */
  function Written(delta: nat, a: Answers): nat {
    if a.dd || delta * GIB < a.written then delta * GIB else a.written
  }

  // ---- the three layers -------------------------------------------------

  predicate Extends(a: Answers) {
    a.fallocate || (a.stat && a.dd)
  }

  function ExtendedSize(size: nat, target: nat, delta: nat, a: Answers): nat {
    if a.fallocate then if size < target * GIB then target * GIB else size
    else if a.stat then AppendedSize(size, Written(delta, a))
    else size
  }

  /** growVault under opMu. */
  function Grown(l: Layers, target: nat, a: Answers): Layers {
    if !l.open || !l.mounted || target <= l.record || !a.space then l
    else
      var extended := l.(image := ExtendedSize(l.image, target, target - l.record, a));
      if !Extends(a) || !a.resize then extended
      else
        var resized := extended.(device := Payload(extended.image));
        if !a.resize2fs then resized
        else
          var grown := resized.(fs := resized.device);
          if a.update then grown.(record := target) else grown
  }

  /** Does it answer success? */
  predicate Succeeds(l: Layers, target: nat, a: Answers) {
    l.open && l.mounted && l.record < target && a.space && Extends(a) && a.resize && a.resize2fs && a.update
  }

  class Volume {
    var image: seq<Byte>
    var device: nat
    var fs: nat
    var record: nat
    var open: bool
    var mounted: bool

    ghost function State(): Layers
      reads this
    {
      Layers(|image|, device, fs, record, open, mounted)
    }

    constructor (image: seq<Byte>, fs: nat, record: nat)
      ensures this.image == image && State() == Layers(|image|, 0, fs, record, false, false)
    {
      this.image, this.fs, this.record := image, fs, record;
      device, open, mounted := 0, false, false;
    }

    /**
      appendFile: zeros from the last whole MiB on, and nothing else. The old
      content survives a full run exactly if it ended in zeros from there on.
     */
    method AppendFile(delta: nat, a: Answers) returns (ok: bool)
      requires delta >= 1
      modifies this`image
      ensures ok <==> a.stat && a.dd
      ensures !a.stat ==> image == old(image)
      ensures a.stat ==> Overwrites(image, old(image), |old(image)| / MIB * MIB, Written(delta, a))
      ensures ok ==>
        Overwrites(image, old(image), |old(image)| / 1_048_576 * 1_048_576, delta * 1_073_741_824)
      ensures a.stat && !a.dd ==>
        Overwrites(image, old(image), |old(image)| / 1_048_576 * 1_048_576,
          if a.written < delta * 1_073_741_824 then a.written else delta * 1_073_741_824)
      ensures ok ==> |old(image)| <= |image|
      ensures ok ==> (image[..|old(image)|] == old(image) <==> AllZero(old(image)[|old(image)| / MIB * MIB..]))
    {
      if !a.stat {
        return false;
      }
      var offset := |image| / MIB * MIB;
      var n := Written(delta, a);
      var tail := if offset + n < |image| then image[offset + n..] else [];
      AppendedOverwrites(image, n);
      AppendKeepsContentIff(image, delta);
      image := image[..offset] + Zeros(n) + tail;
      return a.dd;
    }

    /** Step 1 of vault.Grow: fallocate, or failing that dd. */
    method Extend(target: nat, delta: nat, a: Answers) returns (ok: bool)
      requires delta >= 1
      modifies this`image
      ensures ok <==> Extends(a)
      ensures |image| == ExtendedSize(old(|image|), target, delta, a)
      ensures a.fallocate ==> image == Fallocated(old(image), target * GIB)
      ensures ok <==> a.fallocate || (a.stat && a.dd)
      ensures a.fallocate ==>
        && |image| == (if |old(image)| < target * 1_073_741_824 then target * 1_073_741_824 else |old(image)|)
        && old(image) <= image && forall k :: |old(image)| <= k < |image| ==> image[k] == 0
      ensures !a.fallocate && !a.stat ==> image == old(image)
      ensures !a.fallocate && a.stat ==> Overwrites(image, old(image), |old(image)| / MIB * MIB, Written(delta, a))
    {
      if a.fallocate {
        image := Fallocated(image, target * GIB);
        return true;
      }
      ok := AppendFile(delta, a);
    }

    /** vault.Grow. */
    method Grow(target: nat, a: Answers) returns (ok: bool)
      requires open && mounted
      modifies this`image, this`device, this`fs
      ensures ok <==> record < target && a.space && Extends(a) && a.resize && a.resize2fs
      ensures State() == Grown(old(State()), target, a.(update := false))
      ensures a.fallocate && record < target && a.space ==> image == Fallocated(old(image), target * GIB)
      // layer by layer: what was reached before the first failing step
      ensures !(record < target && a.space) ==> image == old(image) && device == old(device) && fs == old(fs)
      ensures !a.fallocate && !a.stat ==> image == old(image)
      ensures !a.fallocate && a.stat && record < target && a.space ==>
        Overwrites(image, old(image), |old(image)| / MIB * MIB, Written(target - record, a))
      ensures var reached := record < target && a.space && (a.fallocate || (a.stat && a.dd)) && a.resize;
        && device == (if !reached then old(device) else if |image| < 16_777_216 then 0 else |image| - 16_777_216)
        && fs == (if reached && a.resize2fs then device else old(fs))
        && (ok <==> reached && a.resize2fs)
    {
      var delta := target - record;
      if delta <= 0 || !a.space {
        return false;
      }
      ok := Extend(target, delta, a);
      if !ok || !a.resize {
        return false;
      }
      device := Payload(|image|);
      if !a.resize2fs {
        return false;
      }
      fs := device;
      return true;
    }

    /** growVault. */
    method GrowVault(target: nat, a: Answers) returns (ok: bool)
      modifies this
      ensures State() == Grown(old(State()), target, a)
      ensures ok <==> Succeeds(old(State()), target, a)
      ensures ok <==>
        && old(open) && old(mounted) && old(record) < target && a.space
        && (a.fallocate || (a.stat && a.dd)) && a.resize && a.resize2fs && a.update
      ensures record == (if ok then target else old(record)) && open == old(open) && mounted == old(mounted)
      ensures !(open && mounted) ==> image == old(image) && device == old(device) && fs == old(fs)
    {
      if !open || !mounted || target <= record {
        return false;
      }
      ok := Grow(target, a);
      if !ok || !a.update {
        return false;
      }
      record := target;
    }
  }

  // ---- runs -------------------------------------------------------------

  datatype Op =
    | GrowTo(target: nat, answers: Answers)
    | Lock(umount: bool, close: bool)
    | Unlock(openOk: bool, mountOk: bool)
    | Remount(ok: bool)

  /** Opening the device again makes it as large as the image allows. */
  function Then(l: Layers, op: Op): Layers {
    match op
    case GrowTo(target, a) => Grown(l, target, a)
    case Lock(umount, close) =>
      if !l.open || (l.mounted && !umount) then l
      else if close then l.(open := false, mounted := false, device := 0)
      else l.(mounted := false)
    case Unlock(openOk, mountOk) =>
      if l.open || !openOk || !mountOk then l else l.(open := true, mounted := true, device := Payload(l.image))
    case Remount(ok) => if l.open && ok then l.(mounted := true) else l
  }

  function After(l: Layers, ops: seq<Op>): Layers
    decreases |ops|
  {
    if ops == [] then l else After(Then(l, ops[0]), ops[1..])
  }

  /** The filesystem fits its device, and the device its image. */
  predicate Layered(l: Layers) {
    && l.fs <= Payload(l.image)
    && (l.open ==> l.fs <= l.device <= Payload(l.image))
  }

  /** Nothing ever shrinks. */
  predicate NoSmaller(l: Layers, l': Layers) {
    l.image <= l'.image && l.fs <= l'.fs && l.record <= l'.record
  }

  lemma AppendedNoSmaller(size: nat, n: nat)
    ensures size <= AppendedSize(size, n)
  {
  }

  lemma GrowKeepsLayers(l: Layers, target: nat, a: Answers)
    requires Layered(l)
    ensures Layered(Grown(l, target, a)) && NoSmaller(l, Grown(l, target, a))
  {
    if target > l.record {
      AppendedNoSmaller(l.image, Written(target - l.record, a));
    }
  }

  /** Over any failing or successful grows and lock cycles: the layers stay stacked and nothing shrinks. */
  lemma {:induction false} LayersStayStacked(l: Layers, ops: seq<Op>)
    requires Layered(l)
    ensures Layered(After(l, ops)) && NoSmaller(l, After(l, ops))
    decreases |ops|
  {
    if ops != [] {
      if ops[0].GrowTo? { GrowKeepsLayers(l, ops[0].target, ops[0].answers); }
      LayersStayStacked(Then(l, ops[0]), ops[1..]);
    }
  }

  // ---- recovery ---------------------------------------------------------

  /** All layers and the record at `target` GiB. */
  predicate AllAt(l: Layers, target: nat) {
    l.image == target * GIB && l.device == l.fs == Payload(target * GIB) && l.record == target
  }

  /** A successful grow by fallocate brings every layer to its target exactly if the image was not larger before. */
  lemma SuccessReachesIff(l: Layers, target: nat, a: Answers)
    requires Succeeds(l, target, a) && a.fallocate
    ensures AllAt(Grown(l, target, a), target) <==> l.image <= target * GIB
  {
  }

  /** Grows to at most `target` that extend the image by fallocate or not at all. */
  predicate FallocateOnly(op: Op, target: nat) {
    op.GrowTo? ==> op.target <= target && (op.answers.fallocate || !op.answers.stat)
  }

  lemma TargetsOrdered(t: nat, target: nat)
    requires t <= target
    ensures t * GIB <= target * GIB
  {
  }

  lemma {:induction false} ImageStaysBelow(l: Layers, ops: seq<Op>, target: nat)
    requires l.image <= target * GIB && forall i :: 0 <= i < |ops| ==> FallocateOnly(ops[i], target)
    ensures After(l, ops).image <= target * GIB
    decreases |ops|
  {
    if ops != [] {
      if ops[0].GrowTo? { TargetsOrdered(ops[0].target, target); }
      ImageStaysBelow(Then(l, ops[0]), ops[1..], target);
    }
  }

  /** Whatever failed before, one success at the largest target so far repairs every layer. */
  lemma OneSuccessRecovers(l: Layers, ops: seq<Op>, target: nat, a: Answers)
    requires l.image <= target * GIB && forall i :: 0 <= i < |ops| ==> FallocateOnly(ops[i], target)
    requires Succeeds(After(l, ops), target, a) && a.fallocate
    ensures AllAt(Grown(After(l, ops), target, a), target)
  {
    ImageStaysBelow(l, ops, target);
    SuccessReachesIff(After(l, ops), target, a);
  }

  /** What a lock and an unlock repair: a device left at its old size is opened as large as the image allows. */
  lemma CycleResizesDevice(l: Layers)
    ensures
      var l' := After(l, [Lock(true, true), Unlock(true, true)]);
      l' == l.(device := if l.image < 16_777_216 then 0 else l.image - 16_777_216, open := true, mounted := true)
  {
    var ops := [Lock(true, true), Unlock(true, true)];
    assert ops[1..] == [Unlock(true, true)] && ops[1..][1..] == [];
  }

  // ---- the dd fallback --------------------------------------------------

  predicate AllZero(s: seq<Byte>) {
    forall k :: 0 <= k < |s| ==> s[k] == 0
  }

  /** dd starts at a whole MiB: it keeps the content exactly if nothing but zeros lies behind it. */
  lemma AppendKeepsContentIff(image: seq<Byte>, delta: nat)
    requires delta >= 1
    ensures
      var appended, offset := Appended(image, delta * GIB), |image| / MIB * MIB;
      |image| <= |appended| && (appended[..|image|] == image <==> AllZero(image[offset..]))
  {
    var appended, offset := Appended(image, delta * GIB), |image| / MIB * MIB;
    assert offset + delta * GIB >= |image|;
    assert appended == image[..offset] + Zeros(delta * GIB);
    if appended[..|image|] == image {
      forall k | offset <= k < |image| ensures image[k] == 0 {
        assert image[k] == appended[..|image|][k] == appended[k] == Zeros(delta * GIB)[k - offset];
      }
    }
    if AllZero(image[offset..]) {
      forall k | 0 <= k < |image| ensures appended[k] == image[k] {
        if offset <= k { assert image[k] == image[offset..][k - offset]; }
      }
    }
  }

  /** Whole MiB are kept as they are. */
  lemma AlignedContentIsKept(image: seq<Byte>, delta: nat)
    requires delta >= 1 && |image| % MIB == 0
    ensures Appended(image, delta * GIB) == image + Zeros(delta * GIB)
  {
    assert |image| / MIB * MIB == |image|;
  }

  /** An image that does not end on a whole MiB can lose bytes. */
  lemma UnalignedContentCanBeLost(image: seq<Byte>, delta: nat)
    requires delta >= 1 && |image| % MIB != 0 && image[|image| - 1] != 0
    ensures Appended(image, delta * GIB)[..|image|] != image
  {
    var offset := |image| / MIB * MIB;
    assert image[offset..][|image| - 1 - offset] != 0;
    AppendKeepsContentIff(image, delta);
  }

  /** importVault: the size in GiB, rounded up. */
  function SizeGb(size: nat): nat {
    (size + GIB - 1) / GIB
  }

  lemma ImportRoundsUp(size: nat)
    ensures (SizeGb(size) as int - 1) * GIB < size <= SizeGb(size) * GIB
  {
  }

  /** Where dd starts: the last whole MiB, at or behind any whole GiB the size reaches. */
  lemma Offset(size: nat, gibs: int)
    ensures
      var offset := size / MIB * MIB;
      && offset <= size && (size % MIB == 0 ==> offset == size)
      && (gibs * GIB <= size ==> gibs * GIB <= offset)
  {
    assert gibs * GIB == gibs * 1024 * MIB;
    if gibs * 1024 * MIB <= size {
      assert gibs * 1024 <= size / MIB;
    }
  }

  lemma WholeGibs(size: nat)
    ensures size % GIB == 0 <==> size == SizeGb(size) * GIB
  {
    ImportRoundsUp(size);
  }

  /** Appending up to a target ends in the last GiB before it, and on it exactly for whole GiB. */
  lemma AppendReachesTarget(size: nat, target: nat)
    requires SizeGb(size) < target
    ensures
      var end := AppendedSize(size, (target - SizeGb(size)) * GIB);
      && (target - 1) * GIB <= end <= target * GIB
      && (size % MIB == 0 ==> (target - 1) * GIB < end)
      && (end == target * GIB <==> size % GIB == 0)
  {
    var n := SizeGb(size);
    var offset := size / MIB * MIB;
    ImportRoundsUp(size);
    WholeGibs(size);
    Offset(size, n as int - 1);
    Offset(size, n);
    Distance(size, offset, n, target);
  }

  lemma Distance(size: nat, offset: nat, n: nat, target: nat)
    requires n < target && (n as int - 1) * GIB <= offset <= size <= n * GIB && size < offset + MIB
    ensures (target - 1) * GIB <= offset + (target - n) * GIB <= target * GIB
    ensures size <= offset + (target - n) * GIB
    ensures (n as int - 1) * GIB < offset ==> (target - 1) * GIB < offset + (target - n) * GIB
    ensures offset + (target - n) * GIB == target * GIB <==> offset == n * GIB
  {
  }

  lemma TwiceAppended(size: nat, gibs: nat, delta: nat)
    requires size == gibs * GIB
    ensures AppendedSize(size, delta * GIB) == (gibs + delta) * GIB
  {
    Offset(size, gibs);
  }

  /** Without fallocate a retry appends again: the image ends up past the target. */
  lemma RetryOvershoots(l: Layers, target: nat, failing: Answers, a: Answers)
    requires l.open && l.mounted && l.record < target && l.image == l.record * GIB
    requires failing.space && !failing.fallocate && failing.stat && failing.dd && !failing.resize
    requires !a.fallocate && Succeeds(l, target, a)
    ensures
      var l' := Grown(Grown(l, target, failing), target, a);
      l'.record == target && l'.image == (target + (target - l.record)) * GIB
  {
    var delta := target - l.record;
    TwiceAppended(l.image, l.record, delta);
    assert Grown(l, target, failing) == l.(image := target * GIB);
    TwiceAppended(target * GIB, target, delta);
  }

  /** The image is within the MiB after its recorded size: dd will start where the record says. */
  predicate Tight(l: Layers) {
    l.record * GIB <= l.image < l.record * GIB + MIB
  }

  lemma AppendedTo(size: nat, gibs: nat, n: nat)
    requires gibs * GIB <= size < gibs * GIB + MIB
    ensures AppendedSize(size, n) == if gibs * GIB + n < size then size else gibs * GIB + n
  {
    Offset(size, gibs);
    assert size / MIB * MIB == gibs * GIB by {
      assert gibs * GIB == gibs * 1024 * MIB;
    }
  }

  /** A dd success brings every layer to its target exactly if the image was within a MiB of its recorded size. */
  lemma DdSuccessReachesIff(l: Layers, target: nat, a: Answers)
    requires Succeeds(l, target, a) && !a.fallocate
    ensures AllAt(Grown(l, target, a), target) <==> Tight(l)
  {
    var delta := target - l.record;
    var offset := l.image / MIB * MIB;
    assert delta * GIB == target * GIB - l.record * GIB;
    assert l.record * GIB == l.record * 1024 * MIB;
    DdStart(l.image, l.record * 1024);
    assert Grown(l, target, a).image == AppendedSize(l.image, delta * GIB);
    assert l.image < offset + delta * GIB;
  }

  /** dd starts at a given whole MiB exactly if the size lies in the MiB behind it. */
  lemma DdStart(size: nat, mibs: nat)
    ensures size / MIB * MIB == mibs * MIB <==> mibs * MIB <= size < mibs * MIB + MIB
  {
  }

  /** Did this request, at this state, extend the image by a MiB or more? */
  predicate WritesAMib(l: Layers, op: Op) {
    && op.GrowTo? && l.open && l.mounted && l.record < op.target && op.answers.space
    && (op.answers.fallocate || (op.answers.stat && Written(op.target - l.record, op.answers) >= MIB))
  }

  predicate NoMibWritten(l: Layers, ops: seq<Op>)
    decreases |ops|
  {
    ops != [] ==> !WritesAMib(l, ops[0]) && NoMibWritten(Then(l, ops[0]), ops[1..])
  }

  lemma OneMoreGib(low: nat, high: nat)
    requires low < high
    ensures low * GIB + GIB <= high * GIB
  {
  }

  /** A request that fails leaves the image tight exactly if it wrote less than a MiB; once loose, it stays loose. */
  lemma FailureKeepsTightIff(l: Layers, op: Op)
    requires Then(l, op).record == l.record && l.record * GIB <= l.image
    ensures l.image <= Then(l, op).image
    ensures Tight(Then(l, op)) <==> Tight(l) && !WritesAMib(l, op)
  {
    if op.GrowTo? && l.open && l.mounted && l.record < op.target && op.answers.space {
      var n := Written(op.target - l.record, op.answers);
      OneMoreGib(l.record, op.target);
      AppendedNoSmaller(l.image, n);
      if Tight(l) { AppendedTo(l.image, l.record, n); }
    }
  }

  lemma {:induction false} FailuresKeepTightIff(l: Layers, ops: seq<Op>)
    requires After(l, ops).record == l.record && l.record * GIB <= l.image && Layered(l)
    ensures l.image <= After(l, ops).image
    ensures Tight(After(l, ops)) <==> Tight(l) && NoMibWritten(l, ops)
    decreases |ops|
  {
    if ops != [] {
      var next := Then(l, ops[0]);
      LayersStayStacked(l, [ops[0]]);
      assert After(l, [ops[0]]) == next by { assert [ops[0]][1..] == []; }
      LayersStayStacked(next, ops[1..]);
      FailureKeepsTightIff(l, ops[0]);
      FailuresKeepTightIff(next, ops[1..]);
    }
  }

  /**
    After any failed requests and lock cycles, a retry that succeeds with dd
    repairs every layer exactly if none of them wrote as much as a MiB: neither
    a whole extension whose resize failed, nor a part of one.
   */
  lemma DdRetryRepairsIff(l: Layers, ops: seq<Op>, target: nat, a: Answers)
    requires Layered(l) && Tight(l) && After(l, ops).record == l.record
    requires Succeeds(After(l, ops), target, a) && !a.fallocate
    ensures AllAt(Grown(After(l, ops), target, a), target) <==> NoMibWritten(l, ops)
  {
    FailuresKeepTightIff(l, ops);
    DdSuccessReachesIff(After(l, ops), target, a);
  }

  // ---- fallocate after any failures -------------------------------------

  /** Did this request, at this state, extend the image beyond `target` GiB? */
  predicate ReachesBeyond(l: Layers, op: Op, target: nat) {
    && op.GrowTo? && l.open && l.mounted && l.record < op.target && op.answers.space
    && if op.answers.fallocate then op.target > target
       else op.answers.stat && l.image / MIB * MIB + Written(op.target - l.record, op.answers) > target * GIB
  }

  predicate NeverBeyond(l: Layers, ops: seq<Op>, target: nat)
    decreases |ops|
  {
    ops != [] ==> !ReachesBeyond(l, ops[0], target) && NeverBeyond(Then(l, ops[0]), ops[1..], target)
  }

  lemma GibsOrdered(a: nat, b: nat)
    ensures a * GIB <= b * GIB <==> a <= b
  {
  }

  lemma StepStaysWithinIff(l: Layers, op: Op, target: nat)
    ensures Then(l, op).image <= target * GIB <==> l.image <= target * GIB && !ReachesBeyond(l, op, target)
  {
    if op.GrowTo? {
      GibsOrdered(op.target, target);
      if op.target > l.record { AppendedNoSmaller(l.image, Written(op.target - l.record, op.answers)); }
    }
  }

  lemma {:induction false} StaysWithinIff(l: Layers, ops: seq<Op>, target: nat)
    ensures After(l, ops).image <= target * GIB <==> l.image <= target * GIB && NeverBeyond(l, ops, target)
    decreases |ops|
  {
    if ops != [] {
      StepStaysWithinIff(l, ops[0], target);
      StaysWithinIff(Then(l, ops[0]), ops[1..], target);
    }
  }

  /**
    After any requests and lock cycles, failed or not, by fallocate or by dd: a
    success by fallocate repairs every layer exactly if none of them had reached
    beyond its target.
   */
  lemma FallocateRepairsIff(l: Layers, ops: seq<Op>, target: nat, a: Answers)
    requires l.image <= target * GIB && Succeeds(After(l, ops), target, a) && a.fallocate
    ensures AllAt(Grown(After(l, ops), target, a), target) <==> NeverBeyond(l, ops, target)
  {
    StaysWithinIff(l, ops, target);
    SuccessReachesIff(After(l, ops), target, a);
  }
}
