/**
  Adding and removing keyslots. A header must never lose its last valid slot:
  the data would be gone for good. The guard counts the slots it reads.
 */
module Keyslots {
  import opened Decimal
  import opened Luks

  const MAX_KEY_SLOT := 31

  datatype Verdict = Allowed | NotValid | LastValid

  predicate IsValid(ks: KeySlot) {
    ks.status == "valid" || ks.status == "enabled"
  }

  function ValidIndexes(slots: seq<KeySlot>): set<int> {
    set i | 0 <= i < |slots| && IsValid(slots[i]) :: slots[i].index
  }

  function CountValid(slots: seq<KeySlot>): nat {
    if slots == [] then 0 else CountValid(slots[..|slots| - 1]) + (if IsValid(slots[|slots| - 1]) then 1 else 0)
  }

  /** What the guard says, read off the list: a valid slot, and at least two valid entries. */
  predicate Allows(slots: seq<KeySlot>, slot: int) {
    slot in ValidIndexes(slots) && CountValid(slots) >= 2
  }

  method ValidateKillSlot(d: Details, slot: int) returns (verdict: Verdict)
    ensures verdict == NotValid <==> slot !in ValidIndexes(d.keySlots)
    ensures verdict == Allowed <==> Allows(d.keySlots, slot)
  {
    var valid, found := 0, false;
    for i := 0 to |d.keySlots|
      invariant valid == CountValid(d.keySlots[..i])
      invariant found <==> exists k :: 0 <= k < i && IsValid(d.keySlots[k]) && d.keySlots[k].index == slot
    {
      var ks := d.keySlots[i];
      assert d.keySlots[..i + 1][..i] == d.keySlots[..i];
      if IsValid(ks) {
        valid := valid + 1;
        if ks.index == slot {
          found := true;
        }
      }
    }
    assert d.keySlots[..|d.keySlots|] == d.keySlots;
    if !found {
      return NotValid;
    }
    if valid <= 1 {
      return LastValid;
    }
    return Allowed;
  }

  ghost predicate DistinctIndexes(slots: seq<KeySlot>) {
    forall i, j :: 0 <= i < j < |slots| && IsValid(slots[i]) && IsValid(slots[j]) ==> slots[i].index != slots[j].index
  }

  lemma ValidIndexesAppend(slots: seq<KeySlot>, ks: KeySlot)
    ensures ValidIndexes(slots + [ks]) == ValidIndexes(slots) + (if IsValid(ks) then {ks.index} else {})
    ensures CountValid(slots + [ks]) == CountValid(slots) + (if IsValid(ks) then 1 else 0)
  {
    var all := slots + [ks];
    assert all[..|slots|] == slots && all[|slots|] == ks;
    forall i | i in ValidIndexes(slots) ensures i in ValidIndexes(all) {
      var k :| 0 <= k < |slots| && IsValid(slots[k]) && slots[k].index == i;
      assert all[k] == slots[k];
    }
  }

  lemma DistinctAppend(slots: seq<KeySlot>, ks: KeySlot)
    ensures DistinctIndexes(slots + [ks])
      <==> DistinctIndexes(slots) && (IsValid(ks) ==> ks.index !in ValidIndexes(slots))
  {
    var all := slots + [ks];
    assert forall k :: 0 <= k < |slots| ==> all[k] == slots[k];
    if DistinctIndexes(all) {
      assert DistinctIndexes(slots) by {
        forall i, j | 0 <= i < j < |slots| && IsValid(slots[i]) && IsValid(slots[j])
          ensures slots[i].index != slots[j].index
        {
          assert all[i].index != all[j].index;
        }
      }
      forall k | 0 <= k < |slots| && IsValid(slots[k]) && IsValid(ks) ensures slots[k].index != ks.index {
        assert all[k].index != all[|slots|].index;
      }
    }
    if DistinctIndexes(slots) && (IsValid(ks) ==> ks.index !in ValidIndexes(slots)) {
      assert forall k :: 0 <= k < |slots| && IsValid(slots[k]) ==> slots[k].index in ValidIndexes(slots);
    }
  }

  /** The count is the number of different valid slots, exactly if no valid slot is listed twice. */
  lemma {:induction false} CountIsCardinality(slots: seq<KeySlot>)
    ensures |ValidIndexes(slots)| <= CountValid(slots)
    ensures DistinctIndexes(slots) <==> CountValid(slots) == |ValidIndexes(slots)|
    decreases |slots|
  {
    if slots != [] {
      var before, last := slots[..|slots| - 1], slots[|slots| - 1];
      assert slots == before + [last];
      CountIsCardinality(before);
      ValidIndexesAppend(before, last);
      DistinctAppend(before, last);
      assert last.index in ValidIndexes(before) ==> ValidIndexes(before) + {last.index} == ValidIndexes(before);
    }
  }

  /** The guard is fooled: it allows the removal of the only valid slot. */
  predicate Fooled(slots: seq<KeySlot>, slot: int) {
    Allows(slots, slot) && ValidIndexes(slots) == {slot}
  }

  /** What the guard allows: a valid slot, if there is another or one is listed twice. */
  lemma GuardAllowsIff(slots: seq<KeySlot>, slot: int)
    ensures
      var valid := ValidIndexes(slots);
      Allows(slots, slot) <==> slot in valid && (|valid| >= 2 || !DistinctIndexes(slots))
    ensures Fooled(slots, slot) <==> ValidIndexes(slots) == {slot} && !DistinctIndexes(slots)
  {
    CountIsCardinality(slots);
    if slot in ValidIndexes(slots) {
      assert |ValidIndexes(slots)| >= 1 by {
        assert ValidIndexes(slots) == (ValidIndexes(slots) - {slot}) + {slot};
      }
    }
  }

  lemma DistinctIffStrict(slots: seq<KeySlot>)
    requires Ascending(IndexesIn(slots)) && forall i :: 0 <= i < |slots| ==> IsValid(slots[i])
    ensures DistinctIndexes(slots) <==> StrictlyAscending(IndexesIn(slots))
  {
    var indexes := IndexesIn(slots);
    assert forall i :: 0 <= i < |slots| ==> indexes[i] == slots[i].index;
    if DistinctIndexes(slots) {
      forall i, j | 0 <= i < j < |indexes| ensures indexes[i] < indexes[j] {
        assert slots[i].index != slots[j].index;
      }
    }
  }

  /** In terms of the header: the guard is fooled exactly if all its numeric keys, two or more, are read as the slot. */
  lemma GuardFooledIff(keyslots: map<string, SlotMeta>, slots: seq<KeySlot>, slot: int)
    requires ListsSlots(slots, keyslots)
    ensures Fooled(slots, slot) <==> ValidIndexes(slots) == {slot} && !NoTwoAlike(keyslots.Keys)
  {
    GuardAllowsIff(slots, slot);
    DistinctIffStrict(slots);
    StrictlyAscendingIff(IndexesIn(slots), keyslots.Keys);
  }

  const ALIASED := map["1" := SlotMeta(Number(64.0), "argon2id"), "01" := SlotMeta(Number(64.0), "argon2id")]

  lemma AliasesParse()
    ensures Atoi("1") == Parsed(1) && Atoi("01") == Parsed(1)
  {
    assert AllDigits("1") && AllDigits("01");
    assert Value("") == 0;
    assert "1"[..0] == "" && Value("1") == 1;
    assert "0"[..0] == "" && Value("0") == 0;
    assert "01"[..1] == "0" && Value("01") == 1;
  }

  /** A header with keys "1" and "01": whatever it is read as, its only slot may be removed. */
  lemma AliasedHeaderFoolsGuard(slots: seq<KeySlot>)
    requires ListsSlots(slots, ALIASED)
    ensures Fooled(slots, 1)
  {
    AliasesParse();
    assert "1" in ALIASED && "01" in ALIASED && "1" != "01";
    var indexes := IndexesIn(slots);
    forall n | n in indexes ensures n == 1 {
      ListedIsKey(indexes, ALIASED.Keys, n);
    }
    ListedOnce(indexes, ALIASED.Keys, "1");
    ListedIndexes(slots);
    GuardFooledIff(ALIASED, slots, 1);
  }

  // ---- the two handlers on a LUKS2 header -------------------------------

  /** The metadata of a header cryptsetup wrote: numbers from 0 to 31, in the usual form. */
  ghost predicate WellFormed(keyslots: map<string, SlotMeta>) {
    forall k :: k in keyslots ==> Canonical(k) && 0 <= Atoi(k).n <= MAX_KEY_SLOT
  }

  ghost function SlotsIn(keyslots: map<string, SlotMeta>): set<int>
    requires WellFormed(keyslots)
  {
    set k | k in keyslots :: Atoi(k).n
  }

  /** luksAddKey: the slot asked for if it is free, or the first free one. */
  function Added(keyslots: map<string, SlotMeta>, slot: int, meta: SlotMeta): map<string, SlotMeta> {
    var target := if slot >= 0 then slot else FirstFree(keyslots, 0);
    if 0 <= target <= MAX_KEY_SLOT && Itoa(target) !in keyslots then keyslots[Itoa(target) := meta] else keyslots
  }

  function FirstFree(keyslots: map<string, SlotMeta>, from: nat): int
    decreases MAX_KEY_SLOT - from
  {
    if from > MAX_KEY_SLOT then -1 else if Itoa(from) !in keyslots then from else FirstFree(keyslots, from + 1)
  }

  /** What keyslotRemove makes of the header when luksKillSlot does its work. */
  ghost function Removed(keyslots: map<string, SlotMeta>, slot: int): map<string, SlotMeta>
    requires WellFormed(keyslots)
  {
    if slot in SlotsIn(keyslots) && |SlotsIn(keyslots)| >= 2 then keyslots - {Itoa(slot)} else keyslots
  }

  predicate Taken(keyslots: map<string, SlotMeta>, n: int) {
    Itoa(n) in keyslots
  }

  predicate IsFirstFree(keyslots: map<string, SlotMeta>, from: int, n: int) {
    if n == -1 then forall k :: from <= k <= MAX_KEY_SLOT ==> Taken(keyslots, k)
    else from <= n <= MAX_KEY_SLOT && !Taken(keyslots, n) && forall k :: from <= k < n ==> Taken(keyslots, k)
  }

  lemma {:induction false} FirstFreeIsLeast(keyslots: map<string, SlotMeta>, from: nat)
    ensures IsFirstFree(keyslots, from, FirstFree(keyslots, from))
    decreases MAX_KEY_SLOT - from
  {
    if from <= MAX_KEY_SLOT && Taken(keyslots, from) {
      FirstFreeIsLeast(keyslots, from + 1);
    }
  }

  /** Without a slot asked for, the least free one is taken; a full header stays as it is. */
  lemma LeastFreeIsTaken(keyslots: map<string, SlotMeta>, meta: SlotMeta, n: nat)
    requires n <= 32 && (forall k :: 0 <= k < n ==> Taken(keyslots, k)) && (n <= 31 ==> !Taken(keyslots, n))
    ensures Added(keyslots, -1, meta) == if n <= 31 then keyslots[Itoa(n) := meta] else keyslots
  {
    FirstFreeIsLeast(keyslots, 0);
    var first := FirstFree(keyslots, 0);
    assert first != -1 && first < n ==> Taken(keyslots, first);
    assert n <= 31 && (first == -1 || n < first) ==> Taken(keyslots, n);
  }

  lemma ListedDistinct(slots: seq<KeySlot>)
    requires StrictlyAscending(IndexesIn(slots))
    ensures DistinctIndexes(slots)
  {
    var indexes := IndexesIn(slots);
    assert forall i :: 0 <= i < |slots| ==> indexes[i] == slots[i].index;
  }

  lemma ListedIndexes(slots: seq<KeySlot>)
    requires forall i :: 0 <= i < |slots| ==> IsValid(slots[i])
    ensures forall n :: n in ValidIndexes(slots) <==> n in IndexesIn(slots)
  {
    var indexes := IndexesIn(slots);
    assert forall i :: 0 <= i < |slots| ==> indexes[i] == slots[i].index;
    forall n | n in indexes ensures n in ValidIndexes(slots) {
      var i :| 0 <= i < |indexes| && indexes[i] == n;
      assert IsValid(slots[i]);
    }
  }

  lemma ListingIsSlots(indexes: seq<int>, keyslots: map<string, SlotMeta>)
    requires WellFormed(keyslots) && IsListing(indexes, keyslots.Keys)
    ensures forall n :: n in indexes <==> n in SlotsIn(keyslots)
  {
    forall n | n in indexes ensures n in SlotsIn(keyslots) {
      ListedIsKey(indexes, keyslots.Keys, n);
    }
    forall n | n in SlotsIn(keyslots) ensures n in indexes {
      var k :| k in keyslots && Atoi(k).n == n;
      ListedOnce(indexes, keyslots.Keys, k);
    }
  }

  /** A listing of a well-formed header is its slots. */
  lemma ListedSlots(slots: seq<KeySlot>, keyslots: map<string, SlotMeta>)
    requires WellFormed(keyslots) && ListsSlots(slots, keyslots)
    ensures ValidIndexes(slots) == SlotsIn(keyslots) && CountValid(slots) == |SlotsIn(keyslots)|
  {
    assert StrictlyAscending(IndexesIn(slots)) by {
      CanonicalListing(slots, keyslots);
    }
    ListedDistinct(slots);
    CountIsCardinality(slots);
    ListedIndexes(slots);
    ListingIsSlots(IndexesIn(slots), keyslots);
  }

  class Header {
    var metadata: Metadata

    constructor (metadata: Metadata)
      ensures this.metadata == metadata
    {
      this.metadata := metadata;
    }

    /** keyslotAdd; -1 lets cryptsetup choose. */
    method Add(slot: int, meta: SlotMeta, cryptsetupOk: bool)
      modifies this
      ensures metadata == old(metadata).(keyslots := metadata.keyslots)
      ensures WellFormed(old(metadata).keyslots) ==>
        metadata.keyslots == Then(old(metadata).keyslots, AddSlot(slot, meta, cryptsetupOk))
      ensures
        var was := old(metadata).keyslots;
        && (cryptsetupOk && 0 <= slot <= 31 && Itoa(slot) !in was ==> metadata.keyslots == was[Itoa(slot) := meta])
        && (cryptsetupOk && 0 <= slot <= 31 && Itoa(slot) in was ==> metadata.keyslots == was)
        && (!cryptsetupOk || slot < -1 || slot > 31 ==> metadata.keyslots == was)
    {
      if slot < -1 || slot > MAX_KEY_SLOT || !cryptsetupOk {
        return;
      }
      metadata := metadata.(keyslots := Added(metadata.keyslots, slot, meta));
    }

    /** keyslotRemove: read the header, ask the guard, kill the slot. */
    method Remove(slot: int, cryptsetupOk: bool) returns (verdict: Verdict)
      requires WellFormed(metadata.keyslots)
      modifies this
      ensures metadata == old(metadata).(keyslots := metadata.keyslots)
      ensures metadata.keyslots == Then(old(metadata).keyslots, RemoveSlot(slot, cryptsetupOk))
      ensures verdict == Allowed <==> slot in SlotsIn(old(metadata).keyslots) && |SlotsIn(old(metadata).keyslots)| >= 2
      ensures metadata.keyslots
        == if verdict == Allowed && cryptsetupOk then old(metadata).keyslots - {Itoa(slot)} else old(metadata).keyslots
    {
      if slot < 0 || slot > MAX_KEY_SLOT {
        return NotValid;
      }
      var d := ParseLUKS2Metadata(metadata);
      ListedSlots(d.keySlots, metadata.keyslots);
      verdict := ValidateKillSlot(d, slot);
      if verdict == Allowed && cryptsetupOk {
        metadata := metadata.(keyslots := metadata.keyslots - {Itoa(slot)});
      }
    }
  }

  // ---- runs -------------------------------------------------------------

  datatype Request = AddSlot(slot: int, meta: SlotMeta, ok: bool) | RemoveSlot(slot: int, ok: bool)

  ghost function Then(keyslots: map<string, SlotMeta>, r: Request): map<string, SlotMeta>
    requires WellFormed(keyslots)
  {
    match r
    case AddSlot(slot, meta, ok) => if -1 <= slot <= MAX_KEY_SLOT && ok then Added(keyslots, slot, meta) else keyslots
    case RemoveSlot(slot, ok) => if 0 <= slot <= MAX_KEY_SLOT && ok then Removed(keyslots, slot) else keyslots
  }

  lemma AddedKeeps(keyslots: map<string, SlotMeta>, slot: int, meta: SlotMeta)
    requires WellFormed(keyslots)
    ensures WellFormed(Added(keyslots, slot, meta)) && keyslots.Keys <= Added(keyslots, slot, meta).Keys
  {
    var target := if slot >= 0 then slot else FirstFree(keyslots, 0);
    if 0 <= target <= MAX_KEY_SLOT {
      AtoiInvertsItoa(target);
    }
  }

  lemma RemovedKeeps(keyslots: map<string, SlotMeta>, slot: int)
    requires WellFormed(keyslots) && keyslots != map[]
    ensures WellFormed(Removed(keyslots, slot)) && Removed(keyslots, slot) != map[]
  {
    var slots := SlotsIn(keyslots);
    if slot in slots && |slots| >= 2 {
      assert slots - {slot} != {} by {
        assert slots == (slots - {slot}) + {slot};
      }
      var n :| n in slots - {slot};
      var k :| k in keyslots && Atoi(k).n == n;
      AtoiInvertsItoa(slot);
      assert k in keyslots - {Itoa(slot)};
    }
  }

  /** No request empties the header, and a slot only goes by its own removal. */
  lemma RequestKeepsSlots(keyslots: map<string, SlotMeta>, r: Request)
    requires WellFormed(keyslots) && keyslots != map[]
    ensures WellFormed(Then(keyslots, r)) && Then(keyslots, r) != map[]
    ensures forall k :: k in keyslots && k !in Then(keyslots, r) ==> r.RemoveSlot? && k == Itoa(r.slot)
  {
    match r
    case AddSlot(slot, meta, ok) => AddedKeeps(keyslots, slot, meta);
    case RemoveSlot(slot, ok) => RemovedKeeps(keyslots, slot);
  }

  ghost function After(keyslots: map<string, SlotMeta>, requests: seq<Request>): map<string, SlotMeta>
    requires WellFormed(keyslots) && keyslots != map[]
    decreases |requests|
  {
    if requests == [] then keyslots
    else
      RequestKeepsSlots(keyslots, requests[0]);
      After(Then(keyslots, requests[0]), requests[1..])
  }

  /** From a header with a valid slot, no requests whatever lead to one without. */
  lemma {:induction false} AlwaysAValidSlot(keyslots: map<string, SlotMeta>, requests: seq<Request>)
    requires WellFormed(keyslots) && keyslots != map[]
    ensures WellFormed(After(keyslots, requests)) && SlotsIn(After(keyslots, requests)) != {}
    decreases |requests|
  {
    if requests == [] {
      var k :| k in keyslots;
      assert Atoi(k).n in SlotsIn(keyslots);
    } else {
      RequestKeepsSlots(keyslots, requests[0]);
      AlwaysAValidSlot(Then(keyslots, requests[0]), requests[1..]);
    }
  }

  // ---- LUKS1 headers ----------------------------------------------------

  /** A LUKS1 header has eight slots; the text dump lists them all, enabled or not. */
  type Luks1 = header: seq<bool> | |header| == 8 witness [false, false, false, false, false, false, false, false]

  /** parseLUKS1's part of the listing. */
  function ListedLuks1(header: Luks1): (slots: seq<KeySlot>)
    ensures |slots| == 8
    ensures forall i :: 0 <= i < 8 ==>
      slots[i].index == i && slots[i].kind == "pbkdf2" && (IsValid(slots[i]) <==> header[i])
  {
    seq(8, i requires 0 <= i < 8 => KeySlot(i, "pbkdf2", if header[i] then "enabled" else "disabled"))
  }

  function Enabled(header: Luks1): set<int> {
    set i | 0 <= i < 8 && header[i]
  }

  /** For a LUKS1 header the guard counts the enabled slots. */
  lemma Luks1GuardExact(header: Luks1, slot: int)
    ensures Allows(ListedLuks1(header), slot) <==> slot in Enabled(header) && |Enabled(header)| >= 2
  {
    var slots := ListedLuks1(header);
    assert DistinctIndexes(slots);
    CountIsCardinality(slots);
    forall i | i in Enabled(header) ensures i in ValidIndexes(slots) {
      assert IsValid(slots[i]);
    }
    assert ValidIndexes(slots) == Enabled(header);
  }

  function FirstDisabled(header: Luks1, from: nat): int
    decreases 8 - from
  {
    if from >= 8 then -1 else if !header[from] then from else FirstDisabled(header, from + 1)
  }

  /** keyslotAdd and keyslotRemove; cryptsetup itself refuses slots beyond the eighth. */
  function ThenLuks1(header: Luks1, r: Request): Luks1 {
    match r
    case AddSlot(slot, _, ok) =>
      var target := if slot >= 0 then slot else FirstDisabled(header, 0);
      if 0 <= target < 8 && ok then header[target := true] else header
    case RemoveSlot(slot, ok) =>
      if 0 <= slot < 8 && ok && Allows(ListedLuks1(header), slot) then header[slot := false] else header
  }

  predicate InUse(header: Luks1, k: int) {
    0 <= k < 8 && header[k]
  }

  lemma {:induction false} FirstDisabledIsLeast(header: Luks1, from: nat)
    ensures
      var n := FirstDisabled(header, from);
      if n == -1 then forall k :: from <= k < 8 ==> InUse(header, k)
      else from <= n < 8 && !InUse(header, n) && forall k :: from <= k < n ==> InUse(header, k)
    decreases 8 - from
  {
    if from < 8 && header[from] {
      FirstDisabledIsLeast(header, from + 1);
    }
  }

  /** Without a slot asked for, the least disabled one is enabled; a full header stays as it is. */
  lemma LeastDisabledIsTaken(header: Luks1, meta: SlotMeta, n: nat)
    requires n <= 8 && (forall k :: 0 <= k < n ==> InUse(header, k)) && !InUse(header, n)
    ensures ThenLuks1(header, AddSlot(-1, meta, true)) == if n < 8 then header[n := true] else header
  {
    FirstDisabledIsLeast(header, 0);
    var first := FirstDisabled(header, 0);
    assert first != -1 && first < n ==> InUse(header, first);
    assert n < 8 && (first == -1 || n < first) ==> InUse(header, n);
  }

  /** A slot asked for is enabled unless it is, and one is disabled exactly if it is one of two. */
  lemma Luks1SlotAskedFor(header: Luks1, meta: SlotMeta, slot: nat)
    requires slot < 8
    ensures ThenLuks1(header, AddSlot(slot, meta, true)) == header[slot := true]
    ensures ThenLuks1(header, RemoveSlot(slot, true)) ==
      if |Enabled(header)| >= 2 then header[slot := false] else header
  {
    Luks1GuardExact(header, slot);
    assert !header[slot] ==> header[slot := false] == header;
  }

  function AfterLuks1(header: Luks1, requests: seq<Request>): Luks1
    decreases |requests|
  {
    if requests == [] then header else AfterLuks1(ThenLuks1(header, requests[0]), requests[1..])
  }

  lemma RequestKeepsEnabled(header: Luks1, r: Request)
    requires Enabled(header) != {}
    ensures Enabled(ThenLuks1(header, r)) != {}
  {
    var i :| i in Enabled(header);
    if r.RemoveSlot? && ThenLuks1(header, r) != header {
      Luks1GuardExact(header, r.slot);
      assert Enabled(header) == (Enabled(header) - {r.slot}) + {r.slot};
      var other :| other in Enabled(header) - {r.slot};
      assert other in Enabled(ThenLuks1(header, r));
    } else {
      assert i in Enabled(ThenLuks1(header, r));
    }
  }

  /** The same for LUKS1: no requests whatever disable the last slot. */
  lemma {:induction false} AlwaysAnEnabledSlot(header: Luks1, requests: seq<Request>)
    requires Enabled(header) != {}
    ensures Enabled(AfterLuks1(header, requests)) != {}
    decreases |requests|
  {
    if requests != [] {
      RequestKeepsEnabled(header, requests[0]);
      AlwaysAnEnabledSlot(ThenLuks1(header, requests[0]), requests[1..]);
    }
  }
}
