/**
  Reading a LUKS2 header: its metadata maps are keyed by numbers written as
  strings, and Go walks a map in any order. The listing is sorted numerically.
 */
module Luks {
  import opened Decimal

  /** A JSON value that may be a number or a numeric string. */
  datatype Json = Number(value: real) | Text(text: string) | Other

  datatype SlotMeta = SlotMeta(keySize: Json, kdf: string)

  datatype Metadata = Metadata(keyslots: map<string, SlotMeta>, digests: map<string, string>,
    segments: map<string, string>)

  datatype KeySlot = KeySlot(index: int, kind: string, status: string)

  datatype Details = Details(keySlots: seq<KeySlot>, keySizeBits: int, hash: string, cipher: string)

  /** What a lookup of a missing key yields. */
  const NO_SLOT := SlotMeta(Other, "")

  function At<V>(m: map<string, V>, index: int, zero: V): V {
    if Itoa(index) in m then m[Itoa(index)] else zero
  }

  // ---- asInt ------------------------------------------------------------

  predicate IsBlank(c: char) {
    c == ' ' || '\t' <= c <= '\r' || c == '\U{0085}' || c == '\U{00A0}'
  }

  function TrimLeft(s: string): string {
    if s != "" && IsBlank(s[0]) then TrimLeft(s[1..]) else s
  }

  function TrimRight(s: string): string {
    if s != "" && IsBlank(s[|s| - 1]) then TrimRight(s[..|s| - 1]) else s
  }

  /** A conversion to int cuts the fraction off. */
  function Truncate(r: real): int {
    if r >= 0.0 then r.Floor else -((-r).Floor)
  }

  function AtoiSafe(s: string): int {
    match Atoi(TrimRight(TrimLeft(s)))
    case Parsed(n) => n
    case OutOfRange(nearest) => nearest
    case SyntaxError => 0
  }

  function AsInt(v: Json): int {
    match v
    case Number(value) => Truncate(value)
    case Text(text) => AtoiSafe(text)
    case Other => 0
  }

  /** A number is cut off towards zero. */
  lemma NumberIsCutOff(value: real)
    ensures
      var n := AsInt(Number(value)) as real;
      if value >= 0.0 then n <= value < n + 1.0 else n - 1.0 < value <= n
  {
  }

  predicate AllBlank(s: string) {
    forall k :: 0 <= k < |s| ==> IsBlank(s[k])
  }

  predicate NoBlankEnds(s: string) {
    s != "" && !IsBlank(s[0]) && !IsBlank(s[|s| - 1])
  }

  lemma {:induction false} TrimLeftOf(blanks: string, s: string)
    requires AllBlank(blanks) && (s == "" || !IsBlank(s[0]))
    ensures TrimLeft(blanks + s) == s
    decreases |blanks|
  {
    if blanks == "" {
      assert blanks + s == s;
    } else {
      assert (blanks + s)[1..] == blanks[1..] + s;
      TrimLeftOf(blanks[1..], s);
    }
  }

  lemma {:induction false} TrimRightOf(s: string, blanks: string)
    requires AllBlank(blanks) && (s == "" || !IsBlank(s[|s| - 1]))
    ensures TrimRight(s + blanks) == s
    decreases |blanks|
  {
    if blanks == "" {
      assert s + blanks == s;
    } else {
      var n := |s + blanks| - 1;
      assert (s + blanks)[..n] == s + blanks[..|blanks| - 1];
      TrimRightOf(s, blanks[..|blanks| - 1]);
    }
  }

  /** White space around a string is ignored, and the rest is read as a number; what is none counts as zero. */
  lemma TextIsRead(before: string, s: string, after: string)
    requires AllBlank(before) && NoBlankEnds(s) && AllBlank(after)
    ensures Atoi(s).Parsed? ==> AsInt(Text(before + s + after)) == Atoi(s).n
    ensures Atoi(s).OutOfRange? ==> AsInt(Text(before + s + after)) == Atoi(s).nearest
    ensures Atoi(s).SyntaxError? ==> AsInt(Text(before + s + after)) == 0
  {
    assert before + s + after == before + (s + after);
    TrimLeftOf(before, s + after);
    TrimRightOf(s, after);
  }

  /** A printed number is read back, whatever white space is around it. */
  lemma PrintedIsRead(before: string, n: int, after: string)
    requires AllBlank(before) && AllBlank(after) && InRange(n)
    ensures AsInt(Text(before + Itoa(n) + after)) == n
  {
    AtoiInvertsItoa(n);
    TextIsRead(before, Itoa(n), after);
  }

  /** A product of 64-bit integers wraps around. */
  function Wrap(n: int): (w: int)
    ensures InRange(w) && (InRange(n) ==> w == n) && (n - w) % 0x1_0000_0000_0000_0000 == 0
  {
    (n - MIN_INT) % 0x1_0000_0000_0000_0000 + MIN_INT
  }

  function BitsOf(keyslots: map<string, SlotMeta>, index: int): int {
    Wrap(AsInt(At(keyslots, index, NO_SLOT).keySize) * 8)
  }

  // ---- sortedIndexes ----------------------------------------------------

  ghost function KeysFor(keys: set<string>, n: int): set<string> {
    set k | k in keys && Atoi(k) == Parsed(n)
  }

  /** The numeric keys in ascending order, each as often as keys are read as it. */
  ghost predicate IsListing(indexes: seq<int>, keys: set<string>) {
    Ascending(indexes) && Counted(indexes, keys)
  }

  ghost predicate Counted(indexes: seq<int>, keys: set<string>) {
    forall n :: multiset(indexes)[n] == |KeysFor(keys, n)|
  }

  lemma OneMoreKey(indexes: seq<int>, keys: set<string>, k: string)
    requires Counted(indexes, keys) && k !in keys
    ensures Atoi(k).Parsed? ==> Counted(indexes + [Atoi(k).n], keys + {k})
    ensures !Atoi(k).Parsed? ==> Counted(indexes, keys + {k})
  {
    forall n ensures KeysFor(keys + {k}, n) == KeysFor(keys, n) + (if Atoi(k) == Parsed(n) then {k} else {}) {
    }
    if Atoi(k).Parsed? {
      assert multiset(indexes + [Atoi(k).n]) == multiset(indexes) + multiset{Atoi(k).n};
    }
  }

  method SortedIndexes<V>(m: map<string, V>) returns (indexes: seq<int>)
    ensures IsListing(indexes, m.Keys)
  {
    indexes := [];
    var todo := m.Keys;
    ghost var done: set<string> := {};
    while todo != {}
      invariant done + todo == m.Keys && done !! todo && Counted(indexes, done)
      decreases |todo|
    {
      var k :| k in todo;
      OneMoreKey(indexes, done, k);
      todo, done := todo - {k}, done + {k};
      if Atoi(k).Parsed? {
        indexes := indexes + [Atoi(k).n];
      }
    }
    assert done == m.Keys;
    SortIntsSorts(indexes);
    indexes := SortInts(indexes);
  }

  /** The listing does not depend on the order in which the map was walked. */
  lemma ListingIsUnique(a: seq<int>, b: seq<int>, keys: set<string>)
    requires IsListing(a, keys) && IsListing(b, keys)
    ensures a == b
  {
    assert multiset(a) == multiset(b) by {
      forall n ensures multiset(a)[n] == multiset(b)[n] {
        assert multiset(a)[n] == |KeysFor(keys, n)|;
      }
    }
    SortedIsUnique(a, b);
  }

  /** No two keys are read as the same number. */
  ghost predicate NoTwoAlike(keys: set<string>) {
    forall a, b :: a in keys && b in keys && a != b && Atoi(a).Parsed? ==> Atoi(a) != Atoi(b)
  }

  lemma TwoKeysCount(keys: set<string>, a: string, b: string)
    requires a in keys && b in keys && a != b && Atoi(a).Parsed? && Atoi(a) == Atoi(b)
    ensures |KeysFor(keys, Atoi(a).n)| >= 2
  {
    var both := KeysFor(keys, Atoi(a).n);
    assert {a, b} <= both;
    assert both == {a, b} + (both - {a, b});
  }

  lemma AtMostOneKey(keys: set<string>, n: int)
    requires NoTwoAlike(keys)
    ensures |KeysFor(keys, n)| <= 1
  {
    var found := KeysFor(keys, n);
    if a :| a in found {
      assert found == {a};
    }
  }

  /** A listing is strictly ascending exactly if no two keys are read as the same number. */
  lemma StrictlyAscendingIff(indexes: seq<int>, keys: set<string>)
    requires IsListing(indexes, keys)
    ensures StrictlyAscending(indexes) <==> NoTwoAlike(keys)
  {
    StrictIffNoRepeats(indexes);
    if a, b :| a in keys && b in keys && a != b && Atoi(a).Parsed? && Atoi(a) == Atoi(b) {
      TwoKeysCount(keys, a, b);
      assert multiset(indexes)[Atoi(a).n] >= 2;
    } else {
      forall n ensures multiset(indexes)[n] <= 1 {
        AtMostOneKey(keys, n);
      }
    }
  }

  // ---- parseLUKS2Metadata -----------------------------------------------

  function SlotOf(keyslots: map<string, SlotMeta>, index: int): KeySlot {
    KeySlot(index, At(keyslots, index, NO_SLOT).kdf, "valid")
  }

  function IndexesIn(slots: seq<KeySlot>): seq<int> {
    seq(|slots|, i requires 0 <= i < |slots| => slots[i].index)
  }

  /** Each slot as it stands under its own number, in ascending order. */
  ghost predicate ListsSlots(slots: seq<KeySlot>, keyslots: map<string, SlotMeta>) {
    && IsListing(IndexesIn(slots), keyslots.Keys)
    && forall i :: 0 <= i < |slots| ==> slots[i] == SlotOf(keyslots, slots[i].index)
  }

  /** The first nonzero key size in slot order, in bits. */
  ghost predicate FirstKeySize(bits: int, slots: seq<KeySlot>, keyslots: map<string, SlotMeta>) {
    || (bits == 0 && forall i :: 0 <= i < |slots| ==> BitsOf(keyslots, slots[i].index) == 0)
    || (exists i :: 0 <= i < |slots| && bits == BitsOf(keyslots, slots[i].index) != 0
          && forall j :: 0 <= j < i ==> BitsOf(keyslots, slots[j].index) == 0)
  }

  ghost predicate IsLeast(n: int, keys: set<string>) {
    && (exists k :: k in keys && Atoi(k) == Parsed(n))
    && forall k :: k in keys && Atoi(k).Parsed? ==> n <= Atoi(k).n
  }

  /** The value under the numerically least key; nothing if no key is a number. */
  ghost predicate TakesLeast(value: string, m: map<string, string>) {
    && (forall n :: IsLeast(n, m.Keys) ==> value == At(m, n, ""))
    && ((forall k :: k in m ==> !Atoi(k).Parsed?) ==> value == "")
  }

  method LeastValue(m: map<string, string>) returns (value: string)
    ensures TakesLeast(value, m)
  {
    var indexes := SortedIndexes(m);
    if indexes == [] {
      value := "";
      forall k | k in m ensures !Atoi(k).Parsed? {
        if Atoi(k).Parsed? { ListedOnce(indexes, m.Keys, k); }
      }
    } else {
      value := At(m, indexes[0], "");
      FirstIsLeast(indexes, m.Keys);
    }
  }

  lemma ListedOnce(indexes: seq<int>, keys: set<string>, k: string)
    requires Counted(indexes, keys) && k in keys && Atoi(k).Parsed?
    ensures Atoi(k).n in indexes
  {
    assert k in KeysFor(keys, Atoi(k).n);
    assert multiset(indexes)[Atoi(k).n] > 0;
  }

  lemma ListedIsKey(indexes: seq<int>, keys: set<string>, n: int)
    requires Counted(indexes, keys) && n in indexes
    ensures exists k :: k in keys && Atoi(k) == Parsed(n)
  {
    assert n in multiset(indexes) && |KeysFor(keys, n)| > 0;
    var k :| k in KeysFor(keys, n);
  }

  lemma FirstIsLeast(indexes: seq<int>, keys: set<string>)
    requires IsListing(indexes, keys) && indexes != []
    ensures IsLeast(indexes[0], keys) && forall n :: IsLeast(n, keys) ==> n == indexes[0]
  {
    ListedIsKey(indexes, keys, indexes[0]);
    forall k | k in keys && Atoi(k).Parsed? ensures indexes[0] <= Atoi(k).n {
      ListedOnce(indexes, keys, k);
    }
  }

  method ParseLUKS2Metadata(hdr: Metadata) returns (d: Details)
    ensures ListsSlots(d.keySlots, hdr.keyslots)
    ensures FirstKeySize(d.keySizeBits, d.keySlots, hdr.keyslots)
    ensures TakesLeast(d.hash, hdr.digests) && TakesLeast(d.cipher, hdr.segments)
  {
    var indexes := SortedIndexes(hdr.keyslots);
    var slots, bits := [], 0;
    for i := 0 to |indexes|
      invariant |slots| == i && forall k :: 0 <= k < i ==> slots[k] == SlotOf(hdr.keyslots, indexes[k])
      invariant FirstKeySize(bits, slots, hdr.keyslots)
    {
      slots := slots + [SlotOf(hdr.keyslots, indexes[i])];
      if bits == 0 {
        bits := BitsOf(hdr.keyslots, indexes[i]);
      }
    }
    assert IndexesIn(slots) == indexes;
    var hash := LeastValue(hdr.digests);
    var cipher := LeastValue(hdr.segments);
    d := Details(slots, bits, hash, cipher);
  }

  ghost predicate AllCanonical(keys: set<string>) {
    forall k :: k in keys ==> Canonical(k)
  }

  /**
    With keys written the usual way, the listing is strictly ascending and
    one-to-one with the keys, and every slot carries its own KDF.
   */
  lemma CanonicalListing(slots: seq<KeySlot>, keyslots: map<string, SlotMeta>)
    requires AllCanonical(keyslots.Keys) && ListsSlots(slots, keyslots)
    ensures StrictlyAscending(IndexesIn(slots))
    ensures forall i :: 0 <= i < |slots| ==>
      var k := Itoa(slots[i].index); k in keyslots && slots[i].kind == keyslots[k].kdf
    ensures forall k :: k in keyslots ==> exists i :: 0 <= i < |slots| && Itoa(slots[i].index) == k
  {
    var indexes := IndexesIn(slots);
    StrictlyAscendingIff(indexes, keyslots.Keys);
    assert NoTwoAlike(keyslots.Keys);
    forall i | 0 <= i < |slots| ensures Itoa(slots[i].index) in keyslots {
      assert indexes[i] == slots[i].index;
      ListedIsKey(indexes, keyslots.Keys, indexes[i]);
    }
    forall k | k in keyslots ensures exists i :: 0 <= i < |slots| && Itoa(slots[i].index) == k {
      ListedOnce(indexes, keyslots.Keys, k);
      var i :| 0 <= i < |indexes| && indexes[i] == Atoi(k).n;
      assert Itoa(slots[i].index) == k;
    }
  }

  /** With canonical keys, hash and cipher are those stored under the least key. */
  lemma CanonicalLeast(value: string, m: map<string, string>, k: string)
    requires AllCanonical(m.Keys) && TakesLeast(value, m)
    requires k in m && forall other :: other in m ==> Atoi(k).n <= Atoi(other).n
    ensures value == m[k]
  {
    assert IsLeast(Atoi(k).n, m.Keys);
  }

  /** Unless a key size is absurdly large, the key size is eight times the first nonzero one. */
  lemma KeySizeIsEightfold(bits: int, slots: seq<KeySlot>, keyslots: map<string, SlotMeta>)
    requires FirstKeySize(bits, slots, keyslots)
    requires forall i :: 0 <= i < |slots| ==> InRange(AsInt(SizeAt(keyslots, slots[i])) * 8)
    ensures
      || (bits == 0 && forall i :: 0 <= i < |slots| ==> AsInt(SizeAt(keyslots, slots[i])) == 0)
      || (exists i :: 0 <= i < |slots| && bits == 8 * AsInt(SizeAt(keyslots, slots[i])) != 0
            && forall j :: 0 <= j < i ==> AsInt(SizeAt(keyslots, slots[j])) == 0)
  {
    assert forall i :: 0 <= i < |slots| ==> BitsOf(keyslots, slots[i].index) == AsInt(SizeAt(keyslots, slots[i])) * 8;
  }

  function SizeAt(keyslots: map<string, SlotMeta>, slot: KeySlot): Json {
    At(keyslots, slot.index, NO_SLOT).keySize
  }

  /** A slot whose key is written another way is listed, but as a slot without a KDF. */
  lemma AliasLosesKdf(keyslots: map<string, SlotMeta>, slots: seq<KeySlot>, k: string)
    requires ListsSlots(slots, keyslots) && k in keyslots && Atoi(k).Parsed? && Itoa(Atoi(k).n) !in keyslots
    ensures exists i :: 0 <= i < |slots| && slots[i] == KeySlot(Atoi(k).n, "", "valid")
  {
    ListedOnce(IndexesIn(slots), keyslots.Keys, k);
    var i :| 0 <= i < |slots| && IndexesIn(slots)[i] == Atoi(k).n;
    assert slots[i] == SlotOf(keyslots, slots[i].index);
  }
}
