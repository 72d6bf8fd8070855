/** strconv.Itoa and strconv.Atoi on 64-bit integers, and sort.Ints. */
module Decimal {

  const MIN_INT: int := -0x8000_0000_0000_0000
  const MAX_INT: int := 0x7fff_ffff_ffff_ffff

  predicate InRange(n: int) {
    MIN_INT <= n <= MAX_INT
  }

  predicate IsDigit(c: char) {
    '0' <= c <= '9'
  }

  predicate AllDigits(s: string) {
    forall k :: 0 <= k < |s| ==> IsDigit(s[k])
  }

  function DigitValue(c: char): nat
    requires IsDigit(c)
  {
    c as int - '0' as int
  }

  function DigitChar(d: nat): (c: char)
    requires d < 10
    ensures IsDigit(c) && DigitValue(c) == d
  {
    ('0' as int + d) as char
  }

  function Digits(n: nat): (s: string)
    ensures s != "" && AllDigits(s)
  {
    if n < 10 then [DigitChar(n)] else Digits(n / 10) + [DigitChar(n % 10)]
  }

  function Itoa(n: int): string {
    if n < 0 then "-" + Digits(-n) else Digits(n)
  }

  /** The value of a string of digits. */
  function Value(s: string): nat
    requires AllDigits(s)
  {
    if s == "" then 0 else Value(s[..|s| - 1]) * 10 + DigitValue(s[|s| - 1])
  }

  /** The three ways strconv.Atoi can end; out of range it still yields the nearest bound. */
  datatype Parsed = Parsed(n: int) | OutOfRange(nearest: int) | SyntaxError

  predicate Signed(s: string) {
    s != "" && (s[0] == '+' || s[0] == '-')
  }

  function Bounded(n: int): Parsed {
    if n < MIN_INT then OutOfRange(MIN_INT) else if n > MAX_INT then OutOfRange(MAX_INT) else Parsed(n)
  }

  function Atoi(s: string): Parsed {
    var digits := if Signed(s) then s[1..] else s;
    if digits == "" || !AllDigits(digits) then SyntaxError
    else if s[0] == '-' then Bounded(-(Value(digits) as int))
    else Bounded(Value(digits))
  }

  /** The ten digits in their order. */
  lemma DigitsInOrder(d: nat)
    requires d < 10
    ensures DigitChar(d) == "0123456789"[d] && DigitValue("0123456789"[d]) == d
  {
    assert "0123456789"[d] as int == '0' as int + d;
  }

  function PowerOfTen(n: nat): nat {
    if n == 0 then 1 else 10 * PowerOfTen(n - 1)
  }

  /** A digit counts by the power of ten of its place. */
  lemma {:induction false} FirstDigitCounts(c: char, s: string)
    requires IsDigit(c) && AllDigits(s)
    ensures AllDigits([c] + s) && Value([c] + s) == DigitValue(c) * PowerOfTen(|s|) + Value(s)
    decreases |s|
  {
    var all := [c] + s;
    if s == "" {
      assert all[..0] == "" && Value("") == 0;
    } else {
      var shorter := s[..|s| - 1];
      FirstDigitCounts(c, shorter);
      assert all[..|all| - 1] == [c] + shorter;
      assert (DigitValue(c) * PowerOfTen(|shorter|)) * 10 == DigitValue(c) * PowerOfTen(|s|);
    }
  }

  /** A printed number has no leading zero. */
  lemma {:induction false} NoLeadingZero(n: nat)
    ensures Digits(n)[0] == '0' <==> n == 0
    decreases n
  {
    if n >= 10 {
      NoLeadingZero(n / 10);
    }
  }

  lemma {:induction false} ValueOfDigits(n: nat)
    ensures Value(Digits(n)) == n
    decreases n
  {
    if n < 10 {
      assert Digits(n)[..0] == "";
    } else {
      ValueOfDigits(n / 10);
      assert Digits(n)[..|Digits(n)| - 1] == Digits(n / 10);
    }
  }

  /** Digits with or without a sign are a number, cut off at the bounds of 64 bits; nothing else is. */
  lemma AtoiOfSigned(s: string)
    requires s != "" && AllDigits(s)
    ensures Atoi(s) == Bounded(Value(s)) && Atoi("+" + s) == Bounded(Value(s))
    ensures Atoi("-" + s) == Bounded(-(Value(s) as int))
  {
    assert ("+" + s)[1..] == s && ("-" + s)[1..] == s;
  }

  lemma BoundsOfInt(n: int)
    ensures Bounded(n).Parsed? <==> -9_223_372_036_854_775_808 <= n <= 9_223_372_036_854_775_807
    ensures Bounded(n).Parsed? ==> Bounded(n).n == n
  {
  }

  lemma AtoiOfDigits(n: nat)
    ensures Atoi(Digits(n)) == Bounded(n) && Atoi("-" + Digits(n)) == Bounded(-(n as int))
  {
    ValueOfDigits(n);
    assert !Signed(Digits(n));
    assert ("-" + Digits(n))[1..] == Digits(n);
  }

  /** Parsing what was printed gives the number back. */
  lemma AtoiInvertsItoa(n: int)
    requires InRange(n)
    ensures Atoi(Itoa(n)) == Parsed(n)
  {
    AtoiOfDigits(if n < 0 then -n else n);
  }

  /** The way the program itself writes a number. */
  ghost predicate Canonical(s: string) {
    Atoi(s).Parsed? && s == Itoa(Atoi(s).n)
  }

  // ---- sort.Ints --------------------------------------------------------

  ghost predicate Ascending(s: seq<int>) {
    forall i, j :: 0 <= i < j < |s| ==> s[i] <= s[j]
  }

  ghost predicate StrictlyAscending(s: seq<int>) {
    forall i, j :: 0 <= i < j < |s| ==> s[i] < s[j]
  }

  function Insert(x: int, s: seq<int>): seq<int> {
    if s == [] then [x] else if x <= s[0] then [x] + s else [s[0]] + Insert(x, s[1..])
  }

  function SortInts(s: seq<int>): seq<int> {
    if s == [] then [] else Insert(s[0], SortInts(s[1..]))
  }

  lemma {:induction false} InsertAdds(x: int, s: seq<int>)
    ensures multiset(Insert(x, s)) == multiset(s) + multiset{x}
  {
    if s != [] {
      assert s == [s[0]] + s[1..];
      if x > s[0] { InsertAdds(x, s[1..]); }
    }
  }

  lemma {:induction false} InsertKeepsOrder(x: int, s: seq<int>)
    requires Ascending(s)
    ensures Ascending(Insert(x, s))
  {
    if s != [] && x > s[0] {
      var rest := Insert(x, s[1..]);
      InsertKeepsOrder(x, s[1..]);
      InsertAdds(x, s[1..]);
      forall j | 0 <= j < |rest| ensures s[0] <= rest[j] {
        assert rest[j] in multiset(rest);
        assert rest[j] == x || rest[j] in s[1..];
      }
    }
  }

  lemma {:induction false} SortIntsSorts(s: seq<int>)
    ensures Ascending(SortInts(s)) && multiset(SortInts(s)) == multiset(s)
  {
    if s != [] {
      SortIntsSorts(s[1..]);
      InsertKeepsOrder(s[0], SortInts(s[1..]));
      InsertAdds(s[0], SortInts(s[1..]));
      assert s == [s[0]] + s[1..];
    }
  }

  lemma TailOf(s: seq<int>)
    requires s != []
    ensures multiset(s[1..]) == multiset(s) - multiset{s[0]}
  {
    assert s == [s[0]] + s[1..];
  }

  lemma LeastFirst(s: seq<int>, t: seq<int>)
    requires Ascending(s) && s != [] && t != [] && t[0] in multiset(s)
    ensures s[0] <= t[0]
  {
    assert t[0] in s;
  }

  /** There is only one way to sort: the order the elements came in does not matter. */
  lemma {:induction false} SortedIsUnique(s: seq<int>, t: seq<int>)
    requires Ascending(s) && Ascending(t) && multiset(s) == multiset(t)
    ensures s == t
    decreases |s|
  {
    assert |s| == |multiset(s)| == |multiset(t)| == |t|;
    if s != [] {
      assert s[0] in multiset(s) && t[0] in multiset(t);
      LeastFirst(s, t);
      LeastFirst(t, s);
      TailOf(s);
      TailOf(t);
      SortedIsUnique(s[1..], t[1..]);
      assert s == [s[0]] + s[1..] && t == [t[0]] + t[1..];
    }
  }

  lemma {:induction false} CountOfPair(s: seq<int>, i: nat, j: nat)
    requires i < j < |s| && s[i] == s[j]
    ensures multiset(s)[s[i]] >= 2
  {
    assert s == s[..j] + s[j..];
    assert s[i] in s[..j] && s[j] in s[j..];
    assert multiset(s) == multiset(s[..j]) + multiset(s[j..]);
  }

  /** A sorted sequence is strictly ascending exactly if nothing in it occurs twice. */
  lemma {:induction false} StrictIffNoRepeats(s: seq<int>)
    requires Ascending(s)
    ensures StrictlyAscending(s) <==> forall n :: multiset(s)[n] <= 1
    decreases |s|
  {
    if !StrictlyAscending(s) {
      var i, j :| 0 <= i < j < |s| && s[i] >= s[j];
      CountOfPair(s, i, j);
    } else if s != [] {
      StrictIffNoRepeats(s[1..]);
      assert s == [s[0]] + s[1..];
      assert s[0] !in s[1..];
      assert multiset(s) == multiset{s[0]} + multiset(s[1..]);
    }
  }
}
