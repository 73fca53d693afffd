/**
 * The order in which names are shown (src/inventory.rs): case aside, with runs of digits in order of the numbers they
 * write. What lower-casing does is a parameter.
 */
module NaturalOrder {

  datatype Ordering = Less | Equal | Greater

  function Mirror(o: Ordering): Ordering
  {
    match o
    case Less => Greater
    case Equal => Equal
    case Greater => Less
  }

  function CompareInts(a: int, b: int): Ordering
  {
    if a < b then Less else if a == b then Equal else Greater
  }

  function CompareChars(a: char, b: char): Ordering
  {
    CompareInts(a as int, b as int)
  }

  predicate IsDigit(c: char)
  {
    '0' <= c <= '9'
  }

  // ---------------------------------------------------------------------------------------------
  // Chunks
  // ---------------------------------------------------------------------------------------------

  /** The runs of digits and of other characters. */
  function ChunksOf(s: string): (r: seq<string>)
    ensures r == [] <==> s == []
    ensures r != [] ==> r[|r| - 1] != [] && r[|r| - 1][|r[|r| - 1]| - 1] == s[|s| - 1]
    decreases |s|
  {
    if s == [] then []
    else
      var n := |s| - 1;
      var most := ChunksOf(s[..n]);
      if most != [] && IsDigit(s[n - 1]) == IsDigit(s[n]) then most[..|most| - 1] + [most[|most| - 1] + [s[n]]]
      else most + [[s[n]]]
  }

  method Chunks(s: string) returns (out: seq<string>)
    ensures out == ChunksOf(s)
  {
    hide ChunksOf;
    out := [];
    assert s[..0] == [];
    var numeric, known := false, false;
    for i := 0 to |s|
      invariant out == ChunksOf(s[..i])
      invariant known == (i > 0) && (known ==> numeric == IsDigit(s[i - 1]))
    {
      var now := IsDigit(s[i]);
      if !known || numeric != now {
        out := out + [[]];
        numeric, known := now, true;
      }
      OneMoreChar(s, i);
      out := out[|out| - 1 := out[|out| - 1] + [s[i]]];
    }
    assert s[..|s|] == s;
  }

  /** One more character extends the last chunk, or else an empty one that begins after it. */
  lemma OneMoreChar(s: string, i: nat)
    requires i < |s|
    ensures var most := ChunksOf(s[..i]);
      var out := if i > 0 && IsDigit(s[i - 1]) == IsDigit(s[i]) then most else most + [[]];
      ChunksOf(s[..i + 1]) == out[|out| - 1 := out[|out| - 1] + [s[i]]]
  {
    assert s[..i + 1][..i] == s[..i];
    var most := ChunksOf(s[..i]);
    if i > 0 && IsDigit(s[i - 1]) == IsDigit(s[i]) {
      assert most[|most| - 1 := most[|most| - 1] + [s[i]]] == most[..|most| - 1] + [most[|most| - 1] + [s[i]]];
    } else {
      var nothing: string := [];
      assert nothing + [s[i]] == [s[i]];
      assert (most + [nothing])[|most| := [s[i]]] == most + [[s[i]]];
    }
  }

  function Concat(chunks: seq<string>): string
    decreases |chunks|
  {
    if chunks == [] then [] else Concat(chunks[..|chunks| - 1]) + chunks[|chunks| - 1]
  }

  /** A chunk is not empty and is all digits or has none. */
  ghost predicate IsRun(chunk: string)
  {
    chunk != [] && forall i :: 0 <= i < |chunk| ==> IsDigit(chunk[i]) == IsDigit(chunk[0])
  }

  ghost predicate Alternate(chunks: seq<string>)
  {
    && (forall i :: 0 <= i < |chunks| ==> IsRun(chunks[i]))
    && forall i, j :: 0 <= i && j == i + 1 && j < |chunks| ==> IsDigit(chunks[i][0]) != IsDigit(chunks[j][0])
  }

  /** The chunks are the whole text, cut exactly where digits meet other characters. */
  lemma {:induction false} ChunksAlternate(s: string)
    ensures Concat(ChunksOf(s)) == s && Alternate(ChunksOf(s))
    decreases |s|
  {
    hide Alternate, Concat, IsRun;
    if s == [] {
      NoChunks();
    } else {
      var n := |s| - 1;
      var most := ChunksOf(s[..n]);
      ChunksAlternate(s[..n]);
      assert s == s[..n] + [s[n]];
      if most != [] && IsDigit(s[n - 1]) == IsDigit(s[n]) {
        LongerChunk(most, s[n]);
      } else {
        NextChunk(most, s[n]);
      }
    }
  }

  lemma NoChunks()
    ensures Concat([]) == [] && Alternate([])
  {}

  /** The last character of the last chunk. */
  function LastChar(chunks: seq<string>): char
    requires chunks != [] && chunks[|chunks| - 1] != []
  {
    chunks[|chunks| - 1][|chunks[|chunks| - 1]| - 1]
  }

  lemma LastCharIsLikeTheFirst(chunks: seq<string>)
    requires chunks != [] && Alternate(chunks)
    ensures chunks[|chunks| - 1] != [] && IsDigit(LastChar(chunks)) == IsDigit(chunks[|chunks| - 1][0])
  {
    assert IsRun(chunks[|chunks| - 1]);
  }

  lemma LongerChunk(chunks: seq<string>, c: char)
    requires chunks != [] && chunks[|chunks| - 1] != [] && Alternate(chunks) && IsDigit(LastChar(chunks)) == IsDigit(c)
    ensures var all := chunks[..|chunks| - 1] + [chunks[|chunks| - 1] + [c]];
      Alternate(all) && Concat(all) == Concat(chunks) + [c]
  {
    var last := chunks[|chunks| - 1];
    var all := chunks[..|chunks| - 1] + [last + [c]];
    LastCharIsLikeTheFirst(chunks);
    assert IsRun(last) && IsRun(last + [c]);
    assert all[..|all| - 1] == chunks[..|chunks| - 1];
    hide IsRun;
  }

  lemma NextChunk(chunks: seq<string>, c: char)
    requires Alternate(chunks)
    requires chunks != [] ==> chunks[|chunks| - 1] != [] && IsDigit(LastChar(chunks)) != IsDigit(c)
    ensures Alternate(chunks + [[c]]) && Concat(chunks + [[c]]) == Concat(chunks) + [c]
  {
    if chunks != [] {
      LastCharIsLikeTheFirst(chunks);
    }
    assert IsRun([c]);
    assert (chunks + [[c]])[..|chunks|] == chunks;
    hide IsRun;
  }

  // ---------------------------------------------------------------------------------------------
  // Comparing
  // ---------------------------------------------------------------------------------------------

  function Lexicographic<T>(a: seq<T>, b: seq<T>, compare: (T, T) -> Ordering): Ordering
  {
    if a == [] || b == [] then CompareInts(|a|, |b|)
    else if compare(a[0], b[0]) != Equal then compare(a[0], b[0])
    else Lexicographic(a[1..], b[1..], compare)
  }

  predicate IsNumber(chunk: string)
  {
    chunk != [] && IsDigit(chunk[0])
  }

  function StripZeros(s: string): (r: string)
    ensures |r| <= |s| && (r != [] ==> r[0] != '0')
  {
    if s != [] && s[0] == '0' then StripZeros(s[1..]) else s
  }

  function CompareText(a: string, b: string): Ordering
  {
    Lexicographic(a, b, CompareChars)
  }

  function CompareNumbers(a: string, b: string): Ordering
  {
    var x, y := StripZeros(a), StripZeros(b);
    if CompareInts(|x|, |y|) != Equal then CompareInts(|x|, |y|) else CompareText(x, y)
  }

  /** Numbers by their value and before other text, other text by its characters. */
  function CompareChunks(a: string, b: string): Ordering
  {
    if IsNumber(a) && IsNumber(b) then CompareNumbers(a, b)
    else if IsNumber(a) != IsNumber(b) then if IsNumber(a) then Less else Greater
    else CompareText(a, b)
  }

  function Compare(left: string, right: string, lower: string -> string): Ordering
  {
    Lexicographic(ChunksOf(lower(left)), ChunksOf(lower(right)), CompareChunks)
  }

  method CompareNames(left: string, right: string, lower: string -> string) returns (o: Ordering)
    ensures o == Compare(left, right, lower)
  {
    hide ChunksOf, CompareChunks;
    var a := Chunks(lower(left));
    var b := Chunks(lower(right));
    var i := 0;
    assert a[0..] == a && b[0..] == b;
    while i < |a| && i < |b|
      invariant i <= |a| && i <= |b|
      invariant Compare(left, right, lower) == Lexicographic(a[i..], b[i..], CompareChunks)
      decreases |a| - i
    {
      var compared := CompareChunks(a[i], b[i]);
      assert a[i..][1..] == a[i + 1..] && b[i..][1..] == b[i + 1..];
      if compared != Equal {
        return compared;
      }
      i := i + 1;
    }
    o := CompareInts(|a|, |b|);
  }

  // ---------------------------------------------------------------------------------------------
  // A total preorder
  // ---------------------------------------------------------------------------------------------

  /** What a comparison of three things must satisfy to be an order that ranks everything. */
  ghost predicate Ranks<T(!new)>(compare: (T, T) -> Ordering)
  {
    && (forall x :: compare(x, x) == Equal)
    && (forall x, y :: compare(x, y) == Mirror(compare(y, x)))
    && forall x, y, z :: compare(x, y) != Greater && compare(y, z) != Greater ==>
         compare(x, z) == if compare(x, y) == Equal && compare(y, z) == Equal then Equal else Less
  }

  lemma {:induction false} LexicographicReflects<T(!new)>(a: seq<T>, b: seq<T>, compare: (T, T) -> Ordering)
    requires Ranks(compare)
    ensures Lexicographic(a, a, compare) == Equal
    ensures Lexicographic(a, b, compare) == Mirror(Lexicographic(b, a, compare))
    decreases |a|
  {
    if a != [] {
      LexicographicReflects(a[1..], if b == [] then b else b[1..], compare);
    }
  }

  lemma {:induction false} LexicographicChains<T(!new)>(a: seq<T>, b: seq<T>, c: seq<T>, compare: (T, T) -> Ordering)
    requires Ranks(compare)
    requires Lexicographic(a, b, compare) != Greater && Lexicographic(b, c, compare) != Greater
    ensures Lexicographic(a, c, compare) ==
            if Lexicographic(a, b, compare) == Equal && Lexicographic(b, c, compare) == Equal then Equal else Less
    decreases |a|
  {
    if a != [] && b != [] && c != [] {
      var x, y, z := a[0], b[0], c[0];
      if compare(x, y) == Equal && compare(y, z) == Equal {
        LexicographicChains(a[1..], b[1..], c[1..], compare);
      }
    }
  }

  lemma LexicographicRanks<T(!new)>(compare: (T, T) -> Ordering)
    requires Ranks(compare)
    ensures Ranks((a: seq<T>, b: seq<T>) => Lexicographic(a, b, compare))
  {
    hide Lexicographic;
    forall a: seq<T>, b: seq<T>
      ensures Lexicographic(a, a, compare) == Equal
      ensures Lexicographic(a, b, compare) == Mirror(Lexicographic(b, a, compare))
    {
      LexicographicReflects(a, b, compare);
    }
    forall a: seq<T>, b: seq<T>, c: seq<T>
      | Lexicographic(a, b, compare) != Greater && Lexicographic(b, c, compare) != Greater
      ensures Lexicographic(a, c, compare) ==
              if Lexicographic(a, b, compare) == Equal && Lexicographic(b, c, compare) == Equal then Equal else Less
    {
      LexicographicChains(a, b, c, compare);
    }
  }

  lemma CharsRank()
    ensures Ranks(CompareChars)
  {}

  lemma TextRanks()
    ensures Ranks(CompareText)
  {
    CharsRank();
    LexicographicRanks(CompareChars);
    var order := (a: seq<char>, b: seq<char>) => Lexicographic(a, b, CompareChars);
    assert forall a: string, b: string :: CompareText(a, b) == order(a, b);
  }

  lemma ChunksRank()
    ensures Ranks(CompareChunks)
  {
    TextRanks();
    hide CompareText, StripZeros;
  }

  /** Names are ranked: each equals itself, comparing the other way round mirrors, and the order is transitive. */
  lemma NamesAreRanked(a: string, b: string, c: string, lower: string -> string)
    ensures Compare(a, a, lower) == Equal
    ensures Compare(a, b, lower) == Mirror(Compare(b, a, lower))
    ensures Compare(a, b, lower) != Greater && Compare(b, c, lower) != Greater ==>
              Compare(a, c, lower) ==
              if Compare(a, b, lower) == Equal && Compare(b, c, lower) == Equal then Equal else Less
  {
    ChunksRank();
    hide CompareChunks, ChunksOf;
    var x, y, z := ChunksOf(lower(a)), ChunksOf(lower(b)), ChunksOf(lower(c));
    LexicographicReflects(x, y, CompareChunks);
    if Compare(a, b, lower) != Greater && Compare(b, c, lower) != Greater {
      LexicographicChains(x, y, z, CompareChunks);
    }
  }

  // ---------------------------------------------------------------------------------------------
  // Digits are numbers
  // ---------------------------------------------------------------------------------------------

  function Pow10(n: nat): (r: nat)
    ensures r > 0
  {
    if n == 0 then 1 else 10 * Pow10(n - 1)
  }

  ghost predicate AllDigits(s: string)
  {
    forall i :: 0 <= i < |s| ==> IsDigit(s[i])
  }

  function Digit(c: char): (d: nat)
    requires IsDigit(c)
    ensures d <= 9 && (d == 0 <==> c == '0')
  {
    c as int - '0' as int
  }

  /** The natural number a run of digits writes. */
  function Value(s: string): nat
    requires AllDigits(s)
  {
    if s == [] then 0 else Digit(s[0]) * Pow10(|s| - 1) + Value(s[1..])
  }

  lemma {:induction false} ValueIsBounded(s: string)
    requires AllDigits(s)
    ensures Value(s) < Pow10(|s|)
    ensures s != [] && s[0] != '0' ==> Value(s) >= Pow10(|s| - 1)
  {
    if s != [] {
      ValueIsBounded(s[1..]);
      var d: nat, p: nat := Digit(s[0]), Pow10(|s| - 1);
      AtMostNine(d, p);
    }
  }

  lemma AtMostNine(d: nat, p: nat)
    requires d <= 9
    ensures 0 <= d * p <= 9 * p && (d > 0 ==> p <= d * p)
  {}

  lemma {:induction false} ZerosAddNothing(s: string)
    requires AllDigits(s)
    ensures AllDigits(StripZeros(s)) && Value(StripZeros(s)) == Value(s)
  {
    if s != [] && s[0] == '0' {
      ZerosAddNothing(s[1..]);
      assert Digit(s[0]) * Pow10(|s| - 1) == 0;
    }
  }

  lemma {:induction false} PowersGrow(m: nat, n: nat)
    requires m <= n
    ensures Pow10(m) <= Pow10(n)
  {
    if m < n {
      PowersGrow(m, n - 1);
    }
  }

  lemma LargerDigit(x: nat, y: nat, p: nat, v: nat, w: nat)
    requires x < y && v < p
    ensures x * p + v < y * p + w
  {
    assert (x + 1) * p <= y * p;
  }

  lemma {:induction false} SameLengthByValue(a: string, b: string)
    requires AllDigits(a) && AllDigits(b) && |a| == |b|
    ensures CompareText(a, b) == CompareInts(Value(a), Value(b))
  {
    if a != [] {
      var x: nat, y: nat, p: nat := Digit(a[0]), Digit(b[0]), Pow10(|a| - 1);
      ValueIsBounded(a[1..]);
      ValueIsBounded(b[1..]);
      if x < y {
        LargerDigit(x, y, p, Value(a[1..]), Value(b[1..]));
      } else if y < x {
        LargerDigit(y, x, p, Value(b[1..]), Value(a[1..]));
      } else {
        SameLengthByValue(a[1..], b[1..]);
      }
    }
  }

  /** Runs of digits, of any length, compare as the natural numbers they write. */
  lemma DigitsCompareAsNumbers(a: string, b: string)
    requires AllDigits(a) && AllDigits(b)
    ensures CompareNumbers(a, b) == CompareInts(Value(a), Value(b))
  {
    hide CompareText;
    var x, y := StripZeros(a), StripZeros(b);
    ZerosAddNothing(a);
    ZerosAddNothing(b);
    ValueIsBounded(x);
    ValueIsBounded(y);
    if |x| < |y| {
      PowersGrow(|x|, |y| - 1);
    } else if |y| < |x| {
      PowersGrow(|y|, |x| - 1);
    } else {
      SameLengthByValue(x, y);
    }
  }

  /** The order of two numbers inside names is the order of their values. */
  lemma NumberChunksCompareAsNumbers(a: string, b: string)
    requires IsRun(a) && IsRun(b) && IsNumber(a) && IsNumber(b)
    ensures AllDigits(a) && AllDigits(b)
    ensures CompareChunks(a, b) == CompareInts(Value(a), Value(b))
  {
    DigitsCompareAsNumbers(a, b);
  }

  // ---------------------------------------------------------------------------------------------
  // Equal names
  // ---------------------------------------------------------------------------------------------

  ghost predicate AgreeUpToZeros(a: seq<string>, b: seq<string>)
  {
    |a| == |b| && forall i :: 0 <= i < |a| ==> SameUpToZeros(a[i], b[i])
  }

  /** Equal text, or numbers equal but for leading zeros. */
  predicate SameUpToZeros(a: string, b: string)
  {
    a == b || (IsNumber(a) && IsNumber(b) && StripZeros(a) == StripZeros(b))
  }

  lemma {:induction false} EqualTextIsEqual(a: string, b: string)
    ensures CompareText(a, b) == Equal <==> a == b
    decreases |a|
  {
    if a != [] && b != [] {
      EqualTextIsEqual(a[1..], b[1..]);
      assert a == [a[0]] + a[1..] && b == [b[0]] + b[1..];
    }
  }

  lemma EqualChunks(a: string, b: string)
    ensures CompareChunks(a, b) == Equal <==> SameUpToZeros(a, b)
  {
    hide CompareText;
    EqualTextIsEqual(a, b);
    EqualTextIsEqual(StripZeros(a), StripZeros(b));
  }

  lemma {:induction false} EqualLists(a: seq<string>, b: seq<string>)
    ensures Lexicographic(a, b, CompareChunks) == Equal <==> AgreeUpToZeros(a, b)
    decreases |a|
  {
    hide CompareChunks, SameUpToZeros;
    if a != [] && b != [] {
      EqualChunks(a[0], b[0]);
      EqualLists(a[1..], b[1..]);
      assert a == [a[0]] + a[1..] && b == [b[0]] + b[1..];
    }
  }

  /** Two names are equal exactly when, in lower case, their chunks agree up to leading zeros. */
  lemma NamesAreEqualExactlyWhen(left: string, right: string, lower: string -> string)
    ensures Compare(left, right, lower) == Equal <==>
            AgreeUpToZeros(ChunksOf(lower(left)), ChunksOf(lower(right)))
  {
    EqualLists(ChunksOf(lower(left)), ChunksOf(lower(right)));
  }

  // ---------------------------------------------------------------------------------------------
  // Which name comes first
  // ---------------------------------------------------------------------------------------------

  /** The texts are the same up to `n`, where the first ends or has the smaller character. */
  ghost predicate PartsAt(a: string, b: string, n: nat)
  {
    && n <= |a| && n <= |b| && a[..n] == b[..n]
    && ((n == |a| && n < |b|) || (n < |a| && n < |b| && a[n] as int < b[n] as int))
  }

  ghost predicate TextPrecedes(a: string, b: string)
  {
    exists n: nat :: PartsAt(a, b, n)
  }

  lemma {:induction false} TextPrecedesExactlyWhen(a: string, b: string)
    ensures CompareText(a, b) == Less <==> TextPrecedes(a, b)
    decreases |a|
  {
    if a == [] || b == [] {
      if b != [] {
        assert PartsAt(a, b, 0);
      }
    } else if a[0] < b[0] {
      assert PartsAt(a, b, 0);
    } else if a[0] == b[0] {
      TextPrecedesExactlyWhen(a[1..], b[1..]);
      if n: nat :| PartsAt(a[1..], b[1..], n) {
        assert a[..n + 1] == [a[0]] + a[1..][..n] && b[..n + 1] == [b[0]] + b[1..][..n];
        assert PartsAt(a, b, n + 1);
      }
      if n: nat :| PartsAt(a, b, n) {
        assert a[1..][..n - 1] == a[..n][1..] && b[1..][..n - 1] == b[..n][1..];
        assert PartsAt(a[1..], b[1..], n - 1);
      }
    } else {
      forall n: nat ensures !PartsAt(a, b, n) {
        if 0 < n <= |a| && n <= |b| {
          assert a[..n][0] == a[0] && b[..n][0] == b[0];
        }
      }
    }
  }

  /** A run of digits. */
  ghost predicate IsDigits(chunk: string)
  {
    chunk != [] && forall i :: 0 <= i < |chunk| ==> '0' <= chunk[i] <= '9'
  }

  /** Runs of digits come before other text and by their value, other text by its characters. */
  ghost predicate ChunkPrecedes(a: string, b: string)
  {
    if IsDigits(a) then
      if IsDigits(b) then AllDigits(a) && AllDigits(b) && Value(a) < Value(b) else true
    else !IsDigits(b) && TextPrecedes(a, b)
  }

  lemma ChunkPrecedesExactlyWhen(a: string, b: string)
    requires IsRun(a) && IsRun(b)
    ensures CompareChunks(a, b) == Less <==> ChunkPrecedes(a, b)
  {
    hide TextPrecedes, CompareText, CompareNumbers, Value;
    RunsAreDigitsOrNone(a);
    RunsAreDigitsOrNone(b);
    if IsNumber(a) && IsNumber(b) {
      NumberChunksCompareAsNumbers(a, b);
    } else {
      TextPrecedesExactlyWhen(a, b);
    }
  }

  lemma RunsAreDigitsOrNone(chunk: string)
    requires IsRun(chunk)
    ensures IsNumber(chunk) <==> IsDigits(chunk)
    ensures IsDigits(chunk) <==> AllDigits(chunk)
  {}

  /** The lists agree up to chunk `n`, where the first list ends or has the chunk that comes first. */
  ghost predicate ListsPartAt(a: seq<string>, b: seq<string>, n: nat)
  {
    && n <= |a| && n <= |b| && AgreeUpToZeros(a[..n], b[..n])
    && ((n == |a| && n < |b|) || (n < |a| && n < |b| && ChunkPrecedes(a[n], b[n])))
  }

  ghost predicate AreRuns(chunks: seq<string>)
  {
    forall i :: 0 <= i < |chunks| ==> IsRun(chunks[i])
  }

  lemma {:induction false} ListPrecedesExactlyWhen(a: seq<string>, b: seq<string>)
    requires AreRuns(a) && AreRuns(b)
    ensures Lexicographic(a, b, CompareChunks) == Less <==> exists n: nat :: ListsPartAt(a, b, n)
    decreases |a|
  {
    hide CompareChunks, ChunkPrecedes, SameUpToZeros, IsRun;
    if a == [] || b == [] {
      if b != [] {
        assert ListsPartAt(a, b, 0);
      }
    } else {
      ChunkPrecedesExactlyWhen(a[0], b[0]);
      EqualChunks(a[0], b[0]);
      if CompareChunks(a[0], b[0]) == Less {
        assert ListsPartAt(a, b, 0);
      } else if CompareChunks(a[0], b[0]) == Equal {
        ListPrecedesExactlyWhen(a[1..], b[1..]);
        if n: nat :| ListsPartAt(a[1..], b[1..], n) {
          assert a[..n + 1] == [a[0]] + a[1..][..n] && b[..n + 1] == [b[0]] + b[1..][..n];
          assert ListsPartAt(a, b, n + 1);
        }
        if n: nat :| ListsPartAt(a, b, n) {
          assert n > 0;
          assert a[1..][..n - 1] == a[..n][1..] && b[1..][..n - 1] == b[..n][1..];
          assert ListsPartAt(a[1..], b[1..], n - 1);
        }
      } else {
        forall n: nat ensures !ListsPartAt(a, b, n) {
          if 0 < n <= |a| && n <= |b| {
            assert a[..n][0] == a[0] && b[..n][0] == b[0];
          }
        }
      }
    }
  }

  /**
   * One name comes before another exactly when, in lower case, their chunks agree up to leading zeros to some place
   * where the first name ends, or has the smaller number, or a number where the other has text, or the smaller text.
   */
  lemma NamePrecedesExactlyWhen(left: string, right: string, lower: string -> string)
    ensures Compare(left, right, lower) == Less <==>
            exists n: nat :: ListsPartAt(ChunksOf(lower(left)), ChunksOf(lower(right)), n)
  {
    hide ListsPartAt, IsRun, CompareChunks;
    ChunksAlternate(lower(left));
    ChunksAlternate(lower(right));
    ListPrecedesExactlyWhen(ChunksOf(lower(left)), ChunksOf(lower(right)));
  }
}
