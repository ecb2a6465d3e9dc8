/**
 * The placeholder data a fetch generates: four records named "Record 1" to
 * "Record 4", each with between one and four details numbered from 1.
 *
 * The program draws two kinds of random numbers: for each record an
 * exclusive upper bound `r` in 2..5 for its detail loop `1..<r`, and for each
 * detail a count in 0..10. The model takes those draws as input (`Draw`)
 * and states the generated content exactly in terms of them.
 */
module Placeholder {
  import opened Entities

  /** The outer generation loop runs `for count in 1..<5`. */
  const RecordsPerFetch := 4
  /** `Int.random(in: 2..<6)`: the drawn bound lies in 2..5. */
  const MinUpper := 2
  const MaxUpper := 5
  /** `Int.random(in: 0..<11)`: a detail's count lies in 0..10. */
  const MaxCount := 10

  /** The numbers drawn for one record: its loop bound and one count per detail. */
  datatype Draw = Draw(upper: int, counts: seq<int>)

  /** The draws the random source can produce for one record. */
  predicate ValidDraw(d: Draw) {
    && MinUpper <= d.upper <= MaxUpper
    && |d.counts| == d.upper - 1
    && forall j :: 0 <= j < |d.counts| ==> 0 <= d.counts[j] <= MaxCount
  }

  /** One valid draw per iteration of the outer loop. */
  predicate ValidDraws(draws: seq<Draw>) {
    |draws| == RecordsPerFetch && forall i :: 0 <= i < |draws| ==> ValidDraw(draws[i])
  }

  // ---------------------------------------------------------------------
  // Rendering of integers in string interpolation

  function DigitChar(d: nat): char
    requires d < 10
  {
    ('0' as int + d) as char
  }

  /** The decimal digits of `n`, as `"\(n)"` renders a non-negative `Int`. */
  function Decimal(n: nat): string
  {
    if n < 10 then [DigitChar(n)] else Decimal(n / 10) + [DigitChar(n % 10)]
  }

  /** `"Record \(count)"` */
  function RecordName(n: nat): string {
    "Record " + Decimal(n)
  }

  /** `"Detail number \(detailCount)"` */
  function DetailDescription(k: nat): string {
    "Detail number " + Decimal(k)
  }

  lemma {:induction false} DecimalLength(n: nat)
    ensures |Decimal(n)| >= 1
    ensures n >= 10 ==> |Decimal(n)| >= 2
  {
    if n >= 10 {
      DecimalLength(n / 10);
    }
  }

  /** Different numbers render differently. */
  lemma {:induction false} DecimalInjective(a: nat, b: nat)
    requires Decimal(a) == Decimal(b)
    ensures a == b
  {
    if a < 10 && b < 10 {
      assert Decimal(a)[0] == DigitChar(a);
    } else if a < 10 {
      DecimalLength(b);
    } else if b < 10 {
      DecimalLength(a);
    } else {
      var s := Decimal(a);
      assert s == Decimal(a / 10) + [DigitChar(a % 10)];
      assert s == Decimal(b / 10) + [DigitChar(b % 10)];
      assert s[|s| - 1] == DigitChar(a % 10) == DigitChar(b % 10);
      assert Decimal(a / 10) == s[..|s| - 1] == Decimal(b / 10);
      DecimalInjective(a / 10, b / 10);
    }
  }

  /** Distinct record numbers give distinct names, and alike for descriptions. */
  lemma NamesInjective(a: nat, b: nat)
    ensures RecordName(a) == RecordName(b) ==> a == b
    ensures DetailDescription(a) == DetailDescription(b) ==> a == b
  {
    if RecordName(a) == RecordName(b) {
      assert Decimal(a) == RecordName(a)[7..] == RecordName(b)[7..] == Decimal(b);
      DecimalInjective(a, b);
    }
    if DetailDescription(a) == DetailDescription(b) {
      assert Decimal(a) == DetailDescription(a)[14..] == DetailDescription(b)[14..] == Decimal(b);
      DecimalInjective(a, b);
    }
  }

  // ---------------------------------------------------------------------
  // The generated content

  /** The details the inner loop has built after its first `k` iterations. */
  function DetailsUpTo(counts: seq<int>, k: nat): seq<DetailContent>
    requires k <= |counts|
  {
    if k == 0 then []
    else DetailsUpTo(counts, k - 1) + [DetailContent(counts[k - 1], DetailDescription(k))]
  }

  /** All details of one generated record: the loop `for detailCount in 1..<upper`. */
  function PlaceholderDetails(d: Draw): seq<DetailContent>
    requires ValidDraw(d)
  {
    DetailsUpTo(d.counts, d.upper - 1)
  }

  /** The records the outer loop has built after its first `k` iterations. */
  function RecordsUpTo(draws: seq<Draw>, k: nat): seq<RecordContent>
    requires k <= |draws|
    requires forall i :: 0 <= i < |draws| ==> ValidDraw(draws[i])
  {
    if k == 0 then []
    else RecordsUpTo(draws, k - 1) + [RecordContent(RecordName(k), PlaceholderDetails(draws[k - 1]))]
  }

  /**
   * Everything one fetch generates: all passes of the outer loop, one per
   * draw, so `RecordsPerFetch` of them (`ValidDraws`).
   */
  function PlaceholderRecords(draws: seq<Draw>): seq<RecordContent>
    requires ValidDraws(draws)
  {
    RecordsUpTo(draws, |draws|)
  }

  /** Detail `j` (from 0) carries the `j`-th drawn count and the number `j + 1`. */
  lemma {:induction false} DetailsUpToAt(counts: seq<int>, k: nat)
    requires k <= |counts|
    ensures |DetailsUpTo(counts, k)| == k
    ensures forall j :: 0 <= j < k ==>
      DetailsUpTo(counts, k)[j] == DetailContent(counts[j], DetailDescription(j + 1))
  {
    if k > 0 {
      DetailsUpToAt(counts, k - 1);
    }
  }

  /** Record `i` (from 0) is named after `i + 1` and built from the `i`-th draw. */
  lemma {:induction false} RecordsUpToAt(draws: seq<Draw>, k: nat)
    requires k <= |draws|
    requires forall i :: 0 <= i < |draws| ==> ValidDraw(draws[i])
    ensures |RecordsUpTo(draws, k)| == k
    ensures forall i :: 0 <= i < k ==>
      RecordsUpTo(draws, k)[i] == RecordContent(RecordName(i + 1), PlaceholderDetails(draws[i]))
  {
    if k > 0 {
      RecordsUpToAt(draws, k - 1);
    }
  }

  /**
   * The shape of a fetch's result: exactly four records, record `i` named
   * after `i + 1`, with `upper - 1` details (so one to four), detail `j`
   * holding the drawn count (in 0..10) and the description numbered `j + 1`.
   */
  lemma PlaceholderShape(draws: seq<Draw>)
    requires ValidDraws(draws)
    ensures |PlaceholderRecords(draws)| == RecordsPerFetch
    ensures forall i :: 0 <= i < RecordsPerFetch ==>
      && PlaceholderRecords(draws)[i].name == RecordName(i + 1)
      && |PlaceholderRecords(draws)[i].details| == draws[i].upper - 1
      && 1 <= |PlaceholderRecords(draws)[i].details| <= 4
    ensures forall i, j :: 0 <= i < RecordsPerFetch && 0 <= j < |PlaceholderRecords(draws)[i].details| ==>
      && PlaceholderRecords(draws)[i].details[j] == DetailContent(draws[i].counts[j], DetailDescription(j + 1))
      && 0 <= PlaceholderRecords(draws)[i].details[j].count <= MaxCount
  {
    RecordsUpToAt(draws, RecordsPerFetch);
    forall i | 0 <= i < RecordsPerFetch
      ensures |PlaceholderRecords(draws)[i].details| == draws[i].upper - 1
    {
      DetailsUpToAt(draws[i].counts, draws[i].upper - 1);
    }
    forall i, j | 0 <= i < RecordsPerFetch && 0 <= j < |PlaceholderRecords(draws)[i].details|
      ensures ValidDraw(draws[i]) && PlaceholderRecords(draws)[i].details[j] == DetailContent(draws[i].counts[j], DetailDescription(j + 1))
      ensures 0 <= PlaceholderRecords(draws)[i].details[j].count <= MaxCount
    {
      DetailsUpToAt(draws[i].counts, draws[i].upper - 1);
      assert ValidDraw(draws[i]);
    }
  }

  /** The generated names are literally "Record 1" to "Record 4", in that order. */
  lemma PlaceholderNames(draws: seq<Draw>)
    requires ValidDraws(draws)
    ensures |PlaceholderRecords(draws)| == 4
    ensures PlaceholderRecords(draws)[0].name == "Record 1"
    ensures PlaceholderRecords(draws)[1].name == "Record 2"
    ensures PlaceholderRecords(draws)[2].name == "Record 3"
    ensures PlaceholderRecords(draws)[3].name == "Record 4"
  {
    PlaceholderShape(draws);
  }

  /** No two generated records share a name, and no two details of one record share a description. */
  lemma PlaceholderNamesDistinct(draws: seq<Draw>)
    requires ValidDraws(draws)
    ensures |PlaceholderRecords(draws)| == RecordsPerFetch
    ensures forall i, i' :: 0 <= i < i' < RecordsPerFetch ==>
      PlaceholderRecords(draws)[i].name != PlaceholderRecords(draws)[i'].name
    ensures forall i, j, j' :: 0 <= i < RecordsPerFetch && 0 <= j < j' < |PlaceholderRecords(draws)[i].details| ==>
      PlaceholderRecords(draws)[i].details[j].description != PlaceholderRecords(draws)[i].details[j'].description
  {
    PlaceholderShape(draws);
    forall a: nat, b: nat | a != b
      ensures RecordName(a) != RecordName(b) && DetailDescription(a) != DetailDescription(b)
    {
      NamesInjective(a, b);
    }
  }
}
