/**
 * The application's entities (types.ts) and the few notions every component
 * shares: selecting records by status, and the image shown for a record.
 */
module Types {
  import opened Wrappers
  import opened Sequences

  /** Whether a mountain was climbed or is on the wish list. */
  datatype HikeStatus = Completed | Wish

  /** A map position; the model never computes with it. */
  datatype Coordinates = Coordinates(lat: real, lng: real)

  /** One logged or wished-for hike. */
  datatype HikeRecord = HikeRecord(
    id: string,
    mountainName: string,
    elevation: int,
    date: string,
    description: string,
    status: HikeStatus,
    coords: Coordinates,
    rating: Option<int>,
    image: Option<string>)

  datatype Difficulty = Easy | Moderate | Hard | Expert

  /** Descriptive tips about a mountain, as the insight service returns them. */
  datatype MountainInfo = MountainInfo(
    name: string,
    description: string,
    difficulty: Difficulty,
    recommendedSeason: string,
    gearSuggestions: seq<string>)

  /** The other status. */
  function Flipped(s: HikeStatus): (r: HikeStatus)
    ensures r != s
  {
    if s == Completed then Wish else Completed
  }

  /** The test `r.status === s` as a predicate on records. */
  function StatusIs(s: HikeStatus): HikeRecord -> bool
  {
    (r: HikeRecord) => r.status == s
  }

  /** `records.filter(r => r.status === s)`. */
  function WithStatus(records: seq<HikeRecord>, s: HikeStatus): (r: seq<HikeRecord>)
    ensures forall x :: x in r <==> x in records && x.status == s
    ensures forall x :: multiset(r)[x] == if x.status == s then multiset(records)[x] else 0
    ensures IsSubsequence(r, records)
  {
    FilterIsSubsequence(records, StatusIs(s));
    FilterMultiset(records, StatusIs(s));
    Filter(records, StatusIs(s))
  }

  /** Every record is either completed or wished for, never both. */
  lemma StatusPartition(records: seq<HikeRecord>)
    ensures |WithStatus(records, Completed)| + |WithStatus(records, Wish)| == |records|
  {
    FilterComplementLengths(records, StatusIs(Completed), StatusIs(Wish));
  }

  /** The start of every placeholder URL; the mountain name follows it. */
  const PicsumSeed: string := "https://picsum.photos/seed/"

  /** The picsum.photos URL that stands in for a missing picture of a mountain. */
  function PlaceholderImage(mountainName: string, width: string, height: string): (url: string)
    ensures |url| > |PicsumSeed| + |mountainName|
    ensures url[..|PicsumSeed|] == PicsumSeed
    ensures url[|PicsumSeed|..|PicsumSeed| + |mountainName|] == mountainName
  {
    PicsumSeed + mountainName + "/" + width + "/" + height
  }

  /** Different mountains get different placeholders. */
  lemma PlaceholderInjective(a: string, b: string, width: string, height: string)
    requires PlaceholderImage(a, width, height) == PlaceholderImage(b, width, height)
    ensures a == b
  {
    var prefix := PicsumSeed;
    var suffix := "/" + width + "/" + height;
    assert PlaceholderImage(a, width, height) == prefix + a + suffix;
    assert PlaceholderImage(b, width, height) == prefix + b + suffix;
    assert |a| == |b|;
    assert a == PlaceholderImage(a, width, height)[|prefix|..|prefix| + |a|];
    assert b == PlaceholderImage(b, width, height)[|prefix|..|prefix| + |b|];
  }

  /**
   * `record.image || placeholder`: the stored picture unless it is absent
   * or empty (both falsy), else the placeholder for the mountain.
   */
  function ImageOrPlaceholder(record: HikeRecord, width: string, height: string): (url: string)
    ensures url != []
    ensures url == PlaceholderImage(record.mountainName, width, height)
            <== record.image.None? || record.image.value == []
    ensures record.image.Some? && record.image.value != [] ==> url == record.image.value
  {
    match record.image
    case Some(u) => if u != [] then u else PlaceholderImage(record.mountainName, width, height)
    case None => PlaceholderImage(record.mountainName, width, height)
  }
}
