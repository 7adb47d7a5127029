/**
 * The record store of App.tsx: the `records` state, its three updaters, the
 * choice of initial records at start-up, the copy kept in browser storage,
 * and the counts shown in the map legend.
 */
module App {
  import opened Wrappers
  import opened Sequences
  import opened Types

  /** `[record, ...prev]`: the new record first, the old ones after it. */
  function Added(records: seq<HikeRecord>, record: HikeRecord): (r: seq<HikeRecord>)
    ensures |r| == |records| + 1
    ensures r[0] == record && r[1..] == records
  {
    [record] + records
  }

  /** The test `r.id !== id` as a predicate on records. */
  function IdIsNot(id: string): HikeRecord -> bool
  {
    (r: HikeRecord) => r.id != id
  }

  /** `prev.filter(r => r.id !== id)`: every record carrying `id` goes. */
  function Deleted(records: seq<HikeRecord>, id: string): (r: seq<HikeRecord>)
    ensures forall x :: x in r <==> x in records && x.id != id
    ensures forall x :: multiset(r)[x] == if x.id != id then multiset(records)[x] else 0
    ensures IsSubsequence(r, records)
  {
    FilterIsSubsequence(records, IdIsNot(id));
    FilterMultiset(records, IdIsNot(id));
    Filter(records, IdIsNot(id))
  }

  /** Deleting an id that no record carries changes nothing. */
  lemma DeleteAbsentIsNoOp(records: seq<HikeRecord>, id: string)
    requires forall x :: x in records ==> x.id != id
    ensures Deleted(records, id) == records
  {
    FilterKeepsAll(records, IdIsNot(id));
  }

  /** Deleting the same id twice is deleting it once. */
  lemma DeleteIdempotent(records: seq<HikeRecord>, id: string)
    ensures Deleted(Deleted(records, id), id) == Deleted(records, id)
  {
    FilterIdempotent(records, IdIsNot(id));
  }

  /** One record after the toggle: the status flips when the id matches. */
  function ToggledRecord(record: HikeRecord, id: string): (r: HikeRecord)
    ensures r.(status := record.status) == record
    ensures r.status != record.status <==> record.id == id
  {
    if record.id == id then record.(status := Flipped(record.status)) else record
  }

  /**
   * `prev.map(r => r.id === id ? {...r, status: flipped} : r)`: the same
   * records in the same places, only the status of those with `id` flipped.
   */
  function Toggled(records: seq<HikeRecord>, id: string): (r: seq<HikeRecord>)
    ensures |r| == |records|
    ensures forall i :: 0 <= i < |r| ==> r[i].id == records[i].id
    ensures forall i :: 0 <= i < |r| ==> r[i].(status := records[i].status) == records[i]
    ensures forall i :: 0 <= i < |r| ==> (r[i].status != records[i].status <==> records[i].id == id)
  {
    seq(|records|, i requires 0 <= i < |records| => ToggledRecord(records[i], id))
  }

  /** Toggling the same id twice restores the collection. */
  lemma ToggleTwice(records: seq<HikeRecord>, id: string)
    ensures Toggled(Toggled(records, id), id) == records
  {
    var once := Toggled(records, id);
    var twice := Toggled(once, id);
    forall i | 0 <= i < |records| ensures twice[i] == records[i] {
      if records[i].id == id {
        assert once[i] == records[i].(status := Flipped(records[i].status));
        assert twice[i] == records[i].(status := Flipped(Flipped(records[i].status)));
      }
    }
  }

  /** The two example records shown on first use. */
  function SeedRecords(): (r: seq<HikeRecord>)
    ensures |r| == 2
    ensures r[0].id == "1" && r[0].status == Completed
    ensures r[1].id == "2" && r[1].status == Wish
  {
    [
      HikeRecord("1", "북한산 (Bukhansan)", 836, "2024-03-15",
        "백운대 코스로 올라갔는데 정상이 정말 멋졌어요.", Completed,
        Coordinates(37.6611, 126.9922), Some(5), Some("https://picsum.photos/seed/bukhansan/600/400")),
      HikeRecord("2", "설악산 (Seoraksan)", 1708, "2024-05-10",
        "공룡능선 도전 예정!", Wish,
        Coordinates(38.1189, 128.4358), None, None)
    ]
  }

  /** Why the application cannot start: the saved text is not valid JSON. */
  datatype StartupError = MalformedSavedRecords

  /**
   * The initial `records`: the seed when storage holds nothing (or the empty
   * string, which is falsy), otherwise whatever the saved text decodes to.
   * `parse` stands for `JSON.parse`, `None` for the exception it throws;
   * App.tsx:14 does not catch it, so a malformed save is an error, not the seed.
   */
  function InitialRecords(saved: Option<string>, parse: string -> Option<seq<HikeRecord>>)
    : (r: Result<seq<HikeRecord>, StartupError>)
    ensures saved.None? || saved.value == [] ==> r == Success(SeedRecords())
    ensures saved.Some? && saved.value != [] && parse(saved.value).Some?
            ==> r == Success(parse(saved.value).value)
    ensures saved.Some? && saved.value != [] && parse(saved.value).None?
            ==> r == Failure(MalformedSavedRecords)
  {
    match saved
    case Some(text) =>
      if text == [] then Success(SeedRecords())
      else (match parse(text)
            case Some(records) => Success(records)
            case None => Failure(MalformedSavedRecords))
    case None => Success(SeedRecords())
  }

  /** The legend counts of the map tab: completed mountains, then wished-for ones. */
  function LegendCounts(records: seq<HikeRecord>): (r: (nat, nat))
    ensures r.0 == |WithStatus(records, Completed)| && r.1 == |WithStatus(records, Wish)|
    ensures r.0 + r.1 == |records|
  {
    StatusPartition(records);
    (|WithStatus(records, Completed)|, |WithStatus(records, Wish)|)
  }

  /** Adding a record raises the legend count of its own status by one. */
  lemma AddRaisesLegend(records: seq<HikeRecord>, record: HikeRecord)
    ensures LegendCounts(Added(records, record)) ==
            if record.status == Completed then (LegendCounts(records).0 + 1, LegendCounts(records).1)
            else (LegendCounts(records).0, LegendCounts(records).1 + 1)
  {
    AddedWithStatus(records, record, Completed);
    AddedWithStatus(records, record, Wish);
  }

  /** The new record joins the records of its own status and no others. */
  lemma AddedWithStatus(records: seq<HikeRecord>, record: HikeRecord, s: HikeStatus)
    ensures |WithStatus(Added(records, record), s)| == |WithStatus(records, s)| + (if record.status == s then 1 else 0)
  {
    assert Added(records, record) == [record] + records;
    FilterConcat([record], records, StatusIs(s));
    assert [record][1..] == [];
  }

  /**
   * The component's `records` state together with its copy in browser
   * storage, which the effect rewrites after every change.
   */
  class RecordStore {
    var records: seq<HikeRecord>
    var persisted: seq<HikeRecord>

    /** Storage mirrors the state. */
    ghost predicate Valid()
      reads this
    {
      persisted == records
    }

    /**
     * Mounting with the initial records; the effect then saves them. A
     * successful start-up passes `InitialRecords(saved, parse).value` here.
     */
    constructor (initial: seq<HikeRecord>)
      ensures Valid()
      ensures records == initial
    {
      records := initial;
      persisted := initial;
    }

    method AddRecord(record: HikeRecord)
      modifies this
      ensures Valid()
      ensures records == Added(old(records), record)
    {
      records := Added(records, record);
      persisted := records;
    }

    method DeleteRecord(id: string)
      modifies this
      ensures Valid()
      ensures records == Deleted(old(records), id)
    {
      records := Deleted(records, id);
      persisted := records;
    }

    method ToggleStatus(id: string)
      modifies this
      ensures Valid()
      ensures records == Toggled(old(records), id)
    {
      records := Toggled(records, id);
      persisted := records;
    }
  }
}
