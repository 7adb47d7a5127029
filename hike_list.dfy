/**
 * The list tab (components/HikeList.tsx): the records shown under the
 * "all", "completed" and "wish" filter buttons.
 */
module HikeList {
  import opened Sequences
  import opened Types

  /** The filter buttons: `'all' | 'completed' | 'wish'`. */
  datatype StatusFilter = All | CompletedOnly | WishOnly

  /** The callback handed to `records.filter` for the selected button. */
  function Keeps(filter: StatusFilter): (keep: HikeRecord -> bool)
    ensures filter == All ==> forall r :: keep(r)
    ensures filter == CompletedOnly ==> forall r :: keep(r) == StatusIs(Completed)(r)
    ensures filter == WishOnly ==> forall r :: keep(r) == StatusIs(Wish)(r)
  {
    (r: HikeRecord) =>
      if filter == CompletedOnly then r.status == Completed
      else if filter == WishOnly then r.status == Wish
      else true
  }

  /** `filteredRecords`: the records the selected button lets through, in list order. */
  function FilteredRecords(records: seq<HikeRecord>, filter: StatusFilter): (r: seq<HikeRecord>)
    ensures IsSubsequence(r, records)
    ensures filter == All ==> r == records
    ensures filter == CompletedOnly ==> r == WithStatus(records, Completed)
    ensures filter == WishOnly ==> r == WithStatus(records, Wish)
  {
    FilterIsSubsequence(records, Keeps(filter));
    match filter
    case All => FilterKeepsAll(records, Keeps(All)); Filter(records, Keeps(filter))
    case CompletedOnly =>
      FilterSamePredicate(records, Keeps(filter), StatusIs(Completed)); Filter(records, Keeps(filter))
    case WishOnly =>
      FilterSamePredicate(records, Keeps(filter), StatusIs(Wish)); Filter(records, Keeps(filter))
  }

  /** The "completed" and "wish" views together hold as many cards as the "all" view. */
  lemma FilteredLengths(records: seq<HikeRecord>)
    ensures |FilteredRecords(records, CompletedOnly)| + |FilteredRecords(records, WishOnly)|
            == |FilteredRecords(records, All)|
  {
    StatusPartition(records);
  }
}
