/**
  The padding loop of get_busy_ranges. The calendar service is not modelled:
  its busy ranges come in as a list, in the order the service returned them.
 */
module Busy {
  import opened Intervals
  import opened Variants

  /** src/get_availability.py: each start moves back by `before` minutes and each end forward by `after` minutes. */
  function PadBoth(raw: seq<Range>, before: int, after: int): (padded: seq<Range>)
    ensures |padded| == |raw|
    ensures forall i :: 0 <= i < |raw| ==>
              padded[i].start == raw[i].start - 60 * before && padded[i].end == raw[i].end + 60 * after
  {
    seq(|raw|, i requires 0 <= i < |raw| => Range(raw[i].start - 60 * before, raw[i].end + 60 * after))
  }

  /** get_availability.py: starts are kept and each end moves forward by `after` minutes. */
  function PadAfter(raw: seq<Range>, after: int): (padded: seq<Range>)
    ensures |padded| == |raw|
    ensures forall i :: 0 <= i < |raw| ==> padded[i].start == raw[i].start && padded[i].end == raw[i].end + 60 * after
  {
    seq(|raw|, i requires 0 <= i < |raw| => Range(raw[i].start, raw[i].end + 60 * after))
  }

  /** The padding each variant applies. */
  function PadBusy(v: Variant, raw: seq<Range>, before: int, after: int): (padded: seq<Range>)
    ensures |padded| == |raw|
    ensures forall i :: 0 <= i < |raw| ==> padded[i].end == raw[i].end + 60 * after
    ensures forall i :: 0 <= i < |raw| ==> padded[i].start == raw[i].start - (if v.SrcScript? then 60 * before else 0)
  {
    match v
    case SrcScript => PadBoth(raw, before, after)
    case RootScript => PadAfter(raw, after)
  }

  /** The end-only padding is the two-sided padding with nothing before. */
  lemma PadAfterIsPadBothWithNothingBefore(raw: seq<Range>, after: int)
    ensures PadAfter(raw, after) == PadBoth(raw, 0, after)
  {
  }

  /** Padding by the opposite amounts restores the reported ranges. */
  lemma UnpadRoundTrip(raw: seq<Range>, before: int, after: int)
    ensures PadBoth(PadBoth(raw, before, after), -before, -after) == raw
  {
  }

  /** Padding moves every start by the same amount, so the order by start is kept. */
  lemma PaddingKeepsOrder(v: Variant, raw: seq<Range>, before: int, after: int)
    requires SortedByStart(raw)
    ensures SortedByStart(PadBusy(v, raw, before, after))
  {
  }

  /** Non-negative padding widens each reported range, so it stays well formed and contains the original. */
  lemma PaddingWidens(v: Variant, raw: seq<Range>, before: int, after: int)
    requires before >= 0 && after >= 0
    ensures |PadBusy(v, raw, before, after)| == |raw|
    ensures forall i :: 0 <= i < |raw| ==> Within(raw[i], PadBusy(v, raw, before, after)[i])
    ensures WellFormed(raw) ==> WellFormed(PadBusy(v, raw, before, after))
  {
  }
}
