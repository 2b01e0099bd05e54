/** What the user-channel client sends to a resting SELL is what the selling loop relies on. */
module SellFeed {
  import opened Prelude
  import opened FillAccounting
  import opened FillLaws
  import opened SellExit

  function AsUpdates(fills: seq<Fill>): seq<Update> {
    if fills == [] then []
    else [FillUpdate(fills[0].size, fills[0].price, fills[0].total)] + AsUpdates(fills[1..])
  }

  lemma {:induction false} RunningIsConsecutive(known: real, size: real, fills: seq<Fill>, cancel: seq<Update>)
    requires RunningTotals(known, fills) && known + Size(fills) <= size
    requires Consecutive(known + Size(fills), size, cancel)
    ensures Consecutive(known, size, AsUpdates(fills) + cancel)
    ensures FinalMatch(known, AsUpdates(fills) + cancel) == FinalMatch(known + Size(fills), cancel)
    decreases |fills|
  {
    if fills == [] {
      assert AsUpdates(fills) + cancel == cancel;
    } else {
      hide RunningTotals, Consecutive, FinalMatch, AsUpdates, Size;
      RunningTail(known, fills);
      FirstFill(fills, cancel);
      SizeAtLeast(known + fills[0].size, fills[1..]);
      RunningIsConsecutive(known + fills[0].size, size, fills[1..], cancel);
      FillInFront(known, size, FillUpdate(fills[0].size, fills[0].price, fills[0].total), AsUpdates(fills[1..]) + cancel);
    }
  }

  lemma FirstFill(fills: seq<Fill>, cancel: seq<Update>)
    requires fills != []
    ensures AsUpdates(fills) + cancel ==
            [FillUpdate(fills[0].size, fills[0].price, fills[0].total)] + (AsUpdates(fills[1..]) + cancel)
    ensures Size(fills) == fills[0].size + Size(fills[1..])
  {
  }

  lemma {:induction false} SizeAtLeast(base: real, fills: seq<Fill>)
    requires RunningTotals(base, fills)
    ensures Size(fills) >= 0.0
    decreases |fills|
  {
    if fills != [] {
      RunningTail(base, fills);
      SizeAtLeast(base + fills[0].size, fills[1..]);
    }
  }

  /** Every history of a watched order that never reports more than the order's size feeds
      the selling loop consecutive fills, ended or not by a cancel with the final match; a
      cancel is what the loop accounts for in full. */
  lemma HistoryFeedsConsecutively(price: real, filled: real, size: real, events: seq<Event>, final: Option<real>)
    requires filled <= size && forall m :: m in Reports(events) ==> m <= size
    requires final.Some? ==> Run(Opening(price, filled), events).w.last <= final.value <= size
    ensures var l := Run(Opening(price, filled), events);
            var updates := AsUpdates(l.fills) + if final.Some? then [CancelUpdate(final.value)] else [];
            && Consecutive(filled, size, updates)
            && FinalMatch(filled, updates) == if final.Some? then final.value else l.w.last
  {
    var l := Run(Opening(price, filled), events);
    EveryHistoryIsSound(price, filled, events);
    LastIsLargest(Opening(price, filled), events);
    var cancel := if final.Some? then [CancelUpdate(final.value)] else [];
    assert cancel != [] ==> cancel[1..] == [];
    RunningIsConsecutive(filled, size, l.fills, cancel);
  }
}
