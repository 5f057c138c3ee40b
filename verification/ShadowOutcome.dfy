/** Labels and simulated trades of `ml_entry_quality`: the risk label is computed from an aggregate (the minimum
    gap), the simulated exit from a scan for the first stop-loss hit; the two must tell the same story.
    Floating-point numbers are taken as exact reals. */
module ShadowOutcome {
  import opened Common

  datatype Direction = Up | Down | Unknown

  /** One second of market data after the entry. */
  datatype Sample = Sample(chainlink: real, ptb: real, yesBid: Option<real>, noBid: Option<real>)

  function Gap(d: Direction, s: Sample): Option<real> {
    match d
    case Up => Some(s.chainlink - s.ptb)
    case Down => Some(s.ptb - s.chainlink)
    case Unknown => None
  }

  function ExitBid(d: Direction, s: Sample): Option<real> {
    if d == Up then s.yesBid else s.noBid
  }

  /** SQL `min`: nulls are ignored, and the minimum of nothing is null. */
  function MinGap(d: Direction, samples: seq<Sample>): Option<real> {
    if samples == [] then None
    else
      var rest, last := MinGap(d, samples[..|samples| - 1]), Gap(d, samples[|samples| - 1]);
      if last.None? then rest else if rest.None? || last.value < rest.value then last else rest
  }

  /** The stop-loss condition of one sample against the entry's gap. */
  predicate Hits(d: Direction, entry: Sample, s: Sample, stop: real) {
    && Gap(d, s).Some?
    && (Gap(d, s).value <= stop || Gap(d, entry).value - Gap(d, s).value >= stop)
  }

  /** The position of the first sample that hits the stop loss. */
  function FirstHit(d: Direction, samples: seq<Sample>, stop: real, from: nat): Option<nat>
    requires samples != [] && from <= |samples|
    decreases |samples| - from
  {
    if from == |samples| then None
    else if Hits(d, samples[0], samples[from], stop) then Some(from)
    else FirstHit(d, samples, stop, from + 1)
  }

  /** The first bid on record from a position on. */
  function FirstBid(d: Direction, samples: seq<Sample>, from: nat): Option<real>
    requires from <= |samples|
    decreases |samples| - from
  {
    if from == |samples| then None
    else if ExitBid(d, samples[from]).Some? then ExitBid(d, samples[from])
    else FirstBid(d, samples, from + 1)
  }

  datatype Labels = Labels(quality: nat, risk: nat)

  const MAX_ENTRY_ASK: real := 0.98

  function ComputeLabels(ask: Option<real>, terminal: Option<real>, entryGap: Option<real>, minGap: Option<real>,
                         stop: real): Labels {
    var entryOk := ask.Some? && ask.value <= MAX_ENTRY_ASK;
    var adverse :=
      if entryGap.Some? && minGap.Some? then
        Some(if entryGap.value - minGap.value > 0.0 then entryGap.value - minGap.value else 0.0)
      else None;
    Labels(
      if entryOk && terminal.Some? && terminal.value > 0.0 then 1 else 0,
      if minGap.Some? && (minGap.value <= stop || (adverse.Some? && adverse.value >= stop)) then 1 else 0)
  }

  datatype ExitKind = Unresolved | StopLoss | ExpiryWin | ExpiryLoss

  datatype ExitStatus = BadEntryAsk | Open | Settled | FallbackBid | FallbackZero

  datatype Trade = Trade(kind: ExitKind, price: Option<real>, pnl: Option<real>, status: ExitStatus)

  /** What `stake` bought at `ask` brings when it is sold at `price`, less the stake. */
  function Pnl(stake: real, ask: real, price: real): real
    requires ask > 0.0
  {
    stake / ask * price - stake
  }

  function Simulate(ask: Option<real>, terminal: Option<real>, hit: bool, hitBid: Option<real>,
                    fallbackBid: Option<real>, stake: real): Trade {
    if ask.None? || ask.value <= 0.0 then Trade(Unresolved, None, None, BadEntryAsk)
    else
      if hit then
        var price := if hitBid.Some? then hitBid.value else if fallbackBid.Some? then fallbackBid.value else 0.0;
        Trade(StopLoss, Some(price), Some(Pnl(stake, ask.value, price)),
              if hitBid.Some? then Settled else if fallbackBid.Some? then FallbackBid else FallbackZero)
      else if terminal.None? then Trade(Unresolved, None, None, Open)
      else if terminal.value > 0.0 then Trade(ExpiryWin, Some(1.0), Some(stake / ask.value - stake), Settled)
      else Trade(ExpiryLoss, Some(0.0), Some(-stake), Settled)
  }

  /** The labels and the simulated trade of one evaluated entry, from the same samples and the same ask. */
  function LabelsOf(d: Direction, samples: seq<Sample>, ask: Option<real>, stop: real): Labels
    requires samples != []
  {
    ComputeLabels(ask, Gap(d, samples[|samples| - 1]), Gap(d, samples[0]), MinGap(d, samples), stop)
  }

  function TradeOf(d: Direction, samples: seq<Sample>, ask: Option<real>, stop: real, stake: real): Trade
    requires samples != []
  {
    var hit := FirstHit(d, samples, stop, 0);
    var at := if hit.Some? && hit.value < |samples| then hit.value else 0;
    Simulate(ask, Gap(d, samples[|samples| - 1]), hit.Some?,
             if hit.Some? then ExitBid(d, samples[at]) else None,
             if hit.Some? then FirstBid(d, samples, at) else None, stake)
  }

  lemma {:induction false} MinGapIsLeast(d: Direction, samples: seq<Sample>)
    ensures MinGap(d, samples).None? <==> samples == [] || d == Unknown
    ensures forall i :: 0 <= i < |samples| && d != Unknown ==> MinGap(d, samples).value <= Gap(d, samples[i]).value
    ensures MinGap(d, samples).Some? ==> exists i :: 0 <= i < |samples| && Gap(d, samples[i]) == MinGap(d, samples)
  {
    if samples != [] {
      var n := |samples| - 1;
      var front := samples[..n];
      MinGapIsLeast(d, front);
      assert forall i :: 0 <= i < n ==> front[i] == samples[i];
      if MinGap(d, front).Some? {
        var i :| 0 <= i < |front| && Gap(d, front[i]) == MinGap(d, front);
        assert Gap(d, samples[i]) == MinGap(d, front);
      }
      assert Gap(d, samples[n]) == MinGap(d, samples) || MinGap(d, samples) == MinGap(d, front);
    }
  }

  lemma {:induction false} FirstHitIsFirst(d: Direction, samples: seq<Sample>, stop: real, from: nat)
    requires samples != [] && from <= |samples|
    ensures
      var hit := FirstHit(d, samples, stop, from);
      && (hit.Some? <==> exists i :: from <= i < |samples| && Hits(d, samples[0], samples[i], stop))
      && (hit.Some? ==>
            && from <= hit.value < |samples| && Hits(d, samples[0], samples[hit.value], stop)
            && forall i :: from <= i < hit.value ==> !Hits(d, samples[0], samples[i], stop))
    decreases |samples| - from
  {
    if from < |samples| { FirstHitIsFirst(d, samples, stop, from + 1); }
  }

  /** For every series and every threshold, whatever its sign: the label built from the minimum is set exactly
      when the scan finds a hit. */
  lemma RiskIffHit(d: Direction, samples: seq<Sample>, ask: Option<real>, stop: real)
    requires samples != []
    ensures LabelsOf(d, samples, ask, stop).risk == 1 <==> FirstHit(d, samples, stop, 0).Some?
  {
    MinGapIsLeast(d, samples);
    FirstHitIsFirst(d, samples, stop, 0);
    if d != Unknown {
      var m :| 0 <= m < |samples| && Gap(d, samples[m]) == MinGap(d, samples);
      if LabelsOf(d, samples, ask, stop).risk == 1 {
        assert Gap(d, samples[0]).value - MinGap(d, samples).value >= 0.0;
        assert Hits(d, samples[0], samples[m], stop);
      } else {
        forall i | 0 <= i < |samples| ensures !Hits(d, samples[0], samples[i], stop) {
          assert MinGap(d, samples).value <= Gap(d, samples[i]).value;
        }
      }
    }
  }

  /** With a usable ask, the simulated trade is stopped out exactly when the risk label is set, and otherwise
      wins exactly when the last gap is positive. */
  lemma TradeMatchesLabels(d: Direction, samples: seq<Sample>, ask: real, stop: real, stake: real)
    requires samples != [] && ask > 0.0
    ensures
      var labels, trade := LabelsOf(d, samples, Some(ask), stop), TradeOf(d, samples, Some(ask), stop, stake);
      && (trade.kind == StopLoss <==> labels.risk == 1)
      && (trade.kind == ExpiryWin <==> labels.risk == 0 && d != Unknown && Gap(d, samples[|samples| - 1]).value > 0.0)
      && (trade.kind == Unresolved <==> labels.risk == 0 && d == Unknown)
      && (ask <= MAX_ENTRY_ASK && labels.risk == 0 ==> (trade.kind == ExpiryWin <==> labels.quality == 1))
  {
    RiskIffHit(d, samples, Some(ask), stop);
  }

  lemma {:induction false} FirstBidIsFirst(d: Direction, samples: seq<Sample>, from: nat)
    requires from <= |samples|
    ensures FirstBid(d, samples, from).None? <==> forall i :: from <= i < |samples| ==> ExitBid(d, samples[i]).None?
    ensures FirstBid(d, samples, from).Some? ==> exists i :: (
      && from <= i < |samples| && ExitBid(d, samples[i]) == FirstBid(d, samples, from)
      && forall j :: from <= j < i ==> ExitBid(d, samples[j]).None?)
    decreases |samples| - from
  {
    if from < |samples| { FirstBidIsFirst(d, samples, from + 1); }
  }

  /** A stopped-out trade exits at the first bid on record at or after the hit, at zero if there is none. */
  lemma StopExitPrice(d: Direction, samples: seq<Sample>, ask: real, stop: real, stake: real)
    requires samples != [] && ask > 0.0 && FirstHit(d, samples, stop, 0).Some?
    ensures
      var trade, hit := TradeOf(d, samples, Some(ask), stop, stake), FirstHit(d, samples, stop, 0).value;
      && hit < |samples|
      && trade.price == Some(if FirstBid(d, samples, hit).Some? then FirstBid(d, samples, hit).value else 0.0)
      && trade.pnl == Some(Pnl(stake, ask, trade.price.value))
      && (trade.status == Settled <==> ExitBid(d, samples[hit]).Some?)
  {
    FirstHitIsFirst(d, samples, stop, 0);
  }

  // In prices

  /** The chainlink price is no more than `stop` above the price to beat, or has fallen by `stop` against it since the
      entry. */
  ghost predicate StopsUp(entry: Sample, s: Sample, stop: real) {
    s.chainlink <= s.ptb + stop || (s.chainlink - s.ptb) + stop <= entry.chainlink - entry.ptb
  }

  /** The mirror image: it is no more than `stop` below, or has risen by `stop`. */
  ghost predicate StopsDown(entry: Sample, s: Sample, stop: real) {
    s.chainlink >= s.ptb - stop || (s.chainlink - s.ptb) - stop >= entry.chainlink - entry.ptb
  }

  /** `price` and `status` are those of an exit at `hit` by the bids of one side: its bid, else the next bid on record,
      else nothing. */
  ghost predicate ExitsBy(bids: seq<Option<real>>, hit: nat, price: Option<real>, status: ExitStatus) {
    || (hit < |bids| && bids[hit].Some? && price == bids[hit] && status == Settled)
    || (status == FallbackBid && exists i :: (
          && hit < i < |bids| && bids[i].Some? && price == bids[i] && forall j :: hit <= j < i ==> bids[j].None?))
    || ((forall j :: hit <= j < |bids| ==> bids[j].None?) && price == Some(0.0) && status == FallbackZero)
  }

  /** The proceeds of `shares` sold at `price`, less the stake. */
  ghost function SoldFor(shares: real, price: real, stake: real): real {
    shares * price - stake
  }

  /** A trade is stopped at the first sample that calls for it, whichever side it is on, and sold by that side's bids;
      otherwise it is worth one share or nothing. `stops` and `bids` are the samples seen from that side. */
  ghost predicate TradeIs(t: Trade, stops: seq<bool>, bids: seq<Option<real>>, wins: bool, ask: real, stake: real)
    requires ask > 0.0
  {
    if exists i :: 0 <= i < |stops| && stops[i] then
      && t.kind == StopLoss && t.price.Some? && t.pnl == Some(SoldFor(stake / ask, t.price.value, stake))
      && exists hit: nat :: (
           && hit < |stops| && stops[hit] && (forall j :: 0 <= j < hit ==> !stops[j])
           && ExitsBy(bids, hit, t.price, t.status))
    else if wins then
      t == Trade(ExpiryWin, Some(1.0), Some(stake / ask - stake), Settled)
    else
      t == Trade(ExpiryLoss, Some(0.0), Some(0.0 - stake), Settled)
  }

  lemma PnlIsSold(stake: real, ask: real, price: real)
    requires ask > 0.0
    ensures Pnl(stake, ask, price) == SoldFor(stake / ask, price, stake)
  {
  }

  lemma StopPnl(d: Direction, samples: seq<Sample>, ask: real, stop: real, stake: real)
    requires samples != [] && ask > 0.0 && FirstHit(d, samples, stop, 0).Some?
    ensures
      var trade := TradeOf(d, samples, Some(ask), stop, stake);
      && trade.kind == StopLoss && trade.price.Some?
      && trade.pnl == Some(SoldFor(stake / ask, trade.price.value, stake))
  {
    StopExitPrice(d, samples, ask, stop, stake);
    PnlIsSold(stake, ask, TradeOf(d, samples, Some(ask), stop, stake).price.value);
  }

  lemma ExitIsFirstBid(d: Direction, samples: seq<Sample>, bids: seq<Option<real>>, hit: nat)
    requires |bids| == |samples| && hit < |samples|
    requires forall i :: 0 <= i < |samples| ==> bids[i] == ExitBid(d, samples[i])
    ensures
      var bid, next := ExitBid(d, samples[hit]), FirstBid(d, samples, hit);
      var price := if bid.Some? then bid.value else if next.Some? then next.value else 0.0;
      ExitsBy(bids, hit, Some(price), if bid.Some? then Settled else if next.Some? then FallbackBid else FallbackZero)
  {
    FirstBidIsFirst(d, samples, hit);
  }

  /** What a trade is, from the samples seen from its side. */
  lemma TradeIsSeen(d: Direction, samples: seq<Sample>, ask: real, stop: real, stake: real, stops: seq<bool>,
                    bids: seq<Option<real>>, wins: bool)
    requires samples != [] && ask > 0.0 && d != Unknown && |stops| == |bids| == |samples|
    requires forall i :: 0 <= i < |samples| ==>
      stops[i] == Hits(d, samples[0], samples[i], stop) && bids[i] == ExitBid(d, samples[i])
    requires wins == (Gap(d, samples[|samples| - 1]).value > 0.0)
    ensures TradeIs(TradeOf(d, samples, Some(ask), stop, stake), stops, bids, wins, ask, stake)
  {
    FirstHitIsFirst(d, samples, stop, 0);
    var hit := FirstHit(d, samples, stop, 0);
    if hit.Some? {
      assert stops[hit.value];
      ExitIsFirstBid(d, samples, bids, hit.value);
      StopPnl(d, samples, ask, stop, stake);
    }
  }

  /** An entry for a rising price, in prices: stopped out if and only if some sample stops it, at the first of them and
      by the yes bids; otherwise a win if and only if the last chainlink price is above the price to beat. */
  lemma UpInPrices(samples: seq<Sample>, ask: real, stop: real, stake: real)
    requires samples != [] && ask > 0.0
    ensures
      var labels, trade := LabelsOf(Up, samples, Some(ask), stop), TradeOf(Up, samples, Some(ask), stop, stake);
      var stops := seq(|samples|, i requires 0 <= i < |samples| => StopsUp(samples[0], samples[i], stop));
      var bids := seq(|samples|, i requires 0 <= i < |samples| => samples[i].yesBid);
      var wins := samples[|samples| - 1].chainlink > samples[|samples| - 1].ptb;
      && TradeIs(trade, stops, bids, wins, ask, stake)
      && labels == Labels(if ask <= 0.98 && wins then 1 else 0, if trade.kind == StopLoss then 1 else 0)
  {
    var stops := seq(|samples|, i requires 0 <= i < |samples| => StopsUp(samples[0], samples[i], stop));
    var bids := seq(|samples|, i requires 0 <= i < |samples| => samples[i].yesBid);
    var wins := samples[|samples| - 1].chainlink > samples[|samples| - 1].ptb;
    TradeIsSeen(Up, samples, ask, stop, stake, stops, bids, wins);
    RiskIffHit(Up, samples, Some(ask), stop);
  }

  /** The mirror image, by the no bids. */
  lemma DownInPrices(samples: seq<Sample>, ask: real, stop: real, stake: real)
    requires samples != [] && ask > 0.0
    ensures
      var labels, trade := LabelsOf(Down, samples, Some(ask), stop), TradeOf(Down, samples, Some(ask), stop, stake);
      var stops := seq(|samples|, i requires 0 <= i < |samples| => StopsDown(samples[0], samples[i], stop));
      var bids := seq(|samples|, i requires 0 <= i < |samples| => samples[i].noBid);
      var wins := samples[|samples| - 1].chainlink < samples[|samples| - 1].ptb;
      && TradeIs(trade, stops, bids, wins, ask, stake)
      && labels == Labels(if ask <= 0.98 && wins then 1 else 0, if trade.kind == StopLoss then 1 else 0)
  {
    var stops := seq(|samples|, i requires 0 <= i < |samples| => StopsDown(samples[0], samples[i], stop));
    var bids := seq(|samples|, i requires 0 <= i < |samples| => samples[i].noBid);
    var wins := samples[|samples| - 1].chainlink < samples[|samples| - 1].ptb;
    TradeIsSeen(Down, samples, ask, stop, stake, stops, bids, wins);
    RiskIffHit(Down, samples, Some(ask), stop);
  }

  /** Without a usable ask, or without a direction, there is no result. */
  lemma NoTrade(d: Direction, samples: seq<Sample>, ask: Option<real>, stop: real, stake: real)
    requires samples != [] && (ask.None? || ask.value <= 0.0 || d == Unknown)
    ensures
      var labels, trade := LabelsOf(d, samples, ask, stop), TradeOf(d, samples, ask, stop, stake);
      && trade == Trade(Unresolved, None, None, if ask.None? || ask.value <= 0.0 then BadEntryAsk else Open)
      && (ask.None? || d == Unknown ==> labels.quality == 0) && (d == Unknown ==> labels.risk == 0)
  {
    RiskIffHit(d, samples, ask, stop);
    FirstHitIsFirst(d, samples, stop, 0);
  }

  lemma SignOf(a: real, b: real, p: real)
    requires p == a * b && p > 0.0 && b > 0.0
    ensures a > 0.0
  {
  }

  lemma Shrinks(a: real, b: real, p: real)
    requires p == a * b && a > 0.0 && b < 1.0
    ensures p < a
  {
  }

  /** Below a price of one, a stake buys more shares than it costs. */
  lemma SharesExceedStake(stake: real, ask: real)
    requires stake > 0.0 && 0.0 < ask < 1.0
    ensures stake / ask > stake
  {
    var q := stake / ask;
    assert q * ask == stake;
    SignOf(q, ask, stake);
    Shrinks(q, ask, stake);
  }

  lemma LossIsBounded(stake: real, ask: real, price: real)
    requires stake > 0.0 && ask > 0.0 && price >= 0.0
    ensures Pnl(stake, ask, price) >= -stake && stake / ask > 0.0
  {
  }

  /** An entry with both labels right makes money, and no trade loses more than its stake. */
  lemma GoodEntryWins(d: Direction, samples: seq<Sample>, ask: real, stop: real, stake: real)
    requires samples != [] && ask > 0.0 && stake > 0.0
    requires forall i :: 0 <= i < |samples| && ExitBid(d, samples[i]).Some? ==> ExitBid(d, samples[i]).value >= 0.0
    ensures
      var labels, trade := LabelsOf(d, samples, Some(ask), stop), TradeOf(d, samples, Some(ask), stop, stake);
      && (labels == Labels(1, 0) ==> trade.kind == ExpiryWin && trade.pnl.value > 0.0)
      && (trade.pnl.Some? ==> trade.pnl.value >= -stake)
  {
    TradeMatchesLabels(d, samples, ask, stop, stake);
    FirstHitIsFirst(d, samples, stop, 0);
    var hit := FirstHit(d, samples, stop, 0);
    if hit.Some? {
      FirstBidIsFirst(d, samples, hit.value);
      StopExitPrice(d, samples, ask, stop, stake);
      var price := TradeOf(d, samples, Some(ask), stop, stake).price.value;
      LossIsBounded(stake, ask, price);
    } else {
      LossIsBounded(stake, ask, 0.0);
      if ask < 1.0 { SharesExceedStake(stake, ask); }
    }
  }
}
