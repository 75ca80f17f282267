/** The chain monitor: which transactions and outputs are watched, and what blocks do to them. */
module ChainMonitors {
  import opened Wrappers
  import opened ChannelTypes

  type Txid = nat
  type ChannelId = nat

  datatype OutPoint = OutPoint(txid: Txid, vout: nat)

  datatype Transaction = Transaction(txid: Txid, inputs: seq<OutPoint>)

  type Block = seq<Transaction>

  datatype ChannelInfo = ChannelInfo(channelId: ChannelId, txType: TxType)

  datatype WatchState =
    | Registered(channelInfo: ChannelInfo)
    | Seen(channelInfo: ChannelInfo, transaction: Transaction)
  {
    /** `WatchState::confirm`. */
    function Confirm(tx: Transaction): WatchState {
      match this
      case Registered(info) => Seen(info, tx)
      case Seen(_, _) => this
    }
  }

  // ---------- State transitions ----------

  datatype Monitor = Monitor(watchedTx: map<Txid, WatchState>, watchedTxo: map<OutPoint, WatchState>, lastHeight: nat)

  function Retain<K>(m: map<K, WatchState>, channel: ChannelId): map<K, WatchState> {
    map k | k in m && m[k].channelInfo.channelId != channel :: m[k]
  }

  function ConfirmAt<K>(m: map<K, WatchState>, key: K, tx: Transaction): map<K, WatchState> {
    if key in m then m[key := m[key].Confirm(tx)] else m
  }

  /** The outputs that the first `n` inputs of a transaction spend are confirmed with it. */
  function ConfirmInputs(m: map<OutPoint, WatchState>, tx: Transaction, n: nat): map<OutPoint, WatchState>
    requires n <= |tx.inputs|
  {
    if n == 0 then m else ConfirmAt(ConfirmInputs(m, tx, n - 1), tx.inputs[n - 1], tx)
  }

  function Include(m: Monitor, tx: Transaction): Monitor {
    m.(watchedTx := ConfirmAt(m.watchedTx, tx.txid, tx), watchedTxo := ConfirmInputs(m.watchedTxo, tx, |tx.inputs|))
  }

  function IncludeAll(m: Monitor, txs: seq<Transaction>): Monitor {
    if txs == [] then m else Include(IncludeAll(m, txs[..|txs| - 1]), txs[|txs| - 1])
  }

  function AddTx(m: Monitor, txid: Txid, info: ChannelInfo): Monitor {
    m.(watchedTx := m.watchedTx[txid := Registered(info)],
       watchedTxo := if info.txType.BufferTx?
                     then m.watchedTxo[OutPoint(txid, 0) := Registered(ChannelInfo(info.channelId, Cet))]
                     else m.watchedTxo)
  }

  // ---------- The monitor ----------

  class ChainMonitor {
    var watchedTx: map<Txid, WatchState>
    var watchedTxo: map<OutPoint, WatchState>
    var lastHeight: nat

    function View(): Monitor
      reads this
    {
      Monitor(watchedTx, watchedTxo, lastHeight)
    }

    constructor (initHeight: nat)
      ensures View() == Monitor(map[], map[], initHeight)
    {
      watchedTx, watchedTxo, lastHeight := map[], map[], initHeight;
    }

    /** Watching a buffer transaction also watches its only output, which every CET spends. */
    method Add(txid: Txid, info: ChannelInfo)
      modifies this
      ensures View() == AddTx(old(View()), txid, info)
    {
      watchedTx := watchedTx[txid := Registered(info)];
      if info.txType == BufferTx {
        AddTxo(OutPoint(txid, 0), ChannelInfo(info.channelId, Cet));
      }
    }

    method AddTxo(outpoint: OutPoint, info: ChannelInfo)
      modifies this
      ensures View() == old(View()).(watchedTxo := old(watchedTxo)[outpoint := Registered(info)])
    {
      watchedTxo := watchedTxo[outpoint := Registered(info)];
    }

    method CleanupChannel(channel: ChannelId)
      modifies this
      ensures View() == old(View()).(watchedTx := Retain(old(watchedTx), channel), watchedTxo := Retain(old(watchedTxo), channel))
    {
      watchedTx := map k | k in watchedTx && watchedTx[k].channelInfo.channelId != channel :: watchedTx[k];
      watchedTxo := map k | k in watchedTxo && watchedTxo[k].channelInfo.channelId != channel :: watchedTxo[k];
    }

    method RemoveTx(txid: Txid)
      modifies this
      ensures View() == old(View()).(watchedTx := old(watchedTx) - {txid})
    {
      watchedTx := watchedTx - {txid};
    }

    /** Refuses, in the program by a panic, every block that does not follow the last one. */
    method ProcessBlock(block: Block, height: nat) returns (ok: bool)
      modifies this
      ensures ok <==> old(lastHeight) + 1 == height
      ensures View() == if ok then IncludeAll(old(View()), block).(lastHeight := height) else old(View())
    {
      if lastHeight + 1 != height { return false; }
      for i := 0 to |block|
        invariant View() == IncludeAll(old(View()), block[..i])
        invariant lastHeight + 1 == height
      {
        var tx := block[i];
        ghost var before := View();
        if tx.txid in watchedTx {
          watchedTx := watchedTx[tx.txid := watchedTx[tx.txid].Confirm(tx)];
        }
        for j := 0 to |tx.inputs|
          invariant View() == before.(watchedTx := ConfirmAt(before.watchedTx, tx.txid, tx),
                                      watchedTxo := ConfirmInputs(before.watchedTxo, tx, j))
        {
          var spent := tx.inputs[j];
          if spent in watchedTxo {
            watchedTxo := watchedTxo[spent := watchedTxo[spent].Confirm(tx)];
          }
        }
        assert block[..i + 1][..i] == block[..i];
      }
      assert block[..|block|] == block;
      lastHeight := lastHeight + 1;
      return true;
    }

    /** `periodic_chain_monitor`: processes the blocks above the last height in order, as far as the
        blockchain can provide them. */
    method CatchUp(curHeight: nat, blocks: map<nat, Block>) returns (ok: bool)
      modifies this
      ensures ok <==> old(lastHeight) <= curHeight && forall h :: old(lastHeight) < h <= curHeight ==> h in blocks
      ensures lastHeight >= old(lastHeight)
      ensures forall h :: old(lastHeight) < h <= lastHeight ==> h in blocks
      ensures View() == ProcessAll(old(View()), blocks, lastHeight)
      ensures ok ==> lastHeight == curHeight
    {
      if curHeight < lastHeight { return false; }
      for height := lastHeight + 1 to curHeight + 1
        invariant lastHeight == height - 1
        invariant forall h :: old(lastHeight) < h <= lastHeight ==> h in blocks
        invariant View() == ProcessAll(old(View()), blocks, lastHeight)
      {
        if height !in blocks { return false; }
        var processed := ProcessBlock(blocks[height], height);
      }
      return true;
    }

    /** `confirmed_txs`: the watched entries that were seen, without the order of the hash maps. */
    function ConfirmedTxs(): (found: set<(Transaction, ChannelInfo)>)
      reads this
      ensures forall tx, info :: (tx, info) in found <==> exists w: Watch :: Entry(View(), w) == Some(Seen(info, tx))
    {
      SeenEntries(View());
      SeenIn(View())
    }
  }

  function ProcessAll(m: Monitor, blocks: map<nat, Block>, upto: nat): (r: Monitor)
    requires forall h :: m.lastHeight < h <= upto ==> h in blocks
    ensures r.lastHeight == if upto < m.lastHeight then m.lastHeight else upto
    decreases upto
  {
    if upto <= m.lastHeight then m
    else IncludeAll(ProcessAll(m, blocks, upto - 1), blocks[upto]).(lastHeight := upto)
  }

  function SeenIn(m: Monitor): set<(Transaction, ChannelInfo)> {
    (set k | k in m.watchedTx && m.watchedTx[k].Seen? :: (m.watchedTx[k].transaction, m.watchedTx[k].channelInfo))
    + (set k | k in m.watchedTxo && m.watchedTxo[k].Seen? :: (m.watchedTxo[k].transaction, m.watchedTxo[k].channelInfo))
  }

  // ---------- Histories ----------

  datatype Event =
    | Add(txid: Txid, info: ChannelInfo)
    | Remove(txid: Txid)
    | Cleanup(channel: ChannelId)
    | NextBlock(block: Block)

  function Apply(m: Monitor, e: Event): Monitor {
    match e
    case Add(txid, info) => AddTx(m, txid, info)
    case Remove(txid) => m.(watchedTx := m.watchedTx - {txid})
    case Cleanup(channel) => m.(watchedTx := Retain(m.watchedTx, channel), watchedTxo := Retain(m.watchedTxo, channel))
    case NextBlock(block) => IncludeAll(m, block).(lastHeight := m.lastHeight + 1)
  }

  function After(initHeight: nat, events: seq<Event>): Monitor {
    if events == [] then Monitor(map[], map[], initHeight)
    else Apply(After(initHeight, events[..|events| - 1]), events[|events| - 1])
  }

  /** What can be watched. */
  datatype Watch = OnTx(id: Txid) | OnTxo(outpoint: OutPoint)

  function Entry(m: Monitor, w: Watch): Option<WatchState> {
    match w
    case OnTx(id) => if id in m.watchedTx then Some(m.watchedTx[id]) else None
    case OnTxo(o) => if o in m.watchedTxo then Some(m.watchedTxo[o]) else None
  }

  /** The registration that an event makes for a watch. */
  function RegisteredBy(e: Event, w: Watch): Option<ChannelInfo> {
    match e
    case Add(txid, info) =>
      if w == OnTx(txid) then Some(info)
      else if w == OnTxo(OutPoint(txid, 0)) && info.txType.BufferTx? then Some(ChannelInfo(info.channelId, Cet))
      else None
    case _ => None
  }

  /** Whether an event ends a watch that was registered for a channel. Removing a transaction leaves its
      output watched. */
  predicate EndedBy(e: Event, w: Watch, channel: ChannelId) {
    (e.Remove? && w == OnTx(e.txid)) || (e.Cleanup? && e.channel == channel)
  }

  predicate Hits(tx: Transaction, w: Watch) {
    match w
    case OnTx(id) => tx.txid == id
    case OnTxo(o) => o in tx.inputs
  }

  /** The registration in force after a history: the latest one, unless a later event ended it. */
  function InForce(events: seq<Event>, w: Watch): (r: Option<(nat, ChannelInfo)>)
    ensures r.Some? ==> r.value.0 < |events|
  {
    if events == [] then None
    else
      var n := |events| - 1;
      var e := events[n];
      if RegisteredBy(e, w).Some? then Some((n, RegisteredBy(e, w).value))
      else
        var before := InForce(events[..n], w);
        if before.Some? && EndedBy(e, w, before.value.1.channelId) then None else before
  }

  function FirstIn(txs: seq<Transaction>, w: Watch): Option<Transaction> {
    if txs == [] then None
    else if Hits(txs[0], w) then Some(txs[0])
    else FirstIn(txs[1..], w)
  }

  /** The first transaction of the blocks of a history that a watch is about. */
  function FirstHit(events: seq<Event>, w: Watch): Option<Transaction> {
    if events == [] then None
    else if events[0].NextBlock? && FirstIn(events[0].block, w).Some? then FirstIn(events[0].block, w)
    else FirstHit(events[1..], w)
  }

  function Told(info: ChannelInfo, hit: Option<Transaction>): WatchState {
    match hit
    case None => Registered(info)
    case Some(tx) => Seen(info, tx)
  }

  /** An entry exists exactly while a registration is in force, with the information of that registration, and
      is confirmed exactly when a block processed since then contained what it watches: by the first such transaction. */
  lemma {:induction false} HistoryTheorem(initHeight: nat, events: seq<Event>, w: Watch)
    ensures Entry(After(initHeight, events), w)
              == match InForce(events, w)
                 case None => None
                 case Some(r) => Some(Told(r.1, FirstHit(events[r.0 + 1..], w)))
  {
    if events != [] {
      var n := |events| - 1;
      HistoryTheorem(initHeight, events[..n], w);
      HistoryStep(initHeight, events, w);
    }
  }

  lemma HistoryStep(initHeight: nat, events: seq<Event>, w: Watch)
    requires events != []
    requires Entry(After(initHeight, events[..|events| - 1]), w)
               == match InForce(events[..|events| - 1], w)
                  case None => None
                  case Some(r) => Some(Told(r.1, FirstHit(events[..|events| - 1][r.0 + 1..], w)))
    ensures Entry(After(initHeight, events), w)
              == match InForce(events, w)
                 case None => None
                 case Some(r) => Some(Told(r.1, FirstHit(events[r.0 + 1..], w)))
  {
    hide Entry, Apply, FirstHit, FirstIn, RegisteredBy, EndedBy;
    var n := |events| - 1;
    var e, before := events[n], events[..n];
    ApplyAt(After(initHeight, before), e, w);
    var r := InForce(before, w);
    if RegisteredBy(e, w).None? && r.Some? {
      var since := before[r.value.0 + 1..];
      assert events[r.value.0 + 1..] == since + [e];
      FirstHitSnoc(since, e, w);
    } else if RegisteredBy(e, w).Some? {
      assert events[n + 1..] == [];
      assert FirstHit([], w) == None by { FirstHitOfNone(w); }
    }
  }

  lemma FirstHitOfNone(w: Watch)
    ensures FirstHit([], w) == None
  {
  }

  /** The blocks above one height up to another, as events. */
  function Nexts(blocks: map<nat, Block>, above: nat, upto: nat): (r: seq<Event>)
    requires forall h :: above < h <= upto ==> h in blocks
    ensures |r| == if upto < above then 0 else upto - above
    ensures forall k :: 0 <= k < |r| ==> r[k] == NextBlock(blocks[above + 1 + k])
    decreases upto
  {
    if upto <= above then [] else Nexts(blocks, above, upto - 1) + [NextBlock(blocks[upto])]
  }

  /** Catching up continues the history with every block in between, in ascending height. */
  lemma {:induction false} CatchUpIsHistory(initHeight: nat, events: seq<Event>, blocks: map<nat, Block>, upto: nat)
    requires forall h :: After(initHeight, events).lastHeight < h <= upto ==> h in blocks
    ensures ProcessAll(After(initHeight, events), blocks, upto)
              == After(initHeight, events + Nexts(blocks, After(initHeight, events).lastHeight, upto))
    decreases upto
  {
    hide After, IncludeAll;
    var above := After(initHeight, events).lastHeight;
    if upto <= above {
      assert events + [] == events;
    } else {
      CatchUpIsHistory(initHeight, events, blocks, upto - 1);
      var before := events + Nexts(blocks, above, upto - 1);
      assert events + Nexts(blocks, above, upto) == before + [NextBlock(blocks[upto])];
      AfterSnoc(initHeight, before, NextBlock(blocks[upto]));
    }
  }

  lemma AfterSnoc(initHeight: nat, events: seq<Event>, e: Event)
    ensures After(initHeight, events + [e]) == Apply(After(initHeight, events), e)
  {
    hide Apply;
    assert (events + [e])[..|events|] == events;
  }

  /** So what is watched is confirmed by the first hit in the blocks caught up with, unless it was before, and nothing else changes. */
  lemma CatchUpConfirms(initHeight: nat, events: seq<Event>, blocks: map<nat, Block>, upto: nat, w: Watch)
    requires forall h :: After(initHeight, events).lastHeight < h <= upto ==> h in blocks
    ensures var m := After(initHeight, events); var t := ProcessAll(m, blocks, upto);
            var hit := FirstHit(Nexts(blocks, m.lastHeight, upto), w);
            Entry(t, w) == match Entry(m, w)
                           case None => None
                           case Some(Registered(info)) => Some(Told(info, hit))
                           case Some(seen) => Some(seen)
  {
    hide Entry, ProcessAll, After, InForce, FirstHit;
    var nexts := Nexts(blocks, After(initHeight, events).lastHeight, upto);
    CatchUpIsHistory(initHeight, events, blocks, upto);
    HistoryTheorem(initHeight, events, w);
    HistoryTheorem(initHeight, events + nexts, w);
    BlocksKeepRegistrations(events, nexts, w);
    if InForce(events, w).Some? {
      var r := InForce(events, w).value;
      assert (events + nexts)[r.0 + 1..] == events[r.0 + 1..] + nexts;
      FirstHitAppends(events[r.0 + 1..], nexts, w);
    }
  }

  lemma {:induction false} BlocksKeepRegistrations(events: seq<Event>, nexts: seq<Event>, w: Watch)
    requires forall k :: 0 <= k < |nexts| ==> nexts[k].NextBlock?
    ensures InForce(events + nexts, w) == InForce(events, w)
  {
    if nexts == [] {
      assert events + nexts == events;
    } else {
      var n := |nexts| - 1;
      assert (events + nexts)[..|events| + n] == events + nexts[..n];
      BlocksKeepRegistrations(events, nexts[..n], w);
    }
  }

  lemma {:induction false} FirstHitAppends(events: seq<Event>, more: seq<Event>, w: Watch)
    ensures FirstHit(events + more, w) == if FirstHit(events, w).Some? then FirstHit(events, w) else FirstHit(more, w)
  {
    if events == [] {
      assert events + more == more;
    } else {
      assert (events + more)[1..] == events[1..] + more;
      FirstHitAppends(events[1..], more, w);
    }
  }

  /** What one event does to one entry. */
  lemma ApplyAt(m: Monitor, e: Event, w: Watch)
    ensures Entry(Apply(m, e), w)
              == if RegisteredBy(e, w).Some? then Some(Registered(RegisteredBy(e, w).value))
                 else if Entry(m, w).Some? && EndedBy(e, w, Entry(m, w).value.channelInfo.channelId) then None
                 else if e.NextBlock? then Confirmed(Entry(m, w), FirstIn(e.block, w))
                 else Entry(m, w)
  {
    if e.NextBlock? {
      IncludeAllAt(m, e.block, w);
    }
  }

  lemma {:induction false} FirstHitSnoc(events: seq<Event>, e: Event, w: Watch)
    ensures FirstHit(events + [e], w)
              == if FirstHit(events, w).Some? then FirstHit(events, w)
                 else if e.NextBlock? then FirstIn(e.block, w)
                 else None
  {
    if events == [] {
      assert ([] + [e])[1..] == [];
      assert FirstHit([], w) == None;
    } else {
      assert (events + [e])[1..] == events[1..] + [e];
      FirstHitSnoc(events[1..], e, w);
    }
  }

  lemma {:induction false} FirstInSnoc(txs: seq<Transaction>, tx: Transaction, w: Watch)
    ensures FirstIn(txs + [tx], w)
              == if FirstIn(txs, w).Some? then FirstIn(txs, w) else if Hits(tx, w) then Some(tx) else None
  {
    if txs == [] {
      assert ([] + [tx])[1..] == [];
      assert FirstIn([], w) == None;
    } else {
      assert (txs + [tx])[1..] == txs[1..] + [tx];
      FirstInSnoc(txs[1..], tx, w);
    }
  }

  function Confirmed(s: Option<WatchState>, hit: Option<Transaction>): Option<WatchState> {
    if s.Some? && hit.Some? then Some(s.value.Confirm(hit.value)) else s
  }

  lemma {:induction false} IncludeAllAt(m: Monitor, txs: seq<Transaction>, w: Watch)
    ensures Entry(IncludeAll(m, txs), w) == Confirmed(Entry(m, w), FirstIn(txs, w))
  {
    if txs != [] {
      var n := |txs| - 1;
      IncludeAllAt(m, txs[..n], w);
      assert txs == txs[..n] + [txs[n]];
      FirstInSnoc(txs[..n], txs[n], w);
      IncludeAt(IncludeAll(m, txs[..n]), txs[n], w);
    }
  }

  lemma IncludeAt(m: Monitor, tx: Transaction, w: Watch)
    ensures Entry(Include(m, tx), w) == if Hits(tx, w) then Confirmed(Entry(m, w), Some(tx)) else Entry(m, w)
  {
    if w.OnTxo? {
      InputsAt(m.watchedTxo, tx, |tx.inputs|, w.outpoint);
      assert tx.inputs[..|tx.inputs|] == tx.inputs;
    }
  }

  lemma {:induction false} InputsAt(m: map<OutPoint, WatchState>, tx: Transaction, n: nat, o: OutPoint)
    requires n <= |tx.inputs|
    ensures var r := ConfirmInputs(m, tx, n);
            && (o in r <==> o in m)
            && (o in m ==> r[o] == if o in tx.inputs[..n] then m[o].Confirm(tx) else m[o])
  {
    if n > 0 {
      InputsAt(m, tx, n - 1, o);
      assert tx.inputs[..n] == tx.inputs[..n - 1] + [tx.inputs[n - 1]];
    }
  }

  /** What the manager is told: exactly the registrations in force that a later block answered. */
  lemma ConfirmedTxsAreTheHits(initHeight: nat, events: seq<Event>, tx: Transaction, info: ChannelInfo)
    ensures (exists w: Watch :: Entry(After(initHeight, events), w) == Some(Seen(info, tx))) <==>
              exists w: Watch ::
                && InForce(events, w).Some? && InForce(events, w).value.1 == info
                && FirstHit(events[InForce(events, w).value.0 + 1..], w) == Some(tx)
  {
    var m := After(initHeight, events);
    if w: Watch :| Entry(m, w) == Some(Seen(info, tx)) {
      HistoryTheorem(initHeight, events, w);
    }
    if w: Watch :| && InForce(events, w).Some? && InForce(events, w).value.1 == info
                   && FirstHit(events[InForce(events, w).value.0 + 1..], w) == Some(tx) {
      HistoryTheorem(initHeight, events, w);
    }
  }

  lemma SeenEntries(m: Monitor)
    ensures forall tx, info :: (tx, info) in SeenIn(m) <==> exists w: Watch :: Entry(m, w) == Some(Seen(info, tx))
  {
    forall tx, info | (tx, info) in SeenIn(m) ensures exists w: Watch :: Entry(m, w) == Some(Seen(info, tx)) {
      var w := WatchOf(m, tx, info);
    }
  }

  lemma WatchOf(m: Monitor, tx: Transaction, info: ChannelInfo) returns (w: Watch)
    requires (tx, info) in SeenIn(m)
    ensures Entry(m, w) == Some(Seen(info, tx))
  {
    if k :| k in m.watchedTx && m.watchedTx[k] == Seen(info, tx) {
      w := OnTx(k);
    } else {
      var k :| k in m.watchedTxo && m.watchedTxo[k] == Seen(info, tx);
      w := OnTxo(k);
    }
  }

  /** The height counts the processed blocks, so a history of blocks is one of consecutive heights. */
  lemma {:induction false} HeightCountsBlocks(initHeight: nat, events: seq<Event>)
    ensures After(initHeight, events).lastHeight == initHeight + |Blocks(events)|
  {
    if events != [] {
      var n := |events| - 1;
      HeightCountsBlocks(initHeight, events[..n]);
      if events[n].NextBlock? {
        IncludeAllKeepsHeight(After(initHeight, events[..n]), events[n].block);
      }
    }
  }

  function Blocks(events: seq<Event>): seq<Block> {
    if events == [] then []
    else
      var n := |events| - 1;
      if events[n].NextBlock? then Blocks(events[..n]) + [events[n].block] else Blocks(events[..n])
  }

  lemma IncludeAllKeepsHeight(m: Monitor, txs: seq<Transaction>)
    ensures IncludeAll(m, txs).lastHeight == m.lastHeight
  {
  }
}
