/** The life of contracts outside channels: periodic checks against a blockchain that may evict
    transactions from its mempool, and the calls that close, refund or splice a contract. */
module ContractLifecycle {
  import opened Wrappers

  type Txid = nat
  type ContractId = nat

  // ---------- The outside world ----------

  datatype Status = NotFound | InMempool | InBlock(confirmations: nat)

  function Confirmations(s: Status): nat {
    match s
    case InBlock(n) => n
    case _ => 0
  }

  datatype SignedContract = SignedContract(
    id: ContractId,
    fund: Txid,
    refund: Txid,
    refundLocktime: nat,
    pendingCloses: seq<Txid>,
    splices: Option<ContractId>,
    inChannel: bool)

  /** What the world answers at one moment. A status query may fail, a broadcast may be refused, and for a
      matured contract with enough attestations there is a signed CET. */
  datatype Snapshot = Snapshot(
    status: Txid -> Option<Status>,
    accepts: Txid -> bool,
    clock: nat,
    cet: SignedContract -> Option<Txid>)

  /** The world over time, the settings, and which fund transactions a transaction spends an output of. */
  datatype Config = Config(world: nat -> Snapshot, nbConfirmations: nat, automaticRefund: bool, spends: Txid -> set<Txid>)

  function Deep(cfg: Config): nat {
    if cfg.nbConfirmations < 1 then 1 else cfg.nbConfirmations
  }

  // ---------- Contracts ----------

  datatype Contract =
    | Signed(contract: SignedContract)
    | Confirmed(contract: SignedContract)
    | PreClosed(contract: SignedContract, attested: bool, closeTx: Txid)
    | Closed(contract: SignedContract, closeTx: Txid)
    | Refunded(contract: SignedContract)

  /** One entry of the history: a call from outside, a contract added under the next identifier, or one replaced. */
  datatype Change =
    | Called(call: Event)
    | Added(contract: Contract)
    | Updated(id: ContractId, from: Contract, to: Contract, time: nat)

  /** The stored contracts, numbered by their identifiers, the moment of the last question to the world, and
      the calls and changes made so far, which no operation reads. */
  datatype State = State(store: seq<Contract>, now: nat, changes: seq<Change>)

  function Update(s: State, id: ContractId, c: Contract): State {
    if id < |s.store|
    then s.(store := s.store[id := c], changes := s.changes + [Updated(id, s.store[id], c, s.now)])
    else s
  }

  /** Time passes with every question to the world. */
  function Tick(s: State): State {
    s.(now := s.now + 1)
  }

  // ---------- The checks ----------

  function CheckSigned(cfg: Config, s: State, c: SignedContract): State {
    var t := Tick(s);
    match cfg.world(t.now).status(c.fund)
    case None => t
    case Some(status) =>
      if status.NotFound? then t
      else if Confirmations(status) >= cfg.nbConfirmations then Update(t, c.id, Confirmed(c))
      else t
  }

  /** `close_contract` and the update of the store that follows it. */
  function CloseContract(cfg: Config, s: State, c: SignedContract, cet: Txid): State {
    var t := Tick(s);
    match cfg.world(t.now).status(cet)
    case None => t
    case Some(status) =>
      if Confirmations(status) < 1 then
        var u := Tick(t);
        if cfg.world(u.now).accepts(cet) then Update(u, c.id, PreClosed(c, true, cet)) else u
      else if Confirmations(status) < cfg.nbConfirmations then Update(t, c.id, PreClosed(c, true, cet))
      else Update(t, c.id, Closed(c, cet))
  }

  /** The loop over the pending close transactions from index `k` on. False when a query failed. */
  function CheckPendingCloses(cfg: Config, s: State, c: SignedContract, k: nat): (State, bool)
    requires k <= |c.pendingCloses|
    decreases |c.pendingCloses| - k
  {
    if k == |c.pendingCloses| then (s, true)
    else
      var tx := c.pendingCloses[k];
      var t := Tick(s);
      match cfg.world(t.now).status(tx)
      case None => (t, false)
      case Some(status) =>
        if status.NotFound? then CheckPendingCloses(cfg, t, c, k + 1)
        else if Confirmations(status) >= Deep(cfg) then (Update(t, c.id, Closed(c, tx)), true)
        else if Confirmations(status) >= 1 then (Update(t, c.id, PreClosed(c, false, tx)), true)
        else CheckPendingCloses(cfg, t, c, k + 1)
  }

  /** `check_and_broadcast_refund` reads the contract again. */
  function BroadcastRefund(cfg: Config, s: State, id: ContractId): State {
    if id >= |s.store| || !s.store[id].Confirmed? then s
    else
      var c := s.store[id].contract;
      var t := Tick(s);
      if c.refundLocktime > cfg.world(t.now).clock then t
      else
        var u := Tick(t);
        match cfg.world(u.now).status(c.refund)
        case None => u
        case Some(status) =>
          if Confirmations(status) > 0 then Update(u, id, Refunded(c))
          else
            var v := Tick(u);
            if cfg.world(v.now).accepts(c.refund) then Update(v, id, Refunded(c)) else v
  }

  function CheckRefund(cfg: Config, s: State, c: SignedContract): State {
    var t := Tick(s);
    if c.refundLocktime > cfg.world(t.now).clock then t
    else
      var u := Tick(t);
      match cfg.world(u.now).status(c.refund)
      case None => u
      case Some(status) =>
        if Confirmations(status) > 0 then Update(u, c.id, Refunded(c))
        else if cfg.automaticRefund then BroadcastRefund(cfg, u, c.id)
        else u
  }

  function CheckConfirmed(cfg: Config, s: State, c: SignedContract): State {
    var t := Tick(s);
    match cfg.world(t.now).cet(c)
    case Some(cet) => CloseContract(cfg, t, c, cet)
    case None =>
      var (u, answered) := CheckPendingCloses(cfg, t, c, 0);
      if answered then CheckRefund(cfg, u, c) else u
  }

  function CheckPreClosed(cfg: Config, s: State, p: Contract): State
    requires p.PreClosed?
  {
    var t := Tick(s);
    match cfg.world(t.now).status(p.closeTx)
    case None => t
    case Some(status) =>
      if status.NotFound? then
        var u := Tick(t);
        if !cfg.world(u.now).accepts(p.closeTx) && !p.attested then Update(u, p.contract.id, Confirmed(p.contract)) else u
      else if Confirmations(status) >= Deep(cfg) then Update(t, p.contract.id, Closed(p.contract, p.closeTx))
      else t
  }

  /** One signed contract in `check_for_spliced_contract`. False when the whole check stops. */
  function CheckSplice(cfg: Config, s: State, c: SignedContract): (State, bool) {
    if c.splices.None? then (s, true)
    else
      var previous := c.splices.value;
      if previous >= |s.store| then (s, false)
      else if !s.store[previous].Confirmed? then (s, true)
      else
        var t := Tick(s);
        match cfg.world(t.now).status(c.fund)
        case None => (t, false)
        case Some(status) =>
          if status.NotFound? then (t, true)
          else (Update(t, previous, PreClosed(s.store[previous].contract, false, c.fund)), true)
  }

  /** The first `n` entries of a listing of the store, in order. */
  function CheckSplices(cfg: Config, s: State, listed: seq<Contract>, n: nat): (State, bool)
    requires n <= |listed|
  {
    if n == 0 then (s, true)
    else
      var (t, going) := CheckSplices(cfg, s, listed, n - 1);
      if going && listed[n - 1].Signed? then CheckSplice(cfg, t, listed[n - 1].contract) else (t, going)
  }

  function CheckAllSigned(cfg: Config, s: State, listed: seq<Contract>, n: nat): State
    requires n <= |listed|
  {
    if n == 0 then s
    else
      var t := CheckAllSigned(cfg, s, listed, n - 1);
      if listed[n - 1].Signed? then CheckSigned(cfg, t, listed[n - 1].contract) else t
  }

  function CheckAllConfirmed(cfg: Config, s: State, listed: seq<Contract>, n: nat): State
    requires n <= |listed|
  {
    if n == 0 then s
    else
      var t := CheckAllConfirmed(cfg, s, listed, n - 1);
      if listed[n - 1].Confirmed? && !listed[n - 1].contract.inChannel then CheckConfirmed(cfg, t, listed[n - 1].contract) else t
  }

  function CheckAllPreClosed(cfg: Config, s: State, listed: seq<Contract>, n: nat): State
    requires n <= |listed|
  {
    if n == 0 then s
    else
      var t := CheckAllPreClosed(cfg, s, listed, n - 1);
      if listed[n - 1].PreClosed? then CheckPreClosed(cfg, t, listed[n - 1]) else t
  }

  /** `periodic_check`. The signed contracts are listed once, before the splices are looked at. */
  function PeriodicCheck(cfg: Config, s: State): State {
    var (a, going) := CheckSplices(cfg, s, s.store, |s.store|);
    if !going then a
    else
      var b := CheckAllSigned(cfg, a, s.store, |s.store|);
      var c := CheckAllConfirmed(cfg, b, b.store, |b.store|);
      CheckAllPreClosed(cfg, c, c.store, |c.store|)
  }

  // ---------- The calls ----------

  datatype Event =
    | Check
    | Sign(fund: Txid, refund: Txid, refundLocktime: nat, splices: Option<ContractId>, inChannel: bool)
    | OfferCooperativeClose(id: ContractId, closeTx: Txid)
    | AcceptCooperativeClose(id: ContractId, closeTx: Txid)
    | CloseManually(id: ContractId, cet: Txid)
    | RefundManually(id: ContractId)

  function Note(s: State, e: Event): State {
    s.(changes := s.changes + [Called(e)])
  }

  function Apply(cfg: Config, s: State, e: Event): State {
    if e.Check? then PeriodicCheck(cfg, s) else Answer(cfg, Note(s, e), e)
  }

  function Answer(cfg: Config, s: State, e: Event): State {
    match e
    case Check => s
    case Sign(fund, refund, locktime, splices, inChannel) =>
      var c := Signed(SignedContract(|s.store|, fund, refund, locktime, [], splices, inChannel));
      s.(store := s.store + [c], changes := s.changes + [Added(c)])
    case OfferCooperativeClose(id, closeTx) =>
      if id < |s.store| && s.store[id].Confirmed? then
        var c := s.store[id].contract;
        Update(s, id, Confirmed(c.(pendingCloses := c.pendingCloses + [closeTx])))
      else s
    case AcceptCooperativeClose(id, closeTx) =>
      if id < |s.store| && s.store[id].Confirmed? then
        var t := Tick(s);
        if cfg.world(t.now).accepts(closeTx) then Update(t, id, PreClosed(s.store[id].contract, false, closeTx)) else t
      else s
    case CloseManually(id, cet) =>
      if id < |s.store| && s.store[id].Confirmed? then CloseContract(cfg, s, s.store[id].contract, cet) else s
    case RefundManually(id) => BroadcastRefund(cfg, s, id)
  }

  function Run(cfg: Config, s: State, events: seq<Event>): State {
    if events == [] then s else Apply(cfg, Run(cfg, s, events[..|events| - 1]), events[|events| - 1])
  }

  // ---------- What the world and the callers respect ----------

  /** Blocks are not taken back: a transaction in a block stays there and gets deeper. */
  ghost predicate NoReorganisation(cfg: Config) {
    forall t: nat, u: nat, tx: Txid ::
      t <= u && cfg.world(t).status(tx).Some? && cfg.world(t).status(tx).value.InBlock? && cfg.world(u).status(tx).Some? ==>
        Confirmations(cfg.world(t).status(tx).value) <= Confirmations(cfg.world(u).status(tx).value)
  }

  predicate MinedAt(cfg: Config, tx: Txid, t: nat) {
    cfg.world(t).status(tx).Some? && Confirmations(cfg.world(t).status(tx).value) > 0
  }

  /** Of two transactions that spend the same fund output, at most one is ever mined. */
  ghost predicate NoDoubleSpend(cfg: Config) {
    forall a: Txid, b: Txid, t: nat, u: nat ::
      a != b && cfg.spends(a) * cfg.spends(b) != {} && MinedAt(cfg, a, t) ==> !MinedAt(cfg, b, u)
  }

  /** The refund and the close transactions of a contract spend its fund output. */
  predicate ProperContract(cfg: Config, c: SignedContract) {
    && c.fund in cfg.spends(c.refund)
    && forall k :: 0 <= k < |c.pendingCloses| ==> c.fund in cfg.spends(c.pendingCloses[k]) && c.pendingCloses[k] != c.refund
  }

  predicate ProperStore(cfg: Config, store: seq<Contract>) {
    forall i :: 0 <= i < |store| ==> store[i].contract.id == i && ProperContract(cfg, store[i].contract)
  }

  /** What the contract and close transaction builders guarantee for a call. */
  predicate ProperEvent(cfg: Config, s: State, e: Event) {
    match e
    case Sign(fund, refund, _, _, _) => fund in cfg.spends(refund)
    case OfferCooperativeClose(id, closeTx) =>
      id < |s.store| ==> s.store[id].contract.fund in cfg.spends(closeTx) && closeTx != s.store[id].contract.refund
    case _ => true
  }

  predicate ProperRun(cfg: Config, s: State, events: seq<Event>) {
    events != [] ==>
      && ProperRun(cfg, s, events[..|events| - 1])
      && ProperEvent(cfg, Run(cfg, s, events[..|events| - 1]), events[|events| - 1])
  }

  // ---------- Allowed updates ----------

  predicate DeepAt(cfg: Config, tx: Txid, t: nat) {
    cfg.world(t).status(tx).Some? && Confirmations(cfg.world(t).status(tx).value) >= Deep(cfg)
  }

  /** The contract keeps its terms; only an offered cooperative close adds to them. */
  predicate SameTerms(c: SignedContract, d: SignedContract) {
    d == c.(pendingCloses := d.pendingCloses)
  }

  /** The closing transaction is the CET that the world gave for the contract, or one that a caller passed in. */
  predicate IsCetOf(cfg: Config, prior: seq<Change>, c: SignedContract, id: ContractId, tx: Txid, now: nat) {
    || (now >= 1 && cfg.world(now - 1).cet(c) == Some(tx))
    || (now >= 2 && cfg.world(now - 2).cet(c) == Some(tx))
    || Called(CloseManually(id, tx)) in prior
  }

  /** An answer for the transaction that shows it in no block. */
  predicate UnminedAt(cfg: Config, tx: Txid, t: nat) {
    cfg.world(t).status(tx).Some? && Confirmations(cfg.world(t).status(tx).value) == 0
  }

  /** A transaction was sent just now, after an answer that showed it in no block. */
  predicate SentAt(cfg: Config, tx: Txid, t: nat) {
    cfg.world(t).accepts(tx) && t > 0 && UnminedAt(cfg, tx, t - 1)
  }

  /** A stored signed contract whose funding, by the transaction that closes this contract, is known to the chain. */
  predicate SplicedBy(cfg: Config, store: seq<Contract>, k: nat, id: ContractId, tx: Txid, t: nat) {
    && k < |store| && store[k].Signed? && store[k].contract.splices == Some(id) && store[k].contract.fund == tx
    && cfg.world(t).status(tx).Some? && !cfg.world(t).status(tx).value.NotFound?
  }

  /** What can pre-close a confirmed contract. */
  predicate PreClosing(cfg: Config, prior: seq<Change>, c: SignedContract, id: ContractId, attested: bool, tx: Txid, t: nat) {
    if attested then
      && IsCetOf(cfg, prior, c, id, tx, t)
      && (SentAt(cfg, tx, t) || (MinedAt(cfg, tx, t) && !DeepAt(cfg, tx, t)))
    else
      || (tx in c.pendingCloses && MinedAt(cfg, tx, t) && !DeepAt(cfg, tx, t))
      || (Called(AcceptCooperativeClose(id, tx)) in prior && cfg.world(t).accepts(tx))
      || exists k :: 0 <= k < |Replay(prior)| && SplicedBy(cfg, Replay(prior), k, id, tx, t)
  }

  /** The refund is mined after its lock time, or was sent after it by the checks, if so configured, or for a caller. */
  predicate Refunding(cfg: Config, prior: seq<Change>, c: SignedContract, id: ContractId, t: nat) {
    || (MinedAt(cfg, c.refund, t) && t > 0 && cfg.world(t - 1).clock >= c.refundLocktime)
    || (SentAt(cfg, c.refund, t) && t > 1 && cfg.world(t - 2).clock >= c.refundLocktime
        && (cfg.automaticRefund || Called(RefundManually(id)) in prior))
  }

  predicate Allowed(cfg: Config, prior: seq<Change>, e: Change)
    requires e.Updated?
  {
    && SameTerms(e.from.contract, e.to.contract)
    && match e.to
       case Signed(_) => false
       case Confirmed(d) =>
         (match e.from
          case Signed(c) =>
            && cfg.world(e.time).status(c.fund).Some?
            && !cfg.world(e.time).status(c.fund).value.NotFound?
            && Confirmations(cfg.world(e.time).status(c.fund).value) >= cfg.nbConfirmations
          case Confirmed(c) =>
            && |d.pendingCloses| == |c.pendingCloses| + 1 && c.pendingCloses <= d.pendingCloses
            && Called(OfferCooperativeClose(e.id, d.pendingCloses[|c.pendingCloses|])) in prior
          case PreClosed(c, attested, closeTx) =>
            && !attested
            && e.time > 0 && cfg.world(e.time - 1).status(closeTx) == Some(NotFound)
            && !cfg.world(e.time).accepts(closeTx)
          case _ => false)
       case PreClosed(_, attested, tx) =>
         e.from.Confirmed? && PreClosing(cfg, prior, e.from.contract, e.id, attested, tx, e.time)
       case Closed(_, closeTx) =>
         && DeepAt(cfg, closeTx, e.time)
         && (match e.from
             case Confirmed(c) => closeTx in c.pendingCloses || IsCetOf(cfg, prior, c, e.id, closeTx, e.time)
             case PreClosed(_, _, tx) => tx == closeTx
             case _ => false)
       case Refunded(c) => e.from.Confirmed? && Refunding(cfg, prior, c, e.id, e.time)
  }

  /** The store that a history of changes leads to, from an empty one. */
  function Replay(changes: seq<Change>): seq<Contract> {
    if changes == [] then []
    else
      var before := Replay(changes[..|changes| - 1]);
      match changes[|changes| - 1]
      case Called(_) => before
      case Added(c) => before + [c]
      case Updated(id, _, to, _) => if id < |before| then before[id := to] else before
  }

  /** A change starts from what was stored, and is an allowed one; an added contract is the one that was signed. */
  predicate SoundChange(cfg: Config, prior: seq<Change>, e: Change) {
    var before := Replay(prior);
    match e
    case Called(_) => true
    case Added(c) =>
      && c.Signed? && c.contract.id == |before| && c.contract.pendingCloses == []
      && Called(Sign(c.contract.fund, c.contract.refund, c.contract.refundLocktime, c.contract.splices, c.contract.inChannel)) in prior
    case Updated(id, from, _, _) => id < |before| && before[id] == from && Allowed(cfg, prior, e)
  }

  predicate SoundHistory(cfg: Config, changes: seq<Change>) {
    changes != [] ==>
      && SoundHistory(cfg, changes[..|changes| - 1])
      && SoundChange(cfg, changes[..|changes| - 1], changes[|changes| - 1])
  }

  /** The store is the result of sound changes and nothing else, and what is closed was seen deep enough in the chain. */
  predicate Good(cfg: Config, s: State) {
    && ProperStore(cfg, s.store)
    && Replay(s.changes) == s.store
    && SoundHistory(cfg, s.changes)
    && forall i :: 0 <= i < |s.store| && s.store[i].Closed? ==> WasDeep(cfg, s.store[i].closeTx, s.now)
  }

  predicate WasDeep(cfg: Config, tx: Txid, now: nat) {
    exists t :: 0 <= t <= now && DeepAt(cfg, tx, t)
  }

  predicate Terminal(c: Contract) {
    c.Closed? || c.Refunded?
  }

  /** Nothing is forgotten: contracts stay, time and the updates grow, and terminal contracts do not change. */
  predicate Later(s: State, t: State) {
    && |s.store| <= |t.store| && s.now <= t.now && s.changes <= t.changes
    && forall i :: 0 <= i < |s.store| && Terminal(s.store[i]) ==> t.store[i] == s.store[i]
  }

  // ---------- Every update is allowed ----------

  /** What one check of one contract leaves alone. */
  predicate OnlyAt(s: State, t: State, id: ContractId) {
    && Later(s, t) && |t.store| == |s.store|
    && forall i :: 0 <= i < |s.store| && i != id ==> t.store[i] == s.store[i]
  }

  lemma UpdateKeeps(cfg: Config, s: State, id: ContractId, c: Contract)
    requires Good(cfg, s) && id < |s.store|
    requires Allowed(cfg, s.changes, Updated(id, s.store[id], c, s.now)) && ProperContract(cfg, c.contract)
    ensures Good(cfg, Update(s, id, c)) && OnlyAt(s, Update(s, id, c), id)
  {
    hide ProperContract;
    assert !Terminal(s.store[id]);
    assert SameTerms(s.store[id].contract, c.contract);
    assert c.Closed? ==> DeepAt(cfg, c.closeTx, s.now);
    assert Update(s, id, c).changes[..|s.changes|] == s.changes;
  }

  lemma TickKeeps(cfg: Config, s: State)
    requires Good(cfg, s)
    ensures Good(cfg, Tick(s)) && Later(s, Tick(s)) && Good(cfg, Tick(Tick(s))) && Good(cfg, Tick(Tick(Tick(s))))
    ensures forall i :: 0 <= i < |s.store| ==> s.store[i].contract.id == i && ProperContract(cfg, s.store[i].contract)
  {
    hide Allowed, ProperContract, DeepAt;
    forall tx: Txid, t: nat | WasDeep(cfg, tx, s.now) && s.now <= t ensures WasDeep(cfg, tx, t) {
    }
  }

  lemma SignedKeeps(cfg: Config, s: State, c: SignedContract)
    requires Good(cfg, s) && c.id < |s.store| && s.store[c.id] == Signed(c)
    ensures Good(cfg, CheckSigned(cfg, s, c)) && OnlyAt(s, CheckSigned(cfg, s, c), c.id)
  {
    hide Good, ProperContract;
    TickKeeps(cfg, s);
    var status := cfg.world(Tick(s).now).status(c.fund);
    if status.Some? && !status.value.NotFound? && Confirmations(status.value) >= cfg.nbConfirmations {
      UpdateKeeps(cfg, Tick(s), c.id, Confirmed(c));
    }
  }

  lemma CloseKeeps(cfg: Config, s: State, c: SignedContract, cet: Txid)
    requires Good(cfg, s) && c.id < |s.store| && s.store[c.id] == Confirmed(c)
    requires cfg.world(s.now).cet(c) == Some(cet) || Called(CloseManually(c.id, cet)) in s.changes
    ensures Good(cfg, CloseContract(cfg, s, c, cet)) && OnlyAt(s, CloseContract(cfg, s, c, cet), c.id)
  {
    hide Good, ProperContract;
    TickKeeps(cfg, s);
    var t, u := Tick(s), Tick(Tick(s));
    if DeepAt(cfg, cet, t.now) {
      UpdateKeeps(cfg, t, c.id, Closed(c, cet));
    } else if MinedAt(cfg, cet, t.now) {
      UpdateKeeps(cfg, t, c.id, PreClosed(c, true, cet));
    } else if SentAt(cfg, cet, u.now) {
      UpdateKeeps(cfg, u, c.id, PreClosed(c, true, cet));
    }
  }

  /** After the loop the contract is as it was, or its closing transaction was seen in a block. */
  lemma {:induction false} PendingClosesKeep(cfg: Config, s: State, c: SignedContract, k: nat)
    requires Good(cfg, s) && c.id < |s.store| && s.store[c.id] == Confirmed(c) && k <= |c.pendingCloses|
    ensures var t := CheckPendingCloses(cfg, s, c, k).0;
            && Good(cfg, t) && OnlyAt(s, t, c.id)
            && (t.store[c.id] == Confirmed(c) || exists j, u: nat :: 0 <= j < |c.pendingCloses| && MinedAt(cfg, c.pendingCloses[j], u))
    decreases |c.pendingCloses| - k
  {
    hide Good, ProperContract;
    if k < |c.pendingCloses| {
      TickKeeps(cfg, s);
      var t, tx := Tick(s), c.pendingCloses[k];
      var status := cfg.world(t.now).status(tx);
      if status.Some? && Confirmations(status.value) == 0 {
        PendingClosesKeep(cfg, t, c, k + 1);
      } else if status.Some? {
        assert MinedAt(cfg, c.pendingCloses[k], t.now);
        if DeepAt(cfg, tx, t.now) {
          UpdateKeeps(cfg, t, c.id, Closed(c, tx));
        } else {
          UpdateKeeps(cfg, t, c.id, PreClosed(c, false, tx));
        }
      }
    }
  }

  lemma BroadcastKeeps(cfg: Config, s: State, id: ContractId)
    requires Good(cfg, s) && (cfg.automaticRefund || Called(RefundManually(id)) in s.changes)
    ensures Good(cfg, BroadcastRefund(cfg, s, id)) && OnlyAt(s, BroadcastRefund(cfg, s, id), id)
  {
    hide Good, ProperContract;
    if id < |s.store| && s.store[id].Confirmed? {
      TickKeeps(cfg, s);
      var c, u, v := s.store[id].contract, Tick(Tick(s)), Tick(Tick(Tick(s)));
      if cfg.world(Tick(s).now).clock >= c.refundLocktime {
        if MinedAt(cfg, c.refund, u.now) { UpdateKeeps(cfg, u, id, Refunded(c)); }
        if SentAt(cfg, c.refund, v.now) { UpdateKeeps(cfg, v, id, Refunded(c)); }
      }
    }
  }

  /** The refund check writes from the copy it was given, so it relies on a mined closing transaction ruling
      out a mined refund. */
  lemma RefundKeeps(cfg: Config, s: State, c: SignedContract)
    requires NoDoubleSpend(cfg)
    requires Good(cfg, s) && c.id < |s.store| && ProperContract(cfg, c)
    requires s.store[c.id] == Confirmed(c)
             || exists j, u: nat :: 0 <= j < |c.pendingCloses| && MinedAt(cfg, c.pendingCloses[j], u)
    ensures Good(cfg, CheckRefund(cfg, s, c)) && OnlyAt(s, CheckRefund(cfg, s, c), c.id)
  {
    hide Good, BroadcastRefund;
    TickKeeps(cfg, s);
    var u := Tick(Tick(s));
    if s.store[c.id] == Confirmed(c) {
      if MinedAt(cfg, c.refund, u.now) && cfg.world(Tick(s).now).clock >= c.refundLocktime {
        UpdateKeeps(cfg, u, c.id, Refunded(c));
      }
    } else {
      var j, w: nat :| 0 <= j < |c.pendingCloses| && MinedAt(cfg, c.pendingCloses[j], w);
      assert c.fund in cfg.spends(c.pendingCloses[j]) * cfg.spends(c.refund);
      assert !MinedAt(cfg, c.refund, u.now);
    }
    if cfg.automaticRefund {
      BroadcastKeeps(cfg, u, c.id);
    }
  }

  lemma ConfirmedKeeps(cfg: Config, s: State, c: SignedContract)
    requires NoDoubleSpend(cfg)
    requires Good(cfg, s) && c.id < |s.store| && s.store[c.id] == Confirmed(c)
    ensures Good(cfg, CheckConfirmed(cfg, s, c)) && OnlyAt(s, CheckConfirmed(cfg, s, c), c.id)
  {
    hide CloseContract, CheckPendingCloses, CheckRefund, Good, ProperContract, NoDoubleSpend;
    TickKeeps(cfg, s);
    var t := Tick(s);
    match cfg.world(t.now).cet(c)
    case Some(cet) => CloseKeeps(cfg, t, c, cet);
    case None =>
      PendingClosesKeep(cfg, t, c, 0);
      if CheckPendingCloses(cfg, t, c, 0).1 {
        RefundKeeps(cfg, CheckPendingCloses(cfg, t, c, 0).0, c);
      }
  }

  lemma PreClosedKeeps(cfg: Config, s: State, p: Contract)
    requires p.PreClosed? && Good(cfg, s) && p.contract.id < |s.store| && s.store[p.contract.id] == p
    ensures Good(cfg, CheckPreClosed(cfg, s, p)) && OnlyAt(s, CheckPreClosed(cfg, s, p), p.contract.id)
  {
    hide Good, ProperContract;
    TickKeeps(cfg, s);
    var c, t, u := p.contract, Tick(s), Tick(Tick(s));
    if DeepAt(cfg, p.closeTx, t.now) { UpdateKeeps(cfg, t, c.id, Closed(c, p.closeTx)); }
    if cfg.world(t.now).status(p.closeTx) == Some(NotFound) && !cfg.world(u.now).accepts(p.closeTx) && !p.attested {
      UpdateKeeps(cfg, u, c.id, Confirmed(c));
    }
  }

  lemma SpliceKeeps(cfg: Config, s: State, c: SignedContract)
    requires Good(cfg, s) && c.id < |s.store| && s.store[c.id] == Signed(c)
    ensures var t := CheckSplice(cfg, s, c).0;
            && Good(cfg, t) && Later(s, t) && |t.store| == |s.store|
            && forall i :: 0 <= i < |s.store| && !s.store[i].Confirmed? ==> t.store[i] == s.store[i]
  {
    hide Good, ProperContract;
    if c.splices.Some? && c.splices.value < |s.store| && s.store[c.splices.value].Confirmed? {
      TickKeeps(cfg, s);
      var t := Tick(s);
      if cfg.world(t.now).status(c.fund).Some? && !cfg.world(t.now).status(c.fund).value.NotFound? {
        ReplayIsStore(cfg, t);
        assert SplicedBy(cfg, Replay(t.changes), c.id, c.splices.value, c.fund, t.now);
        UpdateKeeps(cfg, t, c.splices.value, PreClosed(s.store[c.splices.value].contract, false, c.fund));
      }
    }
  }

  // ---------- The loops ----------

  lemma {:induction false} SplicesKeep(cfg: Config, s: State, n: nat)
    requires Good(cfg, s) && n <= |s.store|
    ensures var t := CheckSplices(cfg, s, s.store, n).0;
            && Good(cfg, t) && Later(s, t) && |t.store| == |s.store|
            && forall i :: 0 <= i < |s.store| && !s.store[i].Confirmed? ==> t.store[i] == s.store[i]
  {
    hide Good, CheckSplice;
    if n > 0 {
      SplicesKeep(cfg, s, n - 1);
      var (t, going) := CheckSplices(cfg, s, s.store, n - 1);
      if going && s.store[n - 1].Signed? {
        TickKeeps(cfg, s);
        SpliceKeeps(cfg, t, s.store[n - 1].contract);
      }
    }
  }

  lemma {:induction false} AllSignedKeep(cfg: Config, s: State, listed: seq<Contract>, n: nat)
    requires Good(cfg, s) && n <= |listed| == |s.store|
    requires forall i :: 0 <= i < |listed| ==> listed[i].contract.id == i
    requires forall i :: 0 <= i < |listed| && listed[i].Signed? ==> s.store[i] == listed[i]
    ensures var t := CheckAllSigned(cfg, s, listed, n);
            && Good(cfg, t) && Later(s, t) && |t.store| == |s.store|
            && forall i :: 0 <= i < |listed| && (i < n ==> !listed[i].Signed?) ==> t.store[i] == s.store[i]
  {
    hide Good, CheckSigned;
    if n > 0 {
      AllSignedKeep(cfg, s, listed, n - 1);
      if listed[n - 1].Signed? {
        SignedKeeps(cfg, CheckAllSigned(cfg, s, listed, n - 1), listed[n - 1].contract);
      }
    }
  }

  lemma {:induction false} AllConfirmedKeep(cfg: Config, s: State, n: nat)
    requires NoDoubleSpend(cfg) && Good(cfg, s) && n <= |s.store|
    requires forall i :: 0 <= i < |s.store| ==> s.store[i].contract.id == i
    ensures var t := CheckAllConfirmed(cfg, s, s.store, n);
            && Good(cfg, t) && Later(s, t) && |t.store| == |s.store|
            && forall i :: 0 <= i < |s.store| && (i < n ==> !s.store[i].Confirmed?) ==> t.store[i] == s.store[i]
  {
    hide Good, CheckConfirmed, NoDoubleSpend;
    if n > 0 {
      AllConfirmedKeep(cfg, s, n - 1);
      if s.store[n - 1].Confirmed? && !s.store[n - 1].contract.inChannel {
        ConfirmedKeeps(cfg, CheckAllConfirmed(cfg, s, s.store, n - 1), s.store[n - 1].contract);
      }
    }
  }

  lemma {:induction false} AllPreClosedKeep(cfg: Config, s: State, n: nat)
    requires Good(cfg, s) && n <= |s.store|
    requires forall i :: 0 <= i < |s.store| ==> s.store[i].contract.id == i
    ensures var t := CheckAllPreClosed(cfg, s, s.store, n);
            && Good(cfg, t) && Later(s, t) && |t.store| == |s.store|
            && forall i :: n <= i < |s.store| ==> t.store[i] == s.store[i]
  {
    hide Good, CheckPreClosed;
    if n > 0 {
      AllPreClosedKeep(cfg, s, n - 1);
      if s.store[n - 1].PreClosed? {
        PreClosedKeeps(cfg, CheckAllPreClosed(cfg, s, s.store, n - 1), s.store[n - 1]);
      }
    }
  }

  lemma CheckKeeps(cfg: Config, s: State)
    requires NoDoubleSpend(cfg) && Good(cfg, s)
    ensures Good(cfg, PeriodicCheck(cfg, s)) && Later(s, PeriodicCheck(cfg, s))
  {
    hide Allowed, ProperContract, NoDoubleSpend, CheckSplices, CheckAllSigned, CheckAllConfirmed, CheckAllPreClosed;
    SplicesKeep(cfg, s, |s.store|);
    var (a, going) := CheckSplices(cfg, s, s.store, |s.store|);
    if going {
      AllSignedKeep(cfg, a, s.store, |s.store|);
      var b := CheckAllSigned(cfg, a, s.store, |s.store|);
      AllConfirmedKeep(cfg, b, |b.store|);
      AllPreClosedKeep(cfg, CheckAllConfirmed(cfg, b, b.store, |b.store|), |b.store|);
    }
  }

  lemma NoteKeeps(cfg: Config, s: State, e: Event)
    requires Good(cfg, s)
    ensures Good(cfg, Note(s, e)) && Later(s, Note(s, e))
  {
    hide Allowed, ProperContract;
    assert Note(s, e).changes[..|s.changes|] == s.changes;
  }

  lemma ReplayIsStore(cfg: Config, s: State)
    requires Good(cfg, s)
    ensures Replay(s.changes) == s.store
  {
  }

  lemma ApplyKeeps(cfg: Config, s: State, e: Event)
    requires NoDoubleSpend(cfg) && Good(cfg, s) && ProperEvent(cfg, s, e)
    ensures Good(cfg, Apply(cfg, s, e)) && Later(s, Apply(cfg, s, e))
  {
    hide PeriodicCheck, Answer, NoDoubleSpend, Good, ProperEvent;
    if e.Check? {
      CheckKeeps(cfg, s);
    } else {
      NoteKeeps(cfg, s, e);
      assert ProperEvent(cfg, Note(s, e), e) by { NoteIsProper(cfg, s, e); }
      AnswerKeeps(cfg, Note(s, e), e);
    }
  }

  lemma NoteIsProper(cfg: Config, s: State, e: Event)
    requires ProperEvent(cfg, s, e)
    ensures ProperEvent(cfg, Note(s, e), e)
  {
  }

  lemma AnswerKeeps(cfg: Config, s: State, e: Event)
    requires Good(cfg, s) && ProperEvent(cfg, s, e) && Called(e) in s.changes
    ensures Good(cfg, Answer(cfg, s, e)) && Later(s, Answer(cfg, s, e))
  {
    hide CloseContract, BroadcastRefund, Good, ProperContract, Later;
    match e
    case Check => NothingKeeps(s);
    case Sign(fund, refund, locktime, splices, inChannel) =>
      SignKeeps(cfg, s, SignedContract(|s.store|, fund, refund, locktime, [], splices, inChannel));
    case CloseManually(id, cet) =>
      if id < |s.store| && s.store[id].Confirmed? {
        TickKeeps(cfg, s);
        CloseKeeps(cfg, s, s.store[id].contract, cet);
      } else {
        NothingKeeps(s);
      }
    case RefundManually(id) => BroadcastKeeps(cfg, s, id);
    case OfferCooperativeClose(id, closeTx) =>
      if id < |s.store| && s.store[id].Confirmed? {
        var c := s.store[id].contract;
        TermsGrow(cfg, s, id, closeTx);
        UpdateKeeps(cfg, s, id, Confirmed(c.(pendingCloses := c.pendingCloses + [closeTx])));
      } else {
        NothingKeeps(s);
      }
    case AcceptCooperativeClose(id, closeTx) =>
      if id < |s.store| && s.store[id].Confirmed? {
        TickKeeps(cfg, s);
        var t := Tick(s);
        if cfg.world(t.now).accepts(closeTx) {
          UpdateKeeps(cfg, t, id, PreClosed(s.store[id].contract, false, closeTx));
          LaterUpdate(s, id, PreClosed(s.store[id].contract, false, closeTx));
        } else {
          LaterTick(s);
        }
      } else {
        NothingKeeps(s);
      }
  }

  lemma LaterTick(s: State)
    ensures Later(s, Tick(s))
  {
  }

  lemma NothingKeeps(s: State)
    ensures Later(s, s)
  {
  }

  lemma LaterUpdate(s: State, id: ContractId, c: Contract)
    requires id < |s.store| && !Terminal(s.store[id])
    ensures Later(s, Update(Tick(s), id, c))
  {
  }

  lemma TermsGrow(cfg: Config, s: State, id: ContractId, closeTx: Txid)
    requires Good(cfg, s) && ProperEvent(cfg, s, OfferCooperativeClose(id, closeTx)) && id < |s.store|
    ensures ProperContract(cfg, s.store[id].contract.(pendingCloses := s.store[id].contract.pendingCloses + [closeTx]))
  {
  }

  lemma SignKeeps(cfg: Config, s: State, c: SignedContract)
    requires Good(cfg, s) && c.id == |s.store| && c.pendingCloses == [] && c.fund in cfg.spends(c.refund)
    requires Called(Sign(c.fund, c.refund, c.refundLocktime, c.splices, c.inChannel)) in s.changes
    ensures var t := s.(store := s.store + [Signed(c)], changes := s.changes + [Added(Signed(c))]);
            Good(cfg, t) && Later(s, t)
  {
    hide Allowed;
    assert (s.changes + [Added(Signed(c))])[..|s.changes|] == s.changes;
  }

  /** Lifecycle safety: over every run of checks and calls, with any failure, eviction and refusal, every
      update of the store is an allowed one. */
  lemma {:induction false} EveryUpdateIsAllowed(cfg: Config, s: State, events: seq<Event>)
    requires NoDoubleSpend(cfg) && Good(cfg, s) && ProperRun(cfg, s, events)
    ensures Good(cfg, Run(cfg, s, events)) && Later(s, Run(cfg, s, events))
  {
    hide Good, NoDoubleSpend, Apply;
    if events != [] {
      EveryUpdateIsAllowed(cfg, s, events[..|events| - 1]);
      ApplyKeeps(cfg, Run(cfg, s, events[..|events| - 1]), events[|events| - 1]);
    }
  }

  /** A closed contract stays closed by a transaction that every later answer of the chain shows deep enough. */
  lemma ClosedStaysDeep(cfg: Config, s: State, events: seq<Event>, id: ContractId, t: nat)
    requires NoDoubleSpend(cfg) && NoReorganisation(cfg) && Good(cfg, s) && ProperRun(cfg, s, events)
    requires id < |s.store| && s.store[id].Closed? && s.now <= t
    ensures id < |Run(cfg, s, events).store| && Run(cfg, s, events).store[id] == s.store[id]
    ensures cfg.world(t).status(s.store[id].closeTx).Some? ==> DeepAt(cfg, s.store[id].closeTx, t)
  {
    hide ProperStore, Allowed, NoDoubleSpend;
    EveryUpdateIsAllowed(cfg, s, events);
    var u: nat :| u <= s.now && DeepAt(cfg, s.store[id].closeTx, u);
  }

  /** The double-spend assumption is needed: with a mined close and a mined refund, one check closes the
      contract and then marks it refunded. */
  lemma RefundOverwritesClosed(cfg: Config, s: State, c: SignedContract, close: Txid)
    requires s.store == [Confirmed(c)] && c.id == 0 && c.pendingCloses == [close] && s.changes == []
    requires forall t: nat :: cfg.world(t).cet(c) == None && cfg.world(t).clock >= c.refundLocktime
    requires forall t: nat, tx :: cfg.world(t).status(tx) == Some(InBlock(Deep(cfg)))
    ensures var t := CheckConfirmed(cfg, s, c);
            t.store == [Refunded(c)] && |t.changes| == 2 && t.changes[0].Updated? && t.changes[0].to == Closed(c, close)
  {
  }

  // ---------- Progress ----------

  predicate Answers(cfg: Config, t: nat, tx: Txid) {
    cfg.world(t).status(tx).Some?
  }

  /** A check gets as far as the pre-closed contracts when the chain answers and every spliced contract is known. */
  lemma {:induction false} SplicesGoOn(cfg: Config, s: State, n: nat)
    requires Good(cfg, s) && n <= |s.store|
    requires forall t: nat, tx: Txid :: Answers(cfg, t, tx)
    requires forall i :: 0 <= i < |s.store| && s.store[i].contract.splices.Some? ==> s.store[i].contract.splices.value < |s.store|
    ensures CheckSplices(cfg, s, s.store, n).1
  {
    hide Good;
    if n > 0 {
      SplicesGoOn(cfg, s, n - 1);
      SplicesKeep(cfg, s, n - 1);
      var t := CheckSplices(cfg, s, s.store, n - 1).0;
      assert Answers(cfg, Tick(t).now, s.store[n - 1].contract.fund);
    }
  }

  lemma {:induction false} PreClosedBecomesClosed(cfg: Config, s: State, n: nat, id: ContractId)
    requires Good(cfg, s) && id < n <= |s.store| && s.store[id].PreClosed?
    requires forall t: nat :: s.now <= t ==> DeepAt(cfg, s.store[id].closeTx, t)
    requires forall i :: 0 <= i < |s.store| ==> s.store[i].contract.id == i
    ensures id < |CheckAllPreClosed(cfg, s, s.store, n).store|
    ensures CheckAllPreClosed(cfg, s, s.store, n).store[id] == Closed(s.store[id].contract, s.store[id].closeTx)
  {
    hide Good, Allowed;
    AllPreClosedKeep(cfg, s, n - 1);
    var t := CheckAllPreClosed(cfg, s, s.store, n - 1);
    if n - 1 == id {
      assert DeepAt(cfg, s.store[id].closeTx, Tick(t).now);
    } else {
      PreClosedBecomesClosed(cfg, s, n - 1, id);
      if s.store[n - 1].PreClosed? {
        PreClosedKeeps(cfg, t, s.store[n - 1]);
      }
    }
  }

  /** One check closes every pre-closed contract whose closing transaction is deep enough in the chain. */
  lemma DeepCloseIsRecorded(cfg: Config, s: State, id: ContractId)
    requires NoDoubleSpend(cfg) && Good(cfg, s) && id < |s.store| && s.store[id].PreClosed?
    requires forall t: nat :: s.now <= t ==> DeepAt(cfg, s.store[id].closeTx, t)
    requires forall t: nat, tx: Txid :: Answers(cfg, t, tx)
    requires forall i :: 0 <= i < |s.store| && s.store[i].contract.splices.Some? ==> s.store[i].contract.splices.value < |s.store|
    ensures id < |PeriodicCheck(cfg, s).store|
    ensures PeriodicCheck(cfg, s).store[id] == Closed(s.store[id].contract, s.store[id].closeTx)
  {
    hide Allowed, ProperContract, NoDoubleSpend, CheckSplices, CheckAllSigned, CheckAllConfirmed, CheckAllPreClosed, DeepAt, Answers;
    SplicesGoOn(cfg, s, |s.store|);
    SplicesKeep(cfg, s, |s.store|);
    var a := CheckSplices(cfg, s, s.store, |s.store|).0;
    AllSignedKeep(cfg, a, s.store, |s.store|);
    var b := CheckAllSigned(cfg, a, s.store, |s.store|);
    AllConfirmedKeep(cfg, b, |b.store|);
    var c := CheckAllConfirmed(cfg, b, b.store, |b.store|);
    PreClosedBecomesClosed(cfg, c, |c.store|, id);
  }

  // ---------- What one check comes to ----------

  /** The world answers every question after a moment in the same way; to some questions that is no answer. */
  ghost predicate Steady(cfg: Config, now: nat, w: Snapshot) {
    forall t: nat :: now < t ==> cfg.world(t) == w
  }

  predicate MinedIn(w: Snapshot, tx: Txid) {
    w.status(tx).Some? && Confirmations(w.status(tx).value) > 0
  }

  predicate DeepIn(cfg: Config, w: Snapshot, tx: Txid) {
    w.status(tx).Some? && Confirmations(w.status(tx).value) >= Deep(cfg)
  }

  predicate KnownIn(w: Snapshot, tx: Txid) {
    w.status(tx).Some? && !w.status(tx).value.NotFound?
  }

  /** A transaction that is in a block, or that was found in none and can be sent. */
  predicate InOrSent(w: Snapshot, tx: Txid) {
    MinedIn(w, tx) || (w.status(tx).Some? && w.accepts(tx))
  }

  /** The first transaction from an index on that is mined or that there is no answer for. */
  function FirstDecisive(w: Snapshot, txs: seq<Txid>, k: nat): (r: Option<Txid>)
    requires k <= |txs|
    ensures r.None? ==> forall i :: k <= i < |txs| ==> w.status(txs[i]).Some? && !MinedIn(w, txs[i])
    ensures r.Some? ==> exists i :: k <= i < |txs| && txs[i] == r.value && (MinedIn(w, txs[i]) || w.status(txs[i]).None?)
                                    && forall j :: k <= j < i ==> w.status(txs[j]).Some? && !MinedIn(w, txs[j])
    decreases |txs| - k
  {
    if k == |txs| then None
    else if MinedIn(w, txs[k]) || w.status(txs[k]).None? then Some(txs[k])
    else FirstDecisive(w, txs, k + 1)
  }

  /** A deep transaction closes a contract, and one that is mined or was sent pre-closes it. */
  function ClosedBy(cfg: Config, w: Snapshot, c: SignedContract, tx: Txid, attested: bool): Contract {
    if DeepIn(cfg, w, tx) then Closed(c, tx)
    else if InOrSent(w, tx) then PreClosed(c, attested, tx)
    else Confirmed(c)
  }

  predicate Refundable(w: Snapshot, c: SignedContract, broadcasts: bool) {
    c.refundLocktime <= w.clock && (MinedIn(w, c.refund) || (broadcasts && InOrSent(w, c.refund)))
  }

  /** What a confirmed contract comes to. A CET closes it if there is one, and otherwise the first mined cooperative close; a question without
      an answer before that leaves it as it is. Without a closing transaction it is refunded once that is due and can be done. */
  function Outcome(cfg: Config, w: Snapshot, c: SignedContract): Contract {
    if w.cet(c).Some? then ClosedBy(cfg, w, c, w.cet(c).value, true)
    else match FirstDecisive(w, c.pendingCloses, 0)
      case Some(tx) => if MinedIn(w, tx) then ClosedBy(cfg, w, c, tx, false) else Confirmed(c)
      case None => if Refundable(w, c, cfg.automaticRefund) then Refunded(c) else Confirmed(c)
  }

  /** What a pre-closed contract comes to: closed by a deep transaction, and confirmed again if a transaction that was not attested
      is unknown and refused. */
  function PreClosedOutcome(cfg: Config, w: Snapshot, p: Contract): Contract
    requires p.PreClosed?
  {
    if DeepIn(cfg, w, p.closeTx) then Closed(p.contract, p.closeTx)
    else if w.status(p.closeTx) == Some(NotFound) && !w.accepts(p.closeTx) && !p.attested then Confirmed(p.contract)
    else p
  }

  /** What one check makes of a contract, once the splices have been looked at. */
  function Settled(cfg: Config, w: Snapshot, x: Contract): Contract {
    match x
    case Signed(c) =>
      if !KnownIn(w, c.fund) || Confirmations(w.status(c.fund).value) < cfg.nbConfirmations then x
      else if c.inChannel then Confirmed(c)
      else Outcome(cfg, w, c)
    case Confirmed(c) => if c.inChannel then x else Outcome(cfg, w, c)
    case PreClosed(_, _, _) => PreClosedOutcome(cfg, w, x)
    case _ => x
  }

  lemma SteadyLater(cfg: Config, now: nat, later: nat, w: Snapshot)
    requires Steady(cfg, now, w) && now <= later
    ensures Steady(cfg, later, w)
  {
  }

  lemma SteadyMined(cfg: Config, now: nat, tx: Txid, w: Snapshot)
    requires Steady(cfg, now, w)
    ensures MinedIn(w, tx) <==> MinedAt(cfg, tx, now + 1)
  {
    assert cfg.world(now + 1) == w;
  }

  // ---------- Confirmed contracts ----------

  lemma {:induction false} PendingOutcome(cfg: Config, s: State, c: SignedContract, k: nat, w: Snapshot)
    requires Steady(cfg, s.now, w) && k <= |c.pendingCloses| && c.id < |s.store| && s.store[c.id] == Confirmed(c)
    ensures var (t, answered) := CheckPendingCloses(cfg, s, c, k);
            && s.now <= t.now && |t.store| == |s.store|
            && match FirstDecisive(w, c.pendingCloses, k)
               case None => answered && t.store[c.id] == Confirmed(c)
               case Some(tx) =>
                 && (answered <==> MinedIn(w, tx))
                 && t.store[c.id] == if MinedIn(w, tx) then ClosedBy(cfg, w, c, tx, false) else Confirmed(c)
    decreases |c.pendingCloses| - k
  {
    if k < |c.pendingCloses| && w.status(c.pendingCloses[k]).Some? && !MinedIn(w, c.pendingCloses[k]) {
      PendingOutcome(cfg, Tick(s), c, k + 1, w);
    }
  }

  /** A check of a confirmed contract in a steady world. */
  lemma ConfirmedOutcome(cfg: Config, s: State, c: SignedContract, w: Snapshot)
    requires NoDoubleSpend(cfg) && Good(cfg, s) && Steady(cfg, s.now, w) && c.id < |s.store| && s.store[c.id] == Confirmed(c)
    ensures c.id < |CheckConfirmed(cfg, s, c).store|
    ensures CheckConfirmed(cfg, s, c).store[c.id] == Outcome(cfg, w, c)
  {
    hide Good, Replay, ProperContract;
    assert ProperContract(cfg, c) by { TickKeeps(cfg, s); }
    if w.cet(c).None? {
      PendingOutcome(cfg, Tick(s), c, 0, w);
      if FirstDecisive(w, c.pendingCloses, 0).Some? && MinedIn(w, FirstDecisive(w, c.pendingCloses, 0).value) {
        RefundIsLate(cfg, s, c, w);
      }
    }
  }

  /** With a mined close the refund is not. */
  lemma RefundIsLate(cfg: Config, s: State, c: SignedContract, w: Snapshot)
    requires NoDoubleSpend(cfg) && Steady(cfg, s.now, w) && ProperContract(cfg, c)
    requires FirstDecisive(w, c.pendingCloses, 0).Some? && MinedIn(w, FirstDecisive(w, c.pendingCloses, 0).value)
    ensures !MinedIn(w, c.refund)
  {
    hide MinedIn, MinedAt, Steady;
    var i :| 0 <= i < |c.pendingCloses| && MinedIn(w, c.pendingCloses[i]);
    SteadyMined(cfg, s.now, c.pendingCloses[i], w);
    SteadyMined(cfg, s.now, c.refund, w);
    assert c.fund in cfg.spends(c.pendingCloses[i]) * cfg.spends(c.refund);
  }

  // ---------- The splices ----------

  /** The signed contract at `k` stops the check, unless its predecessor is no longer confirmed: the predecessor is
      not stored, or there is no answer for its funding. */
  predicate Stuck(w: Snapshot, store: seq<Contract>, k: nat)
    requires k < |store|
  {
    && store[k].Signed? && store[k].contract.splices.Some?
    && var previous := store[k].contract.splices.value;
    || previous >= |store|
    || (store[previous].Confirmed? && w.status(store[k].contract.fund).None? && Splicer(w, store, k, previous).None?)
  }

  /** The first of the signed contracts before `n` that splices a contract by a transaction known to the chain. */
  function Splicer(w: Snapshot, store: seq<Contract>, n: nat, id: ContractId): (r: Option<nat>)
    requires n <= |store|
    ensures r.None? ==> forall k :: 0 <= k < n ==> !Splices(w, store[k], id)
    ensures r.Some? ==> r.value < n && Splices(w, store[r.value], id) && forall k :: 0 <= k < r.value ==> !Splices(w, store[k], id)
  {
    if n == 0 then None
    else if Splicer(w, store, n - 1, id).Some? then Splicer(w, store, n - 1, id)
    else if Splices(w, store[n - 1], id) then Some(n - 1)
    else None
  }

  predicate Splices(w: Snapshot, x: Contract, id: ContractId) {
    x.Signed? && x.contract.splices == Some(id) && KnownIn(w, x.contract.fund)
  }

  /** What the splices before `n` make of a contract. */
  function Spliced(w: Snapshot, store: seq<Contract>, n: nat, id: ContractId): Contract
    requires n <= |store| && id < |store|
  {
    if store[id].Confirmed? && Splicer(w, store, n, id).Some?
    then PreClosed(store[id].contract, false, store[Splicer(w, store, n, id).value].contract.fund)
    else store[id]
  }

  /** The number of contracts up to `n` that are looked at for splices: all, or those before the first that stops the check. */
  function Reached(w: Snapshot, store: seq<Contract>, n: nat): (r: nat)
    requires n <= |store|
    ensures r <= n && (forall k :: 0 <= k < r ==> !Stuck(w, store, k)) && (r < n ==> Stuck(w, store, r))
  {
    if n == 0 then 0
    else if Reached(w, store, n - 1) < n - 1 || Stuck(w, store, n - 1) then Reached(w, store, n - 1)
    else n
  }

  /** The loop over the splices in a steady world. */
  lemma {:induction false} SplicesOutcome(cfg: Config, s: State, n: nat, w: Snapshot)
    requires Good(cfg, s) && Steady(cfg, s.now, w) && n <= |s.store|
    ensures var (t, going) := CheckSplices(cfg, s, s.store, n); var r := Reached(w, s.store, n);
            && (going <==> r == n) && s.now <= t.now && |t.store| == |s.store|
            && forall i :: 0 <= i < |s.store| ==> t.store[i] == Spliced(w, s.store, r, i)
  {
    hide Good, CheckSplice, Stuck, KnownIn, Steady;
    if n > 0 {
      SplicesOutcome(cfg, s, n - 1, w);
      var (t, going) := CheckSplices(cfg, s, s.store, n - 1);
      if going && s.store[n - 1].Signed? {
        SteadyLater(cfg, s.now, t.now, w);
        SpliceOutcome(cfg, s.store, t, n - 1, w);
      } else if going {
        assert !Stuck(w, s.store, n - 1) by { UnsignedGoesOn(w, s.store, n - 1); }
      }
    }
  }

  lemma UnsignedGoesOn(w: Snapshot, store: seq<Contract>, k: nat)
    requires k < |store| && !store[k].Signed?
    ensures !Stuck(w, store, k)
  {
  }

  lemma SpliceOutcome(cfg: Config, store: seq<Contract>, t: State, k: nat, w: Snapshot)
    requires Steady(cfg, t.now, w) && k < |store| == |t.store| && store[k].Signed?
    requires forall i :: 0 <= i < |store| ==> t.store[i] == Spliced(w, store, k, i)
    ensures var (u, going) := CheckSplice(cfg, t, store[k].contract);
            && (going <==> !Stuck(w, store, k)) && t.now <= u.now && |u.store| == |t.store|
            && forall i :: 0 <= i < |store| ==> u.store[i] == if going then Spliced(w, store, k + 1, i) else t.store[i]
  {
    var c := store[k].contract;
    if c.splices.Some? && c.splices.value < |store| {
      assert t.store[c.splices.value] == Spliced(w, store, k, c.splices.value);
    }
  }

  // ---------- The loops ----------

  lemma {:induction false} AllSignedOutcome(cfg: Config, s: State, listed: seq<Contract>, n: nat, w: Snapshot)
    requires Good(cfg, s) && Steady(cfg, s.now, w) && n <= |listed| == |s.store|
    requires forall i :: 0 <= i < |listed| ==> listed[i].contract.id == i
    requires forall i :: 0 <= i < |listed| ==> (listed[i].Signed? <==> s.store[i].Signed?) && (listed[i].Signed? ==> s.store[i] == listed[i])
    ensures var t := CheckAllSigned(cfg, s, listed, n);
            && |t.store| == |s.store|
            && forall i :: 0 <= i < |s.store| ==>
                 t.store[i] == if i < n && s.store[i].Signed? && Funded(cfg, w, s.store[i].contract) then Confirmed(s.store[i].contract)
                               else s.store[i]
  {
    hide Good, Funded;
    if n > 0 {
      AllSignedKeep(cfg, s, listed, n - 1);
      AllSignedOutcome(cfg, s, listed, n - 1, w);
      var t := CheckAllSigned(cfg, s, listed, n - 1);
      if listed[n - 1].Signed? {
        SignedOutcome(cfg, t, listed[n - 1].contract, w);
      }
    }
  }

  predicate Funded(cfg: Config, w: Snapshot, c: SignedContract) {
    KnownIn(w, c.fund) && Confirmations(w.status(c.fund).value) >= cfg.nbConfirmations
  }

  lemma SignedOutcome(cfg: Config, t: State, c: SignedContract, w: Snapshot)
    requires Steady(cfg, t.now, w) && c.id < |t.store|
    ensures CheckSigned(cfg, t, c).store == if Funded(cfg, w, c) then t.store[c.id := Confirmed(c)] else t.store
  {
  }

  lemma {:induction false} AllConfirmedOutcome(cfg: Config, s: State, n: nat, w: Snapshot)
    requires NoDoubleSpend(cfg) && Good(cfg, s) && Steady(cfg, s.now, w) && n <= |s.store|
    ensures var t := CheckAllConfirmed(cfg, s, s.store, n);
            && |t.store| == |s.store|
            && forall i :: 0 <= i < |s.store| ==>
                 t.store[i] == if i < n && s.store[i].Confirmed? && !s.store[i].contract.inChannel then Outcome(cfg, w, s.store[i].contract)
                               else s.store[i]
  {
    hide Good, Outcome, CheckConfirmed, NoDoubleSpend, Steady;
    if n > 0 {
      TickKeeps(cfg, s);
      AllConfirmedKeep(cfg, s, n - 1);
      AllConfirmedOutcome(cfg, s, n - 1, w);
      var t := CheckAllConfirmed(cfg, s, s.store, n - 1);
      if s.store[n - 1].Confirmed? && !s.store[n - 1].contract.inChannel {
        SteadyLater(cfg, s.now, t.now, w);
        ConfirmedOutcome(cfg, t, s.store[n - 1].contract, w);
        ConfirmedKeeps(cfg, t, s.store[n - 1].contract);
      }
    }
  }

  lemma {:induction false} AllPreClosedOutcome(cfg: Config, s: State, n: nat, w: Snapshot)
    requires Good(cfg, s) && Steady(cfg, s.now, w) && n <= |s.store|
    ensures var t := CheckAllPreClosed(cfg, s, s.store, n);
            && |t.store| == |s.store|
            && forall i :: 0 <= i < |s.store| ==>
                 t.store[i] == if i < n && s.store[i].PreClosed? then PreClosedOutcome(cfg, w, s.store[i]) else s.store[i]
  {
    hide Good, PreClosedOutcome, CheckPreClosed, Steady;
    if n > 0 {
      TickKeeps(cfg, s);
      AllPreClosedKeep(cfg, s, n - 1);
      AllPreClosedOutcome(cfg, s, n - 1, w);
      var t := CheckAllPreClosed(cfg, s, s.store, n - 1);
      if s.store[n - 1].PreClosed? {
        SteadyLater(cfg, s.now, t.now, w);
        PreClosedCheck(cfg, t, s.store[n - 1], w);
        PreClosedKeeps(cfg, t, s.store[n - 1]);
      }
    }
  }

  lemma PreClosedCheck(cfg: Config, t: State, p: Contract, w: Snapshot)
    requires Steady(cfg, t.now, w) && p.PreClosed? && p.contract.id < |t.store| && t.store[p.contract.id] == p
    ensures CheckPreClosed(cfg, t, p).store == t.store[p.contract.id := PreClosedOutcome(cfg, w, p)]
  {
  }

  /** What was just pre-closed stays so until the end of the check. */
  lemma OutcomeLasts(cfg: Config, w: Snapshot, c: SignedContract)
    ensures Outcome(cfg, w, c).PreClosed? ==> PreClosedOutcome(cfg, w, Outcome(cfg, w, c)) == Outcome(cfg, w, c)
  {
  }

  lemma SettledSteps(cfg: Config, w: Snapshot, x: Contract)
    ensures var b := if x.Signed? && Funded(cfg, w, x.contract) then Confirmed(x.contract) else x;
            var c := if b.Confirmed? && !b.contract.inChannel then Outcome(cfg, w, b.contract) else b;
            Settled(cfg, w, x) == if c.PreClosed? then PreClosedOutcome(cfg, w, c) else c
  {
    hide Outcome;
    OutcomeLasts(cfg, w, x.contract);
  }

  /** One check of a steady world, although it asks in turn, works on listings of its own and stores as it goes, does to each contract what the
      contract alone calls for: first the splices, up to one that stops the check, and if none does what is due. */
  lemma OneCheckSettles(cfg: Config, s: State, w: Snapshot)
    requires NoDoubleSpend(cfg) && Good(cfg, s) && Steady(cfg, s.now, w)
    ensures var r := Reached(w, s.store, |s.store|); var t := PeriodicCheck(cfg, s);
            && |t.store| == |s.store|
            && forall i :: 0 <= i < |s.store| ==>
                 t.store[i] == if r < |s.store| then Spliced(w, s.store, r, i) else Settled(cfg, w, Spliced(w, s.store, r, i))
  {
    hide Good, NoDoubleSpend, Steady, CheckSplices, CheckAllSigned, CheckAllConfirmed, CheckAllPreClosed, Reached, Splicer, Outcome,
         PreClosedOutcome, Settled, Funded;
    SplicesKeep(cfg, s, |s.store|);
    SplicesOutcome(cfg, s, |s.store|, w);
    var (a, going) := CheckSplices(cfg, s, s.store, |s.store|);
    if going {
      TickKeeps(cfg, s);
      SteadyLater(cfg, s.now, a.now, w);
      AllSignedKeep(cfg, a, s.store, |s.store|);
      AllSignedOutcome(cfg, a, s.store, |s.store|, w);
      var b := CheckAllSigned(cfg, a, s.store, |s.store|);
      SteadyLater(cfg, s.now, b.now, w);
      TickKeeps(cfg, b);
      AllConfirmedKeep(cfg, b, |b.store|);
      AllConfirmedOutcome(cfg, b, |b.store|, w);
      var c := CheckAllConfirmed(cfg, b, b.store, |b.store|);
      SteadyLater(cfg, s.now, c.now, w);
      AllPreClosedOutcome(cfg, c, |c.store|, w);
      forall i | 0 <= i < |s.store|
        ensures PeriodicCheck(cfg, s).store[i] == Settled(cfg, w, Spliced(w, s.store, |s.store|, i))
      {
        SettledSteps(cfg, w, Spliced(w, s.store, |s.store|, i));
      }
    }
  }

  // ---------- The calls ----------

  /** What a call makes of the contract it names, if that is confirmed. */
  function Answered(cfg: Config, w: Snapshot, c: SignedContract, e: Event): Contract {
    match e
    case OfferCooperativeClose(_, tx) => Confirmed(c.(pendingCloses := c.pendingCloses + [tx]))
    case AcceptCooperativeClose(_, tx) => if w.accepts(tx) then PreClosed(c, false, tx) else Confirmed(c)
    case CloseManually(_, cet) => ClosedBy(cfg, w, c, cet, true)
    case RefundManually(_) => if Refundable(w, c, true) then Refunded(c) else Confirmed(c)
    case _ => Confirmed(c)
  }

  /** A call changes nothing but the confirmed contract it names, or adds the one that was signed. */
  lemma CallsTakeEffect(cfg: Config, s: State, e: Event, w: Snapshot)
    requires Good(cfg, s) && Steady(cfg, s.now, w) && !e.Check?
    ensures var t := Apply(cfg, s, e);
            if e.Sign? then
              t.store == s.store + [Signed(SignedContract(|s.store|, e.fund, e.refund, e.refundLocktime, [], e.splices, e.inChannel))]
            else if e.id < |s.store| && s.store[e.id].Confirmed? then
              t.store == s.store[e.id := Answered(cfg, w, s.store[e.id].contract, e)]
            else t.store == s.store
  {
    hide Replay, Allowed, SoundHistory;
    assert forall i :: 0 <= i < |s.store| ==> s.store[i].contract.id == i;
  }

  /** Every call is noted, in whatever order calls and checks come. */
  lemma {:induction false} CallsAreNoted(cfg: Config, s: State, events: seq<Event>)
    requires NoDoubleSpend(cfg) && Good(cfg, s) && ProperRun(cfg, s, events)
    ensures forall e :: e in events && !e.Check? ==> Called(e) in Run(cfg, s, events).changes
  {
    hide Good, NoDoubleSpend, Answer, PeriodicCheck, ProperEvent;
    if events != [] {
      var before, e := events[..|events| - 1], events[|events| - 1];
      CallsAreNoted(cfg, s, before);
      EveryUpdateIsAllowed(cfg, s, before);
      EveryUpdateIsAllowed(cfg, s, events);
      ApplyKeeps(cfg, Run(cfg, s, before), e);
      if !e.Check? {
        NoteKeeps(cfg, Run(cfg, s, before), e);
        NoteIsProper(cfg, Run(cfg, s, before), e);
        AnswerKeeps(cfg, Note(Run(cfg, s, before), e), e);
      }
      assert events == before + [e];
    }
  }
}
