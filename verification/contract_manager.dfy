/** The manager's contract store as the periodic checks update it: in place, asking the blockchain as they go.
    Each method is proved to do what the function of `ContractLifecycle` of the same operation says. */
module ContractManagers {
  import opened Wrappers
  import opened ContractLifecycle

  class Manager {
    const cfg: Config
    var store: seq<Contract>
    var now: nat
    ghost var changes: seq<Change>

    ghost function View(): State
      reads this
    {
      State(store, now, changes)
    }

    constructor (cfg: Config, store: seq<Contract>, now: nat, ghost changes: seq<Change>)
      ensures this.cfg == cfg && View() == State(store, now, changes)
    {
      this.cfg, this.store, this.now, this.changes := cfg, store, now, changes;
    }

    // ---------- The store and the blockchain ----------

    method UpdateContract(id: ContractId, c: Contract)
      modifies this
      ensures View() == Update(old(View()), id, c)
    {
      if id < |store| {
        changes := changes + [Updated(id, store[id], c, now)];
        store := store[id := c];
      }
    }

    method GetTransactionConfirmations(tx: Txid) returns (status: Option<Status>)
      modifies this
      ensures View() == Tick(old(View())) && status == cfg.world(now).status(tx)
    {
      now := now + 1;
      return cfg.world(now).status(tx);
    }

    method SendTransaction(tx: Txid) returns (accepted: bool)
      modifies this
      ensures View() == Tick(old(View())) && accepted == cfg.world(now).accepts(tx)
    {
      now := now + 1;
      return cfg.world(now).accepts(tx);
    }

    method UnixTimeNow() returns (clock: nat)
      modifies this
      ensures View() == Tick(old(View())) && clock == cfg.world(now).clock
    {
      now := now + 1;
      return cfg.world(now).clock;
    }

    method GetSignedCet(c: SignedContract) returns (cet: Option<Txid>)
      modifies this
      ensures View() == Tick(old(View())) && cet == cfg.world(now).cet(c)
    {
      now := now + 1;
      return cfg.world(now).cet(c);
    }

    // ---------- Checks of one contract ----------

    method CheckSignedContract(c: SignedContract)
      modifies this
      ensures View() == CheckSigned(cfg, old(View()), c)
    {
      var status := GetTransactionConfirmations(c.fund);
      if status.None? || status.value.NotFound? { return; }
      if Confirmations(status.value) >= cfg.nbConfirmations {
        UpdateContract(c.id, Confirmed(c));
      }
    }

    method CloseWithCet(c: SignedContract, cet: Txid)
      modifies this
      ensures View() == CloseContract(cfg, old(View()), c, cet)
    {
      var status := GetTransactionConfirmations(cet);
      if status.None? { return; }
      var confirmations := Confirmations(status.value);
      if confirmations < 1 {
        var sent := SendTransaction(cet);
        if !sent { return; }
        UpdateContract(c.id, PreClosed(c, true, cet));
      } else if confirmations < cfg.nbConfirmations {
        UpdateContract(c.id, PreClosed(c, true, cet));
      } else {
        UpdateContract(c.id, Closed(c, cet));
      }
    }

    method CheckPending(c: SignedContract) returns (answered: bool)
      modifies this
      ensures (View(), answered) == CheckPendingCloses(cfg, old(View()), c, 0)
    {
      for k := 0 to |c.pendingCloses|
        invariant CheckPendingCloses(cfg, old(View()), c, 0) == CheckPendingCloses(cfg, View(), c, k)
      {
        var tx := c.pendingCloses[k];
        var status := GetTransactionConfirmations(tx);
        if status.None? { return false; }
        if status.value.NotFound? { continue; }
        var confirmations := Confirmations(status.value);
        if confirmations >= (if cfg.nbConfirmations < 1 then 1 else cfg.nbConfirmations) {
          UpdateContract(c.id, Closed(c, tx));
          return true;
        } else if confirmations >= 1 {
          UpdateContract(c.id, PreClosed(c, false, tx));
          return true;
        }
      }
      return true;
    }

    method CheckAndBroadcastRefund(id: ContractId)
      modifies this
      ensures View() == BroadcastRefund(cfg, old(View()), id)
    {
      if id >= |store| || !store[id].Confirmed? { return; }
      var c := store[id].contract;
      var clock := UnixTimeNow();
      if c.refundLocktime > clock { return; }
      var status := GetTransactionConfirmations(c.refund);
      if status.None? { return; }
      if Confirmations(status.value) == 0 {
        var sent := SendTransaction(c.refund);
        if !sent { return; }
      }
      UpdateContract(id, Refunded(c));
    }

    method CheckRefundOf(c: SignedContract)
      modifies this
      ensures View() == CheckRefund(cfg, old(View()), c)
    {
      var clock := UnixTimeNow();
      if c.refundLocktime <= clock {
        var status := GetTransactionConfirmations(c.refund);
        if status.None? { return; }
        if Confirmations(status.value) > 0 {
          UpdateContract(c.id, Refunded(c));
        } else if cfg.automaticRefund {
          CheckAndBroadcastRefund(c.id);
        }
      }
    }

    method CheckConfirmedContract(c: SignedContract)
      modifies this
      ensures View() == CheckConfirmed(cfg, old(View()), c)
    {
      var cet := GetSignedCet(c);
      if cet.Some? {
        CloseWithCet(c, cet.value);
        return;
      }
      var answered := CheckPending(c);
      if answered {
        CheckRefundOf(c);
      }
    }

    method CheckPreClosedContract(p: Contract)
      requires p.PreClosed?
      modifies this
      ensures View() == CheckPreClosed(cfg, old(View()), p)
    {
      var status := GetTransactionConfirmations(p.closeTx);
      if status.None? { return; }
      if status.value.NotFound? {
        var sent := SendTransaction(p.closeTx);
        if !sent && !p.attested {
          UpdateContract(p.contract.id, Confirmed(p.contract));
        }
        return;
      }
      if Confirmations(status.value) >= (if cfg.nbConfirmations < 1 then 1 else cfg.nbConfirmations) {
        UpdateContract(p.contract.id, Closed(p.contract, p.closeTx));
      }
    }

    // ---------- Checks of all contracts ----------

    method CheckForSplicedContract() returns (going: bool)
      modifies this
      ensures (View(), going) == CheckSplices(cfg, old(View()), old(store), |old(store)|)
    {
      var listed := store;
      going := true;
      for i := 0 to |listed|
        invariant (View(), going) == CheckSplices(cfg, old(View()), listed, i)
        invariant going
      {
        if listed[i].Signed? && listed[i].contract.splices.Some? {
          var c, previous := listed[i].contract, listed[i].contract.splices.value;
          if previous >= |store| {
            SpliceStops(cfg, old(View()), listed, i + 1, |listed|);
            return false;
          }
          if store[previous].Confirmed? {
            var confirmed := store[previous].contract;
            var status := GetTransactionConfirmations(c.fund);
            if status.None? {
              SpliceStops(cfg, old(View()), listed, i + 1, |listed|);
              return false;
            }
            if !status.value.NotFound? {
              UpdateContract(previous, PreClosed(confirmed, false, c.fund));
            }
          }
        }
      }
    }

    method CheckSignedContracts(listed: seq<Contract>)
      modifies this
      ensures View() == CheckAllSigned(cfg, old(View()), listed, |listed|)
    {
      for i := 0 to |listed|
        invariant View() == CheckAllSigned(cfg, old(View()), listed, i)
      {
        if listed[i].Signed? { CheckSignedContract(listed[i].contract); }
      }
    }

    method CheckConfirmedContracts()
      modifies this
      ensures View() == CheckAllConfirmed(cfg, old(View()), old(store), |old(store)|)
    {
      var listed := store;
      for i := 0 to |listed|
        invariant View() == CheckAllConfirmed(cfg, old(View()), listed, i)
      {
        if listed[i].Confirmed? && !listed[i].contract.inChannel { CheckConfirmedContract(listed[i].contract); }
      }
    }

    method CheckPreClosedContracts()
      modifies this
      ensures View() == CheckAllPreClosed(cfg, old(View()), old(store), |old(store)|)
    {
      var listed := store;
      for i := 0 to |listed|
        invariant View() == CheckAllPreClosed(cfg, old(View()), listed, i)
      {
        if listed[i].PreClosed? { CheckPreClosedContract(listed[i]); }
      }
    }

    /** Under what the chain guarantees, every change is an allowed one and terminal contracts stay. */
    method Check()
      modifies this
      ensures View() == PeriodicCheck(cfg, old(View()))
      ensures NoDoubleSpend(cfg) && Good(cfg, old(View())) ==> Good(cfg, View()) && Later(old(View()), View())
    {
      if NoDoubleSpend(cfg) && Good(cfg, View()) {
        CheckKeeps(cfg, View());
      }
      var listed := store;
      var going := CheckForSplicedContract();
      if !going { return; }
      CheckSignedContracts(listed);
      CheckConfirmedContracts();
      CheckPreClosedContracts();
    }
  }

  lemma {:induction false} SpliceStops(cfg: Config, s: State, listed: seq<Contract>, n: nat, m: nat)
    requires n <= m <= |listed| && !CheckSplices(cfg, s, listed, n).1
    ensures CheckSplices(cfg, s, listed, m) == CheckSplices(cfg, s, listed, n)
    decreases m
  {
    if n < m {
      SpliceStops(cfg, s, listed, n, m - 1);
    }
  }
}
