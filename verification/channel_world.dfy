/** Runs in which either end may also leave the protocol at any moment: by a force close, by accepting
    a collaborative close, or on a transaction seen on the chain. An end that left answers nothing, so
    to the other end it is only a peer that takes no further step: every such run, with the record of
    the closed end kept as it was and the messages to it kept in flight, is a run of the open system. */
module ChannelWorld {
  import opened Wrappers
  import opened ChannelTypes
  import opened ChannelHandlers
  import opened ChannelSystem
  import opened ChannelSteps
  import opened ChannelDeliveries
  import opened ChannelTheorems
  import opened ChannelClose

  /** One end: its record, the record it left the protocol with, and the messages it took since. */
  datatype End = End(party: Party, left: Option<Party>, taken: seq<Msg>)

  datatype World = World(
    p: End, q: End, toP: seq<Msg>, toQ: seq<Msg>,
    agreed: map<nat, Tx>, disclosedP: set<nat>, disclosedQ: set<nat>)

  function SwapWorld(w: World): World {
    World(w.q, w.p, w.toQ, w.toP, w.agreed, w.disclosedQ, w.disclosedP)
  }

  datatype Move =
    | Ordinary(action: Action)
    | Force(isInitiator: bool)
    | Accept
    | See(tx: Tx)

  /** A close that does not happen leaves the end as it is. */
  function Leave(w: World, c: Closure): World {
    if c.error.Some? then w
    else w.(p := End(c.party, if w.p.left.Some? then w.p.left else Some(w.p.party), w.p.taken))
  }

  function AfterAtP(w: World, o: Outcome, used: nat): World
    requires used <= |w.toP|
  {
    World(
      End(o.party, w.p.left, if w.p.left.Some? then w.p.taken + w.toP[..used] else w.p.taken),
      w.q, w.toP[used..], w.toQ + Sent(o.reply),
      if w.p.left.Some? then w.agreed else Record(w.agreed, o.party),
      Disclose(w.disclosedP, o.reply), w.disclosedQ)
  }

  /** A user accepts only a close that the other end offered. */
  predicate HoldsClose(p: Party) {
    p.state.CollaborativeCloseOffered? && p.state.offerSig.signer != p.me
  }

  /** The closing operation of a move. */
  function ClosingOp(p: Party, m: Move): Closure
    requires !m.Ordinary?
  {
    match m
    case Force(isInitiator) => ForceClose(p, isInitiator)
    case Accept => if HoldsClose(p) then AcceptClose(p) else NotClosed(p, InvalidState)
    case See(tx) => SeeOnChain(p, tx)
  }

  function OrdinaryAtP(w: World, a: Action): World {
    match a
    case Deliver => if w.toP == [] then w else AfterAtP(w, Receive(w.p.party, w.toP[0]), 1)
    case Act(c) => if Permitted(w.p.party, c) then AfterAtP(w, Perform(w.p.party, c), 0) else w
  }

  function MoveAtP(w: World, m: Move): World {
    if m.Ordinary? then OrdinaryAtP(w, m.action) else Leave(w, ClosingOp(w.p.party, m))
  }

  function MoveAt(w: World, atP: bool, m: Move): World {
    if atP then MoveAtP(w, m) else SwapWorld(MoveAtP(SwapWorld(w), m))
  }

  function RunWorld(w: World, moves: seq<(bool, Move)>): World
    decreases |moves|
  {
    if moves == [] then w
    else
      var last := moves[|moves| - 1];
      MoveAt(RunWorld(w, moves[..|moves| - 1]), last.0, last.1)
  }

  // ---------- The open system behind a world ----------

  function OpenRecord(e: End): Party {
    if e.left.Some? then e.left.value else e.party
  }

  function Open(w: World): System {
    System(OpenRecord(w.p), OpenRecord(w.q), w.p.taken + w.toP, w.q.taken + w.toQ, w.agreed, w.disclosedP, w.disclosedQ)
  }

  predicate EndSound(e: End) {
    if e.left.Some? then Shut(e.party) else e.taken == []
  }

  /** An end that left sends nothing and stays out, whatever it receives or is asked. */
  lemma ShutReceives(p: Party, m: Msg)
    requires Shut(p)
    ensures Sent(Receive(p, m).reply) == [] && Shut(Receive(p, m).party)
  {
  }

  lemma ShutPerforms(p: Party, c: Call)
    requires Shut(p) && Permitted(p, c)
    ensures Perform(p, c).reply.Failed? && Perform(p, c).party == p
  {
  }

  lemma ClosingShuts(p: Party, m: Move)
    requires !m.Ordinary?
    ensures ClosingOp(p, m).error.None? ==> Shut(ClosingOp(p, m).party)
  {
    hide ForceClose;
    if m.Force? {
      ForceCloseShuts(p, m.isInitiator);
    }
  }

  lemma ForceCloseShuts(p: Party, isInitiator: bool)
    ensures ForceClose(p, isInitiator).error.None? ==> Shut(ForceClose(p, isInitiator).party)
    decreases p.rollBack.Some?
  {
    if p.rollBack.Some? {
      ForceCloseShuts(p.(state := p.rollBack.value, rollBack := None), isInitiator);
    }
  }

  /** What one move at an end is to the open system: that system's step, or nothing. */
  lemma MoveRefines(w: World, m: Move)
    requires EndSound(w.p)
    ensures EndSound(MoveAtP(w, m).p) && MoveAtP(w, m).q == w.q
    ensures Open(MoveAtP(w, m)) ==
              if m.Ordinary? && w.p.left.None? then StepP(Open(w), m.action) else Open(w)
    ensures w.p.left.Some? ==> MoveAtP(w, m).p.left == w.p.left
  {
    hide Receive, Perform, ClosingOp, Shut;
    match m
    case Ordinary(a) =>
      if a.Deliver? && w.toP != [] {
        DeliveryRefines(w);
      } else if a.Act? && Permitted(w.p.party, a.call) {
        CallRefines(w, a.call);
      } else {
        NothingRefines(w, a);
      }
    case _ => ClosingShuts(w.p.party, m);
  }

  lemma NothingRefines(w: World, a: Action)
    requires EndSound(w.p)
    requires if a.Deliver? then w.toP == [] else !Permitted(w.p.party, a.call)
    ensures OrdinaryAtP(w, a) == w
    ensures w.p.left.None? ==> StepP(Open(w), a) == Open(w)
  {
    if w.p.left.None? {
      assert [] + w.toP == w.toP;
    }
  }

  lemma DeliveryRefines(w: World)
    requires EndSound(w.p) && w.toP != []
    ensures var u := MoveAtP(w, Ordinary(Deliver));
            EndSound(u.p) && Open(u) == if w.p.left.None? then StepP(Open(w), Deliver) else Open(w)
  {
    hide Receive, Shut;
    var o := Receive(w.p.party, w.toP[0]);
    var u := MoveAtP(w, Ordinary(Deliver));
    assert w.q.taken + (w.toQ + Sent(o.reply)) == (w.q.taken + w.toQ) + Sent(o.reply);
    if w.p.left.None? {
      assert [] + w.toP == w.toP && [] + w.toP[1..] == w.toP[1..];
    } else {
      ShutReceives(w.p.party, w.toP[0]);
      assert (w.p.taken + w.toP[..1]) + w.toP[1..] == w.p.taken + w.toP;
      assert w.toQ + [] == w.toQ;
    }
  }

  lemma CallRefines(w: World, c: Call)
    requires EndSound(w.p) && Permitted(w.p.party, c)
    ensures var u := MoveAtP(w, Ordinary(Act(c)));
            EndSound(u.p) && Open(u) == if w.p.left.None? then StepP(Open(w), Act(c)) else Open(w)
  {
    hide Perform, Shut;
    var o := Perform(w.p.party, c);
    assert w.q.taken + (w.toQ + Sent(o.reply)) == (w.q.taken + w.toQ) + Sent(o.reply);
    assert w.toP[0..] == w.toP && w.toP[..0] == [];
    if w.p.left.None? {
      assert [] + w.toP == w.toP;
    } else {
      ShutPerforms(w.p.party, c);
      assert w.p.taken + [] == w.p.taken && w.toQ + [] == w.toQ;
    }
  }

  lemma MoveAtRefines(w: World, atP: bool, m: Move)
    requires EndSound(w.p) && EndSound(w.q)
    ensures var u := MoveAt(w, atP, m);
            && EndSound(u.p) && EndSound(u.q)
            && Open(u) == if m.Ordinary? && (if atP then w.p.left.None? else w.q.left.None?) then Step(Open(w), atP, m.action) else Open(w)
  {
    hide StepP, MoveAtP, EndSound;
    var v := if atP then w else SwapWorld(w);
    assert Open(SwapWorld(w)) == Swap(Open(w));
    MoveRefines(v, m);
    if !atP {
      var u := MoveAtP(v, m);
      assert Open(SwapWorld(u)) == Swap(Open(u));
    }
  }

  /** A run with closes is a run of the open system: `steps` leaves out what closed ends did. */
  lemma {:induction false} RunRefines(w: World, moves: seq<(bool, Move)>) returns (steps: seq<(bool, Action)>)
    requires EndSound(w.p) && EndSound(w.q)
    ensures EndSound(RunWorld(w, moves).p) && EndSound(RunWorld(w, moves).q)
    ensures Open(RunWorld(w, moves)) == Run(Open(w), steps)
    decreases |moves|
  {
    hide MoveAt, Step, EndSound, Open;
    if moves == [] {
      steps := [];
    } else {
      var n := |moves| - 1;
      var mid := RunWorld(w, moves[..n]);
      var atP, m := moves[n].0, moves[n].1;
      steps := RunRefines(w, moves[..n]);
      MoveAtRefines(mid, atP, m);
      if m.Ordinary? && (if atP then mid.p.left.None? else mid.q.left.None?) {
        assert (steps + [(atP, m.action)])[..|steps|] == steps;
        steps := steps + [(atP, m.action)];
      }
    }
  }

  function InitialWorld(me: Who, offerCollateral: nat, acceptCollateral: nat, terms: Terms): World {
    var s := InitialSystem(me, offerCollateral, acceptCollateral, terms);
    World(End(s.p, None, []), End(s.q, None, []), [], [], s.agreed, {}, {})
  }

  ghost predicate ReachableWorld(w: World) {
    exists me: Who, offerCollateral: nat, acceptCollateral: nat, terms: Terms, moves: seq<(bool, Move)> ::
      w == RunWorld(InitialWorld(me, offerCollateral, acceptCollateral, terms), moves)
  }

  /** So everything proved of the open system holds of every end that is still in the protocol,
      and of the record with which a closed end left. */
  lemma WorldRefinesOpenSystem(w: World)
    requires ReachableWorld(w)
    ensures Reachable(Open(w)) && EndSound(w.p) && EndSound(w.q)
  {
    hide RunWorld, Run;
    var me: Who, oc: nat, ac: nat, d: Terms, moves :| w == RunWorld(InitialWorld(me, oc, ac, d), moves);
    assert Open(InitialWorld(me, oc, ac, d)) == InitialSystem(me, oc, ac, d);
    var steps := RunRefines(InitialWorld(me, oc, ac, d), moves);
    assert Open(w) == Run(InitialSystem(me, oc, ac, d), steps);
  }

  // ---------- Safety of a force close, whatever the other end does ----------

  /** An end that force closed from any state but `SettledConfirmed` is never punished for it: in every
      later state, under every delivery order, the other end does not hold the secret of what was published. */
  lemma ForceCloseNeverPunished(w: World, isInitiator: bool)
    requires ReachableWorld(w) && w.p.left.Some? && !w.p.left.value.state.SettledConfirmed?
    ensures ForceClose(w.p.left.value, isInitiator).broadcast.Some?
    ensures var tx := ForceClose(w.p.left.value, isInitiator).broadcast.value;
            && PointIdx(w.p.left.value) >= 0 && IsCloseTx(tx, PointIdx(w.p.left.value))
            && PointIdx(w.p.left.value) !in OpenRecord(w.q).counterSecrets
            && (w.q.left.None? ==> !SeeOnChain(w.q.party, tx).party.lifecycle.ClosedPunished?)
  {
    hide ReachableWorld, Reachable, Invariant, PartyFits, ForceClose, AgreedFits, EndsFit;
    WorldRefinesOpenSystem(w);
    var s := Open(w);
    ReachableInvariant(s);
    EndsOfInvariant(s);
    ForceClosePublishes(s.p, s.agreed, isInitiator);
    SecretsOfOpenEnds(s);
    PointsOfParty(s.p, s.agreed);
    var tx := ForceClose(s.p, isInitiator).broadcast.value;
    assert IsCloseTx(tx, PointIdx(s.p)) by { AgreedIsClose(s.agreed, PointIdx(s.p)); }
    NotPunishable(s.q, s.agreed, tx, PointIdx(s.p));
  }

  lemma AgreedIsClose(agreed: map<nat, Tx>, i: int)
    requires AgreedFits(agreed) && i in agreed
    ensures IsCloseTx(agreed[i], i)
  {
  }

  lemma SecretsOfOpenEnds(s: System)
    requires Invariant(s) && !s.p.state.SettledConfirmed?
    ensures PointIdx(s.p) !in s.q.counterSecrets
    ensures s.q.lifecycle.Signed?
  {
    hide ProfitsFit, SameContract, IdleFlight, AgreedFits, WatchFits, FlagsFit, BuffersFit, ClosedAreOld, StableFits, TxFits, DisclosureFits;
  }

  lemma NotPunishable(q: Party, agreed: map<nat, Tx>, tx: Tx, i: nat)
    requires PartyFits(q, agreed) && AgreedFits(agreed) && IsCloseTx(tx, i) && i !in q.counterSecrets
    ensures !SeeOnChain(q, tx).party.lifecycle.ClosedPunished?
  {
    hide NegotiationFits, ClosedAreOld, StableFits, SecretsFit, BaseStored, CurrentWatched, PointsFit, TxFits;
    if tx in q.watched && q.watched[tx].Revoked? {
      assert IsCloseTx(agreed[q.watched[tx].updateIdx], q.watched[tx].updateIdx);
    }
  }
}
