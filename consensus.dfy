/**
 One honest participant in a round-based gossip simulation.

 Each round the simulator asks the node for what it sends to its followers,
 then hands it the (transaction, sender) pairs its followees sent. The node
 forwards every transaction once, and in the final round answers with
 everything it has ever sent.
 */
module Consensus {

  datatype Transaction = Transaction(id: int)

  /** A transaction proposed to this node by the peer with index `sender`. */
  datatype Candidate = Candidate(tx: Transaction, sender: int)

  /** The abstract state of a node: its round counter, what it will send next, and what it has sent. */
  datatype Gossip = Gossip(round: int, pending: set<Transaction>, sent: set<Transaction>)

  /** The outcome of one sendToFollowers call: the new state and the set handed to the followers. */
  datatype Broadcast = Broadcast(next: Gossip, out: set<Transaction>)

  function Send(s: Gossip, numRounds: int): Broadcast
  {
    var sent := s.sent + s.pending;
    if s.round == numRounds then Broadcast(Gossip(s.round, {}, sent), sent)
    else Broadcast(Gossip(s.round + 1, {}, sent), s.pending)
  }

  /** A candidate the node takes up: sent by a followee, known to be honest, and not yet sent by this node. */
  predicate Takes(c: Candidate, followees: seq<bool>, honest: set<Transaction>, sent: set<Transaction>)
  {
    0 <= c.sender < |followees| && followees[c.sender] && c.tx in honest && c.tx !in sent
  }

  function Taken(candidates: set<Candidate>, followees: seq<bool>, honest: set<Transaction>, sent: set<Transaction>): set<Transaction>
  {
    set c | c in candidates && Takes(c, followees, honest, sent) :: c.tx
  }

  function Receive(s: Gossip, candidates: set<Candidate>, followees: seq<bool>, honest: set<Transaction>): Gossip
  {
    s.(pending := s.pending + Taken(candidates, followees, honest, s.sent))
  }

  /** A transaction is taken exactly when some candidate carrying it passes every filter. */
  lemma TakenExactly(candidates: set<Candidate>, followees: seq<bool>, honest: set<Transaction>, sent: set<Transaction>, tx: Transaction)
    ensures tx in Taken(candidates, followees, honest, sent)
        <==> exists c :: c in candidates && c.tx == tx && Takes(c, followees, honest, sent)
    ensures tx in Taken(candidates, followees, honest, sent) ==> tx in honest && tx !in sent
  {
  }

  /** Taking from one more candidate adds at most that candidate's transaction. */
  lemma TakenStep(done: set<Candidate>, c: Candidate, followees: seq<bool>, honest: set<Transaction>, sent: set<Transaction>)
    ensures Taken(done + {c}, followees, honest, sent)
         == Taken(done, followees, honest, sent) + (if Takes(c, followees, honest, sent) then {c.tx} else {})
  {
  }

  // ---------------------------------------------------------------------
  // Properties of the round state machine
  // ---------------------------------------------------------------------

  /** One send: what was pending is now sent, and the node returns this round's batch or, in the final round, everything sent. */
  lemma SendMeaning(s: Gossip, numRounds: int)
    ensures Send(s, numRounds).next.sent == s.sent + s.pending
    ensures Send(s, numRounds).next.pending == {}
    ensures s.round < numRounds ==> Send(s, numRounds).out == s.pending && Send(s, numRounds).next.round == s.round + 1
    ensures s.round == numRounds ==> Send(s, numRounds).out == Send(s, numRounds).next.sent
                                     && Send(s, numRounds).next.round == s.round
  {
  }

  /** A receive keeps "nothing pending was already sent" and changes nothing but the pending set. */
  lemma ReceiveKeepsDisjoint(s: Gossip, candidates: set<Candidate>, followees: seq<bool>, honest: set<Transaction>)
    requires s.pending !! s.sent
    ensures Receive(s, candidates, followees, honest).pending !! s.sent
    ensures Receive(s, candidates, followees, honest).sent == s.sent
    ensures Receive(s, candidates, followees, honest).round == s.round
  {
  }

  /** A simulation round: the node sends, then receives that round's candidates. */
  function Round(s: Gossip, candidates: set<Candidate>, followees: seq<bool>, honest: set<Transaction>, numRounds: int): Gossip
  {
    Receive(Send(s, numRounds).next, candidates, followees, honest)
  }

  /** The node's state after a sequence of rounds, one candidate set per round. */
  function Rounds(s: Gossip, rounds: seq<set<Candidate>>, followees: seq<bool>, honest: set<Transaction>, numRounds: int): Gossip
    decreases |rounds|
  {
    if rounds == [] then s
    else Rounds(Round(s, rounds[0], followees, honest, numRounds), rounds[1..], followees, honest, numRounds)
  }

  /** Everything the node hands to its followers over a sequence of rounds. */
  function Outputs(s: Gossip, rounds: seq<set<Candidate>>, followees: seq<bool>, honest: set<Transaction>, numRounds: int): set<Transaction>
    decreases |rounds|
  {
    if rounds == [] then {}
    else Send(s, numRounds).out
         + Outputs(Round(s, rounds[0], followees, honest, numRounds), rounds[1..], followees, honest, numRounds)
  }

  /** Starting at or below the final round, the counter climbs one per round and stops at the final round. */
  lemma {:induction false} RoundCounterBounded(s: Gossip, rounds: seq<set<Candidate>>, followees: seq<bool>, honest: set<Transaction>, numRounds: int)
    requires 0 <= s.round <= numRounds
    ensures var r := Rounds(s, rounds, followees, honest, numRounds).round;
      r <= numRounds && r == if s.round + |rounds| <= numRounds then s.round + |rounds| else numRounds
    decreases |rounds|
  {
    if rounds != [] {
      RoundCounterBounded(Round(s, rounds[0], followees, honest, numRounds), rounds[1..], followees, honest, numRounds);
    }
  }

  /** Over any run the sent set only grows, and the first round's send absorbs what was pending. */
  lemma {:induction false} RunGrowsSent(s: Gossip, rounds: seq<set<Candidate>>, followees: seq<bool>, honest: set<Transaction>, numRounds: int)
    ensures s.sent <= Rounds(s, rounds, followees, honest, numRounds).sent
    ensures rounds != [] ==> s.sent + s.pending <= Rounds(s, rounds, followees, honest, numRounds).sent
    decreases |rounds|
  {
    if rounds != [] {
      RunGrowsSent(Round(s, rounds[0], followees, honest, numRounds), rounds[1..], followees, honest, numRounds);
    }
  }

  /** Over any run "nothing pending was already sent" is kept. */
  lemma {:induction false} RunKeepsDisjoint(s: Gossip, rounds: seq<set<Candidate>>, followees: seq<bool>, honest: set<Transaction>, numRounds: int)
    requires s.pending !! s.sent
    ensures Rounds(s, rounds, followees, honest, numRounds).pending !! Rounds(s, rounds, followees, honest, numRounds).sent
    decreases |rounds|
  {
    if rounds != [] {
      ReceiveKeepsDisjoint(Send(s, numRounds).next, rounds[0], followees, honest);
      RunKeepsDisjoint(Round(s, rounds[0], followees, honest, numRounds), rounds[1..], followees, honest, numRounds);
    }
  }

  /** Whatever the node ever handed out is in its sent set; the node never sends a transaction it does not record. */
  lemma {:induction false} OutputsWereSent(s: Gossip, rounds: seq<set<Candidate>>, followees: seq<bool>, honest: set<Transaction>, numRounds: int)
    ensures Outputs(s, rounds, followees, honest, numRounds) <= Rounds(s, rounds, followees, honest, numRounds).sent
    decreases |rounds|
  {
    if rounds != [] {
      var s1 := Round(s, rounds[0], followees, honest, numRounds);
      OutputsWereSent(s1, rounds[1..], followees, honest, numRounds);
      RunGrowsSent(s1, rounds[1..], followees, honest, numRounds);
    }
  }

  // ---------------------------------------------------------------------
  // The imperative node
  // ---------------------------------------------------------------------

  /** The set of transactions every honest node started with, shared by all honest nodes of one simulation. */
  class Registry {
    var all: set<Transaction>

    constructor()
      ensures all == {}
    {
      all := {};
    }
  }

  class CompliantNode {
    const numRounds: int
    var currentRound: int
    var followees: seq<bool>
    var pendingTransactions: set<Transaction>
    var currentSentTransactions: set<Transaction>
    const registry: Registry

    ghost function State(): Gossip
      reads this
    {
      Gossip(currentRound, pendingTransactions, currentSentTransactions)
    }

    /** With a non-negative number of rounds, the counter stays between 0 and the final round. */
    ghost predicate Valid()
      reads this
    {
      numRounds >= 0 ==> 0 <= currentRound <= numRounds
    }

    constructor(numRounds: int, registry: Registry)
      ensures Valid()
      ensures this.numRounds == numRounds && this.registry == registry
      ensures currentRound == 0 && currentSentTransactions == {} && pendingTransactions == {} && followees == []
    {
      this.numRounds := numRounds;
      this.registry := registry;
      currentRound := 0;
      followees := [];
      pendingTransactions := {};
      currentSentTransactions := {};
    }

    method SetFollowees(followees: seq<bool>)
      modifies this
      ensures this.followees == followees
      ensures State() == old(State())
    {
      this.followees := followees;
    }

    /** Takes `pending` as the node's own transactions and registers them as honest. */
    method SetPendingTransaction(pending: set<Transaction>)
      modifies this, registry
      ensures pendingTransactions == pending
      ensures registry.all == old(registry.all) + pending
      ensures currentRound == old(currentRound) && currentSentTransactions == old(currentSentTransactions)
      ensures followees == old(followees)
    {
      pendingTransactions := pending;
      registry.all := registry.all + pending;
    }

    method SendToFollowers() returns (r: set<Transaction>)
      requires Valid()
      modifies this
      ensures Valid()
      ensures Broadcast(State(), r) == Send(old(State()), numRounds)
      ensures currentSentTransactions == old(currentSentTransactions) + old(pendingTransactions)
      ensures pendingTransactions == {} && pendingTransactions !! currentSentTransactions
      ensures old(currentRound) == numRounds ==> r == currentSentTransactions && currentRound == old(currentRound)
      ensures old(currentRound) != numRounds ==> r == old(pendingTransactions) && currentRound == old(currentRound) + 1
      ensures followees == old(followees)
    {
      var pts := pendingTransactions;
      currentSentTransactions := currentSentTransactions + pts;
      pendingTransactions := {};
      if currentRound == numRounds {
        return currentSentTransactions;
      }
      currentRound := currentRound + 1;
      return pts;
    }

    /** Adds to the pending set every candidate transaction from a followee that is honest and not yet sent. */
    method ReceiveFromFollowees(candidates: set<Candidate>)
      requires forall c :: c in candidates ==> 0 <= c.sender < |followees|
      modifies this
      ensures State() == Receive(old(State()), candidates, followees, registry.all)
      ensures pendingTransactions == old(pendingTransactions) + Taken(candidates, followees, registry.all, currentSentTransactions)
      ensures currentSentTransactions == old(currentSentTransactions) && currentRound == old(currentRound)
      ensures followees == old(followees) && registry.all == old(registry.all)
      ensures old(pendingTransactions) !! currentSentTransactions ==> pendingTransactions !! currentSentTransactions
    {
      var remaining := candidates;
      ghost var done: set<Candidate> := {};
      while remaining != {}
        invariant remaining + done == candidates && remaining !! done
        invariant pendingTransactions == old(pendingTransactions) + Taken(done, followees, registry.all, currentSentTransactions)
        invariant currentSentTransactions == old(currentSentTransactions) && currentRound == old(currentRound)
        invariant followees == old(followees)
        decreases remaining
      {
        var candidate :| candidate in remaining;
        TakenStep(done, candidate, followees, registry.all, currentSentTransactions);
        if followees[candidate.sender] && candidate.tx in registry.all && candidate.tx !in currentSentTransactions {
          pendingTransactions := pendingTransactions + {candidate.tx};
        }
        remaining := remaining - {candidate};
        done := done + {candidate};
      }
      if old(pendingTransactions) !! currentSentTransactions {
        ReceiveKeepsDisjoint(old(State()), candidates, followees, registry.all);
      }
    }
  }
}
