/**
 The fields of packages/core/src/lib/connection_manager.ts and the stretches of code between
 its `await`s, each proved to be one step of `DialScheduler`. The locals of a suspended call
 (its peer and dialAttempt) are passed back in when the call resumes.
 */
module ConnectionManager {
  import opened Wrappers
  import opened DialScheduler

  /** A queue of peers is a queue of tickets, seen through the peer of each ticket. */
  ghost predicate Queues(pending: seq<PeerId>, peers: seq<PeerId>, tickets: seq<Ticket>) {
    && |pending| == |tickets|
    && forall i :: 0 <= i < |tickets| ==> tickets[i] < |peers| && pending[i] == peers[tickets[i]]
  }

  lemma QueuesEmpty(pending: seq<PeerId>, peers: seq<PeerId>, tickets: seq<Ticket>)
    requires Queues(pending, peers, tickets)
    ensures pending == [] <==> tickets == []
  {
  }

  lemma QueuesFirst(pending: seq<PeerId>, peers: seq<PeerId>, tickets: seq<Ticket>)
    requires Queues(pending, peers, tickets) && tickets != []
    ensures pending != [] && tickets[0] < |peers| && pending[0] == peers[tickets[0]]
    ensures Queues(pending[1..], peers, tickets[1..])
  {
  }

  lemma QueuesLast(pending: seq<PeerId>, peers: seq<PeerId>, tickets: seq<Ticket>, t: Ticket)
    requires Queues(pending, peers, tickets) && t < |peers|
    ensures Queues(pending + [peers[t]], peers, tickets + [t])
  {
  }

  /** A ticket being checked is not being dialed. */
  lemma CheckedIsNotDialed(o: Options, s: State, t: Ticket, ok: bool)
    requires Inv(o, s) && Enabled(s, Checked(t, ok))
    ensures t !in s.dialing && t < |s.peers|
  {
    assert Places(s, t) == 1;
  }

  /** What a checked ticket does to the fields: four outcomes. */
  lemma CheckedEffect(o: Options, s: State, t: Ticket, ok: bool)
    requires Enabled(s, Checked(t, ok)) && t !in s.dialing
    ensures var s' := Next(o, s, Checked(t, ok));
            && s'.peers == s.peers && s'.attempts == s.attempts
            && if !ok then
                 s'.active == s.active && s'.queue == s.queue && t !in s'.dialing && s'.rechecking <= s.rechecking
               else if s.active >= o.maxParallelDials then
                 s'.active == s.active && s'.queue == s.queue + [t] && t !in s'.dialing && s'.rechecking <= s.rechecking
               else if 0 < o.maxDialAttemptsForPeer then
                 s'.active == s.active + 1 && s'.queue == s.queue && t in s'.dialing && s'.rechecking <= s.rechecking
               else
                 && s'.active == s.active && t !in s'.dialing
                 && if s.queue == [] then s'.queue == [] && s'.rechecking <= s.rechecking
                    else s'.queue == s.queue[1..] && s.queue[0] in s'.rechecking
  {
  }

  /** What an answered dial does to the fields: dial again, or leave and perhaps pop a peer. */
  lemma DialedEffect(o: Options, s: State, t: Ticket, ok: bool)
    requires Enabled(s, Dialed(t, ok))
    ensures var s' := Next(o, s, Dialed(t, ok));
            && s'.peers == s.peers
            && s'.attempts == s.attempts[s.peers[t] := if ok then -1 else s.dialing[t] + 1]
            && if !ok && s.dialing[t] + 1 < o.maxDialAttemptsForPeer then
                 s'.active == s.active && s'.queue == s.queue && t in s'.dialing && s'.rechecking <= s.rechecking
               else
                 && s'.active == s.active - 1 && t !in s'.dialing
                 && if s.queue == [] || s.active > o.maxParallelDials then
                      s'.queue == s.queue && s'.rechecking <= s.rechecking
                    else s'.queue == s.queue[1..] && s.queue[0] in s'.rechecking
  {
  }

  lemma EndsAfterAll(o: Options, s: State, e: Event, t: Ticket)
    requires Inv(o, s) && Enabled(s, e) && e != Dialed(t, true) && t in Next(o, s, e).ended
    requires t in s.ended ==> t < |s.dials| && s.dials[t] == o.maxDialAttemptsForPeer
    ensures t < |s.dials| && t < |Next(o, s, e).dials| && Next(o, s, e).dials[t] == o.maxDialAttemptsForPeer
  {
    hide QueueServed, ActiveCounts;
    assert Places(s, t) <= 1;
    hide OnePlaceEach;
  }

  /** A peer whose dials all fail is given up only after every dial allowed has been made. */
  lemma {:induction false} GivesUpAfterAll(o: Options, es: seq<Event>, t: Ticket)
    requires t in Run(o, es).ended && forall i :: 0 <= i < |es| ==> es[i] != Dialed(t, true)
    ensures t < |Run(o, es).dials| && Run(o, es).dials[t] == o.maxDialAttemptsForPeer
  {
    var before, e := es[..|es| - 1], es[|es| - 1];
    var s := Run(o, before);
    InvHolds(o, before);
    hide Inv, Next;
    assert forall i :: 0 <= i < |before| ==> before[i] == es[i];
    if t in s.ended {
      GivesUpAfterAll(o, before, t);
    }
    if Enabled(s, e) {
      EndsAfterAll(o, s, e, t);
    }
  }

  class ConnectionManager {
    const options: Options
    var dialAttemptsForPeer: map<PeerId, int>
    var currentActiveParallelDialCount: int
    var pendingPeerDialQueue: seq<PeerId>
    ghost var state: State

    ghost predicate Valid()
      reads this
    {
      && Inv(options, state)
      && currentActiveParallelDialCount == state.active
      && dialAttemptsForPeer == state.attempts
      && Queues(pendingPeerDialQueue, state.peers, state.queue)
    }

    constructor (options: Options)
      ensures Valid() && this.options == options && state == INITIAL
    {
      this.options := options;
      dialAttemptsForPeer := map[];
      currentActiveParallelDialCount := 0;
      pendingPeerDialQueue := [];
      state := INITIAL;
    }

    /** attemptDial up to its first await: a new ticket, and no field of the source changes. */
    method AttemptDial(peerId: PeerId) returns (ghost t: Ticket)
      requires Valid()
      modifies this`state
      ensures Valid() && state == Next(options, old(state), Discovered(peerId))
      ensures t == |old(state).peers| && state.peers[t] == peerId
    {
      t := |state.peers|;
      InvKept(options, state, Discovered(peerId));
      hide Inv;
      state := Next(options, state, Discovered(peerId));
    }

    /** attemptDial once shouldDialPeer has answered; `dialing` tells that it awaits a dial. */
    method ResumeAttempt(peerId: PeerId, ok: bool, ghost t: Ticket) returns (dialing: bool, popped: Option<PeerId>)
      requires Valid() && Enabled(state, Checked(t, ok)) && state.peers[t] == peerId
      modifies this
      ensures Valid() && state == Next(options, old(state), Checked(t, ok))
      ensures dialing <==> t in state.dialing
      ensures PoppedBy(old(state), state, popped)
    {
      hide Inv, Next, Queues, Enabled;
      dialing, popped := false, None;
      InvKept(options, state, Checked(t, ok));
      CheckedIsNotDialed(options, state, t, ok);
      CheckedEffect(options, state, t, ok);
      QueuesEmpty(pendingPeerDialQueue, state.peers, state.queue);
      QueuesLast(pendingPeerDialQueue, state.peers, state.queue, t);
      if state.queue != [] {
        QueuesFirst(pendingPeerDialQueue, state.peers, state.queue);
      }
      ghost var next := Next(options, state, Checked(t, ok));
      if !ok {
      } else if currentActiveParallelDialCount >= options.maxParallelDials {
        pendingPeerDialQueue := pendingPeerDialQueue + [peerId];
      } else {
        currentActiveParallelDialCount := currentActiveParallelDialCount + 1;
        if 0 < options.maxDialAttemptsForPeer {
          dialing := true;
        } else {
          popped := LeaveDialPeer();
        }
      }
      state := next;
    }

    /** dialPeer once a dial has succeeded or failed; `dialing` tells that it dials again. */
    method ResumeDial(peerId: PeerId, dialAttempt: nat, ok: bool, ghost t: Ticket)
      returns (dialing: bool, popped: Option<PeerId>)
      requires Valid() && Enabled(state, Dialed(t, ok))
      requires state.peers[t] == peerId && state.dialing[t] == dialAttempt
      modifies this
      ensures Valid() && state == Next(options, old(state), Dialed(t, ok))
      ensures dialing <==> t in state.dialing
      ensures PoppedBy(old(state), state, popped)
    {
      hide Inv, Next, Queues, Enabled;
      dialing, popped := false, None;
      InvKept(options, state, Dialed(t, ok));
      DialedEffect(options, state, t, ok);
      QueuesEmpty(pendingPeerDialQueue, state.peers, state.queue);
      if state.queue != [] {
        QueuesFirst(pendingPeerDialQueue, state.peers, state.queue);
      }
      ghost var next := Next(options, state, Dialed(t, ok));
      if ok {
        dialAttemptsForPeer := dialAttemptsForPeer[peerId := -1];
        popped := LeaveDialPeer();
      } else {
        dialAttemptsForPeer := dialAttemptsForPeer[peerId := dialAttempt + 1];
        if dialAttempt + 1 < options.maxDialAttemptsForPeer {
          dialing := true;
        } else {
          popped := LeaveDialPeer();
        }
      }
      state := next;
    }

    /** The end of dialPeer: release the slot and pop one waiting peer into it. */
    method LeaveDialPeer() returns (popped: Option<PeerId>)
      modifies this`currentActiveParallelDialCount, this`pendingPeerDialQueue
      ensures currentActiveParallelDialCount == old(currentActiveParallelDialCount) - 1
      ensures if old(pendingPeerDialQueue) != [] && currentActiveParallelDialCount < options.maxParallelDials
              then && popped == Some(old(pendingPeerDialQueue)[0])
                   && pendingPeerDialQueue == old(pendingPeerDialQueue)[1..]
              else popped == None && pendingPeerDialQueue == old(pendingPeerDialQueue)
    {
      currentActiveParallelDialCount := currentActiveParallelDialCount - 1;
      popped := None;
      if |pendingPeerDialQueue| > 0 && currentActiveParallelDialCount < options.maxParallelDials {
        popped := Some(pendingPeerDialQueue[0]);
        pendingPeerDialQueue := pendingPeerDialQueue[1..];
      }
    }
  }

  /** The peer handed back to attemptDial is the one whose ticket went from the queue to a re-check. */
  ghost predicate PoppedBy(s: State, s': State, popped: Option<PeerId>) {
    match popped
    case None => s'.rechecking <= s.rechecking
    case Some(p) =>
      && s.queue != [] && s.queue[0] < |s.peers| && p == s.peers[s.queue[0]]
      && s'.queue == s.queue[1..] && s.queue[0] in s'.rechecking
  }
}
