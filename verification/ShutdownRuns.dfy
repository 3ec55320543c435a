/**
 * Every run of the stop signal: tasks that make children, cancel and abort, and the sequencer that turns operating-system
 * signals into a cancellation, an abort and an exit. An abort is two steps, between which anything else may happen.
 */
module ShutdownRuns {
  import opened Shutdowns

  /** Where the sequencer has got to. */
  datatype Pc = AwaitFirst | Cancelling | AwaitSecond | Stopping | Raising | AwaitThird | Ended | Exited

  datatype Sequencer =
    | Off
    | On(at: nat, pc: Pc, received: nat)

  /** The one-place channel between the signal handler and the sequencer. */
  datatype Channel = Channel(waiting: nat, open: bool, sent: nat)

  datatype State = State(
    tree: Tree,
    sequencer: Sequencer,
    channel: Channel,
    // aborts begun by tasks and not yet finished
    pending: seq<nat>,
    // what has been called, and on which nodes: `cancel` or the first half of `abort`; `abort` begun; `abort` finished
    asked: set<nat>,
    aborting: set<nat>,
    aborted: set<nat>,
    // whether any task but the sequencer called either
    others: bool)

  datatype Step =
    | Child(of: nat)
    | Cancel(node: nat)
    | BeginAbort(node: nat)
    | FinishAbort
    | Listen(at: nat)
    | Signal
    | CloseChannel
    | Sequence

  const START := State(NEW, Off, Channel(0, true, 0), [], {}, {}, {}, false)

  predicate Exists(s: State, node: nat) {
    node < |s.tree.parents|
  }

  predicate HasExited(s: State) {
    s.sequencer.On? && s.sequencer.pc.Exited?
  }

  function Asking(s: State, node: nat): State
    requires IsTree(s.tree)
  {
    s.(tree := Stop(s.tree, node), asked := s.asked + {node})
  }

  /** One receive: a waiting signal, or the end of a channel that closed empty. */
  function Received(s: State, next: Pc): State
    requires s.sequencer.On?
  {
    if s.channel.waiting > 0 then
      s.(channel := s.channel.(waiting := s.channel.waiting - 1),
         sequencer := On(s.sequencer.at, next, s.sequencer.received + 1))
    else if s.channel.open then s
    else s.(sequencer := s.sequencer.(pc := Ended))
  }

  function Sequenced(s: State): State
    requires IsTree(s.tree) && (s.sequencer.On? ==> Exists(s, s.sequencer.at))
  {
    if s.sequencer.Off? then s
    else
      var at := s.sequencer.at;
      match s.sequencer.pc
      case AwaitFirst => Received(s, Cancelling)
      case Cancelling => Asking(s, at).(sequencer := s.sequencer.(pc := AwaitSecond))
      case AwaitSecond => Received(s, Stopping)
      case Stopping => Asking(s, at).(sequencer := s.sequencer.(pc := Raising), aborting := s.aborting + {at})
      case Raising =>
        s.(tree := Raise(s.tree, at), sequencer := s.sequencer.(pc := AwaitThird), aborted := s.aborted + {at})
      case AwaitThird => Received(s, Exited)
      case Ended => s
      case Exited => s
  }

  predicate IsSound(s: State) {
    && IsTree(s.tree)
    && (s.sequencer.On? ==> Exists(s, s.sequencer.at))
    && (forall i :: 0 <= i < |s.pending| ==> Exists(s, s.pending[i]))
  }

  /** A process that has exited does nothing more, and a task holds only nodes that exist. */
  function Next(s: State, step: Step): State
    requires IsSound(s)
  {
    if HasExited(s) then s
    else match step
      case Child(of) => if Exists(s, of) then s.(tree := WithChild(s.tree, of)) else s
      case Cancel(node) => if Exists(s, node) then Asking(s, node).(others := true) else s
      case BeginAbort(node) =>
        if Exists(s, node)
        then Asking(s, node).(pending := s.pending + [node], aborting := s.aborting + {node}, others := true)
        else s
      case FinishAbort =>
        if s.pending == [] then s
        else s.(tree := Raise(s.tree, s.pending[0]), pending := s.pending[1..], aborted := s.aborted + {s.pending[0]})
      case Listen(at) =>
        if s.sequencer.Off? && Exists(s, at) then s.(sequencer := On(at, AwaitFirst, 0)) else s
      case Signal =>
        if s.sequencer.On? && !s.sequencer.pc.Ended? && s.channel.open && s.channel.waiting == 0
        then s.(channel := s.channel.(waiting := 1, sent := s.channel.sent + 1))
        else s
      case CloseChannel => s.(channel := s.channel.(open := false))
      case Sequence => Sequenced(s)
  }

  // ---- what every step keeps ----

  /** Whether any of `asked` is `i` or an ancestor of it. */
  predicate IsUnderAny(parents: seq<nat>, i: nat, asked: set<nat>)
    requires AreParents(parents) && i < |parents|
  {
    exists node :: node in asked && IsUnder(parents, i, node)
  }

  /** A node is stopped exactly when stopping was asked of it or an ancestor, whenever it was made. */
  predicate IsScoped(s: State)
    requires IsSound(s)
  {
    && (forall node :: node in s.asked ==> Exists(s, node))
    && (forall i :: 0 <= i < |s.tree.parents| ==> (s.tree.stopped[i] <==> IsUnderAny(s.tree.parents, i, s.asked)))
  }

  /** There is one abort, raised exactly when some abort finished. */
  predicate IsShared(s: State)
    requires IsSound(s)
  {
    && (forall i :: 0 <= i < |s.tree.parents| ==> s.tree.abortToken[i] == 0)
    && s.tree.raised <= {0} && (0 in s.tree.raised <==> s.aborted != {})
    && s.aborted <= s.aborting <= s.asked
    && (forall i :: 0 <= i < |s.pending| ==> s.pending[i] in s.aborting)
  }

  /** How far each point of the sequencer has got. */
  predicate IsInPhase(s: State) {
    && s.channel.waiting <= 1
    && (s.sequencer.Off? ==> s.channel.sent == 0 && s.channel.waiting == 0 && (!s.others ==> s.asked == {}))
    && (s.sequencer.On? ==>
          var at, pc, received := s.sequencer.at, s.sequencer.pc, s.sequencer.received;
          && s.channel.sent == received + s.channel.waiting
          && (pc.AwaitFirst? ==> received == 0)
          && (pc.Cancelling? ==> received == 1)
          && (pc.AwaitSecond? ==> received == 1 && at in s.asked)
          && (pc.Stopping? ==> received == 2 && at in s.asked)
          && (pc.Raising? ==> received == 2 && at in s.asked && at in s.aborting)
          && (pc.AwaitThird? ==> received == 2 && at in s.asked && at in s.aborted)
          && (pc.Ended? ==> received <= 2 && !s.channel.open && s.channel.waiting == 0
                            && (received >= 1 ==> at in s.asked) && (received == 2 ==> at in s.aborted))
          && (pc.Exited? ==> received == 3 && at in s.asked && at in s.aborted)
          && (!s.others ==> s.asked <= {at} && (received == 0 || pc.Cancelling? ==> s.asked == {})
                            && (received <= 1 || pc.Stopping? || pc.Raising? ==> s.aborted == {})))
    && (!s.others ==> s.pending == [] && (s.sequencer.Off? ==> s.aborted == {}))
  }

  predicate Kept(s: State) {
    IsSound(s) && IsScoped(s) && IsShared(s) && IsInPhase(s)
  }

  lemma GrowingKeepsScopes(parents: seq<nat>, of: nat, i: nat, asked: set<nat>)
    requires AreParents(parents) && of < |parents| && i <= |parents|
    requires forall node :: node in asked ==> node < |parents|
    ensures IsUnderAny(parents + [of], i, asked) == IsUnderAny(parents, if i < |parents| then i else of, asked)
  {
    var j := if i < |parents| then i else of;
    forall node | node in asked ensures IsUnder(parents + [of], i, node) == IsUnder(parents, j, node) {
      GrowingKeepsAncestors(parents, of, j, node);
    }
  }

  lemma AskingWidensScopes(parents: seq<nat>, i: nat, asked: set<nat>, node: nat)
    requires AreParents(parents) && i < |parents|
    ensures IsUnderAny(parents, i, asked + {node}) <==> IsUnderAny(parents, i, asked) || IsUnder(parents, i, node)
  {
    if IsUnder(parents, i, node) {
      assert node in asked + {node};
    }
    if other :| other in asked && IsUnder(parents, i, other) {
      assert other in asked + {node};
    }
  }

  lemma ChildIsScoped(s: State, of: nat)
    requires Kept(s) && Exists(s, of)
    ensures Kept(s.(tree := WithChild(s.tree, of)))
  {
    forall i: nat | i <= |s.tree.parents|
      ensures IsUnderAny(s.tree.parents + [of], i, s.asked)
              == IsUnderAny(s.tree.parents, if i < |s.tree.parents| then i else of, s.asked)
    {
      GrowingKeepsScopes(s.tree.parents, of, i, s.asked);
    }
  }

  lemma AskingIsScoped(s: State, node: nat)
    requires IsSound(s) && IsScoped(s) && Exists(s, node)
    ensures IsSound(Asking(s, node)) && IsScoped(Asking(s, node))
  {
    StoppingKeepsATree(s.tree, node);
    forall i: nat | i < |s.tree.parents|
      ensures IsUnderAny(s.tree.parents, i, s.asked + {node})
              <==> IsUnderAny(s.tree.parents, i, s.asked) || IsUnder(s.tree.parents, i, node)
    {
      AskingWidensScopes(s.tree.parents, i, s.asked, node);
    }
  }

  lemma SignallingKeeps(s: State, step: Step)
    requires Kept(s) && (step.FinishAbort? || step.Listen? || step.Signal? || step.CloseChannel?)
    ensures Kept(Next(s, step))
  {
  }

  lemma OneStepKeeps(s: State, step: Step)
    requires Kept(s)
    ensures Kept(Next(s, step))
  {
    if !HasExited(s) {
      match step
      case Child(of) =>
        if Exists(s, of) { ChildIsScoped(s, of); }
      case Cancel(node) =>
        if Exists(s, node) { AskingIsScoped(s, node); }
      case BeginAbort(node) =>
        if Exists(s, node) { AskingIsScoped(s, node); }
      case Sequence => SequencingKeeps(s);
      case FinishAbort => SignallingKeeps(s, step);
      case Listen(_) => SignallingKeeps(s, step);
      case Signal => SignallingKeeps(s, step);
      case CloseChannel => SignallingKeeps(s, step);
    }
  }

  lemma ActingKeeps(s: State)
    requires Kept(s) && s.sequencer.On?
    requires s.sequencer.pc.Cancelling? || s.sequencer.pc.Stopping? || s.sequencer.pc.Raising?
    ensures Kept(Sequenced(s))
  {
    if !s.sequencer.pc.Raising? {
      AskingIsScoped(s, s.sequencer.at);
    }
  }

  lemma SequencingKeeps(s: State)
    requires Kept(s)
    ensures Kept(Sequenced(s))
  {
    if s.sequencer.On? && (s.sequencer.pc.Cancelling? || s.sequencer.pc.Stopping? || s.sequencer.pc.Raising?) {
      ActingKeeps(s);
    }
  }

  // ---- runs ----

  lemma StartIsKept()
    ensures Kept(START)
  {
  }

  function Run(steps: seq<Step>): (s: State)
    ensures Kept(s)
  {
    if steps == [] then (StartIsKept(); START)
    else
      var before := Run(steps[..|steps| - 1]);
      OneStepKeeps(before, steps[|steps| - 1]);
      Next(before, steps[|steps| - 1])
  }

  lemma RunStep(steps: seq<Step>, step: Step)
    ensures Run(steps + [step]) == Next(Run(steps), step)
  {
    assert (steps + [step])[..|steps|] == steps;
  }

  /** Stopping is scoped: in every run, a node is cancelled exactly when `cancel` or `abort` was called on it or above it. */
  lemma StopIsScoped(steps: seq<Step>, i: nat)
    requires Exists(Run(steps), i)
    ensures
      var s := Run(steps);
      IsCancelled(s.tree, i) <==> exists node :: node in s.asked && IsUnder(s.tree.parents, i, node)
  {
    assert Run(steps).tree.stopped[i] <==> IsUnderAny(Run(steps).tree.parents, i, Run(steps).asked);
  }

  /** The abort is shared: every node reads the same flag, and it is up exactly when some `abort` has finished. */
  lemma AbortIsShared(steps: seq<Step>, i: nat)
    requires Exists(Run(steps), i)
    ensures IsAborted(Run(steps).tree, i) <==> Run(steps).aborted != {}
  {
    assert Run(steps).tree.abortToken[i] == 0;
  }

  /** No node is lost and neither flag is lowered on the way from one tree to another. */
  predicate OnlyRises(before: Tree, after: Tree) {
    && IsTree(before) && IsTree(after) && |before.parents| <= |after.parents|
    && before.raised <= after.raised
    && forall i :: 0 <= i < |before.parents| ==>
         after.abortToken[i] == before.abortToken[i] && (before.stopped[i] ==> after.stopped[i])
  }

  lemma StepOnlyRaises(s: State, step: Step)
    requires Kept(s)
    ensures IsSound(Next(s, step)) && OnlyRises(s.tree, Next(s, step).tree)
  {
    OneStepKeeps(s, step);
  }

  lemma RisesAddUp(a: Tree, b: Tree, c: Tree)
    requires OnlyRises(a, b) && OnlyRises(b, c)
    ensures OnlyRises(a, c)
  {
  }

  lemma {:induction false} TreeOnlyRises(steps: seq<Step>, more: seq<Step>)
    ensures OnlyRises(Run(steps).tree, Run(steps + more).tree)
  {
    if more == [] {
      assert steps + more == steps;
    } else {
      var front := more[..|more| - 1];
      var last := more[|more| - 1];
      TreeOnlyRises(steps, front);
      assert steps + more == (steps + front) + [last];
      RunStep(steps + front, last);
      StepOnlyRaises(Run(steps + front), last);
      RisesAddUp(Run(steps).tree, Run(steps + front).tree, Run(steps + more).tree);
    }
  }

  // ---- what each call does ----

  /** Cancelling a node cancels it and everything under it and nothing else; an abort does that, with a half to come. */
  lemma CancelStopsTheSubtree(steps: seq<Step>, node: nat, i: nat)
    requires !HasExited(Run(steps)) && Exists(Run(steps), node) && Exists(Run(steps), i)
    ensures
      var s := Run(steps);
      var cancelled := Run(steps + [Cancel(node)]);
      var begun := Run(steps + [BeginAbort(node)]);
      && Exists(cancelled, i) && Exists(begun, i)
      && (IsCancelled(cancelled.tree, i) <==> IsCancelled(s.tree, i) || IsUnder(s.tree.parents, i, node))
      && (IsCancelled(begun.tree, i) <==> IsCancelled(s.tree, i) || IsUnder(s.tree.parents, i, node))
      && begun.pending == s.pending + [node] && cancelled.pending == s.pending && cancelled.others && begun.others
      && (IsAborted(cancelled.tree, i) <==> IsAborted(s.tree, i))
  {
    RunStep(steps, Cancel(node));
    RunStep(steps, BeginAbort(node));
  }

  /** A child made of a node is cancelled by whatever cancels that, before it is made or after. */
  lemma ChildrenAreReached(steps: seq<Step>, of: nat, node: nat)
    requires !HasExited(Run(steps)) && Exists(Run(steps), of) && Exists(Run(steps), node)
    ensures
      var s := Run(steps);
      var child := |s.tree.parents|;
      var born := Run(steps + [Child(of)]);
      var later := Run(steps + [Child(of)] + [Cancel(node)]);
      && Exists(born, child) && Exists(later, child)
      && (IsCancelled(born.tree, child) <==> IsCancelled(s.tree, of))
      && (IsCancelled(later.tree, child) <==> IsCancelled(s.tree, of) || IsUnder(s.tree.parents, of, node))
  {
    var s := Run(steps);
    RunStep(steps, Child(of));
    AChildIsUnderItsParent(s.tree, of, node);
    CancelStopsTheSubtree(steps + [Child(of)], node, |s.tree.parents|);
  }

  /** The second half of an abort reaches every node, whoever asked for it, and the first half none. */
  lemma FinishingReachesEveryone(steps: seq<Step>, i: nat)
    requires !HasExited(Run(steps)) && Run(steps).pending != [] && Exists(Run(steps), i)
    ensures Exists(Run(steps + [FinishAbort]), i) && IsAborted(Run(steps + [FinishAbort]).tree, i)
    ensures |Run(steps + [FinishAbort]).pending| == |Run(steps).pending| - 1
  {
    RunStep(steps, FinishAbort);
    AbortIsShared(steps + [FinishAbort], i);
  }

  /** Neither flag is ever lowered and no node is ever lost, however a run goes on. */
  lemma FlagsOnlyRise(steps: seq<Step>, more: seq<Step>, i: nat)
    requires Exists(Run(steps), i)
    ensures Exists(Run(steps + more), i)
    ensures IsCancelled(Run(steps).tree, i) ==> IsCancelled(Run(steps + more).tree, i)
    ensures IsAborted(Run(steps).tree, i) ==> IsAborted(Run(steps + more).tree, i)
  {
    TreeOnlyRises(steps, more);
  }

  /** After an abort everything is cancelled exactly when the process's own signal is. */
  lemma AbortedMeansCancelledUnderTheRoot(steps: seq<Step>)
    ensures
      var s := Run(steps);
      (forall i :: 0 <= i < |s.tree.parents| ==> IsCancelled(s.tree, i)) <==> 0 in s.asked
  {
    var s := Run(steps);
    if 0 in s.asked {
      forall i: nat | i < |s.tree.parents| ensures IsCancelled(s.tree, i) {
        EverythingIsUnderTheRoot(s.tree.parents, i);
      }
    } else {
      StopIsScoped(steps, 0);
    }
  }

  /** When every abort was called on the process's own signal, aborted implies cancelled at every node and every instant. */
  lemma AbortOnTheRootCancelsAll(steps: seq<Step>, i: nat)
    requires Run(steps).aborting <= {0} && Exists(Run(steps), i)
    ensures IsAborted(Run(steps).tree, i) ==> IsCancelled(Run(steps).tree, i)
  {
    var s := Run(steps);
    if IsAborted(s.tree, i) {
      AbortIsShared(steps, i);
      var node :| node in s.aborted;
      assert 0 in s.asked;
      AbortedMeansCancelledUnderTheRoot(steps);
    }
  }

  /** An abort called on a child reaches everyone, while its cancellation stays with the child. */
  lemma AbortOnAChildDoesNotCancelTheRest()
    ensures
      var s := Run([Child(0)] + [BeginAbort(1)] + [FinishAbort]);
      && Exists(s, 1) && IsAborted(s.tree, 0) && !IsCancelled(s.tree, 0) && IsCancelled(s.tree, 1)
  {
    var grown := [Child(0)];
    var begun := grown + [BeginAbort(1)];
    assert [] + grown == grown;
    RunStep([], Child(0));
    RunStep(grown, BeginAbort(1));
    RunStep(begun, FinishAbort);
    ChildAborted();
  }

  /** The same three calls, one state at a time. */
  lemma ChildAborted()
    ensures
      var s := Next(Next(Next(START, Child(0)), BeginAbort(1)), FinishAbort);
      && IsSound(s) && Exists(s, 1)
      && IsAborted(s.tree, 0) && !IsCancelled(s.tree, 0) && IsCancelled(s.tree, 1)
  {
  }

  // ---- the sequencer ----

  /** Not between a receive and what it is for. */
  predicate IsSettled(s: State) {
    s.sequencer.On? && !s.sequencer.pc.Cancelling? && !s.sequencer.pc.Stopping? && !s.sequencer.pc.Raising?
  }

  /**
   * The phase is the number of signals received, never more than three: the first has cancelled, the second has aborted
   * as well, and only the third ends the process. A channel that closes early leaves the phase where it was.
   */
  lemma PhaseIsTheNumberOfSignals(steps: seq<Step>)
    requires Run(steps).sequencer.On?
    ensures
      var s := Run(steps);
      var at, received := s.sequencer.at, s.sequencer.received;
      && received <= 3 && s.channel.sent == received + s.channel.waiting && s.channel.waiting <= 1
      && (HasExited(s) <==> received == 3)
      && (s.sequencer.pc.Ended? ==> received < 3 && !s.channel.open && s.channel.waiting == 0)
      && (IsSettled(s) ==>
            && (received >= 1 ==> IsCancelled(s.tree, at)) && (received >= 2 ==> IsAborted(s.tree, at))
            && (!s.others ==> (IsCancelled(s.tree, at) <==> received >= 1) && (IsAborted(s.tree, at) <==> received >= 2)))
  {
    var s := Run(steps);
    var at := s.sequencer.at;
    AbortIsShared(steps, at);
    StopIsScoped(steps, at);
    assert IsUnder(s.tree.parents, at, at);
  }

  /** A sequencer waiting for a signal, with an open channel nothing is in. */
  predicate IsListening(s: State, at: nat, pc: Pc) {
    && s.sequencer.On? && s.sequencer.at == at && s.sequencer.pc == pc
    && s.channel.open && s.channel.waiting == 0
  }

  /** Listening starts at a node, once, and while nothing has been received or sent. */
  lemma ListeningStarts(steps: seq<Step>, at: nat)
    requires Run(steps).sequencer.Off? && Run(steps).channel.open && Exists(Run(steps), at)
    ensures IsListening(Run(steps + [Listen(at)]), at, AwaitFirst)
  {
    RunStep(steps, Listen(at));
  }

  /** The first signal cancels at the sequencer's node. */
  lemma FirstSignalCancels(steps: seq<Step>, at: nat)
    requires IsListening(Run(steps), at, AwaitFirst)
    ensures
      var s := Run(steps + [Signal] + [Sequence] + [Sequence]);
      IsListening(s, at, AwaitSecond) && Exists(s, at) && IsCancelled(s.tree, at)
  {
    RunStep(steps, Signal);
    RunStep(steps + [Signal], Sequence);
    RunStep(steps + [Signal] + [Sequence], Sequence);
    PhaseIsTheNumberOfSignals(steps + [Signal] + [Sequence] + [Sequence]);
  }

  /** The second aborts. */
  lemma SecondSignalAborts(steps: seq<Step>, at: nat)
    requires IsListening(Run(steps), at, AwaitSecond)
    ensures
      var s := Run(steps + [Signal] + [Sequence] + [Sequence] + [Sequence]);
      IsListening(s, at, AwaitThird) && Exists(s, at) && IsAborted(s.tree, at)
  {
    RunStep(steps, Signal);
    RunStep(steps + [Signal], Sequence);
    RunStep(steps + [Signal] + [Sequence], Sequence);
    RunStep(steps + [Signal] + [Sequence] + [Sequence], Sequence);
    PhaseIsTheNumberOfSignals(steps + [Signal] + [Sequence] + [Sequence] + [Sequence]);
  }

  /** The third ends the process, and nothing happens after that. */
  lemma ThirdSignalExits(steps: seq<Step>, at: nat, step: Step)
    requires IsListening(Run(steps), at, AwaitThird)
    ensures
      var s := Run(steps + [Signal] + [Sequence]);
      HasExited(s) && Next(s, step) == s
  {
    RunStep(steps, Signal);
    RunStep(steps + [Signal], Sequence);
  }

  /** A channel that closes while the sequencer waits ends it where it is, with the flags as they were. */
  lemma AClosedChannelEndsTheSequencer(steps: seq<Step>, at: nat, pc: Pc)
    requires IsListening(Run(steps), at, pc) && (pc.AwaitFirst? || pc.AwaitSecond? || pc.AwaitThird?)
    ensures
      var s := Run(steps + [CloseChannel] + [Sequence]);
      s.sequencer.On? && s.sequencer.pc.Ended? && s.tree == Run(steps).tree
  {
    RunStep(steps, CloseChannel);
    RunStep(steps + [CloseChannel], Sequence);
  }
}
