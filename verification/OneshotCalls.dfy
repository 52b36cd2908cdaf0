/** What becomes of a value sent through the oneshot channel: when it is received, dropped or given back, and
    what the calls do when the other side does not move. */
module OneshotCalls {
  import opened Prelude
  import opened Oneshot

  // ---------------------------------------------------------------------------------------
  // Over every run
  // ---------------------------------------------------------------------------------------

  /** A value is dropped only by a receiver that was dropped, and received only by one that was not. */
  ghost predicate FateOk<V>(s: State<V>, dropped: bool) {
    && (dropped ==> s.receiver.Discard? || s.receiver.Gone?)
    && (s.receiver.Discard? ==> dropped)
    && (forall i :: 0 <= i < |s.ends| && s.ends[i].fate == Dropped ==> dropped)
    && (forall i :: 0 <= i < |s.ends| && s.ends[i].fate == Received ==> !dropped && s.receiver.Gone?)
  }

  lemma StepKeepsFate<V>(s: State<V>, step: Step<V>, dropped: bool)
    requires FateOk(s, dropped) && Enabled(s, step)
    ensures FateOk(Do(s, step), dropped || step.DropReceiver?)
  {
    match step {
      case SenderStep(_) =>
        match s.sender {
          case Write(_) =>
          case Load(_) =>
          case Cas(_, _) =>
          case TakeBack =>
          case DropLoad =>
        }
      case ReceiverStep =>
        match s.receiver {
          case Try =>
          case Poll =>
          case PollAgain =>
          case Consume =>
          case Check =>
          case Peek =>
          case Discard =>
        }
      case Send(_) =>
      case DropSender =>
      case Call(_) =>
      case Close =>
      case DropReceiver =>
    }
  }

  lemma {:induction false} RunKeepsFate<V(!new)>(s: State<V>, steps: seq<Step<V>>, s': State<V>, dropped: bool)
    requires FateOk(s, dropped) && Runs(s, steps, s')
    ensures FateOk(s', dropped || DropReceiver in steps)
    decreases |steps|
  {
    if steps != [] {
      StepKeepsFate(s, steps[0], dropped);
      RunKeepsFate(Do(s, steps[0]), steps[1..], s', dropped || steps[0].DropReceiver?);
    }
  }

  lemma {:induction false} ClosedHasACause<V(!new)>(s: State<V>, steps: seq<Step<V>>, s': State<V>)
    requires Runs(s, steps, s') && !s.flags.closed && Close !in steps && DropReceiver !in steps
    ensures !s'.flags.closed
    decreases |steps|
  {
    if steps != [] {
      ClosedHasACause(Do(s, steps[0]), steps[1..], s');
    }
  }

  /** When both sides are through: a value sent was given back if the channel was closed before it was handed
      over, dropped if the receiver was dropped after that, and received if the receiver was not dropped. */
  lemma ValueEndsWhere<V(!new)>(steps: seq<Step<V>>, s: State<V>)
    requires Runs(Initial(), steps, s) && s.sender.Over? && s.receiver.Gone? && s.value.Some?
    ensures |s.ends| == 1 && Some(s.ends[0].v) == s.value
    ensures s.ends[0].fate == (if !s.flags.sent then Returned else if DropReceiver in steps then Dropped else Received)
    ensures s.ends[0].fate == Returned ==> Close in steps || DropReceiver in steps
  {
    ValueEndsOnce(steps, s);
    ReachableInv(steps, s);
    RunKeepsFate(Initial(), steps, s, false);
    if Close !in steps && DropReceiver !in steps {
      ClosedHasACause(Initial(), steps, s);
    }
  }

  /** Unless the receiver hangs up, what is sent is received. */
  lemma DeliveredUnlessHungUp<V(!new)>(steps: seq<Step<V>>, s: State<V>, v: V)
    requires Runs(Initial(), steps, s) && s.sender.Over? && s.receiver.Gone? && s.value == Some(v)
    requires Close !in steps && DropReceiver !in steps
    ensures s.ends == [End(Received, v)]
  {
    ValueEndsWhere(steps, s);
    ReachableInv(steps, s);
    ClosedHasACause(Initial(), steps, s);
  }

  lemma {:induction false} ClosedStays<V(!new)>(s: State<V>, steps: seq<Step<V>>, s': State<V>)
    requires Inv(s) && s.flags.closed && !s.flags.sent && Runs(s, steps, s')
    ensures Inv(s') && s'.flags.closed && !s'.flags.sent
    decreases |steps|
  {
    if steps != [] {
      StepKeeps(s, steps[0]);
      ClosedStays(Do(s, steps[0]), steps[1..], s');
    }
  }

  /** A channel closed, by `close` or by dropping the receiver, before the value was handed over never delivers
      it: once both sides are through the sender has it back. */
  lemma ClosedNeverDelivers<V(!new)>(before: seq<Step<V>>, s: State<V>, step: Step<V>, steps: seq<Step<V>>, s': State<V>)
    requires Runs(Initial(), before, s) && !s.flags.sent && (step.Close? || step.DropReceiver?) && Enabled(s, step)
    requires Runs(Do(s, step), steps, s')
    ensures !s'.flags.sent && forall i :: 0 <= i < |s'.ends| ==> s'.ends[i].fate == Returned
    ensures s'.sender.Over? && s'.value.Some? ==> |s'.ends| == 1 && Some(s'.ends[0].v) == s'.value
  {
    ReachableInv(before, s);
    StepKeeps(s, step);
    ClosedStays(Do(s, step), steps, s');
  }

  // ---------------------------------------------------------------------------------------
  // Calls on their own
  // ---------------------------------------------------------------------------------------

  /** Up to `n` accesses of the sender, nobody else moving and no exchange failing without cause. */
  function Sends<V>(s: State<V>, n: nat): State<V>
    decreases n
  {
    if n == 0 || s.sender.Fresh? || s.sender.Over? then s else Sends(DoSender(s, false), n - 1)
  }

  /** Up to `n` accesses of the receiver, nobody else moving. */
  function Receives<V>(s: State<V>, n: nat): State<V>
    decreases n
  {
    if n == 0 || s.receiver.Idle? || s.receiver.Gone? then s else Receives(DoReceiver(s), n - 1)
  }

  /** `send` on an open channel hands the value over; on a closed one it gives the value back. */
  lemma SendAlone<V>(s: State<V>, v: V)
    requires Inv(s) && s.sender.Fresh?
    ensures var s' := Sends(Do(s, Send(v)), 6);
      if s.flags.closed then s' == s.(sender := Over, value := Some(v), ends := [End(Returned, v)])
      else s' == s.(sender := Over, value := Some(v), cell := Some(v), flags := s.flags.(sent := true))
  {
    var s0 := Do(s, Send(v));
    var s1 := DoSender(s0, false);
    var s2 := DoSender(s1, false);
    var s3 := DoSender(s2, false);
    var s4 := DoSender(s3, false);
    assert Sends(s0, 6) == Sends(s1, 5) == Sends(s2, 4) == Sends(s3, 3) == Sends(s4, 2);
    if s.flags.closed {
      assert s2.sender.TakeBack? && s3.sender.DropLoad? && s4.sender == Load(false);
      assert Sends(s4, 2) == Sends(DoSender(s4, false), 1);
    } else {
      assert s2.sender == Cas(s.flags, true) && s3.sender.DropLoad? && s4.sender.Over?;
    }
  }

  /** Dropping the sender without a value tells the receiver so, if the channel is open. */
  lemma DropSenderAlone<V>(s: State<V>)
    requires Inv(s) && s.sender.Fresh?
    ensures Sends(Do(s, DropSender), 3) == s.(sender := Over, flags := s.flags.(sent := !s.flags.closed))
  {
    var s0 := Do(s, DropSender);
    var s1 := DoSender(s0, false);
    var s2 := DoSender(s1, false);
    assert s1.sender == Load(false);
    assert Sends(s0, 3) == Sends(s1, 2) == Sends(s2, 1);
    if !s.flags.closed {
      assert Sends(s2, 1) == DoSender(s2, false);
    }
  }

  /** What a receive, by `try_recv` or by a poll, comes to: it takes the value if one was sent, lets go if the
      channel is over, and otherwise changes nothing. */
  lemma ReceiveAlone<V>(s: State<V>, pc: RecvPc)
    requires s.receiver.Idle? && (pc.Try? || pc.Poll?)
    ensures var s' := Receives(Do(s, Call(pc)), 2);
      if s.flags.sent && s.cell.Some? then s' == s.(receiver := Gone, cell := None, ends := s.ends + [End(Received, s.cell.value)])
      else if s.flags.sent || s.flags.closed then s' == s.(receiver := Gone)
      else s' == s
  {
    var s0 := Do(s, Call(pc));
    var s1 := DoReceiver(s0);
    assert Receives(s0, 2) == Receives(s1, 1);
    if s.flags.sent {
      assert s1.receiver.Consume?;
      assert Receives(s1, 1) == DoReceiver(s1);
    } else if s.flags.closed {
      assert s1.receiver.Gone?;
    } else if pc.Poll? {
      assert s1.receiver.PollAgain?;
      assert Receives(s1, 1) == DoReceiver(s1);
    } else {
      assert s1.receiver.Idle?;
    }
  }

  /** A dropped receiver closes the channel and drops a value that was handed over. */
  lemma DropReceiverAlone<V>(s: State<V>)
    requires s.receiver.Idle?
    ensures var s' := Receives(Do(s, DropReceiver), 1);
      && s'.receiver.Gone? && s'.flags == s.flags.(closed := true) && s'.sender == s.sender && s'.value == s.value
      && (s.flags.sent ==> s'.cell.None?) && (!s.flags.sent ==> s'.cell == s.cell)
      && s'.ends == if s.flags.sent && s.cell.Some? then s.ends + [End(Dropped, s.cell.value)] else s.ends
  {
  }

  /** Send, then receive: the very value comes out. */
  lemma ReceivesWhatWasSent<V>(s: State<V>, v: V, pc: RecvPc)
    requires Inv(s) && s.sender.Fresh? && s.receiver.Idle? && !s.flags.closed && (pc.Try? || pc.Poll?)
    ensures var s1 := Sends(Do(s, Send(v)), 6);
      && s1.receiver.Idle? && var s2 := Receives(Do(s1, Call(pc)), 2); s2.ends == [End(Received, v)] && s2.cell.None?
  {
    SendAlone(s, v);
    ReceiveAlone(Sends(Do(s, Send(v)), 6), pc);
  }
}
