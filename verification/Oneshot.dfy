/** The oneshot channel as a transition system: the sender and the receiver interleave, one access to
    the flag word or to the value cell at a time. */
module Oneshot {
  import opened Prelude

  datatype Flags = Flags(sent: bool, closed: bool)

  datatype Fate = Returned | Received | Dropped

  /** `sending` tells a `send` from the sender's drop. */
  datatype SendPc<V> =
    | Fresh
    | Write(v: V)
    | Load(sending: bool)
    | Cas(seen: Flags, sending: bool)
    | TakeBack
    | DropLoad
    | Over

  /** `Gone` is a receiver that has let go of the channel. */
  datatype RecvPc =
    | Idle
    | Try
    | Poll
    | PollAgain
    | Consume
    | Check
    | Peek
    | Discard
    | Gone

  datatype End<V> = End(fate: Fate, v: V)

  /** `value` and `ends` are auxiliary: what was passed to `send`, and where it ended. */
  datatype State<V> = State(flags: Flags, cell: Option<V>, sender: SendPc<V>, receiver: RecvPc, value: Option<V>, ends: seq<End<V>>)

  function Initial<V>(): State<V> {
    State(Flags(false, false), None, Fresh, Idle, None, [])
  }

  // ---------------------------------------------------------------------------------------
  // Steps
  // ---------------------------------------------------------------------------------------

  datatype Step<V> =
    | Send(v: V)
    | DropSender
    | SenderStep(spurious: bool)
    | Call(pc: RecvPc)
    | ReceiverStep
    | Close
    | DropReceiver

  predicate Enabled<V>(s: State<V>, step: Step<V>) {
    match step
    case Send(_) => s.sender.Fresh?
    case DropSender => s.sender.Fresh?
    case SenderStep(_) => !s.sender.Fresh? && !s.sender.Over?
    case Call(pc) => s.receiver.Idle? && (pc.Try? || pc.Poll? || pc.Check?)
    case ReceiverStep => !s.receiver.Idle? && !s.receiver.Gone?
    case Close => s.receiver.Idle?
    case DropReceiver => s.receiver.Idle?
  }

  /** Empties the cell; the value in it, if any, ends there. */
  function Take<V>(s: State<V>, fate: Fate): State<V> {
    if s.cell.Some? then s.(cell := None, ends := s.ends + [End(fate, s.cell.value)]) else s
  }

  /** The loop of `set_complete` on a word it has just seen. */
  function Complete<V>(s: State<V>, seen: Flags, sending: bool): State<V> {
    if !seen.closed then s.(sender := Cas(seen, sending))
    else s.(sender := if sending then TakeBack else Over)
  }

  function DoSender<V>(s: State<V>, spurious: bool): State<V> {
    match s.sender
    case Write(v) => s.(cell := Some(v), sender := Load(true))
    case Load(sending) => Complete(s, s.flags, sending)
    case Cas(seen, sending) =>
      if s.flags != seen || spurious then Complete(s, s.flags, sending)
      else s.(flags := seen.(sent := true), sender := if sending then DropLoad else Over)
    case TakeBack => Take(s, Returned).(sender := DropLoad)
    case DropLoad => s.(sender := if s.flags.sent then Over else Load(false))
    case _ => s
  }

  /** What a receive makes of the word: take the value, let go, or something else. */
  function Decide(flags: Flags, otherwise: RecvPc): RecvPc {
    if flags.sent then Consume else if flags.closed then Gone else otherwise
  }

  function DoReceiver<V>(s: State<V>): State<V> {
    match s.receiver
    case Try => s.(receiver := Decide(s.flags, Idle))
    case Poll => s.(receiver := Decide(s.flags, PollAgain))
    case PollAgain => s.(receiver := Decide(s.flags, Idle))
    case Consume => Take(s, Received).(receiver := Gone)
    case Check => s.(receiver := if s.flags.sent then Peek else Idle)
    case Peek => s.(receiver := Idle)
    case Discard => Take(s, Dropped).(receiver := Gone)
    case _ => s
  }

  function Do<V>(s: State<V>, step: Step<V>): State<V>
    requires Enabled(s, step)
  {
    match step
    case Send(v) => s.(sender := Write(v), value := Some(v))
    case DropSender => s.(sender := DropLoad)
    case SenderStep(spurious) => DoSender(s, spurious)
    case Call(pc) => s.(receiver := pc)
    case ReceiverStep => DoReceiver(s)
    case Close => s.(flags := s.flags.(closed := true))
    case DropReceiver => s.(flags := s.flags.(closed := true), receiver := if s.flags.sent then Discard else Gone)
  }

  // ---------------------------------------------------------------------------------------
  // Invariant
  // ---------------------------------------------------------------------------------------

  /** The next access of the sender is to the cell. */
  predicate SenderAtCell<V>(pc: SendPc<V>) {
    pc.Write? || pc.TakeBack?
  }

  /** The next access of the receiver is to the cell. */
  predicate ReceiverAtCell(pc: RecvPc) {
    pc.Consume? || pc.Peek? || pc.Discard?
  }

  /** The sender's last look at the word is behind it. */
  predicate Settled<V>(pc: SendPc<V>) {
    pc.DropLoad? || pc.Over? || (pc.Load? && !pc.sending) || (pc.Cas? && !pc.sending)
  }

  ghost predicate Ended<V>(s: State<V>) {
    |s.ends| == 1 && s.value == Some(s.ends[0].v)
  }

  ghost predicate Inv<V>(s: State<V>) {
    && (s.sender.Fresh? ==> s.value.None?)
    && (s.value.None? ==> s.cell.None? && s.ends == [] && (s.sender.Fresh? || Settled(s.sender)))
    && (s.sender.Write? ==> s.value == Some(s.sender.v) && s.cell.None? && s.ends == [])
    && (s.value.Some? && !s.sender.Write? && !Settled(s.sender) ==> s.cell == s.value && s.ends == [])
    && (s.value.Some? && Settled(s.sender) ==> ValueSettled(s))
    && (s.flags.sent ==> Settled(s.sender) && !s.sender.Load? && !s.sender.Cas?)
    && (s.sender.Cas? ==> !s.sender.seen.closed)
    && (s.sender.TakeBack? ==> s.flags.closed)
    && (s.sender.Over? ==> s.flags.sent || s.flags.closed)
    && (ReceiverAtCell(s.receiver) ==> s.flags.sent)
    && (s.receiver.Gone? ==> if s.flags.sent then s.cell.None? else s.flags.closed)
  }

  /** A value the sender is done with: handed over and in the cell or beyond, or given back. */
  ghost predicate ValueSettled<V>(s: State<V>) {
    if s.flags.sent then
      (s.cell == s.value && s.ends == []) || (s.cell.None? && Ended(s) && s.ends[0].fate != Returned)
    else s.flags.closed && s.cell.None? && Ended(s) && s.ends[0].fate == Returned
  }

  lemma InitialInv<V>()
    ensures Inv(Initial<V>())
  {
  }

  lemma SenderKeeps<V>(s: State<V>, spurious: bool)
    requires Inv(s) && Enabled(s, SenderStep(spurious))
    ensures Inv(DoSender(s, spurious))
  {
    match s.sender {
      case Write(_) =>
      case Load(_) =>
      case Cas(_, _) =>
      case TakeBack =>
      case DropLoad =>
    }
  }

  lemma ReceiverKeeps<V>(s: State<V>)
    requires Inv(s) && Enabled(s, ReceiverStep)
    ensures Inv(DoReceiver(s))
  {
    match s.receiver {
      case Try =>
      case Poll =>
      case PollAgain =>
      case Consume =>
      case Check =>
      case Peek =>
      case Discard =>
    }
  }

  lemma StepKeeps<V>(s: State<V>, step: Step<V>)
    requires Inv(s) && Enabled(s, step)
    ensures Inv(Do(s, step))
  {
    match step {
      case SenderStep(spurious) => SenderKeeps(s, spurious);
      case ReceiverStep => ReceiverKeeps(s);
      case Send(_) =>
      case DropSender =>
      case Call(_) =>
      case Close =>
      case DropReceiver =>
    }
  }

  // ---------------------------------------------------------------------------------------
  // Whole runs
  // ---------------------------------------------------------------------------------------

  ghost predicate Runs<V(!new)>(s: State<V>, steps: seq<Step<V>>, s': State<V>)
    decreases |steps|
  {
    if steps == [] then s' == s
    else Enabled(s, steps[0]) && Runs(Do(s, steps[0]), steps[1..], s')
  }

  lemma {:induction false} RunKeeps<V(!new)>(s: State<V>, steps: seq<Step<V>>, s': State<V>)
    requires Inv(s) && Runs(s, steps, s')
    ensures Inv(s')
    decreases |steps|
  {
    if steps != [] {
      StepKeeps(s, steps[0]);
      RunKeeps(Do(s, steps[0]), steps[1..], s');
    }
  }

  lemma ReachableInv<V(!new)>(steps: seq<Step<V>>, s: State<V>)
    requires Runs(Initial(), steps, s)
    ensures Inv(s)
  {
    InitialInv<V>();
    RunKeeps(Initial(), steps, s);
  }

  /** The two sides never reach for the cell at the same time. */
  lemma CellAccessExcludes<V(!new)>(steps: seq<Step<V>>, s: State<V>)
    requires Runs(Initial(), steps, s)
    ensures !(SenderAtCell(s.sender) && ReceiverAtCell(s.receiver))
  {
    ReachableInv(steps, s);
  }

  /** A sender that finds the channel closed finds its value still in the cell. */
  lemma TakeBackFindsTheValue<V(!new)>(steps: seq<Step<V>>, s: State<V>)
    requires Runs(Initial(), steps, s) && s.sender.TakeBack?
    ensures s.cell == s.value && s.cell.Some?
  {
    ReachableInv(steps, s);
  }

  /** At no time has a value ended in two places, or in one while it is still in the cell. */
  lemma ValueIsInOnePlace<V(!new)>(steps: seq<Step<V>>, s: State<V>)
    requires Runs(Initial(), steps, s)
    ensures |s.ends| <= 1 && (s.cell.Some? ==> s.ends == [] && s.cell == s.value)
    ensures forall i :: 0 <= i < |s.ends| ==> s.value == Some(s.ends[i].v)
  {
    ReachableInv(steps, s);
  }

  /** When both sides are through, a value passed to `send` has ended in exactly one place, and the
      cell is empty: given back if the channel was closed first, else received or dropped. */
  lemma ValueEndsOnce<V(!new)>(steps: seq<Step<V>>, s: State<V>)
    requires Runs(Initial(), steps, s) && s.sender.Over? && s.receiver.Gone?
    ensures s.cell.None?
    ensures s.value.None? ==> s.ends == []
    ensures s.value.Some? ==> |s.ends| == 1 && Some(s.ends[0].v) == s.value && (s.ends[0].fate == Returned <==> !s.flags.sent)
  {
    ReachableInv(steps, s);
  }
}
