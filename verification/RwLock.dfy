/** The state word of the reader-writer lock as a transition system: any number of threads, one atomic
    access at a time. The waiter queue is left open: whether a future is queued or woken, and whether
    the queue is empty, may turn out either way at every step. */
module RwLock {
  import opened Prelude
  import opened Words

  const WRITER: nat := 1
  const CONTENDED: nat := 2
  const UNIT: nat := 4
  /** The reader field when it is full. */
  const MAX_READERS: nat := 0x3fff_ffff_ffff_ffff

  predicate HasWriter(word: nat) {
    word % 2 == 1
  }

  predicate IsContended(word: nat) {
    word / 2 % 2 == 1
  }

  function ReaderField(word: nat): nat {
    word / 4
  }

  function WithContended(word: nat, on: bool): nat {
    if on == IsContended(word) then word else if on then word + CONTENDED else if word >= CONTENDED then word - CONTENDED else word
  }

  type Tid = nat

  /** `prio` is whether the future is queued or woken; a future already queued passes the mark without
      setting the bit. A guard carries the value of the data when it
      was acquired. */
  datatype Pc =
    | Idle
    | TryRead
    | TryReadCas(seen: nat)
    | TryWrite
    | ReadLoad
    | ReadCas(seen: nat, prio: bool)
    | ReadFix(snap: int)
    | ReadQueue
    | ReadMark
    | ReadPending
    | Reading(snap: int)
    | WriteLoad
    | WriteCas(seen: nat, prio: bool)
    | WriteFix
    | WriteQueue
    | WriteMark
    | WritePending
    | Writing
    | DownLoad
    | DownCas(seen: nat)
    | DropCas
    | DropStore

  /** `writer` and `readers` are auxiliary: who holds a guard. */
  datatype State = State(word: nat, data: int, threads: map<Tid, Pc>, writer: Option<Tid>, readers: set<Tid>)

  function Initial(data: int): State {
    State(0, data, map[], None, {})
  }

  // ---------------------------------------------------------------------------------------
  // Steps
  // ---------------------------------------------------------------------------------------

  /** `Go` is the next access of a thread in a call; `choice` is what the queue, the spin counter or a
      weak exchange decides. */
  datatype Step =
    | Call(t: Tid, pc: Pc)
    | Go(t: Tid, choice: bool)
    | DropRead(t: Tid)
    | DropWrite(t: Tid)
    | Downgrade(t: Tid)
    | Assign(t: Tid, value: int)

  function At(s: State, t: Tid): Pc {
    if t in s.threads then s.threads[t] else Idle
  }

  predicate Resting(pc: Pc) {
    pc.Idle? || pc.Reading? || pc.Writing?
  }

  predicate Enabled(s: State, step: Step) {
    match step
    case Call(t, pc) => At(s, t).Idle? && (pc.TryRead? || pc.TryWrite? || pc.ReadLoad? || pc.WriteLoad?)
    case Go(t, _) => !Resting(At(s, t))
    case DropRead(t) => At(s, t).Reading?
    case DropWrite(t) => At(s, t).Writing?
    case Downgrade(t) => At(s, t).Writing?
    case Assign(t, _) => At(s, t).Writing?
  }

  function Set(s: State, t: Tid, pc: Pc): State {
    s.(threads := s.threads[t := pc])
  }

  function AddReader(s: State, t: Tid, pc: Pc): State {
    Set(s, t, pc).(word := (s.word + UNIT) % WORD, readers := s.readers + {t})
  }

  function AddWriter(s: State, t: Tid, pc: Pc, word: nat): State {
    Set(s, t, pc).(word := word, writer := Some(t))
  }

  function ConsiderTryRead(word: nat): Pc {
    if HasWriter(word) || IsContended(word) || ReaderField(word) == MAX_READERS then Idle else TryReadCas(word)
  }

  function DoGo(s: State, t: Tid, choice: bool): (s': State)
    requires t in s.threads
    ensures t in s'.threads && s'.threads == s.threads[t := s'.threads[t]] && s'.data == s.data
  {
    match s.threads[t]
    case TryRead => Set(s, t, ConsiderTryRead(s.word))
    case TryReadCas(seen) =>
      if s.word == seen then AddReader(s, t, Reading(s.data)) else Set(s, t, ConsiderTryRead(s.word))
    case TryWrite => if s.word == 0 then AddWriter(s, t, Writing, WRITER) else Set(s, t, Idle)
    case ReadLoad =>
      if !HasWriter(s.word) && (choice || !IsContended(s.word)) then
        Set(s, t, if ReaderField(s.word) == MAX_READERS then Idle else ReadCas(s.word, choice))
      else Set(s, t, if choice then ReadLoad else ReadQueue)
    case ReadCas(seen, prio) =>
      if s.word != seen then Set(s, t, ReadLoad)
      else AddReader(s, t, if prio then ReadFix(s.data) else Reading(s.data))
    case ReadFix(snap) => Set(s, t, Reading(snap)).(word := WithContended(s.word, choice))
    case ReadQueue =>
      Set(s, t, if !HasWriter(s.word) && choice then ReadLoad else if IsContended(s.word) then ReadPending else ReadMark)
    case ReadMark => Set(s, t, ReadPending).(word := WithContended(s.word, choice || IsContended(s.word)))
    case ReadPending => Set(s, t, if choice then ReadLoad else Idle)
    case WriteLoad =>
      if (if choice then s.word == 0 || s.word == CONTENDED else s.word == 0) then Set(s, t, WriteCas(s.word, choice))
      else Set(s, t, if choice then WriteLoad else WriteQueue)
    case WriteCas(seen, prio) =>
      if s.word != seen then Set(s, t, WriteLoad)
      else AddWriter(s, t, if prio then WriteFix else Writing, WithContended(WRITER, IsContended(seen)))
    case WriteFix => Set(s, t, Writing).(word := WithContended(s.word, choice))
    case WriteQueue =>
      Set(s, t,
        if !HasWriter(s.word) && ReaderField(s.word) == 0 && choice then WriteLoad
        else if IsContended(s.word) then WritePending else WriteMark)
    case WriteMark => Set(s, t, WritePending).(word := WithContended(s.word, choice || IsContended(s.word)))
    case WritePending => Set(s, t, if choice then WriteLoad else Idle)
    case DownLoad => Set(s, t, DownCas(s.word))
    case DownCas(seen) =>
      if s.word != seen || choice then Set(s, t, DownCas(s.word))
      else Set(s, t, Reading(s.data)).(word := (seen - seen % 2 + UNIT) % WORD, writer := None, readers := s.readers + {t})
    case DropCas =>
      if s.word == WRITER then Set(s, t, Idle).(word := 0, writer := None) else Set(s, t, DropStore)
    case DropStore => Set(s, t, Idle).(word := 0, writer := None)
    case _ => s
  }

  function Do(s: State, step: Step): State
    requires Enabled(s, step)
  {
    match step
    case Call(t, pc) => Set(s, t, pc)
    case Go(t, choice) => DoGo(s, t, choice)
    case DropRead(t) => Set(s, t, Idle).(word := (s.word - UNIT) % WORD, readers := s.readers - {t})
    case DropWrite(t) => Set(s, t, DropCas)
    case Downgrade(t) => Set(s, t, DownLoad)
    case Assign(_, value) => s.(data := value)
  }

  // ---------------------------------------------------------------------------------------
  // Invariant
  // ---------------------------------------------------------------------------------------

  predicate HoldsRead(pc: Pc) {
    pc.Reading? || pc.ReadFix?
  }

  predicate HoldsWrite(pc: Pc) {
    pc.Writing? || pc.WriteFix? || pc.DownLoad? || pc.DownCas? || pc.DropCas? || pc.DropStore?
  }

  predicate ThreadOk(t: Tid, pc: Pc, writer: Option<Tid>, readers: set<Tid>, data: int) {
    && (HoldsRead(pc) <==> t in readers)
    && (HoldsWrite(pc) <==> writer == Some(t))
    && (HoldsRead(pc) ==> pc.snap == data)
    && (pc.TryReadCas? || pc.ReadCas? ==> !HasWriter(pc.seen) && ReaderField(pc.seen) != MAX_READERS)
    && (pc.WriteCas? ==> pc.seen == 0 || pc.seen == CONTENDED)
  }

  /** The word is exact, and there is no writer beside a reader. */
  predicate WordOk(word: nat, writer: Option<Tid>, count: nat) {
    && word < WORD && (HasWriter(word) <==> writer.Some?) && ReaderField(word) == count
    && (writer.Some? ==> count == 0)
  }

  ghost predicate ThreadsOk(s: State) {
    forall t :: t in s.threads ==> ThreadOk(t, s.threads[t], s.writer, s.readers, s.data)
  }

  ghost predicate Inv(s: State) {
    && WordOk(s.word, s.writer, |s.readers|) && ThreadsOk(s)
    && (s.writer.Some? ==> s.writer.value in s.threads)
    && (forall t :: t in s.readers ==> t in s.threads)
  }

  lemma InitialInv(data: int)
    ensures Inv(Initial(data))
  {
  }

  /** The contended bit comes and goes without touching the rest of the word. */
  lemma ContendedIsApart(word: nat, on: bool)
    requires word < WORD
    ensures var w := WithContended(word, on);
      w < WORD && HasWriter(w) == HasWriter(word) && ReaderField(w) == ReaderField(word) && IsContended(w) == on
  {
  }

  lemma ThreadsKept(s: State, s': State, t: Tid, pc: Pc)
    requires ThreadsOk(s) && s'.threads == s.threads[t := pc] && s'.data == s.data
    requires ThreadOk(t, pc, s'.writer, s'.readers, s'.data)
    requires forall u :: u != t ==> (u in s.readers <==> u in s'.readers) && (s.writer == Some(u) <==> s'.writer == Some(u))
    ensures ThreadsOk(s')
  {
    forall u | u in s'.threads
      ensures ThreadOk(u, s'.threads[u], s'.writer, s'.readers, s'.data)
    {
      assert u != t ==> ThreadOk(u, s.threads[u], s.writer, s.readers, s.data);
    }
  }

  /** Steps that change neither the guards nor anything but the contended bit of the word. */
  lemma Looks(s: State, t: Tid, pc: Pc, s': State, on: bool)
    requires Inv(s) && t in s.threads
    requires s' == Set(s, t, pc) || s' == Set(s, t, pc).(word := WithContended(s.word, on))
    requires ThreadOk(t, pc, s.writer, s.readers, s.data)
    ensures Inv(s')
  {
    ContendedIsApart(s.word, on);
    ThreadsKept(s, s', t, pc);
  }

  /** A reader counted in by an exchange on a word that shows no writer. */
  lemma ReaderEnters(s: State, t: Tid, pc: Pc, s': State)
    requires Inv(s) && t in s.threads && !HoldsRead(s.threads[t]) && HoldsRead(pc) && pc.snap == s.data
    requires !HasWriter(s.word) && ReaderField(s.word) != MAX_READERS && s' == AddReader(s, t, pc)
    ensures Inv(s')
  {
    assert ThreadOk(t, s.threads[t], s.writer, s.readers, s.data);
    ThreadsKept(s, s', t, pc);
  }

  /** A writer entering through an exchange on a word that shows nobody. */
  lemma WriterEnters(s: State, t: Tid, pc: Pc, word: nat, s': State)
    requires Inv(s) && t in s.threads && HoldsWrite(pc) && !pc.DownCas?
    requires s.word == 0 || s.word == CONTENDED
    requires word == WRITER || word == WRITER + CONTENDED
    requires s' == AddWriter(s, t, pc, word)
    ensures Inv(s')
  {
    assert ThreadOk(t, s.threads[t], s.writer, s.readers, s.data);
    assert |s.readers| == 0;
    ThreadsKept(s, s', t, pc);
  }

  /** The writer leaves, whatever the contended bit was. */
  lemma WriterLeaves(s: State, t: Tid, s': State)
    requires Inv(s) && t in s.threads && HoldsWrite(s.threads[t])
    requires s' == Set(s, t, Idle).(word := 0, writer := None)
    ensures Inv(s')
  {
    assert ThreadOk(t, s.threads[t], s.writer, s.readers, s.data);
    ThreadsKept(s, s', t, Idle);
  }

  /** The writer becomes the only reader. */
  lemma WriterTurnsReader(s: State, t: Tid, s': State)
    requires Inv(s) && t in s.threads && HoldsWrite(s.threads[t])
    requires s' == Set(s, t, Reading(s.data)).(word := (s.word - s.word % 2 + UNIT) % WORD, writer := None, readers := s.readers + {t})
    ensures Inv(s')
  {
    assert ThreadOk(t, s.threads[t], s.writer, s.readers, s.data);
    assert |s.readers| == 0;
    ThreadsKept(s, s', t, Reading(s.data));
  }

  lemma ReaderLeaves(s: State, t: Tid, s': State)
    requires Inv(s) && Enabled(s, DropRead(t)) && s' == Do(s, DropRead(t))
    ensures Inv(s')
  {
    assert ThreadOk(t, s.threads[t], s.writer, s.readers, s.data);
    ThreadsKept(s, s', t, Idle);
  }

  lemma TryKeeps(s: State, t: Tid, choice: bool, s': State)
    requires Inv(s) && t in s.threads && s' == DoGo(s, t, choice)
    requires s.threads[t].TryRead? || s.threads[t].TryReadCas? || s.threads[t].TryWrite?
    ensures Inv(s')
  {
    var pc := s.threads[t];
    assert ThreadOk(t, pc, s.writer, s.readers, s.data);
    if pc.TryReadCas? && s.word == pc.seen {
      ReaderEnters(s, t, Reading(s.data), s');
    } else if pc.TryWrite? && s.word == 0 {
      WriterEnters(s, t, Writing, WRITER, s');
    } else {
      Looks(s, t, s'.threads[t], s', true);
    }
  }

  lemma ReadKeeps(s: State, t: Tid, choice: bool, s': State)
    requires Inv(s) && t in s.threads && s' == DoGo(s, t, choice)
    requires var pc := s.threads[t]; pc.ReadLoad? || pc.ReadCas? || pc.ReadFix? || pc.ReadQueue? || pc.ReadMark? || pc.ReadPending?
    ensures Inv(s')
  {
    var pc := s.threads[t];
    assert ThreadOk(t, pc, s.writer, s.readers, s.data);
    match pc {
      case ReadCas(seen, prio) =>
        if s.word == seen {
          ReaderEnters(s, t, s'.threads[t], s');
        } else {
          Looks(s, t, ReadLoad, s', true);
        }
      case ReadLoad => Looks(s, t, s'.threads[t], s', true);
      case ReadFix(snap) => Looks(s, t, Reading(snap), s', choice);
      case ReadQueue => Looks(s, t, s'.threads[t], s', true);
      case ReadMark => Looks(s, t, ReadPending, s', choice || IsContended(s.word));
      case ReadPending => Looks(s, t, s'.threads[t], s', true);
    }
  }

  lemma WriteKeeps(s: State, t: Tid, choice: bool, s': State)
    requires Inv(s) && t in s.threads && s' == DoGo(s, t, choice)
    requires var pc := s.threads[t]; pc.WriteLoad? || pc.WriteCas? || pc.WriteFix? || pc.WriteQueue? || pc.WriteMark? || pc.WritePending?
    ensures Inv(s')
  {
    var pc := s.threads[t];
    assert ThreadOk(t, pc, s.writer, s.readers, s.data);
    match pc {
      case WriteCas(seen, prio) =>
        if s.word == seen {
          WriterEnters(s, t, s'.threads[t], s'.word, s');
        } else {
          Looks(s, t, WriteLoad, s', true);
        }
      case WriteLoad => Looks(s, t, s'.threads[t], s', true);
      case WriteFix => Looks(s, t, Writing, s', choice);
      case WriteQueue => Looks(s, t, s'.threads[t], s', true);
      case WriteMark => Looks(s, t, WritePending, s', choice || IsContended(s.word));
      case WritePending => Looks(s, t, s'.threads[t], s', true);
    }
  }

  lemma ReleaseKeeps(s: State, t: Tid, choice: bool, s': State)
    requires Inv(s) && t in s.threads && s' == DoGo(s, t, choice)
    requires var pc := s.threads[t]; pc.DownLoad? || pc.DownCas? || pc.DropCas? || pc.DropStore?
    ensures Inv(s')
  {
    var pc := s.threads[t];
    assert ThreadOk(t, pc, s.writer, s.readers, s.data);
    match pc {
      case DownLoad => Looks(s, t, DownCas(s.word), s', true);
      case DownCas(seen) =>
        if s.word == seen && !choice {
          WriterTurnsReader(s, t, s');
        } else {
          Looks(s, t, DownCas(s.word), s', true);
        }
      case DropCas =>
        if s.word == WRITER {
          WriterLeaves(s, t, s');
        } else {
          Looks(s, t, DropStore, s', true);
        }
      case DropStore => WriterLeaves(s, t, s');
    }
  }

  lemma AssignKeeps(s: State, t: Tid, value: int, s': State)
    requires Inv(s) && Enabled(s, Assign(t, value)) && s' == s.(data := value)
    ensures Inv(s')
  {
    assert ThreadOk(t, s.threads[t], s.writer, s.readers, s.data);
    assert s.readers == {};
    forall u | u in s'.threads
      ensures ThreadOk(u, s'.threads[u], s'.writer, s'.readers, s'.data)
    {
      assert ThreadOk(u, s.threads[u], s.writer, s.readers, s.data);
    }
  }

  lemma CallKeeps(s: State, t: Tid, pc: Pc, s': State)
    requires Inv(s) && s' == Set(s, t, pc)
    requires Enabled(s, Call(t, pc)) || (At(s, t).Writing? && (pc.DropCas? || pc.DownLoad?))
    ensures Inv(s')
  {
    assert t in s.threads ==> ThreadOk(t, s.threads[t], s.writer, s.readers, s.data);
    ThreadsKept(s, s', t, pc);
  }

  lemma StepKeeps(s: State, step: Step)
    requires Inv(s) && Enabled(s, step)
    ensures Inv(Do(s, step))
  {
    var s' := Do(s, step);
    match step {
      case Call(t, pc) => CallKeeps(s, t, pc, s');
      case Go(t, choice) =>
        var pc := s.threads[t];
        if pc.TryRead? || pc.TryReadCas? || pc.TryWrite? {
          TryKeeps(s, t, choice, s');
        } else if pc.ReadLoad? || pc.ReadCas? || pc.ReadFix? || pc.ReadQueue? || pc.ReadMark? || pc.ReadPending? {
          ReadKeeps(s, t, choice, s');
        } else if pc.WriteLoad? || pc.WriteCas? || pc.WriteFix? || pc.WriteQueue? || pc.WriteMark? || pc.WritePending? {
          WriteKeeps(s, t, choice, s');
        } else {
          ReleaseKeeps(s, t, choice, s');
        }
      case DropRead(t) => ReaderLeaves(s, t, s');
      case DropWrite(t) => CallKeeps(s, t, DropCas, s');
      case Downgrade(t) => CallKeeps(s, t, DownLoad, s');
      case Assign(t, value) => AssignKeeps(s, t, value, s');
    }
  }

  // ---------------------------------------------------------------------------------------
  // Whole runs
  // ---------------------------------------------------------------------------------------

  ghost predicate Runs(s: State, steps: seq<Step>, s': State)
    decreases |steps|
  {
    if steps == [] then s' == s
    else Enabled(s, steps[0]) && Runs(Do(s, steps[0]), steps[1..], s')
  }

  lemma {:induction false} RunKeeps(s: State, steps: seq<Step>, s': State)
    requires Inv(s) && Runs(s, steps, s')
    ensures Inv(s')
    decreases |steps|
  {
    if steps != [] {
      StepKeeps(s, steps[0]);
      RunKeeps(Do(s, steps[0]), steps[1..], s');
    }
  }

  /** The threads that hold a read guard. */
  ghost function ReadersOf(s: State): set<Tid> {
    set t | t in s.threads && HoldsRead(s.threads[t])
  }

  ghost function WritersOf(s: State): set<Tid> {
    set t | t in s.threads && HoldsWrite(s.threads[t])
  }

  /** In every interleaving the writer bit is set exactly when there is a write guard, there is never
      more than one, the reader field is the number of read guards, never both, and nothing
      overflows into another field. */
  lemma WordIsExact(data: int, steps: seq<Step>, s: State)
    requires Runs(Initial(data), steps, s)
    ensures s.word < WORD && ReaderField(s.word) == |ReadersOf(s)|
    ensures |WritersOf(s)| == if HasWriter(s.word) then 1 else 0
    ensures WritersOf(s) != {} ==> ReadersOf(s) == {}
  {
    InitialInv(data);
    RunKeeps(Initial(data), steps, s);
    GuardsAreNamed(s);
  }

  lemma GuardsAreNamed(s: State)
    requires Inv(s)
    ensures ReadersOf(s) == s.readers
    ensures WritersOf(s) == if s.writer.Some? then {s.writer.value} else {}
  {
    forall t
      ensures t in s.threads && HoldsRead(s.threads[t]) <==> t in s.readers
      ensures t in s.threads && HoldsWrite(s.threads[t]) <==> s.writer == Some(t)
    {
      assert t in s.threads ==> ThreadOk(t, s.threads[t], s.writer, s.readers, s.data);
    }
  }

  /** A reader sees one value for as long as it holds its guard, also a writer that downgraded. */
  lemma ReadersSeeOneValue(data: int, steps: seq<Step>, s: State, t: Tid)
    requires Runs(Initial(data), steps, s) && t in s.threads && s.threads[t].Reading?
    ensures s.threads[t].snap == s.data
  {
    InitialInv(data);
    RunKeeps(Initial(data), steps, s);
    assert ThreadOk(t, s.threads[t], s.writer, s.readers, s.data);
  }
}
