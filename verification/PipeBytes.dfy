/**
  What the pipe does with bytes, in every interleaving: the counter accounts
  for every byte in flight and stays within the capacity, the reader hands out
  the channel's bytes in order, and end of file comes after everything that was
  sent ahead of the close.
*/
module PipeBytes {
  import opened Bytes
  import opened Pipe
  import opened PipeWakeups

  // ----- the channel as bytes -----

  /** The bytes of a stretch of the channel, in order. */
  function Payload(messages: seq<Message>): seq<Byte> {
    if messages == [] then []
    else (if messages[0].Data? then messages[0].bytes else []) + Payload(messages[1..])
  }

  lemma PayloadAppend(a: seq<Message>, b: seq<Message>)
    ensures Payload(a + b) == Payload(a) + Payload(b)
  {
    if a == [] {
      assert a + b == b;
    } else {
      assert (a + b)[1..] == a[1..] + b;
      PayloadAppend(a[1..], b);
    }
  }

  lemma PayloadOne(m: Message)
    ensures Payload([m]) == if m.Data? then m.bytes else []
  {
    assert Payload([m][1..]) == [];
  }

  /** The chunks that writer `i` put on the channel. */
  function ChunksFrom(messages: seq<Message>, i: nat): seq<seq<Byte>> {
    if messages == [] then []
    else
      var m := messages[|messages| - 1];
      ChunksFrom(messages[..|messages| - 1], i) + (if m.Data? && m.from == i then [m.bytes] else [])
  }

  /** What was sent ahead of the close, or everything if there is none. */
  function BeforeClose(messages: seq<Message>): seq<Message> {
    if messages == [] || messages[0].Close? then [] else [messages[0]] + BeforeClose(messages[1..])
  }

  lemma BeforeCloseAt(messages: seq<Message>, n: nat)
    requires n <= |messages| && forall k | 0 <= k < n :: messages[k].Data?
    requires n == |messages| || messages[n].Close?
    ensures BeforeClose(messages) == messages[..n]
  {
    if n > 0 {
      BeforeCloseAt(messages[1..], n - 1);
      assert messages[..n] == [messages[0]] + messages[1..][..n - 1];
    }
  }

  // ----- reservations -----

  /** Bytes a writer has added to the counter and neither sent nor given back. */
  function Reserved(w: Writer): int {
    if w.pc.ConfirmOpen? || w.pc.SendData? || w.pc.Release? then w.pc.size else 0
  }

  function TotalReserved(writers: seq<Writer>): int {
    if writers == [] then 0 else TotalReserved(writers[..|writers| - 1]) + Reserved(writers[|writers| - 1])
  }

  lemma ReservedUpdate(writers: seq<Writer>, i: nat, w: Writer)
    requires i < |writers|
    ensures TotalReserved(writers[i := w]) == TotalReserved(writers) - Reserved(writers[i]) + Reserved(w)
  {
    var n := |writers| - 1;
    if i < n {
      assert writers[i := w][..n] == writers[..n][i := w];
      ReservedUpdate(writers[..n], i, w);
    } else {
      assert writers[i := w][..n] == writers[..n];
    }
  }

  lemma ReservedSigns(writers: seq<Writer>)
    requires forall i | 0 <= i < |writers| :: Reserved(writers[i]) >= 0
    ensures TotalReserved(writers) >= 0
  {
    if writers != [] {
      ReservedSigns(writers[..|writers| - 1]);
    }
  }

  // ----- the invariant -----

  /** The part of the pending chunk that has not been handed out. */
  function Unread(r: Reader): seq<Byte> {
    if r.pending.Some? && r.offset <= |r.pending.value| then r.pending.value[r.offset..] else []
  }

  predicate SoundReader(s: State) {
    var r := s.reader;
    && s.taken <= |s.sent|
    && (if r.pending.Some? then r.offset <= |r.pending.value| else r.offset == 0)
    && (r.pc.Probing? || r.eof ==> r.pending.None?)
    && (r.pc.ReadDraining? ==> r.pending.Some?)
    && (r.eof ==> !(r.pc.Reading? || r.pc.ReadDraining? || r.pc.Probing?))
  }

  /** Bytes on the channel, in the reader's hands, and reserved add up to the counter. */
  predicate Accounted(s: State) {
    && s.taken <= |s.sent|
    && s.buffered == |Payload(s.sent[s.taken..])| + |Unread(s.reader)| + TotalReserved(s.writers)
    && s.delivered + Unread(s.reader) == Payload(s.sent[..s.taken])
  }

  predicate Fits(s: State, w: Writer) {
    && (w.pc.Exchange? ==> w.pc.seen + w.pc.size <= s.capacity)
    && (w.pc.Exchange? || w.pc.ConfirmOpen? || w.pc.SendData? ==> w.pc.size <= MAX_PIPE_CHUNK_BYTES)
  }

  ghost predicate ByteInv(s: State) {
    && SoundReader(s)
    && Accounted(s)
    && s.buffered <= s.capacity
    && (forall i | 0 <= i < |s.writers| :: Fits(s, s.writers[i]))
  }

  // ----- writers -----

  lemma WriterGoFits(s: State, i: nat, lucky: bool)
    requires i < |s.writers| && Fits(s, s.writers[i]) && s.buffered <= s.capacity && SoundWriter(s, s.writers[i])
    ensures Fits(s, WriterAfter(s, i, lucky)) && BufferedAfter(s, s.writers[i], lucky) <= s.capacity
  {
  }

  lemma WriterGoBalances(s: State, i: nat, lucky: bool)
    requires i < |s.writers| && SoundWriter(s, s.writers[i])
    ensures BufferedAfter(s, s.writers[i], lucky) - s.buffered
         == |Payload(Sends(s, i))| + Reserved(WriterAfter(s, i, lucky)) - Reserved(s.writers[i])
  {
    if Sends(s, i) != [] {
      PayloadOne(Sends(s, i)[0]);
    }
  }

  lemma SendingKeepsAccount(s: State, s': State, more: seq<Message>)
    requires Accounted(s) && s'.sent == s.sent + more && s'.taken == s.taken
    requires s'.reader == s.reader && s'.delivered == s.delivered
    requires s'.buffered == s.buffered + |Payload(more)| + TotalReserved(s'.writers) - TotalReserved(s.writers)
    ensures Accounted(s')
  {
    assert s'.sent[s.taken..] == s.sent[s.taken..] + more;
    assert s'.sent[..s.taken] == s.sent[..s.taken];
    PayloadAppend(s.sent[s.taken..], more);
  }

  lemma WriterGoKeepsBytes(s: State, i: nat, lucky: bool)
    requires ByteInv(s) && i < |s.writers| && SoundWriter(s, s.writers[i])
    ensures ByteInv(WriterGo(s, i, lucky))
  {
    var s' := WriterGo(s, i, lucky);
    WriterGoFits(s, i, lucky);
    WriterGoBalances(s, i, lucky);
    ReservedUpdate(s.writers, i, WriterAfter(s, i, lucky));
    SendingKeepsAccount(s, s', Sends(s, i));
  }

  lemma WriterCallKeepsReserved(s: State, i: nat, command: WriterCommand)
    requires i < |s.writers|
    ensures TotalReserved(WriterCall(s, i, command).writers) == TotalReserved(s.writers)
  {
    var s' := WriterCall(s, i, command);
    if |s'.writers| > |s.writers| {
      assert s'.writers[..|s.writers|] == s.writers;
    } else if s' != s {
      ReservedUpdate(s.writers, i, s'.writers[i]);
      assert Reserved(s'.writers[i]) == Reserved(s.writers[i]) == 0;
    }
  }

  lemma WriterCallKeepsChannel(s: State, i: nat, command: WriterCommand)
    requires i < |s.writers|
    ensures var s' := WriterCall(s, i, command);
      && s'.sent == s.sent && s'.taken == s.taken && s'.reader == s.reader && s'.delivered == s.delivered
      && s'.buffered == s.buffered && s'.capacity == s.capacity && |s.writers| <= |s'.writers|
      && (forall j | 0 <= j < |s.writers| :: s'.writers[j].answers == s.writers[j].answers)
      && (forall j | |s.writers| <= j < |s'.writers| :: s'.writers[j].answers == [])
      && (forall j | 0 <= j < |s'.writers| :: s'.writers[j].pc.Exchange? || s'.writers[j].pc.ConfirmOpen? || s'.writers[j].pc.SendData? ==>
            j < |s.writers| && s'.writers[j].pc == s.writers[j].pc)
  {
  }

  lemma WriterCallKeepsBytes(s: State, i: nat, command: WriterCommand)
    requires ByteInv(s) && i < |s.writers|
    ensures ByteInv(WriterCall(s, i, command))
  {
    var s' := WriterCall(s, i, command);
    WriterCallKeepsReserved(s, i, command);
    WriterCallKeepsChannel(s, i, command);
    SameChannelKeepsBytes(s, s', []);
  }

  /** A step outside the writers' own programs, which may put a close on the channel. */
  lemma SameChannelKeepsBytes(s: State, s': State, more: seq<Message>)
    requires ByteInv(s) && s'.sent == s.sent + more && Payload(more) == []
    requires s'.taken == s.taken && s'.reader == s.reader && s'.delivered == s.delivered
    requires s'.buffered == s.buffered && s'.capacity == s.capacity
    requires TotalReserved(s'.writers) == TotalReserved(s.writers)
    requires forall j | 0 <= j < |s'.writers| && !Fits(s', s'.writers[j]) :: j < |s.writers| && !Fits(s, s.writers[j])
    ensures ByteInv(s')
  {
    SendingKeepsAccount(s, s', more);
  }

  // ----- the reader and the closers -----

  lemma ReaderGoKeepsSound(s: State)
    requires SoundReader(s)
    ensures SoundReader(ReaderGo(s))
  {
  }

  /** A received chunk moves from the channel to the reader's hands. */
  lemma ReceiveKeepsAccount(s: State)
    requires SoundReader(s) && Accounted(s) && Receives(s.reader)
    ensures Accounted(ReaderGo(s))
  {
    var s' := ReaderGo(s);
    assert Reads(s.reader) == [] && s'.delivered == s.delivered && s'.buffered == s.buffered;
    if s.taken < |s.sent| {
      var m := s.sent[s.taken];
      PayloadOne(m);
      assert s.sent[s.taken..] == [m] + s.sent[s.taken + 1..];
      assert s.sent[..s.taken + 1] == s.sent[..s.taken] + [m];
      PayloadAppend([m], s.sent[s.taken + 1..]);
      PayloadAppend(s.sent[..s.taken], [m]);
      assert Unread(s'.reader) == Payload([m]);
    }
  }

  lemma ReadTakesFromUnread(s: State)
    requires SoundReader(s) && !Receives(s.reader)
    ensures Unread(s.reader) == Reads(s.reader) + Unread(NextReader(s))
  {
  }

  lemma HandingOutKeepsAccount(s: State, s': State, read: seq<Byte>)
    requires Accounted(s) && Unread(s.reader) == read + Unread(s'.reader)
    requires s'.delivered == s.delivered + read && s'.buffered == s.buffered - |read|
    requires s'.sent == s.sent && s'.taken == s.taken && s'.writers == s.writers
    ensures Accounted(s')
  {
    assert s.delivered + Unread(s.reader) == s'.delivered + Unread(s'.reader);
  }

  lemma ReadKeepsAccount(s: State)
    requires SoundReader(s) && Accounted(s) && !Receives(s.reader)
    ensures Accounted(ReaderGo(s))
  {
    ReadTakesFromUnread(s);
    HandingOutKeepsAccount(s, ReaderGo(s), Reads(s.reader));
  }

  lemma ReaderKeepsBytes(s: State, command: ReaderCommand)
    requires ByteInv(s)
    ensures ByteInv(Step(s, ReaderAct(command)))
  {
    if command.GoReader? {
      ReaderGoKeepsSound(s);
      if Receives(s.reader) { ReceiveKeepsAccount(s); } else { ReadKeepsAccount(s); }
    }
  }

  function ClosesWith(s: State, i: nat, command: CloserCommand): seq<Message>
    requires i < |s.closers|
  {
    if command.GoCloser? && s.closers[i].CloserSendClose? && s.receiving then [Close] else []
  }

  lemma CloserKeepsChannel(s: State, i: nat, command: CloserCommand)
    requires i < |s.closers|
    ensures var s' := Step(s, CloserAct(i, command));
      && s'.sent == s.sent + ClosesWith(s, i, command) && Payload(ClosesWith(s, i, command)) == []
      && s'.taken == s.taken && s'.reader == s.reader && s'.delivered == s.delivered
      && s'.buffered == s.buffered && s'.capacity == s.capacity && s'.writers == s.writers
  {
    PayloadOne(Close);
  }

  lemma CloserKeepsBytes(s: State, i: nat, command: CloserCommand)
    requires ByteInv(s) && i < |s.closers|
    ensures ByteInv(Step(s, CloserAct(i, command)))
  {
    CloserKeepsChannel(s, i, command);
    SameChannelKeepsBytes(s, Step(s, CloserAct(i, command)), ClosesWith(s, i, command));
  }

  lemma {:induction false} RunsKeepBytes(capacity: nat, schedule: seq<Action>)
    ensures ByteInv(Run(capacity, schedule))
  {
    if schedule == [] {
      assert Init(capacity).writers[..0] == [];
    } else {
      var before := schedule[..|schedule| - 1];
      RunsKeep(capacity, before);
      RunsKeepBytes(capacity, before);
      var s := Run(capacity, before);
      match schedule[|schedule| - 1]
      case WriterAct(i, command) =>
        if i < |s.writers| {
          assert SoundWriter(s, s.writers[i]);
          if command.Go? { WriterGoKeepsBytes(s, i, command.lucky); } else { WriterCallKeepsBytes(s, i, command); }
        }
      case ReaderAct(command) => ReaderKeepsBytes(s, command);
      case CloserAct(i, command) => if i < |s.closers| { CloserKeepsBytes(s, i, command); }
    }
  }

  /** The counter is exactly the bytes in flight, and never exceeds the capacity or goes below zero. */
  lemma Conservation(capacity: nat, schedule: seq<Action>)
    ensures var s := Run(capacity, schedule);
      && s.taken <= |s.sent|
      && 0 <= s.buffered <= s.capacity
      && s.buffered == |Payload(s.sent[s.taken..])| + |Unread(s.reader)| + TotalReserved(s.writers)
      && |s.delivered| + s.buffered == |Payload(s.sent)| + TotalReserved(s.writers)
  {
    RunsKeep(capacity, schedule);
    RunsKeepBytes(capacity, schedule);
    var s := Run(capacity, schedule);
    forall i | 0 <= i < |s.writers|
      ensures Reserved(s.writers[i]) >= 0
    {
      assert SoundWriter(s, s.writers[i]);
    }
    ReservedSigns(s.writers);
    assert s.sent == s.sent[..s.taken] + s.sent[s.taken..];
    PayloadAppend(s.sent[..s.taken], s.sent[s.taken..]);
  }

  /** The reader's output is a prefix of the bytes in the order the channel took them. */
  lemma ReadsInOrder(capacity: nat, schedule: seq<Action>)
    ensures Run(capacity, schedule).delivered <= Payload(Run(capacity, schedule).sent)
  {
    RunsKeepBytes(capacity, schedule);
    var s := Run(capacity, schedule);
    assert s.sent == s.sent[..s.taken] + s.sent[s.taken..];
    PayloadAppend(s.sent[..s.taken], s.sent[s.taken..]);
  }

  // ----- close and end of file -----

  /** Thread `t` has won the right to send the close and has not yet done so. */
  predicate Announces(s: State, t: Thread) {
    match t
    case ReaderThread => false
    case WriterThread(i) => i < |s.writers| && s.writers[i].pc.SendClose?
    case CloserThread(i) => i < |s.closers| && s.closers[i].CloserSendClose?
  }

  predicate HasClose(messages: seq<Message>) {
    exists k :: 0 <= k < |messages| && messages[k].Close?
  }

  ghost predicate ClosesOnce(s: State) {
    && (forall t | Announces(s, t) :: s.closed && !HasClose(s.sent))
    && (forall t, u | Announces(s, t) && Announces(s, u) :: t == u)
    && (HasClose(s.sent) ==> s.closed)
    && (forall j, k | 0 <= j < k < |s.sent| :: !(s.sent[j].Close? && s.sent[k].Close?))
  }

  /** The reader stops at the close, or when nobody is left to send. */
  predicate StopsAtClose(s: State) {
    && s.taken <= |s.sent|
    && (forall k | 0 <= k < s.taken :: s.sent[k].Close? ==> k == s.taken - 1 && s.reader.eof)
    && (s.reader.eof ==>
          || (s.taken > 0 && s.sent[s.taken - 1].Close?)
          || (s.taken == |s.sent| && NoSenders(s)))
  }

  ghost predicate CloseInv(s: State) {
    ClosesOnce(s) && StopsAtClose(s)
  }

  lemma WriterGoKeepsClose(s: State, i: nat, lucky: bool)
    requires CloseInv(s) && i < |s.writers|
    ensures CloseInv(WriterGo(s, i, lucky))
  {
    var s' := WriterGo(s, i, lucky);
    forall t
      ensures Announces(s', t) == (Announces(s, t) && t != WriterThread(i))
    {
    }
    assert Announces(s, WriterThread(i)) == s.writers[i].pc.SendClose?;
    assert HasClose(s'.sent) ==> HasClose(s.sent) || s.writers[i].pc.SendClose?;
  }

  lemma WriterCallKeepsClose(s: State, i: nat, command: WriterCommand)
    requires CloseInv(s) && i < |s.writers|
    ensures CloseInv(WriterCall(s, i, command))
  {
    var s' := WriterCall(s, i, command);
    forall t
      ensures Announces(s', t) == (Announces(s, t) || (t == WriterThread(i) && s'.closed && !s.closed))
    {
    }
    assert NoSenders(s) ==> s.writers[i].pc.Dropped?;
  }

  lemma ReaderKeepsClose(s: State, command: ReaderCommand)
    requires CloseInv(s) && SoundReader(s)
    ensures CloseInv(Step(s, ReaderAct(command)))
  {
    var s' := Step(s, ReaderAct(command));
    forall t
      ensures Announces(s', t) == Announces(s, t)
    {
    }
  }

  lemma CloserKeepsClose(s: State, i: nat, command: CloserCommand)
    requires CloseInv(s) && i < |s.closers|
    ensures CloseInv(Step(s, CloserAct(i, command)))
  {
    var s' := Step(s, CloserAct(i, command));
    forall t
      ensures Announces(s', t) == if t == CloserThread(i) then s'.closers[i].CloserSendClose? else Announces(s, t)
    {
    }
    assert Announces(s, CloserThread(i)) == s.closers[i].CloserSendClose?;
    assert HasClose(s'.sent) ==> HasClose(s.sent) || s.closers[i].CloserSendClose?;
  }

  // ----- what each writer got through -----

  /** What an answer says was taken of its write: that many bytes of the argument, from the first on. */
  function Taken(a: Answer): seq<Byte> {
    if 0 <= a.count <= |a.argument| then a.argument[..a.count] else []
  }

  function TakenAll(answers: seq<Answer>): seq<seq<Byte>> {
    seq(|answers|, k requires 0 <= k < |answers| => Taken(answers[k]))
  }

  predicate SoundAnswers(answers: seq<Answer>) {
    forall k | 0 <= k < |answers| :: 0 < answers[k].count <= |answers[k].argument|
  }

  /** What the answers of a writer say was taken is exactly its chunks on the channel, in order. */
  ghost predicate AcceptedInv(s: State) {
    && (forall i | 0 <= i < |s.writers| :: TakenAll(s.writers[i].answers) == ChunksFrom(s.sent, i))
    && (forall i | 0 <= i < |s.writers| :: SoundAnswers(s.writers[i].answers))
    && (forall k | 0 <= k < |s.sent| && s.sent[k].Data? ::
          s.sent[k].from < |s.writers| && 0 < |s.sent[k].bytes| <= MAX_PIPE_CHUNK_BYTES)
  }

  lemma ChunksFromSnoc(messages: seq<Message>, m: Message, i: nat)
    ensures ChunksFrom(messages + [m], i) == ChunksFrom(messages, i) + (if m.Data? && m.from == i then [m.bytes] else [])
  {
    assert (messages + [m])[..|messages|] == messages;
  }

  lemma NoChunksFromStrangers(messages: seq<Message>, i: nat)
    requires forall k | 0 <= k < |messages| && messages[k].Data? :: messages[k].from < i
    ensures ChunksFrom(messages, i) == []
  {
  }

  lemma AnswerTaken(s: State, i: nat, lucky: bool)
    requires i < |s.writers| && SoundWriter(s, s.writers[i]) && Sends(s, i) != []
    ensures var m, answers := Sends(s, i)[0], WriterAfter(s, i, lucky).answers;
      && Sends(s, i) == [m]
      && (if m.Data? then m.from == i && TakenAll(answers) == TakenAll(s.writers[i].answers) + [m.bytes]
          else answers == s.writers[i].answers)
  {
    var w := s.writers[i];
    if w.pc.SendData? {
      assert TakenAll(w.answers + [Answer(w.op.bytes, w.pc.size)]) == TakenAll(w.answers) + [w.op.bytes[..w.pc.size]];
    }
  }

  lemma WriterGoKeepsAccepted(s: State, i: nat, lucky: bool)
    requires AcceptedInv(s) && i < |s.writers| && SoundWriter(s, s.writers[i]) && Fits(s, s.writers[i])
    ensures AcceptedInv(WriterGo(s, i, lucky))
  {
    var s' := WriterGo(s, i, lucky);
    if Sends(s, i) == [] {
      assert s'.sent == s.sent && s'.writers[i].answers == s.writers[i].answers;
    } else {
      var m := Sends(s, i)[0];
      assert s'.sent == s.sent + [m];
      forall j | 0 <= j < |s.writers|
        ensures TakenAll(s'.writers[j].answers) == ChunksFrom(s'.sent, j)
      {
        ChunksFromSnoc(s.sent, m, j);
        AnswerTaken(s, i, lucky);
      }
    }
  }

  lemma NothingAccepted(s: State, s': State, more: seq<Message>)
    requires AcceptedInv(s) && s'.sent == s.sent + more && (more == [] || more == [Close])
    requires |s.writers| <= |s'.writers|
    requires forall j | 0 <= j < |s.writers| :: s'.writers[j].answers == s.writers[j].answers
    requires forall j | |s.writers| <= j < |s'.writers| :: s'.writers[j].answers == []
    ensures AcceptedInv(s')
  {
    if more == [] {
      assert s'.sent == s.sent;
    }
    forall j | 0 <= j < |s'.writers|
      ensures TakenAll(s'.writers[j].answers) == ChunksFrom(s'.sent, j)
    {
      ChunksFromSnoc(s.sent, Close, j);
      if j >= |s.writers| {
        NoChunksFromStrangers(s.sent, j);
      }
    }
  }

  lemma StepKeepsClose(s: State, a: Action)
    requires SoundReader(s) && CloseInv(s)
    ensures CloseInv(Step(s, a))
  {
    if a.WriterAct? && a.index < |s.writers| {
      if a.writerCommand.Go? {
        WriterGoKeepsClose(s, a.index, a.writerCommand.lucky);
      } else {
        WriterCallKeepsClose(s, a.index, a.writerCommand);
      }
    } else if a.ReaderAct? {
      ReaderKeepsClose(s, a.readerCommand);
    } else if a.CloserAct? && a.closer < |s.closers| {
      CloserKeepsClose(s, a.closer, a.closerCommand);
    }
  }

  lemma StepKeepsAccepted(s: State, a: Action)
    requires AcceptedInv(s)
    requires forall i | 0 <= i < |s.writers| :: SoundWriter(s, s.writers[i]) && Fits(s, s.writers[i])
    ensures AcceptedInv(Step(s, a))
  {
    if a.WriterAct? && a.index < |s.writers| {
      if a.writerCommand.Go? {
        WriterGoKeepsAccepted(s, a.index, a.writerCommand.lucky);
      } else {
        WriterCallKeepsChannel(s, a.index, a.writerCommand);
        NothingAccepted(s, Step(s, a), []);
      }
    } else if a.ReaderAct? {
      NothingAccepted(s, Step(s, a), []);
    } else if a.CloserAct? && a.closer < |s.closers| {
      CloserKeepsChannel(s, a.closer, a.closerCommand);
      NothingAccepted(s, Step(s, a), ClosesWith(s, a.closer, a.closerCommand));
    }
  }

  lemma {:induction false} RunsKeepClose(capacity: nat, schedule: seq<Action>)
    ensures CloseInv(Run(capacity, schedule)) && AcceptedInv(Run(capacity, schedule))
  {
    if schedule != [] {
      var before, a := schedule[..|schedule| - 1], schedule[|schedule| - 1];
      RunsKeep(capacity, before);
      RunsKeepBytes(capacity, before);
      RunsKeepClose(capacity, before);
      StepKeepsClose(Run(capacity, before), a);
      StepKeepsAccepted(Run(capacity, before), a);
    }
  }

  /** At most one close is ever sent, and at end of file every byte sent ahead of it has come out, and no other. */
  lemma EndOfFile(capacity: nat, schedule: seq<Action>)
    ensures var s := Run(capacity, schedule);
      && (forall j, k | 0 <= j < k < |s.sent| :: !(s.sent[j].Close? && s.sent[k].Close?))
      && (s.reader.eof ==> s.reader.pending.None? && s.delivered == Payload(BeforeClose(s.sent)))
  {
    RunsKeepBytes(capacity, schedule);
    RunsKeepClose(capacity, schedule);
    if Run(capacity, schedule).reader.eof {
      AllDelivered(Run(capacity, schedule));
    }
  }

  lemma AllDelivered(s: State)
    requires SoundReader(s) && Accounted(s) && StopsAtClose(s) && s.reader.eof
    ensures s.delivered == Payload(BeforeClose(s.sent))
  {
    assert Unread(s.reader) == [] && s.delivered + [] == s.delivered;
    if s.taken > 0 && s.sent[s.taken - 1].Close? {
      BeforeCloseAt(s.sent, s.taken - 1);
      assert s.sent[..s.taken] == s.sent[..s.taken - 1] + [Close];
      PayloadAppend(s.sent[..s.taken - 1], [Close]);
      PayloadOne(Close);
      assert Payload(s.sent[..s.taken]) == Payload(s.sent[..s.taken - 1]);
    } else {
      assert s.sent[..s.taken] == s.sent;
      BeforeCloseAt(s.sent, s.taken);
    }
  }

  // ----- whose bytes go out -----

  /** The operation of the latest poll of writer `i` that was let in. */
  function LastPoll(capacity: nat, schedule: seq<Action>, i: nat): Operation {
    if schedule == [] then Readiness
    else
      var before, a := schedule[..|schedule| - 1], schedule[|schedule| - 1];
      var s := Run(capacity, before);
      if a.WriterAct? && a.index == i && a.writerCommand.Poll? && a.writerCommand.op != Write([])
         && i < |s.writers| && s.writers[i].active && (s.writers[i].pc.Rest? || s.writers[i].pc.Parked?)
      then a.writerCommand.op
      else LastPoll(capacity, before, i)
  }

  /** What must have been answered: for each chunk put on the channel, the write it came from and its size. */
  function Told(capacity: nat, schedule: seq<Action>, i: nat): seq<Answer> {
    if schedule == [] then []
    else
      var before := schedule[..|schedule| - 1];
      var s, s', op := Run(capacity, before), Run(capacity, schedule), LastPoll(capacity, before, i);
      if |s.sent| < |s'.sent| && s'.sent[|s.sent|].Data? && s'.sent[|s.sent|].from == i && op.Write?
      then Told(capacity, before, i) + [Answer(op.bytes, |s'.sent[|s.sent|].bytes|)]
      else Told(capacity, before, i)
  }

  lemma WriterCallTakesPoll(s: State, i: nat, command: WriterCommand)
    requires i < |s.writers|
    ensures var s' := WriterCall(s, i, command);
      && (forall j | 0 <= j < |s.writers| && j != i :: s'.writers[j].op == s.writers[j].op)
      && (forall j | |s.writers| <= j < |s'.writers| :: s'.writers[j].op == Readiness && s'.writers[j].answers == [])
      && s'.writers[i].op ==
           (if command.Poll? && command.op != Write([]) && s.writers[i].active && (s.writers[i].pc.Rest? || s.writers[i].pc.Parked?)
            then command.op else s.writers[i].op)
  {
  }

  lemma NobodyThere(capacity: nat, schedule: seq<Action>, i: nat)
    requires i >= |Run(capacity, schedule).writers|
    ensures LastPoll(capacity, schedule, i) == Readiness && Told(capacity, schedule, i) == []
  {
    if schedule != [] {
      var before, a := schedule[..|schedule| - 1], schedule[|schedule| - 1];
      WritersStay(Run(capacity, before), a);
      NobodyThere(capacity, before, i);
    }
  }

  lemma WritersStay(s: State, a: Action)
    ensures |s.writers| <= |Step(s, a).writers|
  {
  }

  /** A writer is at the write that it was polled with last. */
  lemma {:induction false} AtItsWrite(capacity: nat, schedule: seq<Action>, i: nat)
    requires i < |Run(capacity, schedule).writers|
    ensures Run(capacity, schedule).writers[i].op == LastPoll(capacity, schedule, i)
  {
    if schedule != [] {
      var before, a := schedule[..|schedule| - 1], schedule[|schedule| - 1];
      var s := Run(capacity, before);
      if i < |s.writers| { AtItsWrite(capacity, before, i); } else { NobodyThere(capacity, before, i); }
      if a.WriterAct? && a.index < |s.writers| && !a.writerCommand.Go? {
        WriterCallTakesPoll(s, a.index, a.writerCommand);
      }
    }
  }

  /** The step by which a chunk goes out is the step by which its write is answered. */
  lemma StepAnswers(s: State, a: Action, i: nat)
    requires i < |s.writers| && SoundWriter(s, s.writers[i])
    requires s.writers[i].pc.SendData? ==> s.writers[i].op.Write?
    ensures var s' := Step(s, a);
      && |s.writers| <= |s'.writers| && |s.sent| <= |s'.sent|
      && s'.writers[i].answers ==
           (if |s.sent| < |s'.sent| && s'.sent[|s.sent|].Data? && s'.sent[|s.sent|].from == i && s.writers[i].op.Write?
            then s.writers[i].answers + [Answer(s.writers[i].op.bytes, |s'.sent[|s.sent|].bytes|)]
            else s.writers[i].answers)
  {
    if a.WriterAct? && a.index < |s.writers| {
      if a.writerCommand.Go? {
        if Sends(s, a.index) == [] { assert Step(s, a).sent == s.sent; }
      } else {
        WriterCallKeepsChannel(s, a.index, a.writerCommand);
      }
    } else if a.CloserAct? && a.closer < |s.closers| {
      CloserKeepsChannel(s, a.closer, a.closerCommand);
    }
  }

  lemma NewWriterIsFresh(s: State, a: Action, i: nat)
    requires |s.writers| <= i < |Step(s, a).writers|
    ensures Step(s, a).writers[i].answers == [] && Step(s, a).sent == s.sent
  {
    WriterCallTakesPoll(s, a.index, a.writerCommand);
  }

  /** What the last step of a schedule adds to what must have been answered. */
  lemma ToldSnoc(capacity: nat, schedule: seq<Action>, i: nat)
    requires schedule != []
    ensures var before := schedule[..|schedule| - 1];
      var s, s', op := Run(capacity, before), Step(Run(capacity, before), schedule[|schedule| - 1]), LastPoll(capacity, before, i);
      Told(capacity, schedule, i) == Told(capacity, before, i) + (
        if |s.sent| < |s'.sent| && s'.sent[|s.sent|].Data? && s'.sent[|s.sent|].from == i && op.Write?
        then [Answer(op.bytes, |s'.sent[|s.sent|].bytes|)] else [])
  {
  }

  lemma {:induction false} AnsweredAsTold(capacity: nat, schedule: seq<Action>, i: nat)
    requires i < |Run(capacity, schedule).writers|
    ensures Run(capacity, schedule).writers[i].answers == Told(capacity, schedule, i)
  {
    if schedule != [] {
      var before, a := schedule[..|schedule| - 1], schedule[|schedule| - 1];
      var s := Run(capacity, before);
      ToldSnoc(capacity, schedule, i);
      if i < |s.writers| {
        AnsweredAsTold(capacity, before, i);
        AtItsWrite(capacity, before, i);
        RunsKeep(capacity, before);
        assert SoundWriter(s, s.writers[i]);
        StepAnswers(s, a, i);
      } else {
        NobodyThere(capacity, before, i);
        NewWriterIsFresh(s, a, i);
      }
    }
  }

  /**
    Over every run, each chunk on the channel is a non-empty prefix of the
    argument of the write that put it there, which is the one its writer was
    polled with last, and that write was answered with its size.
  */
  lemma ChunksArePrefixes(capacity: nat, schedule: seq<Action>, i: nat)
    requires i < |Run(capacity, schedule).writers|
    ensures var told := Told(capacity, schedule, i);
      && Run(capacity, schedule).writers[i].answers == told && SoundAnswers(told)
      && ChunksFrom(Run(capacity, schedule).sent, i) == TakenAll(told)
  {
    AnsweredAsTold(capacity, schedule, i);
    RunsKeepClose(capacity, schedule);
  }

  /** With one producer, what its writes were told was taken is what the channel carries. */
  lemma SingleProducer(capacity: nat, schedule: seq<Action>, i: nat)
    requires i < |Run(capacity, schedule).writers|
    requires forall m | m in Run(capacity, schedule).sent && m.Data? :: m.from == i
    ensures Concat(TakenAll(Told(capacity, schedule, i))) == Payload(Run(capacity, schedule).sent)
  {
    ChunksArePrefixes(capacity, schedule, i);
    ChunksOfOne(Run(capacity, schedule).sent, i);
  }

  /** How many bytes of its text a producer has got rid of. */
  function Written(answers: seq<Answer>): nat {
    if answers == [] then 0 else Written(answers[..|answers| - 1]) + |Taken(answers[|answers| - 1])|
  }

  /** After every short write the producer goes on with what is left of its text, or with the front of that. */
  ghost predicate Rewrites(text: seq<Byte>, answers: seq<Answer>) {
    forall k | 0 <= k < |answers| :: Written(answers[..k]) <= |text| && answers[k].argument <= text[Written(answers[..k])..]
  }

  lemma RewritesBefore(text: seq<Byte>, answers: seq<Answer>, n: nat)
    requires Rewrites(text, answers) && n < |answers|
    ensures Rewrites(text, answers[..n])
    ensures Written(answers[..n]) <= |text| && answers[n].argument <= text[Written(answers[..n])..]
  {
    assert forall k | 0 <= k < n :: answers[..n][..k] == answers[..k];
  }

  lemma TakenSnoc(answers: seq<Answer>)
    requires answers != []
    ensures var n := |answers| - 1;
      Concat(TakenAll(answers)) == Concat(TakenAll(answers[..n])) + Taken(answers[n])
  {
    var n := |answers| - 1;
    assert TakenAll(answers) == TakenAll(answers[..n]) + [Taken(answers[n])];
    ConcatSnoc(TakenAll(answers[..n]), Taken(answers[n]));
  }

  lemma FrontGoesOn(text: seq<Byte>, at: nat, argument: seq<Byte>, n: nat)
    requires at <= |text| && argument <= text[at..] && n <= |argument|
    ensures at + n <= |text| && text[..at] + argument[..n] == text[..at + n]
  {
    assert argument[..n] == text[at..][..n];
  }

  lemma TakenIsFront(a: Answer)
    ensures |Taken(a)| <= |a.argument| && Taken(a) == a.argument[..|Taken(a)|]
  {
  }

  lemma {:induction false} RewritingIsWriting(text: seq<Byte>, answers: seq<Answer>)
    requires Rewrites(text, answers)
    ensures Written(answers) <= |text| && Concat(TakenAll(answers)) == text[..Written(answers)]
  {
    if answers != [] {
      var n := |answers| - 1;
      var before, last := answers[..n], answers[n];
      RewritesBefore(text, answers, n);
      RewritingIsWriting(text, before);
      TakenSnoc(answers);
      TakenIsFront(last);
      FrontGoesOn(text, Written(before), last.argument, |Taken(last)|);
    }
  }

  /** A single producer that goes on with the rest after every short write puts its text on the channel, from the first byte on. */
  lemma TextGoesThrough(capacity: nat, schedule: seq<Action>, i: nat, text: seq<Byte>)
    requires i < |Run(capacity, schedule).writers|
    requires forall m | m in Run(capacity, schedule).sent && m.Data? :: m.from == i
    requires Rewrites(text, Told(capacity, schedule, i))
    ensures var n := Written(Told(capacity, schedule, i));
      && n <= |text| && Payload(Run(capacity, schedule).sent) == text[..n]
      && Run(capacity, schedule).delivered <= text
  {
    SingleProducer(capacity, schedule, i);
    RewritingIsWriting(text, Told(capacity, schedule, i));
    ReadsInOrder(capacity, schedule);
  }

  lemma ChunksOfOne(messages: seq<Message>, i: nat)
    requires forall m | m in messages && m.Data? :: m.from == i
    ensures Concat(ChunksFrom(messages, i)) == Payload(messages)
  {
    if messages != [] {
      var n := |messages| - 1;
      ChunksOfOne(messages[..n], i);
      assert messages == messages[..n] + [messages[n]];
      PayloadAppend(messages[..n], [messages[n]]);
      PayloadOne(messages[n]);
      assert messages[n] in messages;
      assert Payload(messages[..n]) + [] == Payload(messages[..n]) && ChunksFrom(messages[..n], i) + [] == ChunksFrom(messages[..n], i);
      if messages[n].Data? {
        ConcatSnoc(ChunksFrom(messages[..n], i), messages[n].bytes);
      }
    }
  }
}
