/**
  What one call on the pipe of rust/src/stream.rs does from its beginning to its
  return: undisturbed ones in full, and reads in every interleaving.
*/
module PipeCalls {
  import opened Bytes
  import opened Pipe
  import opened PipeBytes

  // ----- writes -----

  /** The next accesses of one writer, with nobody between them. */
  function Goes(s: State, i: nat, n: nat): State {
    if n == 0 then s else Step(Goes(s, i, n - 1), WriterAct(i, Go(true)))
  }

  predicate CanWrite(s: State, i: nat) {
    i < |s.writers| && s.writers[i].pc.Rest? && s.writers[i].active && s.receiving
  }

  function Called(s: State, i: nat, bytes: seq<Byte>): State {
    Step(s, WriterAct(i, Poll(Write(bytes))))
  }

  /** One access after another, until the compare-and-exchange. */
  lemma FindsRoom(s: State, i: nat, bytes: seq<Byte>)
    requires CanWrite(s, i) && !s.closed && 0 <= s.buffered < s.capacity && bytes != []
    ensures var n := Min(Min(|bytes|, s.capacity - s.buffered), MAX_PIPE_CHUNK_BYTES);
      Goes(Called(s, i, bytes), i, 3) ==
        s.(writers := s.writers[i := s.writers[i].(op := Write(bytes), pc := Exchange(s.buffered, n))])
  {
    var w := s.writers[i].(op := Write(bytes));
    var s0 := Called(s, i, bytes);
    assert s0 == s.(writers := s.writers[i := w.(pc := LoadClosed)]);
    var s1 := Step(s0, WriterAct(i, Go(true)));
    assert s1 == s.(writers := s.writers[i := w.(pc := LoadBuffered)]);
    var s2 := Step(s1, WriterAct(i, Go(true)));
    assert s2 == s.(writers := s.writers[i := w.(pc := Reserve(s.capacity - s.buffered))]);
    assert Goes(s0, i, 1) == s1 && Goes(s0, i, 2) == s2;
  }

  lemma SendsChunk(s: State, i: nat, bytes: seq<Byte>, n: nat)
    requires CanWrite(s, i) && !s.closed && 0 < n <= |bytes|
    ensures var w := s.writers[i].(op := Write(bytes));
      Goes(s.(writers := s.writers[i := w.(pc := Exchange(s.buffered, n))]), i, 3) ==
        s.(buffered := s.buffered + n, sent := s.sent + [Data(i, bytes[..n])],
           writers := s.writers[i := w.(pc := Rest, answers := w.answers + [Answer(bytes, n)])])
  {
    var w := s.writers[i].(op := Write(bytes));
    var s0 := s.(writers := s.writers[i := w.(pc := Exchange(s.buffered, n))]);
    var s1 := Step(s0, WriterAct(i, Go(true)));
    assert s1 == s.(buffered := s.buffered + n, writers := s.writers[i := w.(pc := ConfirmOpen(n))]);
    var s2 := Step(s1, WriterAct(i, Go(true)));
    assert s2 == s.(buffered := s.buffered + n, writers := s.writers[i := w.(pc := SendData(n))]);
    assert Goes(s0, i, 1) == s1 && Goes(s0, i, 2) == s2;
  }

  lemma GoesOn(s: State, i: nat, m: nat, n: nat)
    ensures Goes(s, i, m + n) == Goes(Goes(s, i, m), i, n)
  {
  }

  /**
    A write that nothing disturbs takes as much from the front of its argument
    as there is room for, at most a chunk, and is told so; and changes nothing else.
  */
  lemma WritesWhatFits(s: State, i: nat, bytes: seq<Byte>)
    requires CanWrite(s, i) && !s.closed && 0 <= s.buffered < s.capacity && bytes != []
    ensures var n := Min(Min(|bytes|, s.capacity - s.buffered), MAX_PIPE_CHUNK_BYTES);
      var w := s.writers[i];
      && 0 < n <= |bytes|
      && Goes(Called(s, i, bytes), i, 6) ==
           s.(buffered := s.buffered + n, sent := s.sent + [Data(i, bytes[..n])],
              writers := s.writers[i := w.(op := Write(bytes), pc := Rest, answers := w.answers + [Answer(bytes, n)])])
  {
    FindsRoom(s, i, bytes);
    SendsChunk(s, i, bytes, Min(Min(|bytes|, s.capacity - s.buffered), MAX_PIPE_CHUNK_BYTES));
    GoesOn(Called(s, i, bytes), i, 3, 3);
  }

  /** On a closed pipe it ends at once, with nothing taken and no answer. */
  lemma WritesNothingWhenClosed(s: State, i: nat, bytes: seq<Byte>)
    requires CanWrite(s, i) && s.closed && bytes != []
    ensures Goes(Called(s, i, bytes), i, 1) == s.(writers := s.writers[i := s.writers[i].(op := Write(bytes))])
  {
    var s0 := Called(s, i, bytes);
    assert s0 == s.(writers := s.writers[i := s.writers[i].(op := Write(bytes), pc := LoadClosed)]);
    assert Goes(s0, i, 1) == Step(Goes(s0, i, 0), WriterAct(i, Go(true)));
  }

  // ----- reads -----

  /** The room of the latest read that was let in, and what had been handed out before it. */
  function LastRead(capacity: nat, schedule: seq<Action>): (nat, nat) {
    if schedule == [] then (0, 0)
    else
      var before, a := schedule[..|schedule| - 1], schedule[|schedule| - 1];
      var s := Run(capacity, before);
      if a.ReaderAct? && a.readerCommand.PollRead? && s.reader.pc.ReaderRest? && a.readerCommand.room > 0 && !s.reader.eof
      then (a.readerCommand.room, |s.delivered|)
      else LastRead(capacity, before)
  }

  /** What is left of the room is what has not been handed out of it. */
  predicate FitsRoom(s: State, read: (nat, nat)) {
    && read.1 <= |s.delivered| <= read.1 + read.0
    && (s.reader.pc.Reading? ==> 0 < s.reader.pc.room == read.1 + read.0 - |s.delivered|)
    && (s.reader.pc.ReadDraining? ==> s.reader.pc.room == read.1 + read.0 - |s.delivered|)
  }

  lemma OthersHandOutNothing(s: State, a: Action)
    requires !a.ReaderAct?
    ensures Step(s, a).delivered == s.delivered && Step(s, a).reader == s.reader
  {
  }

  lemma ReaderFitsRoom(s: State, command: ReaderCommand, read: (nat, nat))
    requires FitsRoom(s, read)
    ensures FitsRoom(Step(s, ReaderAct(command)),
      if command.PollRead? && s.reader.pc.ReaderRest? && command.room > 0 && !s.reader.eof then (command.room, |s.delivered|) else read)
  {
  }

  /** In every run, a read hands out no more than it has room for. */
  lemma {:induction false} ReadsFitTheRoom(capacity: nat, schedule: seq<Action>)
    ensures FitsRoom(Run(capacity, schedule), LastRead(capacity, schedule))
  {
    if schedule != [] {
      var before, a := schedule[..|schedule| - 1], schedule[|schedule| - 1];
      ReadsFitTheRoom(capacity, before);
      if a.ReaderAct? {
        ReaderFitsRoom(Run(capacity, before), a.readerCommand, LastRead(capacity, before));
      } else {
        OthersHandOutNothing(Run(capacity, before), a);
      }
    }
  }

  /**
    And a read does not return before it is full unless the channel is empty or
    the close comes next; while it has bytes at hand it hands out as many as fit.
  */
  lemma ReadsGoOn(capacity: nat, schedule: seq<Action>)
    requires Run(capacity, schedule).reader.pc.Reading?
    ensures var s := Run(capacity, schedule);
      var t := Step(s, ReaderAct(GoReader));
      && s.taken <= |s.sent|
      && (t.reader.pc.ReaderRest? ==> Unread(s.reader) == [] && (s.taken == |s.sent| || s.sent[s.taken].Close?))
      && (Unread(s.reader) != [] ==>
            && t.delivered == s.delivered + Unread(s.reader)[..Min(|Unread(s.reader)|, s.reader.pc.room)]
            && t.buffered == s.buffered - Min(|Unread(s.reader)|, s.reader.pc.room))
  {
    ReadsFitTheRoom(capacity, schedule);
    RunsKeepBytes(capacity, schedule);
  }
}
