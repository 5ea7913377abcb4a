/** The overlaps that the code leaves possible do happen, and so do the losses at a close: short runs
    from a new session after which the server's bytes are wrong. */
module Overlaps {
  import opened Wire
  import opened Retention
  import opened Outputs
  import opened ProxyMachine
  import opened Transparency
  import opened Closing
  import opened Readers

  const NO_CUT := Cut(0, 0)
  const CONNECTED: seq<Event> := [Connected, Greeted(true), ClientTop(NO_CUT)]
  const ACK := HeadRead(Head(FROM_CLIENT_TO_SERVER, PASS, [], 1), NO_CUT)

  /** Connected, one byte read, retained and framed. */
  const FRAMED := CONNECTED + [RetainedRead([7], false)]

  const READING := START.(bypass := false, connecting := false, usable := true, reader := Reading, client := ReadingRetained)

  /** The state after FRAMED. */
  const HOLDING := READING.(client := WritingProcess(true), retained := [[7]], input := [7])

  /** The bytes of one write to the server. */
  const SEVEN_BY_READER := Relayed(Reader, [7])
  const SEVEN_BY_CLIENT_LOOP := Relayed(ClientLoop, [7])

  /** A run from a new session to this state, and a guarded one. */
  predicate Leads(es: seq<Event>, p: Proxy) {
    EnabledRun(START, es) && RunEvents(START, es) == p
  }

  predicate Reaches(es: seq<Event>, p: Proxy) {
    Leads(es, p) && GuardedRun(START, es)
  }

  lemma RunOneMore(p: Proxy, es: seq<Event>, e: Event)
    requires EnabledRun(p, es) && Enabled(RunEvents(p, es), e)
    ensures EnabledRun(p, es + [e]) && RunEvents(p, es + [e]) == Step(RunEvents(p, es), e)
    ensures GuardedRun(p, es) && (RunEvents(p, es).closed || Exclusive(RunEvents(p, es), e)) ==> GuardedRun(p, es + [e])
    decreases |es|
  {
    if es == [] {
      assert es + [e] == [e] && [e][1..] == [];
      assert EnabledRun(Step(p, e), []);
    } else {
      assert (es + [e])[1..] == es[1..] + [e];
      RunOneMore(Step(p, es[0]), es[1..], e);
    }
  }

  /** One guarded step further. */
  lemma Onward(es: seq<Event>, p: Proxy, e: Event, q: Proxy)
    requires Reaches(es, p) && Enabled(p, e) && Exclusive(p, e) && q == Step(p, e)
    ensures Reaches(es + [e], q)
  {
    RunOneMore(START, es, e);
  }

  /** One step further, guarded or not. */
  lemma Further(es: seq<Event>, p: Proxy, e: Event, q: Proxy)
    requires Leads(es, p) && Enabled(p, e) && Step(p, e) == q
    ensures Leads(es + [e], q)
  {
    RunOneMore(START, es, e);
  }

  lemma ReadingRun()
    ensures Reaches(CONNECTED, READING)
  {
    var p1 := START.(bypass := false, connecting := false, usable := true, reader := Greeting);
    var p2 := p1.(reader := Reading);
    assert Reaches([], START);
    Onward([], START, Connected, p1);
    Onward([] + [Connected], p1, Greeted(true), p2);
    Onward([] + [Connected] + [Greeted(true)], p2, ClientTop(NO_CUT), READING);
    assert [] + [Connected] + [Greeted(true)] + [ClientTop(NO_CUT)] == CONNECTED;
  }

  lemma FramedRun()
    ensures Reaches(FRAMED, HOLDING)
  {
    ReadingRun();
    Onward(CONNECTED, READING, RetainedRead([7], false), HOLDING);
  }

  lemma SplitOfSeven()
    ensures PrepareWrapping([[7]], 0, 1) == Split(1, 0, 1)
    ensures Concat(Released([[7]], 1, 0)) == [7] && Clear([[7]], 1, 0) == []
    ensures Concat([[7]]) == [7]
  {
    ConcatOne([7]);
    assert [[7]][..1] == [[7]];
  }

  /** The state after FRAMED and the acknowledgement: the byte is being released. */
  const RELEASING := HOLDING.(handled := 1, released := [7], reader := Releasing(1, 0),
                              toServer := Out([], [SEVEN_BY_READER]))

  lemma ReleasingRun()
    ensures Reaches(FRAMED + [ACK], RELEASING)
  {
    FramedRun();
    SplitOfSeven();
    Onward(FRAMED, HOLDING, ACK, RELEASING);
  }

  lemma TwoSevensArrive()
    ensures Arrived(Out([SEVEN_BY_READER, SEVEN_BY_CLIENT_LOOP], [])) == [7, 7]
  {
    EraseOne(SEVEN_BY_READER);
    EraseOne(SEVEN_BY_CLIENT_LOOP);
    EraseAppend([SEVEN_BY_READER], [SEVEN_BY_CLIENT_LOOP]);
    assert [SEVEN_BY_READER] + [SEVEN_BY_CLIENT_LOOP] == [SEVEN_BY_READER, SEVEN_BY_CLIENT_LOOP];
  }

  const RELEASING_AND_FLUSHING := RELEASING.(bypass := true, usable := false, client := ClientFlush,
                                             toServer := Out([], [SEVEN_BY_READER, SEVEN_BY_CLIENT_LOOP]))
  const RELEASED_AND_FLUSHING := RELEASING_AND_FLUSHING.(retained := [], reader := Reading,
                                                         toServer := Out([SEVEN_BY_READER], [SEVEN_BY_CLIENT_LOOP]))

  lemma FlushOverRelease()
    ensures Enabled(RELEASING, ProcessWrite(false)) && Step(RELEASING, ProcessWrite(false)) == RELEASING_AND_FLUSHING
  {
    SplitOfSeven();
  }

  lemma ReleaseOverFlush()
    ensures var e := ReaderWriteDone(true, NO_CUT);
            Enabled(RELEASING_AND_FLUSHING, e) && Step(RELEASING_AND_FLUSHING, e) == RELEASED_AND_FLUSHING
  {
    SplitOfSeven();
  }

  lemma FlushCompletes(p: Proxy)
    requires p.client == ClientFlush && p.toServer == Out([SEVEN_BY_READER], [SEVEN_BY_CLIENT_LOOP])
    ensures var e := ClientWriteDone(true, NO_CUT);
            Enabled(p, e) && Arrived(Step(p, e).toServer) == [7, 7] && Step(p, e).input == p.input
  {
    TwoSevensArrive();
  }

  /** The framed write fails while the acknowledged byte is being released: it arrives twice. */
  lemma FlushDuringReleaseSendsTwice()
    ensures var es := FRAMED + [ACK] + [ProcessWrite(false)] + [ReaderWriteDone(true, NO_CUT)] + [ClientWriteDone(true, NO_CUT)];
            && EnabledRun(START, es)
            && Arrived(RunEvents(START, es).toServer) == [7, 7]
            && RunEvents(START, es).input == [7]
  {
    ReleasingRun();
    FlushOverRelease();
    ReleaseOverFlush();
    FlushCompletes(RELEASED_AND_FLUSHING);
    var es := FRAMED + [ACK];
    Further(es, RELEASING, ProcessWrite(false), RELEASING_AND_FLUSHING);
    var es1 := es + [ProcessWrite(false)];
    Further(es1, RELEASING_AND_FLUSHING, ReaderWriteDone(true, NO_CUT), RELEASED_AND_FLUSHING);
    var es2 := es1 + [ReaderWriteDone(true, NO_CUT)];
    RunOneMore(START, es2, ClientWriteDone(true, NO_CUT));
  }

  /** The reader noticed that the handler is gone, and is flushing. */
  const FLUSHING := HOLDING.(bypass := true, usable := false, reader := ReaderFlush, toServer := Out([], [SEVEN_BY_READER]))

  lemma FlushingRun()
    ensures Reaches(FRAMED + [ProcessReadFails], FLUSHING)
  {
    FramedRun();
    SplitOfSeven();
    Onward(FRAMED, HOLDING, ProcessReadFails, FLUSHING);
  }

  const FLUSHING_TWICE := FLUSHING.(client := ClientFlush, toServer := Out([], [SEVEN_BY_READER, SEVEN_BY_CLIENT_LOOP]))
  const FLUSHED_ONCE := FLUSHING_TWICE.(retained := [], reader := NoReader, connecting := true,
                                        toServer := Out([SEVEN_BY_READER], [SEVEN_BY_CLIENT_LOOP]))

  lemma FlushOverFlush()
    ensures Enabled(FLUSHING, ProcessWrite(false)) && Step(FLUSHING, ProcessWrite(false)) == FLUSHING_TWICE
  {
    SplitOfSeven();
  }

  lemma FirstFlushCompletes()
    ensures var e := ReaderWriteDone(true, NO_CUT);
            Enabled(FLUSHING_TWICE, e) && Step(FLUSHING_TWICE, e) == FLUSHED_ONCE
  {
  }

  /** Both ends notice the failure: the reader is flushing when the framed write fails as well. */
  lemma TwoFlushesSendTwice()
    ensures var es := FRAMED + [ProcessReadFails] + [ProcessWrite(false)] + [ReaderWriteDone(true, NO_CUT)] + [ClientWriteDone(true, NO_CUT)];
            && EnabledRun(START, es)
            && Arrived(RunEvents(START, es).toServer) == [7, 7]
            && RunEvents(START, es).input == [7]
  {
    FlushingRun();
    FlushOverFlush();
    FirstFlushCompletes();
    FlushCompletes(FLUSHED_ONCE);
    var es := FRAMED + [ProcessReadFails];
    Further(es, FLUSHING, ProcessWrite(false), FLUSHING_TWICE);
    var es1 := es + [ProcessWrite(false)];
    Further(es1, FLUSHING_TWICE, ReaderWriteDone(true, NO_CUT), FLUSHED_ONCE);
    var es2 := es1 + [ReaderWriteDone(true, NO_CUT)];
    RunOneMore(START, es2, ClientWriteDone(true, NO_CUT));
  }

  /** As FLUSHING, but the framed write had completed and the next read was under way. */
  const READING_AND_FLUSHING := FLUSHING.(client := ReadingRetained)
  const LATE_READ := READING_AND_FLUSHING.(retained := [[7], [8]], client := WritingProcess(false), input := [7, 8])

  lemma ReadingAndFlushingRun()
    ensures Reaches(FRAMED + [ProcessWrite(true)] + [ClientTop(NO_CUT)] + [ProcessReadFails], READING_AND_FLUSHING)
  {
    FramedRun();
    SplitOfSeven();
    var es1, p1 := FRAMED + [ProcessWrite(true)], HOLDING.(client := LoopTop);
    Onward(FRAMED, HOLDING, ProcessWrite(true), p1);
    var es2, p2 := es1 + [ClientTop(NO_CUT)], p1.(client := ReadingRetained);
    Onward(es1, p1, ClientTop(NO_CUT), p2);
    Onward(es2, p2, ProcessReadFails, READING_AND_FLUSHING);
  }

  lemma LateReadIsCleared()
    ensures var e := ReaderWriteDone(true, NO_CUT);
            && Enabled(LATE_READ, e)
            && Step(LATE_READ, e).retained == [] && Step(LATE_READ, e).toServer == Out([SEVEN_BY_READER], [])
            && Step(LATE_READ, e).input == [7, 8]
  {
  }

  /** A read begun earlier completes during the reader's flush: its byte is cleared unsent. */
  lemma ReadDuringFlushIsLost()
    ensures var es := FRAMED + [ProcessWrite(true)] + [ClientTop(NO_CUT)] + [ProcessReadFails]
                      + [RetainedRead([8], false)] + [ReaderWriteDone(true, NO_CUT)];
            && EnabledRun(START, es)
            && RunEvents(START, es).retained == [] && RunEvents(START, es).toServer.queue == []
            && Arrived(RunEvents(START, es).toServer) == [7]
            && RunEvents(START, es).input == [7, 8]
  {
    ReadingAndFlushingRun();
    LateReadIsCleared();
    var es := FRAMED + [ProcessWrite(true)] + [ClientTop(NO_CUT)] + [ProcessReadFails];
    Further(es, READING_AND_FLUSHING, RetainedRead([8], false), LATE_READ);
    RunOneMore(START, es + [RetainedRead([8], false)], ReaderWriteDone(true, NO_CUT));
    EraseOne(SEVEN_BY_READER);
  }

  /** The client's last byte and the end of its stream arrive together: the session closes before
      the handler's acknowledgement, and the server never sees it. */
  lemma EofCloseDropsRetained()
    ensures var es := CONNECTED + [RetainedRead([7], true)] + [ProcessWrite(true)] + [ClientTop(NO_CUT)];
            && EnabledRun(START, es) && GuardedRun(START, es)
            && RunEvents(START, es).closed
            && RunEvents(START, es).toServer == NO_OUTPUT
            && RunEvents(START, es).input == [7]
  {
    ReadingRun();
    var es1, p1 := CONNECTED + [RetainedRead([7], true)], HOLDING.(eof := true);
    Onward(CONNECTED, READING, RetainedRead([7], true), p1);
    var es2, p2 := es1 + [ProcessWrite(true)], p1.(client := LoopTop);
    Onward(es1, p1, ProcessWrite(true), p2);
    Onward(es2, p2, ClientTop(NO_CUT), p2.(closed := true, client := ClientDone));
  }

  /** The byte was acknowledged and its release has begun, but a slow server has not taken it: the end
      of the client's stream closes the socket under the write. */
  lemma EofCloseCutsRelease()
    ensures var es := FRAMED + [ProcessWrite(true)] + [ClientTop(NO_CUT)] + [ACK] + [RetainedRead([], true)] + [ClientTop(NO_CUT)];
            && EnabledRun(START, es) && GuardedRun(START, es)
            && RunEvents(START, es).closed
            && RunEvents(START, es).toServer == NO_OUTPUT
            && RunEvents(START, es).input == [7]
  {
    FramedRun();
    SplitOfSeven();
    var es1, p1 := FRAMED + [ProcessWrite(true)], HOLDING.(client := LoopTop);
    Onward(FRAMED, HOLDING, ProcessWrite(true), p1);
    var es2, p2 := es1 + [ClientTop(NO_CUT)], p1.(client := ReadingRetained);
    Onward(es1, p1, ClientTop(NO_CUT), p2);
    var es3, p3 := es2 + [ACK], RELEASING.(client := ReadingRetained);
    Onward(es2, p2, ACK, p3);
    var es4, p4 := es3 + [RetainedRead([], true)], p3.(eof := true, client := LoopTop);
    Onward(es3, p3, RetainedRead([], true), p4);
    Onward(es4, p4, ClientTop(NO_CUT), p4.(closed := true, client := ClientDone, toServer := NO_OUTPUT));
  }

  /** An answer with new data, whose count is acted on only during the next connection. */
  const NEW_DATA := Head(FROM_CLIENT_TO_SERVER, PASS, [9], 2)
  const NEW := Injected([9])

  const RELEASED := RELEASING.(retained := [], reader := Reading, toServer := Out([SEVEN_BY_READER], []))
  const INJECTING := RELEASED.(reader := Injecting(NEW_DATA), toServer := Out([SEVEN_BY_READER], [NEW]))

  /** The framed write fails with nothing retained: the client loop reconnects, and the reader is left. */
  const RECONNECTING := INJECTING.(bypass := true, usable := false, connecting := true, handled := 0, released := [],
                                   client := LoopTop)

  /** Two readers: the one that still writes new data, and that of the new connection. */
  const TWO_READERS := RECONNECTING.(bypass := false, connecting := false, usable := true,
                                     reader := Greeting, others := [Injecting(NEW_DATA)])

  lemma ReleasedStep()
    ensures var e := ReaderWriteDone(true, NO_CUT);
            Enabled(RELEASING, e) && Exclusive(RELEASING, e) && Step(RELEASING, e) == RELEASED
  {
    SplitOfSeven();
  }

  lemma InjectingStep()
    ensures var e := HeadRead(NEW_DATA, NO_CUT);
            Enabled(RELEASED, e) && Exclusive(RELEASED, e) && Step(RELEASED, e) == INJECTING
  {
  }

  lemma ReconnectStep()
    ensures var e := ProcessWrite(false);
            Enabled(INJECTING, e) && Exclusive(INJECTING, e) && Step(INJECTING, e) == RECONNECTING
  {
  }

  const TO_TWO_READERS := FRAMED + [ACK] + [ReaderWriteDone(true, NO_CUT)] + [HeadRead(NEW_DATA, NO_CUT)]
                          + [ProcessWrite(false)] + [Connected]

  lemma InjectingRun()
    ensures Reaches(FRAMED + [ACK] + [ReaderWriteDone(true, NO_CUT)] + [HeadRead(NEW_DATA, NO_CUT)], INJECTING)
  {
    ReleasingRun();
    ReleasedStep();
    InjectingStep();
    var es := FRAMED + [ACK];
    Onward(es, RELEASING, ReaderWriteDone(true, NO_CUT), RELEASED);
    Onward(es + [ReaderWriteDone(true, NO_CUT)], RELEASED, HeadRead(NEW_DATA, NO_CUT), INJECTING);
  }

  lemma SecondConnectionStep()
    ensures Enabled(RECONNECTING, Connected) && Exclusive(RECONNECTING, Connected)
    ensures Step(RECONNECTING, Connected) == TWO_READERS
    ensures LiveReaders(TWO_READERS) == 2
  {
    assert [] + [Injecting(NEW_DATA)] == [Injecting(NEW_DATA)];
    ConnectedStartsOne(RECONNECTING);
    assert LiveReaders(RECONNECTING) == 1;
  }

  /** A new connection comes up while the reader of the one before is waiting for its write. */
  lemma TwoReadersAtOnce()
    ensures Reaches(TO_TWO_READERS, TWO_READERS) && LiveReaders(TWO_READERS) == 2
  {
    InjectingRun();
    ReconnectStep();
    SecondConnectionStep();
    var es := FRAMED + [ACK] + [ReaderWriteDone(true, NO_CUT)] + [HeadRead(NEW_DATA, NO_CUT)];
    Onward(es, INJECTING, ProcessWrite(false), RECONNECTING);
    Onward(es + [ProcessWrite(false)], RECONNECTING, Connected, TWO_READERS);
  }

  // ---------------------------------------------------------------- what two readers do to the deque

  /** The new reader reads; the client's bytes 8 and 6 are retained and framed. */
  const BOTH_RETAINED := TWO_READERS.(reader := Reading, client := WritingProcess(true),
                                      retained := [[8], [6]], input := [7, 8, 6])
  const TO_BOTH_RETAINED := TO_TWO_READERS + [Greeted(true)] + [ClientTop(NO_CUT)] + [RetainedRead([8], false)]
                            + [ProcessWrite(true)] + [ClientTop(NO_CUT)] + [RetainedRead([6], false)]

  lemma BothRetainedRun()
    ensures Reaches(TO_BOTH_RETAINED, BOTH_RETAINED)
  {
    TwoReadersAtOnce();
    var es0, p0 := TO_TWO_READERS + [Greeted(true)], TWO_READERS.(reader := Reading);
    Onward(TO_TWO_READERS, TWO_READERS, Greeted(true), p0);
    var es1, p1 := es0 + [ClientTop(NO_CUT)], p0.(client := ReadingRetained);
    Onward(es0, p0, ClientTop(NO_CUT), p1);
    var es2, p2 := es1 + [RetainedRead([8], false)],
                   p1.(client := WritingProcess(true), retained := [[8]], input := [7, 8]);
    Onward(es1, p1, RetainedRead([8], false), p2);
    var es3, p3 := es2 + [ProcessWrite(true)], p2.(client := LoopTop);
    Onward(es2, p2, ProcessWrite(true), p3);
    var es4, p4 := es3 + [ClientTop(NO_CUT)], p3.(client := ReadingRetained);
    Onward(es3, p3, ClientTop(NO_CUT), p4);
    Onward(es4, p4, RetainedRead([6], false), BOTH_RETAINED);
  }

  const EIGHT := Relayed(Reader, [8])

  /** The new reader releases byte 8; then it is the old reader's turn, its new data out. */
  const NEW_RELEASES := BOTH_RETAINED.(reader := Releasing(1, 0), handled := 1, released := [8],
                                       toServer := Out([SEVEN_BY_READER], [NEW, EIGHT]))
  const OLD_TURN := NEW_RELEASES.(reader := Injecting(NEW_DATA), others := [Releasing(1, 0)])

  /** Both readers release byte 8. */
  const BOTH_RELEASE := OLD_TURN.(reader := Releasing(1, 0), handled := 2, released := [8, 8],
                                  toServer := Out([SEVEN_BY_READER, NEW], [EIGHT, EIGHT]))
  const ONE_CLEARED := BOTH_RELEASE.(reader := Reading, retained := [[6]],
                                     toServer := Out([SEVEN_BY_READER, NEW, EIGHT], [EIGHT]))
  const LAST_TURN := ONE_CLEARED.(reader := Releasing(1, 0), others := [Reading])

  lemma SplitOfTwo()
    ensures PrepareWrapping([[8], [6]], 0, 1) == Split(1, 0, 1)
    ensures PrepareWrapping([[8], [6]], 1, 2) == Split(1, 0, 2)
    ensures Concat(Released([[8], [6]], 1, 0)) == [8]
    ensures Clear([[8], [6]], 1, 0) == [[6]] && Clear([[6]], 1, 0) == []
  {
    ConcatOne([8]);
    assert [[8], [6]][..1] == [[8]] && [[8], [6]][1..] == [[6]] && [[6]][1..] == [];
    assert Prepare([[6]], 1, 1) == Split(0, 0, 1) && Prepare([[6]], 2, 2) == Split(0, 0, 2);
  }

  lemma NewReleasesStep()
    ensures Enabled(BOTH_RETAINED, ACK) && Exclusive(BOTH_RETAINED, ACK) && Step(BOTH_RETAINED, ACK) == NEW_RELEASES
  {
    SplitOfTwo();
    assert Busy(BOTH_RETAINED) == NoReader;
  }

  lemma OldTurnStep()
    ensures Enabled(NEW_RELEASES, Turn(0)) && Step(NEW_RELEASES, Turn(0)) == OLD_TURN
  {
    assert [Injecting(NEW_DATA)][0 := Releasing(1, 0)] == [Releasing(1, 0)];
  }

  lemma OldReleasesStep()
    ensures var e := ReaderWriteDone(true, NO_CUT); Enabled(OLD_TURN, e) && Step(OLD_TURN, e) == BOTH_RELEASE
  {
    SplitOfTwo();
  }

  lemma OneClearedStep()
    ensures var e := ReaderWriteDone(true, NO_CUT); Enabled(BOTH_RELEASE, e) && Step(BOTH_RELEASE, e) == ONE_CLEARED
  {
    SplitOfTwo();
  }

  lemma LastTurnStep()
    ensures Enabled(ONE_CLEARED, Turn(0)) && Step(ONE_CLEARED, Turn(0)) == LAST_TURN
  {
    assert [Releasing(1, 0)][0 := Reading] == [Reading];
  }

  lemma LastClearedStep()
    ensures var e := ReaderWriteDone(true, NO_CUT);
            && Enabled(LAST_TURN, e)
            && Step(LAST_TURN, e).retained == [] && Step(LAST_TURN, e).input == [7, 8, 6]
            && Step(LAST_TURN, e).toServer == Out([SEVEN_BY_READER, NEW, EIGHT, EIGHT], [])
  {
    SplitOfTwo();
  }

  lemma SevenEightEight()
    ensures Arrived(Out([SEVEN_BY_READER, NEW, EIGHT, EIGHT], [])) == [7, 8, 8]
  {
    EraseOne(EIGHT);
    var cs := [SEVEN_BY_READER, NEW, EIGHT, EIGHT];
    assert cs[1..] == [NEW, EIGHT, EIGHT] && cs[1..][1..] == [EIGHT, EIGHT] && [EIGHT, EIGHT][1..] == [EIGHT];
    assert Erase([EIGHT, EIGHT]) == [8] + Erase([EIGHT]);
    assert Erase([NEW, EIGHT, EIGHT]) == [] + Erase([EIGHT, EIGHT]);
    assert Erase(cs) == [7] + Erase(cs[1..]);
  }

  const TO_THE_END := TO_BOTH_RETAINED + [ACK] + [Turn(0)] + [ReaderWriteDone(true, NO_CUT)]
                      + [ReaderWriteDone(true, NO_CUT)] + [Turn(0)]

  lemma BothClearRun()
    ensures Leads(TO_THE_END, LAST_TURN)
  {
    BothRetainedRun();
    NewReleasesStep();
    OldTurnStep();
    OldReleasesStep();
    OneClearedStep();
    LastTurnStep();
    Further(TO_BOTH_RETAINED, BOTH_RETAINED, ACK, NEW_RELEASES);
    var es := TO_BOTH_RETAINED + [ACK];
    Further(es, NEW_RELEASES, Turn(0), OLD_TURN);
    Further(es + [Turn(0)], OLD_TURN, ReaderWriteDone(true, NO_CUT), BOTH_RELEASE);
    var es1 := es + [Turn(0)] + [ReaderWriteDone(true, NO_CUT)];
    Further(es1, BOTH_RELEASE, ReaderWriteDone(true, NO_CUT), ONE_CLEARED);
    Further(es1 + [ReaderWriteDone(true, NO_CUT)], ONE_CLEARED, Turn(0), LAST_TURN);
  }

  /** Two readers release the same packet: byte 8 arrives twice, and since each of them then takes one
      packet off the deque, byte 6 is never sent. */
  lemma TwoReadersSendTwiceAndLose()
    ensures var es := TO_THE_END + [ReaderWriteDone(true, NO_CUT)];
            && EnabledRun(START, es)
            && RunEvents(START, es).retained == [] && RunEvents(START, es).toServer.queue == []
            && Arrived(RunEvents(START, es).toServer) == [7, 8, 8]
            && RunEvents(START, es).input == [7, 8, 6]
  {
    BothClearRun();
    LastClearedStep();
    SevenEightEight();
    RunOneMore(START, TO_THE_END, ReaderWriteDone(true, NO_CUT));
  }
}
