/** The session object of the proxy: its flags, the request deque and the loops' code between two
    suspensions. Every method refines one event of the step machine on real packet memory, and
    what it writes to the handler is the encoding of the machine's frames. */
module ProxySession {
  import opened Basics
  import opened Wire
  import opened Retention
  import opened Outputs
  import opened ProxyMachine
  import opened Blocks

  /** An event writes one frame to the handler, or none. */
  function Framed(fs: seq<Frame>): seq<Byte> {
    if |fs| == 1 && fs[0].Encodable() then EncodeFrame(fs[0]) else []
  }

  class Session {
    const request: Direction // data_from_client_to_server_ and req_handled_total_pkg_len_
    var block: DataBlock?    // the client loop's block
    var bypass: bool
    var connecting: bool
    var usable: bool
    var eof: bool
    var closed: bool
    var client: ClientAt
    var server: ServerAt
    var reader: ReaderAt        // the reader whose turn it is
    var others: seq<ReaderAt>   // readers left over from earlier connections
    var processBuf: seq<Byte> // the reader's buffer for new data

    // what went over the sockets
    ghost var input: seq<Byte>
    ghost var toServer: Out
    ghost var fromServer: seq<Byte>
    ghost var toClient: Out
    ghost var released: seq<Byte>
    ghost var toProcess: seq<Byte> // written to the handler on the current socket

    /** The state of the step machine that this object stands for. */
    ghost function View(): Proxy
      reads this, request
    {
      Proxy(request.contents, request.handled, bypass, connecting, usable, eof, closed, client, server, reader, others,
            input, toServer, fromServer, toClient, released)
    }

    /** The packet memory is sound, and nothing retained lies in the free part of the block. It reads
        the deque and the block only: a method that modifies neither keeps it. */
    ghost predicate MemoryValid()
      reads `block, request`stored, request`contents, block, set i | 0 <= i < |request.stored| :: request.stored[i].buf
    {
      request.Valid() && (block != null ==> block.Valid() && Below(request.stored, block.buffer, block.used))
    }

    /** A read into the block was started with room for a head and 64 bytes. */
    ghost predicate ReadRoom()
      reads `client, `block, block
    {
      client == ReadingRetained ==> block != null && block.used + 69 <= block.capacity
    }

    ghost predicate Valid()
      reads `client, `block, request`stored, request`contents, block, set i | 0 <= i < |request.stored| :: request.stored[i].buf
    {
      MemoryValid() && ReadRoom()
    }

    constructor ()
      ensures Valid() && View() == START && fresh(request) && block == null
    {
      request := new Direction();
      block := null;
      bypass, connecting, usable, eof, closed := true, true, false, false, false;
      client, server, reader, others := LoopTop, ServerLoopTop, NoReader, [];
      input, toServer, fromServer, toClient, released, toProcess := [], NO_OUTPUT, [], NO_OUTPUT, [], [];
      processBuf := [];
    }

    // -------------------------------------------------------------- sockets

    method SendToServer(c: Chunk)
      modifies this`toServer
      ensures View() == WriteToServer(old(View()), c)
    {
      if !closed { toServer := Begin(toServer, c); }
    }

    method SendToClient(c: Chunk)
      modifies this`toClient
      ensures View() == WriteToClient(old(View()), c)
    {
      if !closed { toClient := Begin(toClient, c); }
    }

    /** grace_close */
    method GraceClose(ghost cut: Cut)
      modifies this`closed, this`toServer, this`toClient
      ensures View() == Close(old(View()), cut)
    {
      if !closed {
        closed := true;
        toServer, toClient := Shut(toServer, cut.server), Shut(toClient, cut.client);
      }
    }

    // -------------------------------------------------------------- connect_process

    method ConnectProcess()
      modifies this`connecting, this`released, this`usable, this`toProcess, request`handled
      ensures View() == SpawnConnect(old(View()))
      ensures toProcess == if old(connecting) then old(toProcess) else []
    {
      if connecting { return; }
      connecting := true;
      usable, toProcess := false, [];
      request.handled, released := 0, [];
    }

    /** The connection is up: four_tuple_2process starts to write the greeting. */
    method ProcessConnected(greeting: seq<Byte>)
      requires connecting && !closed && |greeting| < TWO32
      modifies this`bypass, this`connecting, this`usable, this`reader, this`others, this`toProcess
      ensures View() == OnConnected(old(View()))
      ensures toProcess == EncodeFrame(Frame(FOUR_TUPLE, greeting))
    {
      bypass, connecting := false, false;
      if reader != NoReader { others := others + [reader]; }
      usable, reader := true, Greeting;
      toProcess := [FOUR_TUPLE] + EncodeU32(|greeting|) + greeting;
    }

    method GreetingDone(ok: bool)
      requires reader == Greeting
      modifies this`usable, this`reader, this`client
      ensures View() == OnGreeted(old(View()), ok) && (old(ReadRoom()) ==> ReadRoom())
    {
      if ok {
        reader := Reading;
        return;
      }
      reader, usable := NoReader, false;
      if client == WritingProcess(true) { client := WritingProcess(false); }
    }

    /** The turn of another reader comes. */
    method TakeTurn(k: nat)
      requires k < |others|
      modifies this`reader, this`others
      ensures View() == OnTurn(old(View()), k)
    {
      reader, others := others[k], others[k := reader];
    }

    // -------------------------------------------------------------- bypass

    /** inner_enable_bypass up to its write. */
    method EnableBypass(owner: Owner)
      requires MemoryValid()
      modifies this`bypass, this`usable, this`toServer
      ensures View() == StartFlush(old(View()), owner)
    {
      if !bypass {
        bypass := true;
      }
      usable := false;
      if request.stored == [] {
        return;
      }
      var bytes := request.FlushBytes();
      SendToServer(Relayed(owner, bytes));
    }

    // -------------------------------------------------------------- client loop

    /** A read into the block starts, with a new block if too little of this one is free. */
    method StartRetainedRead()
      requires MemoryValid()
      modifies this`client, this`block
      ensures Valid() && View() == old(View()).(client := ReadingRetained)
      ensures block != old(block) ==> block != null && fresh(block) && fresh(block.buffer)
    {
      block := request.PrepareBlock(block);
      client := ReadingRetained;
    }

    /** The top of client_request: end of stream, direct relay, or a read into the block. */
    method ClientLoop(ghost cut: Cut)
      requires Valid() && client == LoopTop
      modifies this`closed, this`client, this`block, this`toServer, this`toClient
      ensures Valid() && View() == OnClientTop(old(View()), cut)
      ensures block != old(block) ==> block != null && fresh(block) && fresh(block.buffer)
    {
      if eof {
        GraceClose(cut);
        client := ClientDone;
      } else if bypass {
        client := ReadingDirect;
      } else {
        StartRetainedRead();
      }
    }

    method ClientReadError(ghost cut: Cut)
      requires client == ReadingDirect || client == ReadingRetained
      modifies this`closed, this`client, this`toServer, this`toClient
      ensures ReadRoom() && View() == Close(old(View()), cut).(client := ClientDone)
    {
      GraceClose(cut);
      client := ClientDone;
    }

    /** client_2proxy_2server: a read for a direct relay completes, and the relay starts. */
    method RelayFromClient(data: seq<Byte>, end: bool)
      requires client == ReadingDirect && (end || data != [])
      modifies this`eof, this`input, this`client, this`toServer
      ensures ReadRoom() && View() == OnDirectRead(old(View()), data, end)
    {
      if end { eof := true; }
      input := input + data;
      if |data| == 0 {
        client := LoopTop;
        return;
      }
      SendToServer(Relayed(Owner.ClientLoop, data));
      client := WritingServer(data);
    }

    /** The packet is retained, and its frame written if the socket accepts writes. */
    method RetainAndFrame(data: seq<Byte>, sent: bool)
      requires MemoryValid() && block != null && 0 < |data| <= block.Available() - HEAD
      modifies this`toProcess, request`stored, request`contents, block, block.buffer
      ensures MemoryValid() && request.contents == old(request.contents) + [data]
      ensures toProcess == old(toProcess) + if sent then EncodeFrame(Frame(FROM_CLIENT_TO_SERVER, data)) else []
    {
      var frame := request.StoreRead(block, FROM_CLIENT_TO_SERVER, data);
      if sent { toProcess := toProcess + frame; }
    }

    method RecordRead(data: seq<Byte>, end: bool)
      requires client == ReadingRetained
      modifies this`eof, this`input, this`client
      ensures client == if data == [] then LoopTop else WritingProcess(usable && !closed)
      ensures View() == old(View()).(eof := old(eof) || end, input := old(input) + data, client := client)
    {
      if end { eof := true; }
      input := input + data;
      client := if |data| == 0 then LoopTop else WritingProcess(usable && !closed);
    }

    /** A read into the block completes. */
    method StoreFromClient(data: seq<Byte>, end: bool)
      requires MemoryValid() && block != null && client == ReadingRetained && (end || data != [])
      requires |data| <= block.Available() - HEAD
      modifies this`eof, this`input, this`client, this`toProcess
      modifies request`stored, request`contents, block, block.buffer
      ensures MemoryValid() && ReadRoom() && View() == OnRetainedRead(old(View()), data, end)
      ensures toProcess == old(toProcess) + if data != [] && usable && !closed
                                            then EncodeFrame(Frame(FROM_CLIENT_TO_SERVER, data)) else []
      ensures toProcess == old(toProcess) + Framed(FramesSent(old(View()), RetainedRead(data, end)))
    {
      RecordRead(data, end);
      if |data| != 0 {
        RetainAndFrame(data, usable && !closed);
      }
    }

    /** The framed write completes; on failure bypass is enabled towards the server. */
    method ProcessWriteDone(ok: bool)
      requires MemoryValid() && client.WritingProcess?
      modifies this`bypass, this`usable, this`toServer
      modifies this`connecting, this`released, this`toProcess, this`client, request`handled
      ensures ReadRoom() && View() == OnProcessWrite(old(View()), ok)
      ensures toProcess == if connecting && !old(connecting) then [] else old(toProcess)
    {
      if ok {
        client := LoopTop;
        return;
      }
      var nothing := request.stored == [];
      EnableBypass(Owner.ClientLoop);
      if nothing {
        ConnectProcess();
        client := LoopTop;
      } else {
        client := ClientFlush;
      }
    }

    /** A flush is over: the deque is cleared. */
    method ClearRetained()
      requires MemoryValid()
      modifies request`stored, request`contents
      ensures MemoryValid() && View() == old(View()).(retained := [])
    {
      request.Empty();
    }

    /** The direct relay completes, or breaks. */
    method RelayCompleted(ok: bool, ghost cut: Cut)
      requires client.WritingServer?
      modifies this`closed, this`client, this`toServer, this`toClient
      ensures ReadRoom() && View() == OnClientWriteDone(old(View()), ok, cut)
    {
      if ok {
        toServer, client := Finish(toServer), LoopTop;
      } else {
        GraceClose(cut);
        client := ClientDone;
      }
    }

    /** The flush of the client loop completes: the deque is cleared, and reconnecting starts. */
    method ClientFlushed()
      requires MemoryValid() && client == ClientFlush
      modifies this`client, this`toServer, request`stored, request`contents
      modifies this`connecting, this`released, this`usable, this`toProcess, request`handled
      ensures MemoryValid() && ReadRoom() && View() == OnClientWriteDone(old(View()), true, Cut(0, 0))
      ensures toProcess == if connecting && !old(connecting) then [] else old(toProcess)
    {
      toServer, client := Finish(toServer), LoopTop;
      ClearRetained();
      ConnectProcess();
    }

    /** The same, or it breaks. */
    method ClientFlushCompleted(ok: bool, ghost cut: Cut)
      requires MemoryValid() && client == ClientFlush
      modifies this`closed, this`client, this`toServer, this`toClient, request`stored, request`contents
      modifies this`connecting, this`released, this`usable, this`toProcess, request`handled
      ensures MemoryValid() && ReadRoom() && View() == OnClientWriteDone(old(View()), ok, cut)
      ensures toProcess == if connecting && !old(connecting) then [] else old(toProcess)
    {
      if ok {
        ClientFlushed();
      } else {
        GraceClose(cut);
        client := ClientDone;
      }
    }

    // -------------------------------------------------------------- server loop

    /** The top of server_response: end of stream, or the empty head to the handler, or a read. */
    method ServerLoop(ghost cut: Cut)
      requires server == ServerLoopTop
      modifies this`closed, this`server, this`toProcess, this`toServer, this`toClient
      ensures View() == OnServerTop(old(View()), cut)
      ensures toProcess == old(toProcess) + if old(!eof && !bypass && usable && !closed)
                                            then EncodeFrame(Frame(FROM_SERVER_TO_CLIENT, [])) else []
      ensures toProcess == old(toProcess) + Framed(FramesSent(old(View()), ServerTop(cut)))
    {
      if eof {
        GraceClose(cut);
        server := ServerDone;
        return;
      }
      if bypass {
        server := ReadingServer;
        return;
      }
      server := SendingHead;
      if usable && !closed {
        toProcess := toProcess + [FROM_SERVER_TO_CLIENT] + EncodeU32(0);
      }
    }

    /** The write of the empty head is over, well or badly: its error is ignored. */
    method HeadWritten()
      requires server == SendingHead
      modifies this`server
      ensures Enabled(old(View()), HeadSent) && View() == Step(old(View()), HeadSent)
    {
      server := ReadingServer;
    }

    /** server_2proxy_2client: a read completes, and the relay starts. */
    method RelayFromServer(data: seq<Byte>, end: bool)
      requires server == ReadingServer && (end || data != [])
      modifies this`eof, this`fromServer, this`server, this`toClient
      ensures View() == OnServerRead(old(View()), data, end)
    {
      if end { eof := true; }
      fromServer := fromServer + data;
      if |data| == 0 {
        server := ServerLoopTop;
        return;
      }
      SendToClient(Relayed(Owner.ServerLoop, data));
      server := WritingClient(data);
    }

    method ServerWriteCompleted(ok: bool, ghost cut: Cut)
      requires server.WritingClient?
      modifies this`closed, this`server, this`toServer, this`toClient
      ensures View() == OnServerWriteDone(old(View()), ok, cut)
    {
      if ok {
        toClient, server := Finish(toClient), ServerLoopTop;
      } else {
        GraceClose(cut);
        server := ServerDone;
      }
    }

    method ServerReadError(ghost cut: Cut)
      requires server == ReadingServer
      modifies this`closed, this`server, this`toServer, this`toClient
      ensures View() == Close(old(View()), cut).(server := ServerDone)
    {
      GraceClose(cut);
      server := ServerDone;
    }

    // -------------------------------------------------------------- reader of the handler's answers

    /** process_2proxy for a head and then for the new data announced in it, into the reused buffer:
        exactly the first complete message of the stream is taken, or nothing. */
    method ReadAnswer(stream: seq<Byte>) returns (answer: Option<Head>, rest: seq<Byte>)
      modifies this`processBuf
      ensures Whole(RESPONSE, stream) ==>
        var n := MessageLen(RESPONSE, stream);
        answer == Some(DecodeHead(stream[..n])) && rest == stream[n..]
      ensures !Whole(RESPONSE, stream) ==> answer == None && rest == stream
    {
      if |stream| < 16 {
        return None, stream;
      }
      var len := DecodeU32(stream[4..8]);
      if len > |processBuf| {
        processBuf := processBuf + seq(len - |processBuf|, _ => 0);
      }
      if |stream| - 16 < len {
        return None, stream;
      }
      var head, body := stream[..16], stream[16..16 + len];
      processBuf := body + processBuf[len..];
      assert stream[..16 + len] == head + body;
      assert processBuf[..len] == body && (head + body)[8..16] == head[8..16];
      return Some(Head(head[0], head[1], processBuf[..len], DecodeU64(head[8..16]))), stream[16 + len..];
    }

    /** inner_proxy_2client_or_2server for a request's pass verdict, up to the write of the handled
        data. */
    method Pass(ack: U64)
      requires MemoryValid() && Fits(request.contents, request.handled, ack)
      requires request.handled + |Concat(request.contents)| < TWO64
      modifies this`toServer, this`released, this`reader, request`handled
      ensures View() == OnPass(old(View()), ack)
    {
      var buffers, count, used, reach := request.PrepareTransferPacket(ack);
      ReleasedHolds(request.stored, request.contents, count, used);
      var out := Gather(buffers, Released(request.contents, count, used));
      released, reader := released + out, Releasing(count, used);
      SendToServer(Relayed(Reader, out));
    }

    /** inner_proxy_2client_or_2server from the verdict on. */
    method Verdict(h: Head, ghost cut: Cut)
      requires MemoryValid() && h.Encodable() && VerdictFits(View(), h)
      requires request.handled + |Concat(request.contents)| < TWO64
      modifies this`closed, this`toServer, this`toClient, this`released, this`reader, request`handled
      ensures View() == OnVerdict(old(View()), h, cut)
    {
      if h.act == BLOCK {
        GraceClose(cut);
        reader := NoReader;
      } else if h.kind == FROM_CLIENT_TO_SERVER {
        Pass(h.handled);
      } else {
        reader := Releasing(0, 0);
      }
    }

    /** The body of process_2proxy_2client_or_2server once a head and its new data are read: new data
        goes out first. */
    method HandleHead(h: Head, ghost cut: Cut)
      requires MemoryValid() && h.Encodable() && reader == Reading
      requires h.newData == [] ==> VerdictFits(View(), h)
      requires request.handled + |Concat(request.contents)| < TWO64
      modifies this`closed, this`toServer, this`toClient, this`released, this`reader, request`handled
      ensures View() == OnHeadRead(old(View()), h, cut)
    {
      if h.kind != FROM_CLIENT_TO_SERVER && h.kind != FROM_SERVER_TO_CLIENT {
        return;
      }
      if |h.newData| == 0 {
        Verdict(h, cut);
        return;
      }
      if h.kind == FROM_CLIENT_TO_SERVER {
        SendToServer(Injected(h.newData));
      } else {
        SendToClient(Injected(h.newData));
      }
      reader := Injecting(h);
    }

    /** The write of new data completes, or breaks. */
    method InjectionCompleted(ok: bool, ghost cut: Cut)
      requires MemoryValid() && reader.Injecting? && reader.head.Encodable() && ReaderCanFinish(View(), ok)
      requires request.handled + |Concat(request.contents)| < TWO64
      modifies this`closed, this`toServer, this`toClient, this`released, this`reader, request`handled
      ensures View() == OnReaderWriteDone(old(View()), ok, cut)
    {
      var h := reader.head;
      if !ok {
        GraceClose(cut);
        reader := NoReader;
        return;
      }
      FinishInjection(h);
      Verdict(h, cut);
    }

    method FinishInjection(h: Head)
      modifies this`toServer, this`toClient
      ensures View() == InjectionSent(old(View()), h)
    {
      if h.kind == FROM_CLIENT_TO_SERVER {
        toServer := Finish(toServer);
      } else {
        toClient := Finish(toClient);
      }
    }

    method ClearReleased(count: nat, used: nat)
      requires MemoryValid() && InRange(request.contents, count, used)
      modifies request`stored, request`contents
      ensures MemoryValid() && request.contents == Clear(old(request.contents), count, used)
    {
      request.ClearHandledPacket(count, used);
    }

    /** clear_handled_packet, once the handled data is written. */
    method ReleaseDone(count: nat, used: nat)
      requires MemoryValid() && InRange(request.contents, count, used)
      modifies this`toServer, this`reader, request`stored, request`contents
      ensures MemoryValid() && View() == OnReleased(old(View()), count, used)
    {
      reader := Reading;
      if count > 0 || used > 0 {
        toServer := Finish(toServer);
        ClearReleased(count, used);
      }
    }

    /** The write of the handled data completes, or breaks. */
    method ReleaseCompleted(ok: bool, ghost cut: Cut)
      requires Valid() && reader.Releasing? && ReaderCanFinish(View(), ok)
      modifies this`closed, this`toServer, this`toClient, this`reader, request`stored, request`contents
      ensures Valid() && View() == OnReaderWriteDone(old(View()), ok, cut)
    {
      if ok {
        ReleaseDone(reader.count, reader.used);
      } else {
        GraceClose(cut);
        reader := NoReader;
      }
    }

    /** process_2proxy on a read error. */
    method ProcessReadError()
      requires MemoryValid() && reader == Reading
      modifies this`bypass, this`usable, this`toServer
      modifies this`connecting, this`released, this`toProcess, this`reader, request`handled
      ensures View() == OnProcessReadFails(old(View()))
      ensures toProcess == if connecting && !old(connecting) then [] else old(toProcess)
    {
      if closed {
        reader := NoReader;
        return;
      }
      var nothing := request.stored == [];
      EnableBypass(Reader);
      if nothing {
        ConnectProcess();
        reader := NoReader;
      } else {
        reader := ReaderFlush;
      }
    }

    /** The flush of the reader completes: the deque is cleared. */
    method ReaderFlushed()
      requires MemoryValid()
      modifies this`reader, this`toServer, request`stored, request`contents
      ensures MemoryValid()
      ensures View() == old(View()).(toServer := Finish(old(toServer)), retained := [], reader := NoReader)
    {
      toServer, reader := Finish(toServer), NoReader;
      ClearRetained();
    }

    /** The flush of the reader completes, or breaks: either way it goes on to reconnect. */
    method ReaderFlushCompleted(ok: bool, ghost cut: Cut)
      requires MemoryValid() && reader == ReaderFlush && ReaderCanFinish(View(), ok)
      modifies this`closed, this`reader, this`toServer, this`toClient, request`stored, request`contents
      modifies this`connecting, this`released, this`usable, this`toProcess, request`handled
      ensures MemoryValid() && View() == OnReaderWriteDone(old(View()), ok, cut)
      ensures toProcess == if connecting && !old(connecting) then [] else old(toProcess)
    {
      if ok {
        ReaderFlushed();
      } else {
        GraceClose(cut);
        reader := NoReader;
      }
      ConnectProcess();
    }
  }
}
