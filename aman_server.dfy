/**
 * The TCP server of the EuroScope plug-in (AmanServer.cpp): the framing of
 * the bytes a client sends into newline-terminated messages, and the FIFO
 * queue of outbound messages with its guard and its sender.
 *
 * The threads, sockets and the condition variable are not modelled: each
 * method is one step of one thread, the outcomes of `recv` and `send` are
 * parameters, and `processMessage` and `onClientDisconnected` (defined by
 * the plug-in) are recorded as the messages handed over and the number of
 * notifications.
 */
module AmanServerModel {
  import opened Wrappers
  import Search
  import Strings

  const NUL: char := '\0'

  /** `buffer[bytesReceived] = '\0'; receivedData += buffer;`: a chunk as a C string, cut at its first NUL. */
  function CString(chunk: string): (s: string)
    ensures |s| <= |chunk| && s == chunk[..|s|]
    ensures forall i | 0 <= i < |s| :: s[i] != NUL
    ensures |s| < |chunk| ==> chunk[|s|] == NUL
  {
    if chunk == [] || chunk[0] == NUL then [] else [chunk[0]] + CString(chunk[1..])
  }

  function IsNewline(): char -> bool
  {
    c => c == '\n'
  }

  /** The text between newlines, the last piece being the part of a message still to come. */
  function Pieces(data: string): (r: seq<string>)
    ensures |r| >= 1
  {
    Strings.SplitWhere(data, IsNewline())
  }

  /** The complete (newline-terminated) messages of the received text. */
  function Lines(data: string): seq<string>
  {
    Pieces(data)[..|Pieces(data)| - 1]
  }

  /** What stays in the buffer: the text after the last newline. */
  function Rest(data: string): string
  {
    Pieces(data)[|Pieces(data)| - 1]
  }

  /**
   * Framing loses nothing: the messages and the rest, joined with
   * newlines, are the received text; neither holds a newline.
   */
  lemma {:induction false} FramingLosesNothing(data: string)
    ensures Strings.Join(Lines(data) + [Rest(data)], "\n") == data
    ensures forall k | 0 <= k < |Lines(data)| :: '\n' !in Lines(data)[k]
    ensures '\n' !in Rest(data)
  {
    var pieces := Pieces(data);
    assert Lines(data) + [Rest(data)] == pieces;
    JoinSplit(data);
    forall k | 0 <= k < |pieces| ensures '\n' !in pieces[k] {
      assert Strings.NoneSatisfy(pieces[k], IsNewline());
    }
  }

  lemma {:induction false} JoinSplit(data: string)
    ensures Strings.Join(Pieces(data), "\n") == data
  {
    var i := Search.FirstIndex(data, IsNewline());
    if i.None? {
      Strings.SplitNoSeparator(data, IsNewline());
    } else {
      var a, b := data[..i.value], data[i.value + 1..];
      assert data == a + ['\n'] + b;
      Strings.SplitNoSeparator(a, IsNewline());
      Strings.SplitConcat(a, '\n', b, IsNewline());
      JoinSplit(b);
      assert Pieces(data) == [a] + Pieces(b);
    }
  }

  /** The pieces of text whose first newline is at `pos`. */
  lemma {:induction false} PiecesAtNewline(data: string, pos: nat)
    requires Search.FirstIndex(data, IsNewline()) == Some(pos)
    ensures Lines(data) == [data[..pos]] + Lines(data[pos + 1..])
    ensures Rest(data) == Rest(data[pos + 1..])
  {
    var a, b := data[..pos], data[pos + 1..];
    assert data == a + ['\n'] + b;
    Strings.SplitNoSeparator(a, IsNewline());
    Strings.SplitConcat(a, '\n', b, IsNewline());
    assert Pieces(data) == [a] + Pieces(b);
  }

  /** Text with no newline is all rest. */
  lemma {:induction false} PiecesNoNewline(data: string)
    requires Search.FirstIndex(data, IsNewline()).None?
    ensures Lines(data) == [] && Rest(data) == data
  {
    Strings.SplitNoSeparator(data, IsNewline());
  }

  /**
   * Framing chunk by chunk is framing the whole stream: the rest kept from
   * the text so far, followed by the next chunk, yields the same further
   * messages as the whole text would.
   */
  lemma {:induction false} FramingComposes(data: string, chunk: string)
    ensures Lines(data + chunk) == Lines(data) + Lines(Rest(data) + chunk)
    ensures Rest(data + chunk) == Rest(Rest(data) + chunk)
  {
    PiecesCompose(data, chunk);
    InitAppend(Lines(data), Pieces(Rest(data) + chunk));
  }

  lemma {:induction false} PiecesCompose(data: string, chunk: string)
    ensures Pieces(data + chunk) == Lines(data) + Pieces(Rest(data) + chunk)
  {
    var sd, sc := Pieces(data), Pieces(chunk);
    Strings.SplitAppend(data, chunk, IsNewline());
    Strings.SplitAppend(Rest(data), chunk, IsNewline());
    RestIsOnePiece(data);
    GlueLast(sd, sc);
  }

  /** The rest holds no newline, so it is a single piece. */
  lemma {:induction false} RestIsOnePiece(data: string)
    ensures Pieces(Rest(data)) == [Rest(data)]
  {
    var sd := Pieces(data);
    assert Strings.NoneSatisfy(sd[|sd| - 1], IsNewline());
    Strings.SplitNoSeparator(Rest(data), IsNewline());
  }

  /** Gluing touches only the last piece on the left. */
  lemma {:induction false} GlueLast(sx: seq<string>, sy: seq<string>)
    requires |sx| >= 1 && |sy| >= 1
    ensures Strings.Glue(sx, sy) == sx[..|sx| - 1] + Strings.Glue([sx[|sx| - 1]], sy)
  {
    assert [sx[|sx| - 1]][..0] == [];
  }

  lemma {:induction false} InitAppend<T>(a: seq<T>, b: seq<T>)
    requires |b| >= 1
    ensures (a + b)[..|a + b| - 1] == a + b[..|b| - 1]
    ensures (a + b)[|a + b| - 1] == b[|b| - 1]
  {
  }

  /** Taking the message up to the first newline off the front of the buffer. */
  lemma {:induction false} FrameStep(data: string, done: seq<string>, rest: string, pos: nat)
    requires Search.FirstIndex(rest, IsNewline()) == Some(pos)
    requires Lines(data) == done + Lines(rest) && Rest(data) == Rest(rest)
    ensures var message := rest[..pos];
      && Lines(data) == (done + [message]) + Lines(rest[pos + 1..])
      && Rest(data) == Rest(rest[pos + 1..])
      && Strings.NonEmpty(done + [message]) == Strings.NonEmpty(done) + (if message != [] then [message] else [])
  {
    var message := rest[..pos];
    PiecesAtNewline(rest, pos);
    Strings.NonEmptyAppend(done, [message]);
    Strings.NonEmptyCons(message, []);
  }

  /** A buffer with no newline left holds no further message. */
  lemma {:induction false} FrameDone(data: string, done: seq<string>, rest: string)
    requires Search.FirstIndex(rest, IsNewline()).None?
    requires Lines(data) == done + Lines(rest) && Rest(data) == Rest(rest)
    ensures Lines(data) == done && Rest(data) == rest
  {
    PiecesNoNewline(rest);
    assert done + [] == done;
  }

  /** A message written by the sender: the message and a newline (lines 192-193). */
  function Wire(messages: seq<string>): string
  {
    if messages == [] then "" else messages[0] + "\n" + Wire(messages[1..])
  }

  /**
   * What the sender writes, the receiver's framing reads back: messages
   * free of newlines arrive one by one, with nothing left over.
   */
  lemma {:induction false} WireRoundTrip(messages: seq<string>)
    requires forall k | 0 <= k < |messages| :: '\n' !in messages[k]
    ensures Lines(Wire(messages)) == messages && Rest(Wire(messages)) == ""
  {
    if messages == [] {
      assert Pieces("") == [""];
    } else {
      var m, more := messages[0], messages[1..];
      WireRoundTrip(more);
      assert Wire(messages) == m + ['\n'] + Wire(more);
      assert Strings.NoneSatisfy(m, IsNewline());
      Strings.SplitNoSeparator(m, IsNewline());
      Strings.SplitConcat(m, '\n', Wire(more), IsNewline());
      assert Pieces(Wire(messages)) == [m] + Pieces(Wire(more));
      assert messages == [m] + more;
    }
  }

  /** The result of one `recv`: bytes (a positive count), an orderly close (0), or an error (negative). */
  datatype RecvResult = Data(chunk: string) | Closed | Failed

  /** How `handleClientConnection` ended. */
  datatype Ending = NotConnected | ClosedByClient | RecvError | InputEnds

  /** `recv` into a 4096-byte buffer, keeping one byte for the terminating NUL, returns 1 to 4095 bytes. */
  predicate FromRecv(results: seq<RecvResult>)
  {
    forall k | 0 <= k < |results| :: results[k].Data? ==> 0 < |results[k].chunk| < 4096
  }

  /** The number of results before the first close or error. */
  function DataRun(results: seq<RecvResult>): (n: nat)
    ensures n <= |results| && (forall k | 0 <= k < n :: results[k].Data?)
    ensures n < |results| ==> !results[n].Data?
  {
    if results == [] || !results[0].Data? then 0
    else
      var n := DataRun(results[1..]);
      assert forall k | 1 <= k < n + 1 :: results[k] == results[1..][k - 1];
      n + 1
  }

  /** The text of the chunks, each cut at its first NUL. */
  function Received(results: seq<RecvResult>): string
  {
    if results == [] then ""
    else
      var last := results[|results| - 1];
      Received(results[..|results| - 1]) + (if last.Data? then CString(last.chunk) else "")
  }

  class AmanServer {
    var isRunning: bool
    var clientConnected: bool
    var clientSocketValid: bool
    /** Whether the sender thread is alive. */
    var senderRunning: bool
    var messageQueue: seq<string>
    /** The messages handed to `processMessage`, in order. */
    var handled: seq<string>
    /** The calls of `onClientDisconnected`. */
    var disconnectNotifications: nat
    /** The messages written to the client socket, each followed by a newline. */
    var sent: seq<string>

    /** A client is connected only while the server runs. */
    predicate Valid()
      reads this
    {
      clientConnected ==> isRunning
    }

    /**
     * `startServer` (lines 24-37): the server and sender threads start
     * when Winsock starts.
     */
    constructor(winsockStarted: bool)
      ensures Valid()
      ensures isRunning == winsockStarted && senderRunning == winsockStarted
      ensures !clientConnected && !clientSocketValid
      ensures messageQueue == [] && handled == [] && sent == [] && disconnectNotifications == 0
    {
      isRunning := winsockStarted;
      senderRunning := winsockStarted;
      clientConnected := false;
      clientSocketValid := false;
      messageQueue := [];
      handled := [];
      sent := [];
      disconnectNotifications := 0;
    }

    /** A client is accepted (lines 98-118). */
    method Accept()
      requires Valid() && isRunning
      modifies this`clientConnected, this`clientSocketValid
      ensures Valid() && clientConnected && clientSocketValid
    {
      clientSocketValid := true;
      clientConnected := true;
    }

    /** The session with the client is over (lines 123-128). */
    method EndSession()
      requires Valid()
      modifies this`clientConnected, this`clientSocketValid
      ensures Valid() && !clientConnected && !clientSocketValid
    {
      clientConnected := false;
      clientSocketValid := false;
    }

    /**
     * `stop` (lines 39-67): the flags go down and the client socket is
     * closed; the sender, woken, then sees the server stopped and ends (a
     * `SenderWakeUp`), which is what the join waits for. The queue keeps
     * what it holds.
     */
    method Stop()
      requires Valid()
      modifies this`isRunning, this`clientConnected, this`clientSocketValid
      ensures Valid() && !isRunning
      ensures old(isRunning) ==> !clientConnected && !clientSocketValid
      ensures !old(isRunning) ==> clientConnected == old(clientConnected) && clientSocketValid == old(clientSocketValid)
    {
      if isRunning {
        isRunning := false;
        clientConnected := false;
        clientSocketValid := false;
      }
    }

    /**
     * `enqueueMessage` (lines 216-232): the message goes to the back of the
     * queue, unless the server is not running or no client is connected.
     */
    method EnqueueMessage(data: string)
      requires Valid()
      modifies this`messageQueue
      ensures Valid()
      ensures messageQueue == if isRunning && clientConnected then old(messageQueue) + [data] else old(messageQueue)
    {
      if !isRunning || !clientConnected {
        return;
      }
      messageQueue := messageQueue + [data];
    }

    /**
     * The inner loop of lines 142-155 over the buffer: each message up to a
     * newline is taken off the front and, when not empty, handed over; a
     * message whose handling throws is logged and the loop goes on.
     */
    method FrameMessages(data: string) returns (rest: string)
      modifies this`handled
      ensures handled == old(handled) + Strings.NonEmpty(Lines(data))
      ensures rest == Rest(data)
    {
      rest := data;
      ghost var done: seq<string> := [];
      var pos := Search.FirstIndex(rest, IsNewline());
      while pos.Some?
        invariant pos == Search.FirstIndex(rest, IsNewline())
        invariant Lines(data) == done + Lines(rest) && Rest(data) == Rest(rest)
        invariant handled == old(handled) + Strings.NonEmpty(done)
        decreases |rest|
      {
        var message := rest[..pos.value];
        FrameStep(data, done, rest, pos.value);
        rest := rest[pos.value + 1..];
        if message != [] {
          handled := handled + [message];
        }
        done := done + [message];
        pos := Search.FirstIndex(rest, IsNewline());
      }
      FrameDone(data, done, rest);
    }

    /**
     * `handleClientConnection` (lines 132-167) over the outcomes of its
     * `recv` calls: the chunks received before the first close or error
     * are framed as one stream; a close notifies the plug-in, an error
     * does not.
     */
    method HandleClientConnection(results: seq<RecvResult>) returns (leftover: string, ending: Ending)
      requires FromRecv(results)
      modifies this`handled, this`disconnectNotifications
      ensures var n := DataRun(results); var data := Received(results[..n]);
        if !(isRunning && clientConnected && clientSocketValid) then
          handled == old(handled) && leftover == "" && ending == NotConnected
          && disconnectNotifications == old(disconnectNotifications)
        else
          handled == old(handled) + Strings.NonEmpty(Lines(data)) && leftover == Rest(data)
          && ending == (if n == |results| then InputEnds else if results[n].Closed? then ClosedByClient else RecvError)
          && disconnectNotifications == old(disconnectNotifications) + (if ending == ClosedByClient then 1 else 0)
    {
      leftover := "";
      ending := NotConnected;
      if !(isRunning && clientConnected && clientSocketValid) {
        return;
      }
      var i := 0;
      while i < |results|
        invariant 0 <= i <= DataRun(results)
        invariant handled == old(handled) + Strings.NonEmpty(Lines(Received(results[..i])))
        invariant leftover == Rest(Received(results[..i]))
        invariant disconnectNotifications == old(disconnectNotifications)
      {
        var result := results[i];
        if result.Closed? {
          disconnectNotifications := disconnectNotifications + 1;
          ending := ClosedByClient;
          return;
        } else if result.Failed? {
          ending := RecvError;
          return;
        }
        ghost var before := Received(results[..i]);
        ghost var seen := handled;
        var more := FrameMessages(leftover + CString(result.chunk));
        ReceiveStep(results, i, before, leftover);
        AppendAssoc(old(handled), Strings.NonEmpty(Lines(before)), Strings.NonEmpty(Lines(leftover + CString(result.chunk))));
        leftover := more;
        i := i + 1;
      }
      ending := InputEnds;
    }

    /**
     * One wake-up of `senderThreadLoop` (lines 172-210): while a client is
     * connected, messages are taken off the front of the queue and sent,
     * until the queue is empty or a send fails; the message whose send
     * fails is lost, the client is marked disconnected and the thread
     * ends. `failAt` is the position of the first send that fails.
     */
    method SenderWakeUp(failAt: Option<nat>)
      requires Valid() && senderRunning && (messageQueue != [] || !isRunning)
      modifies this`messageQueue, this`sent, this`clientConnected, this`senderRunning
      ensures Valid()
      ensures var q := old(messageQueue);
        if !isRunning || !old(clientConnected) || !clientSocketValid then
          messageQueue == q && sent == old(sent) && clientConnected == old(clientConnected)
        else
          sent == old(sent) + q[..Delivered(q, failAt)] && messageQueue == q[Taken(q, failAt)..]
          && clientConnected == !SendFails(q, failAt)
      ensures senderRunning == (isRunning && clientConnected)
    {
      if !isRunning {
        senderRunning := false;
        return;
      }
      ghost var q := messageQueue;
      var k := 0;
      while messageQueue != [] && clientConnected && clientSocketValid
        invariant 0 <= k <= |q| && clientConnected == old(clientConnected) && senderRunning == old(senderRunning)
        invariant !clientConnected || !clientSocketValid ==> messageQueue == q && sent == old(sent)
        invariant k <= Delivered(q, failAt)
        invariant sent == old(sent) + q[..k] && messageQueue == q[k..]
        decreases |messageQueue|
      {
        var message := messageQueue[0];
        messageQueue := messageQueue[1..];
        if failAt == Some(k) {
          clientConnected := false;
          break;
        }
        sent := sent + [message];
        k := k + 1;
      }
      if !clientConnected {
        senderRunning := false;
      }
    }
  }

  /** One received chunk, framed after the rest kept from before. */
  lemma {:induction false} ReceiveStep(results: seq<RecvResult>, i: nat, before: string, kept: string)
    requires i < |results| && results[i].Data?
    requires before == Received(results[..i]) && kept == Rest(before)
    ensures Received(results[..i + 1]) == before + CString(results[i].chunk)
    ensures Lines(Received(results[..i + 1])) == Lines(before) + Lines(kept + CString(results[i].chunk))
    ensures Rest(Received(results[..i + 1])) == Rest(kept + CString(results[i].chunk))
    ensures Strings.NonEmpty(Lines(Received(results[..i + 1])))
            == Strings.NonEmpty(Lines(before)) + Strings.NonEmpty(Lines(kept + CString(results[i].chunk)))
  {
    assert results[..i + 1][..i] == results[..i];
    FramingComposes(before, CString(results[i].chunk));
    Strings.NonEmptyAppend(Lines(before), Lines(kept + CString(results[i].chunk)));
  }

  lemma {:induction false} AppendAssoc<T>(a: seq<T>, b: seq<T>, c: seq<T>)
    ensures (a + b) + c == a + (b + c)
  {
  }

  /** Whether some send fails before the queue is drained. */
  predicate SendFails(q: seq<string>, failAt: Option<nat>)
  {
    failAt.Some? && failAt.value < |q|
  }

  /** The number of messages sent from the queue. */
  function Delivered(q: seq<string>, failAt: Option<nat>): (n: nat)
    ensures n <= |q|
  {
    if SendFails(q, failAt) then failAt.value else |q|
  }

  /** The number of messages taken off the queue: those sent, and the one lost. */
  function Taken(q: seq<string>, failAt: Option<nat>): (n: nat)
    ensures n <= |q|
  {
    if SendFails(q, failAt) then failAt.value + 1 else |q|
  }
}
