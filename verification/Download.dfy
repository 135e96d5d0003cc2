/**
 * File download: `send_file` of imond (the server) against the receiving loop of
 * flicp (the client).  The two run concurrently over a byte stream per direction;
 * `recv` may return any non-empty prefix, of at most 1024 bytes, of what is in flight.
 */
module Download {
  import opened Bytes
  import opened Transfer

  /** `trailer` is whatever status line the command loop writes once send_file returns. */
  datatype Session = Session(file: seq<Byte>, trailer: seq<Byte>)

  datatype ServerPc =
    | LoopHead               // about to test `nbytes > 0`
    | AwaitAck(block: nat)   // block written, blocked in `read (.., 1)`
    | Finished(ok: bool)

  datatype State = State(
    server: ServerPc,
    nbytes: nat,             // counted down only after an acknowledgement
    pos: nat,                // read position in the file
    blocks: nat,             // history: blocks written so far
    toClient: seq<Byte>,
    toServer: seq<Byte>,
    receiving: bool,         // the client is still inside its loop
    recvBytes: nat,
    acks: nat,               // history: acknowledgements the client has sent
    written: seq<Byte>       // contents of the client's local file
  )

  datatype Action = SendBlock | ReadAck | Finish | Receive(k: nat) | Leave

  function Init(c: Session): State {
    State(LoopHead, |c.file|, 0, 0, [], [], true, 0, 0, [])
  }

  predicate Enabled(c: Session, s: State, a: Action) {
    match a
    case SendBlock => s.server.LoopHead? && s.nbytes > 0 && s.pos + Min(BLOCK, s.nbytes) <= |c.file|
    case ReadAck => s.server.AwaitAck? && s.toServer != []
    case Finish => s.server.LoopHead? && s.nbytes == 0
    case Receive(k) => s.receiving && s.recvBytes < |c.file| && 1 <= k <= Min(BLOCK, |s.toClient|)
    case Leave => s.receiving && s.recvBytes >= |c.file|
  }

  function Apply(c: Session, s: State, a: Action): State
    requires Enabled(c, s, a)
  {
    match a
    case SendBlock =>
      var b := Min(BLOCK, s.nbytes);
      s.(server := AwaitAck(b), pos := s.pos + b, blocks := s.blocks + 1,
         toClient := s.toClient + c.file[s.pos..s.pos + b])
    case ReadAck =>
      var rest := s.toServer[1..];
      if s.toServer[0] == NAK then
        s.(server := Finished(false), toServer := rest, toClient := s.toClient + c.trailer)
      else
        s.(server := LoopHead, toServer := rest,
           nbytes := if s.server.block <= s.nbytes then s.nbytes - s.server.block else 0)
    case Finish =>
      s.(server := Finished(true), toClient := s.toClient + c.trailer)
    case Receive(k) =>
      s.(recvBytes := s.recvBytes + k, written := s.written + s.toClient[..k],
         toClient := s.toClient[k..], toServer := s.toServer + [ACK], acks := s.acks + 1)
    case Leave =>
      s.(receiving := false)
  }

  predicate CanRun(c: Session, s: State, run: seq<Action>)
    decreases run
  {
    run == [] || (Enabled(c, s, run[0]) && CanRun(c, Apply(c, s, run[0]), run[1..]))
  }

  function Run(c: Session, s: State, run: seq<Action>): State
    requires CanRun(c, s, run)
    decreases run
  {
    if run == [] then s else Run(c, Apply(c, s, run[0]), run[1..])
  }

  // ----- what every step keeps

  /** What the server has still to put on the stream. */
  function Unsent(c: Session, s: State): seq<Byte>
    requires s.pos <= |c.file|
  {
    c.file[s.pos..] + if s.server.Finished? then [] else c.trailer
  }

  ghost predicate Inv(c: Session, s: State) {
    && s.pos <= |c.file|
    && s.written + s.toClient + Unsent(c, s) == c.file + c.trailer
    && s.acks <= s.recvBytes == |s.written| <= BLOCK * s.acks
    && s.pos <= BLOCK * s.blocks
    && (!s.receiving ==> s.recvBytes >= |c.file|)
    && (forall i :: 0 <= i < |s.toServer| ==> s.toServer[i] == ACK)
    && |s.toServer| <= s.acks
    && ServerInv(c, s, s.acks - |s.toServer|)
  }

  /** Acknowledgements consumed against blocks written. */
  ghost predicate ServerInv(c: Session, s: State, consumed: nat) {
    match s.server
    case LoopHead =>
      && consumed == s.blocks
      && s.nbytes == |c.file| - s.pos
      && (s.nbytes > 0 ==> s.pos == BLOCK * s.blocks)
    case AwaitAck(b) =>
      && consumed + 1 == s.blocks
      && 1 <= b <= s.pos
      && s.nbytes == |c.file| - s.pos + b
      && s.pos - b == BLOCK * consumed
      && (b == BLOCK || s.pos == |c.file|)
    case Finished(ok) =>
      ok && consumed == s.blocks && s.pos == |c.file|
  }

  lemma MovedToStream(w: seq<Byte>, t: seq<Byte>, f: seq<Byte>, trailer: seq<Byte>, pos: nat, b: nat)
    requires pos + b <= |f|
    ensures w + (t + f[pos..pos + b]) + (f[pos + b..] + trailer) == w + t + (f[pos..] + trailer)
  {
    assert f[pos..] == f[pos..pos + b] + f[pos + b..];
  }

  lemma MovedToClient(w: seq<Byte>, t: seq<Byte>, k: nat)
    requires k <= |t|
    ensures w + t[..k] + t[k..] == w + t
  {
    assert t == t[..k] + t[k..];
  }

  lemma TrailerMoved(w: seq<Byte>, t: seq<Byte>, trailer: seq<Byte>)
    ensures w + (t + trailer) + ([] + []) == w + t + ([] + trailer)
  {
  }

  lemma StepKeepsConservation(c: Session, s: State, a: Action)
    requires Inv(c, s) && Enabled(c, s, a)
    requires a.SendBlock? || a.Finish? || a.Receive?
    ensures var t := Apply(c, s, a);
            t.pos <= |c.file| && t.written + t.toClient + Unsent(c, t) == c.file + c.trailer
  {
    match a
    case SendBlock => MovedToStream(s.written, s.toClient, c.file, c.trailer, s.pos, Min(BLOCK, s.nbytes));
    case Finish =>
      assert c.file[s.pos..] == [];
      TrailerMoved(s.written, s.toClient, c.trailer);
    case Receive(k) => MovedToClient(s.written, s.toClient, k);
  }

  lemma SendKeepsInv(c: Session, s: State)
    requires Inv(c, s) && Enabled(c, s, SendBlock)
    ensures Inv(c, Apply(c, s, SendBlock))
  {
    StepKeepsConservation(c, s, SendBlock);
    hide Unsent;
  }

  lemma ReadAckKeepsInv(c: Session, s: State)
    requires Inv(c, s) && Enabled(c, s, ReadAck)
    ensures Inv(c, Apply(c, s, ReadAck))
  {
    assert Unsent(c, Apply(c, s, ReadAck)) == Unsent(c, s);
    hide Unsent;
  }

  lemma FinishKeepsInv(c: Session, s: State)
    requires Inv(c, s) && Enabled(c, s, Finish)
    ensures Inv(c, Apply(c, s, Finish))
  {
    StepKeepsConservation(c, s, Finish);
    hide Unsent;
  }

  lemma ReceiveKeepsInv(c: Session, s: State, k: nat)
    requires Inv(c, s) && Enabled(c, s, Receive(k))
    ensures Inv(c, Apply(c, s, Receive(k)))
  {
    StepKeepsConservation(c, s, Receive(k));
    hide Unsent;
  }

  lemma StepKeepsInv(c: Session, s: State, a: Action)
    requires Inv(c, s) && Enabled(c, s, a)
    ensures Inv(c, Apply(c, s, a))
  {
    match a
    case SendBlock => SendKeepsInv(c, s);
    case ReadAck => ReadAckKeepsInv(c, s);
    case Finish => FinishKeepsInv(c, s);
    case Receive(k) => ReceiveKeepsInv(c, s, k);
    case Leave =>
  }

  lemma {:induction false} RunKeepsInv(c: Session, s: State, run: seq<Action>)
    requires Inv(c, s) && CanRun(c, s, run)
    ensures Inv(c, Run(c, s, run))
    decreases run
  {
    if run != [] {
      StepKeepsInv(c, s, run[0]);
      RunKeepsInv(c, Apply(c, s, run[0]), run[1..]);
    }
  }

  // ----- safety

  /** In every run the client's file is a prefix of file ++ trailer, nothing on the way is lost or
      reordered, and a client that stops on the announced size has exactly the server's file.  Nothing but
      acknowledgements goes back, at least one for every 1024 bytes received, and the file leaves the
      server in blocks of 1024 bytes, the last one shorter. */
  lemma DownloadSafety(c: Session, run: seq<Action>)
    requires CanRun(c, Init(c), run)
    ensures var s := Run(c, Init(c), run);
            && s.pos <= |c.file|
            && s.written + s.toClient + Unsent(c, s) == c.file + c.trailer
            && s.written <= c.file + c.trailer
            && s.server != Finished(false)
            && (!s.receiving && s.recvBytes == |c.file| ==> s.written == c.file)
            && (forall i :: 0 <= i < |s.toServer| ==> s.toServer[i] == 0x06)
            && s.recvBytes <= 1024 * s.acks
            && s.pos == (if 1024 * s.blocks < |c.file| then 1024 * s.blocks else |c.file|)
  {
    RunKeepsInv(c, Init(c), run);
    var s := Run(c, Init(c), run);
    assert (c.file + c.trailer)[..|s.written|] == s.written;
    assert (c.file + c.trailer)[..|c.file|] == c.file;
  }

  // ----- progress

  predicate Complete(s: State) {
    s.server == Finished(true) && !s.receiving
  }

  /** No reachable state has both parties blocked: a server waiting for an acknowledgement with none
      in flight has had at most 1024 bytes per acknowledgement taken off the stream, so part of its
      last block is still there for the client. */
  lemma DownloadNeverBlocks(c: Session, run: seq<Action>) returns (a: Action)
    requires CanRun(c, Init(c), run) && !Complete(Run(c, Init(c), run))
    ensures Enabled(c, Run(c, Init(c), run), a)
  {
    RunKeepsInv(c, Init(c), run);
    var s := Run(c, Init(c), run);
    match s.server
    case LoopHead =>
      a := if s.nbytes > 0 then SendBlock else Finish;
    case AwaitAck(b) =>
      if s.toServer != [] {
        a := ReadAck;
      } else {
        InFlightWhileWaiting(c, s);
        a := Receive(1);
      }
    case Finished(_) =>
      assert |s.written| + |s.toClient| == |c.file + c.trailer|;
      a := if s.recvBytes >= |c.file| then Leave else Receive(1);
  }

  lemma InFlightWhileWaiting(c: Session, s: State)
    requires Inv(c, s) && s.server.AwaitAck? && s.toServer == []
    ensures s.receiving && s.recvBytes < |c.file| && s.toClient != []
  {
    assert s.recvBytes <= BLOCK * s.acks == s.pos - s.server.block < s.pos;
    assert |s.written| + |s.toClient| + |Unsent(c, s)| == |c.file| + |c.trailer|;
  }

  function Measure(c: Session, s: State): int {
    4 * (|c.file| - s.pos) + 2 * |s.toClient| + |s.toServer|
      + (if s.server.Finished? then 0 else 2 * |c.trailer| + 1)
      + (if s.receiving then 1 else 0)
  }

  lemma StepDecreasesMeasure(c: Session, s: State, a: Action)
    requires Inv(c, s) && Enabled(c, s, a)
    ensures 0 <= Measure(c, Apply(c, s, a)) < Measure(c, s)
  {
    StepKeepsInv(c, s, a);
    hide Inv, ServerInv;
    PosInFile(c, s);
    PosInFile(c, Apply(c, s, a));
    NoNak(c, s);
    MeasureDrops(c, s, a);
  }

  lemma MeasureDrops(c: Session, s: State, a: Action)
    requires Enabled(c, s, a) && s.pos <= |c.file| && Apply(c, s, a).pos <= |c.file|
    requires s.toServer != [] ==> s.toServer[0] != NAK
    ensures 0 <= Measure(c, Apply(c, s, a)) < Measure(c, s)
  {
    var t := Apply(c, s, a);
    match a
    case SendBlock => assert |t.toClient| == |s.toClient| + Min(BLOCK, s.nbytes);
    case ReadAck => assert |t.toServer| == |s.toServer| - 1;
    case Finish => assert |t.toClient| == |s.toClient| + |c.trailer|;
    case Receive(k) => assert |t.toClient| == |s.toClient| - k;
    case Leave =>
  }

  lemma PosInFile(c: Session, s: State)
    requires Inv(c, s)
    ensures s.pos <= |c.file|
  {
  }

  lemma NoNak(c: Session, s: State)
    requires Inv(c, s)
    ensures s.toServer != [] ==> s.toServer[0] != NAK
  {
  }

  lemma {:induction false} RunIsBounded(c: Session, s: State, run: seq<Action>)
    requires Inv(c, s) && CanRun(c, s, run)
    ensures |run| <= Measure(c, s)
    decreases run
  {
    if run != [] {
      StepDecreasesMeasure(c, s, run[0]);
      StepKeepsInv(c, s, run[0]);
      RunIsBounded(c, Apply(c, s, run[0]), run[1..]);
    }
  }

  /** Every run is finite, and one that cannot be extended has finished on both sides. */
  lemma DownloadTerminates(c: Session, run: seq<Action>)
    requires CanRun(c, Init(c), run)
    ensures |run| <= 4 * |c.file| + 2 * |c.trailer| + 2
    ensures (forall a :: !Enabled(c, Run(c, Init(c), run), a)) ==> Complete(Run(c, Init(c), run))
  {
    RunIsBounded(c, Init(c), run);
    if !Complete(Run(c, Init(c), run)) {
      var a := DownloadNeverBlocks(c, run);
    }
  }

  // ----- the surplus acknowledgement

  lemma {:induction false} RunConcat(c: Session, s: State, r1: seq<Action>, r2: seq<Action>)
    requires CanRun(c, s, r1) && CanRun(c, Run(c, s, r1), r2)
    ensures CanRun(c, s, r1 + r2) && Run(c, s, r1 + r2) == Run(c, Run(c, s, r1), r2)
    decreases r1
  {
    if r1 == [] {
      assert r1 + r2 == r2;
    } else {
      RunConcat(c, Apply(c, s, r1[0]), r1[1..], r2);
      assert (r1 + r2)[1..] == r1[1..] + r2;
    }
  }

  lemma RunTwo(c: Session, s: State, a: Action, b: Action)
    requires Enabled(c, s, a) && Enabled(c, Apply(c, s, a), b)
    ensures CanRun(c, s, [a, b]) && Run(c, s, [a, b]) == Apply(c, Apply(c, s, a), b)
  {
    assert [a, b][1..] == [b] && [b][1..] == [];
    assert CanRun(c, Apply(c, s, a), [b]) && Run(c, Apply(c, s, a), [b]) == Apply(c, Apply(c, s, a), b);
  }

  /** The server is waiting, one acknowledgement is already on its way, and payload is still in
      flight: the client has answered part of a block. */
  ghost predicate Ahead(c: Session, s: State) {
    Inv(c, s) && s.server.AwaitAck? && |s.toServer| == 1 && s.receiving && s.recvBytes < s.pos
  }

  /** The server has written the trailer while payload is still in flight. */
  ghost predicate TooEarly(c: Session, s: State) {
    Inv(c, s) && s.server.Finished? && s.receiving && s.recvBytes < |c.file|
  }

  /** From such a state the server can always be led to send its trailer too early. */
  lemma {:induction false} AheadToTooEarly(c: Session, s: State) returns (run: seq<Action>)
    requires Ahead(c, s)
    ensures CanRun(c, s, run) && TooEarly(c, Run(c, s, run))
    decreases |c.file| - s.pos
  {
    StepKeepsInv(c, s, ReadAck);
    var s1 := Apply(c, s, ReadAck);
    if s1.nbytes == 0 {
      StepKeepsInv(c, s1, Finish);
      RunTwo(c, s, ReadAck, Finish);
      run := [ReadAck, Finish];
    } else {
      StepKeepsInv(c, s1, SendBlock);
      var s2 := Apply(c, s1, SendBlock);
      InFlightWhileWaiting(c, s2);
      StepKeepsInv(c, s2, Receive(1));
      var s3 := Apply(c, s2, Receive(1));
      var r := AheadToTooEarly(c, s3);
      RunTwo(c, s1, SendBlock, Receive(1));
      RunConcat(c, s1, [SendBlock, Receive(1)], r);
      run := [ReadAck] + ([SendBlock, Receive(1)] + r);
      assert run[1..] == [SendBlock, Receive(1)] + r;
    }
  }

  lemma {:induction false} TooEarlyToOvershoot(c: Session, s: State) returns (run: seq<Action>)
    requires TooEarly(c, s) && c.trailer != []
    ensures CanRun(c, s, run) && Run(c, s, run).recvBytes > |c.file|
    decreases |c.file| - s.recvBytes
  {
    assert |s.written| + |s.toClient| == |c.file| + |c.trailer|;
    if s.recvBytes + 1 == |c.file| {
      run := [Receive(2)];
      assert run[1..] == [];
      assert CanRun(c, s, run) && Run(c, s, run) == Apply(c, s, Receive(2));
    } else {
      StepKeepsInv(c, s, Receive(1));
      var r := TooEarlyToOvershoot(c, Apply(c, s, Receive(1)));
      run := [Receive(1)] + r;
      assert run[1..] == r;
    }
  }

  /** With at most one byte of payload the server cannot get ahead of the client. */
  ghost predicate InStep(c: Session, s: State) {
    (!s.server.Finished? ==> s.recvBytes <= |c.file|) && (s.server.Finished? ==> s.recvBytes == |c.file|)
  }

  lemma {:induction false} SmallFileStaysInStep(c: Session, s: State, run: seq<Action>)
    requires |c.file| <= 1 && Inv(c, s) && InStep(c, s) && CanRun(c, s, run)
    ensures InStep(c, Run(c, s, run))
    decreases run
  {
    if run != [] {
      var t := Apply(c, s, run[0]);
      StepKeepsInv(c, s, run[0]);
      assert |t.written| + |t.toClient| + |Unsent(c, t)| == |c.file| + |c.trailer|;
      SmallFileStaysInStep(c, t, run[1..]);
    }
  }

  lemma {:induction false} NoTrailerNoOvershoot(c: Session, run: seq<Action>)
    requires c.trailer == [] && CanRun(c, Init(c), run)
    ensures Run(c, Init(c), run).recvBytes <= |c.file|
  {
    DownloadSafety(c, run);
    RunKeepsInv(c, Init(c), run);
    var s := Run(c, Init(c), run);
    assert |s.written| <= |c.file + c.trailer|;
  }

  ghost predicate MayOvershoot(c: Session) {
    exists run :: CanRun(c, Init(c), run) && Run(c, Init(c), run).recvBytes > |c.file|
  }

  /** The "HU, error" exit of the client: it swallows trailer bytes into the file exactly for files of
      two bytes or more, since one acknowledgement per recv (not per block) lets the server run ahead. */
  lemma OvershootIff(c: Session)
    ensures MayOvershoot(c) <==> |c.file| >= 2 && c.trailer != []
  {
    if |c.file| >= 2 && c.trailer != [] {
      var i := Init(c);
      var s1 := Apply(c, i, SendBlock);
      StepKeepsInv(c, i, SendBlock);
      StepKeepsInv(c, s1, Receive(1));
      var s2 := Apply(c, s1, Receive(1));
      var head := [SendBlock, Receive(1)];
      RunTwo(c, i, SendBlock, Receive(1));
      var r1 := AheadToTooEarly(c, s2);
      var r2 := TooEarlyToOvershoot(c, Run(c, s2, r1));
      RunConcat(c, s2, r1, r2);
      RunConcat(c, i, head, r1 + r2);
      assert Run(c, i, head + (r1 + r2)).recvBytes > |c.file|;
    } else {
      forall run | CanRun(c, Init(c), run)
        ensures Run(c, Init(c), run).recvBytes <= |c.file|
      {
        if c.trailer == [] {
          NoTrailerNoOvershoot(c, run);
        } else {
          SmallFileStaysInStep(c, Init(c), run);
        }
      }
    }
  }
}
