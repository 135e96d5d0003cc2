/**
 * File upload: the sending loop of flicp (the client) against `cmd_receive` and
 * `receive_file` of imond (the server).  Reads on either side may return any non-empty
 * prefix of what is in flight, up to the size asked for.
 */
module Upload {
  import opened Bytes
  import opened Transfer

  /** `pwValid` is what password_valid returns: 1 for the right password, 0 for a wrong one and -1 if there
      is no shadow entry to compare with; `writable` tells that the target file can be opened. */
  datatype Session = Session(file: seq<Byte>, pwValid: int, writable: bool, trailer: seq<Byte>)

  datatype ServerPc =
    | Command                              // the receive command has arrived
    | LoopHead                             // about to test `nbytes > 0`
    | Reading(toReceive: nat, sum: nat)    // inside the do-while of one block
    | Finished(ok: bool)

  datatype ClientPc =
    | FirstAck
    | LoopTest
    | AwaitAck
    | Answer                               // inside get_answer, which reads up to a newline
    | Done
    | Aborted

  datatype State = State(
    server: ServerPc,
    nbytes: nat,
    content: seq<Byte>,      // what fwrite has put into the target file
    acks: nat,               // history: acknowledgements the server has sent
    toServer: seq<Byte>,
    toClient: seq<Byte>,
    client: ClientPc,
    sntBytes: nat
  )

  datatype Action = Check | Acknowledge | Read(k: nat) | Send | ReadAck(k: nat) | Leave | ReadAnswer

  function Init(c: Session): State {
    State(Command, |c.file|, [], 0, [], [], FirstAck, 0)
  }

  /** `if (pw_valid)` lets -1 pass, so the branch meant for it is never taken. */
  predicate Accepted(c: Session) {
    |c.file| >= 1 && c.pwValid != 0 && c.writable
  }

  predicate Enabled(c: Session, s: State, a: Action) {
    match a
    case Check => s.server.Command?
    case Acknowledge => s.server.LoopHead?
    case Read(k) => s.server.Reading? && s.server.sum < s.server.toReceive
                    && 1 <= k <= Min(s.server.toReceive - s.server.sum, |s.toServer|)
    case Send => s.client.LoopTest? && s.sntBytes < |c.file|
    case ReadAck(k) => (s.client.FirstAck? || s.client.AwaitAck?) && 1 <= k <= Min(3, |s.toClient|)
    case Leave => s.client.LoopTest? && s.sntBytes >= |c.file|
    case ReadAnswer => s.client.Answer? && s.toClient != []
  }

  function Apply(c: Session, s: State, a: Action): State
    requires Enabled(c, s, a)
  {
    match a
    case Check =>
      if Accepted(c) then s.(server := LoopHead)
      else s.(server := Finished(false), toClient := s.toClient + [NAK] + c.trailer)
    case Acknowledge =>
      if s.nbytes > 0 then
        var toReceive := if s.nbytes < BLOCK then s.nbytes else BLOCK;
        s.(server := Reading(toReceive, 0), nbytes := s.nbytes - toReceive,
           toClient := s.toClient + [ACK], acks := s.acks + 1)
      else
        s.(server := Finished(true), toClient := s.toClient + [ACK] + c.trailer, acks := s.acks + 1)
    case Read(k) =>
      var sum := s.server.sum + k;
      s.(server := if sum < s.server.toReceive then Reading(s.server.toReceive, sum) else LoopHead,
         content := s.content + s.toServer[..k], toServer := s.toServer[k..])
    case Send =>
      var b := Min(BLOCK, |c.file| - s.sntBytes);
      s.(client := AwaitAck, sntBytes := s.sntBytes + b,
         toServer := s.toServer + c.file[s.sntBytes..s.sntBytes + b])
    case ReadAck(k) =>
      s.(client := if s.toClient[0] == ACK then LoopTest else Aborted, toClient := s.toClient[k..])
    case Leave =>
      s.(client := Answer)
    case ReadAnswer =>
      s.(client := if s.toClient[0] == LF then Done else Answer, toClient := s.toClient[1..])
  }

  predicate CanRun(c: Session, s: State, run: seq<Action>)
    decreases run
  {
    run == [] || (Enabled(c, s, run[0]) && CanRun(c, Apply(c, s, run[0]), run[1..]))
  }

  function Run(c: Session, s: State, run: seq<Action>): State
    requires CanRun(c, s, run)
    decreases run
  {
    if run == [] then s else Run(c, Apply(c, s, run[0]), run[1..])
  }

  // ----- the token invariant

  /** The status line has a newline behind its first two bytes, which the client's last read of up to three
      bytes may take off together with the acknowledgement. */
  predicate LateNewline(c: Session) {
    exists i :: 2 <= i < |c.trailer| && c.trailer[i] == LF
  }

  /** Exactly one party holds the token: an acknowledgement in flight, block data in flight, or the
      right to produce one of the two. */
  ghost predicate Token(c: Session, s: State) {
    match s.server
    case Command =>
      s.client.FirstAck? && s.toClient == [] && s.toServer == []
    case LoopHead =>
      && s.toClient == [] && s.toServer == []
      && ((s.client.FirstAck? && s.sntBytes == 0) || s.client.AwaitAck?)
    case Reading(toReceive, sum) =>
      || (s.toClient == [ACK] && s.toServer == [] && sum == 0 && (s.client.FirstAck? || s.client.AwaitAck?))
      || (s.toClient == [] && s.toServer == [] && sum == 0 && s.client.LoopTest?)
      || (s.toClient == [] && s.client.AwaitAck? && |s.toServer| == toReceive - sum)
    case Finished(_) =>
      && s.toServer == []
      && (|| (s.client.AwaitAck? && s.toClient == [ACK] + c.trailer)
          || ((s.client.LoopTest? || s.client.Answer?) && (LateNewline(c) ==> LF in s.toClient))
          || s.client.Done?)
  }

  /** The server's countdown against the client's counter and the acknowledgements sent. */
  ghost predicate Counters(c: Session, s: State) {
    match s.server
    case Command => s.nbytes == |c.file| && s.acks == 0 && s.sntBytes == 0
    case LoopHead =>
      && s.nbytes + s.sntBytes == |c.file|
      && |s.content| == Min(BLOCK * s.acks, |c.file|)
      && (s.acks >= 1 ==> BLOCK * (s.acks - 1) < |c.file|)
    case Reading(toReceive, sum) =>
      && sum < toReceive
      && s.acks >= 1
      && s.nbytes + toReceive == |c.file| - BLOCK * (s.acks - 1)
      && toReceive == Min(BLOCK, |c.file| - BLOCK * (s.acks - 1))
      && |s.content| == BLOCK * (s.acks - 1) + sum
      && s.sntBytes == BLOCK * (s.acks - 1) + (if |s.toServer| + sum > 0 then toReceive else 0)
    case Finished(_) =>
      s.sntBytes == |c.file| && s.acks == (|c.file| + BLOCK - 1) / BLOCK + 1
  }

  ghost predicate Inv(c: Session, s: State) {
    if Accepted(c) then
      && s.server != Finished(false)
      && s.sntBytes <= |c.file|
      && s.content + s.toServer == c.file[..s.sntBytes]
      && Token(c, s)
      && Counters(c, s)
    else
      && s.content == [] && s.toServer == [] && s.acks == 0 && s.sntBytes == 0
      && (|| (s.server.Command? && s.client.FirstAck? && s.toClient == [])
          || (s.server == Finished(false) && s.client.FirstAck? && s.toClient == [NAK] + c.trailer)
          || (s.server == Finished(false) && s.client.Aborted?))
  }

  lemma AcknowledgeKeepsInv(c: Session, s: State)
    requires Accepted(c) && Inv(c, s) && Enabled(c, s, Acknowledge)
    ensures Inv(c, Apply(c, s, Acknowledge))
  {
  }

  lemma ReadKeepsInv(c: Session, s: State, k: nat)
    requires Accepted(c) && Inv(c, s) && Enabled(c, s, Read(k))
    ensures Inv(c, Apply(c, s, Read(k)))
  {
    var t := Apply(c, s, Read(k));
    assert s.toServer == s.toServer[..k] + s.toServer[k..];
    assert t.content + t.toServer == s.content + s.toServer;
  }

  lemma SendKeepsInv(c: Session, s: State)
    requires Accepted(c) && Inv(c, s) && Enabled(c, s, Send)
    ensures Inv(c, Apply(c, s, Send))
  {
    var t := Apply(c, s, Send);
    assert c.file[..t.sntBytes] == c.file[..s.sntBytes] + c.file[s.sntBytes..t.sntBytes];
  }

  lemma ReadAckKeepsInv(c: Session, s: State, k: nat)
    requires Accepted(c) && Inv(c, s) && Enabled(c, s, ReadAck(k))
    ensures Inv(c, Apply(c, s, ReadAck(k)))
  {
    if s.server.Finished? && LateNewline(c) {
      var i :| 2 <= i < |c.trailer| && c.trailer[i] == LF;
      assert s.toClient[k..][i + 1 - k] == LF;
    }
  }

  lemma AnswerKeepsInv(c: Session, s: State)
    requires Accepted(c) && Inv(c, s) && Enabled(c, s, ReadAnswer)
    ensures Inv(c, Apply(c, s, ReadAnswer))
  {
    assert s.toClient == [s.toClient[0]] + s.toClient[1..];
  }

  lemma StepKeepsInv(c: Session, s: State, a: Action)
    requires Inv(c, s) && Enabled(c, s, a)
    ensures Inv(c, Apply(c, s, a))
  {
    if Accepted(c) {
      match a
      case Acknowledge => AcknowledgeKeepsInv(c, s);
      case Read(k) => ReadKeepsInv(c, s, k);
      case Send => SendKeepsInv(c, s);
      case ReadAck(k) => ReadAckKeepsInv(c, s, k);
      case ReadAnswer => AnswerKeepsInv(c, s);
      case _ =>
    }
  }

  lemma {:induction false} RunKeepsInv(c: Session, s: State, run: seq<Action>)
    requires Inv(c, s) && CanRun(c, s, run)
    ensures Inv(c, Run(c, s, run))
    decreases run
  {
    if run != [] {
      StepKeepsInv(c, s, run[0]);
      RunKeepsInv(c, Apply(c, s, run[0]), run[1..]);
    }
  }

  /** The token property over whole runs: block data and an acknowledgement are never in flight
      together, at most one block is outstanding, what the server holds is a prefix of the file, and
      once it has sent its last acknowledgement, number ceil(n / 1024) + 1, it holds the file. */
  lemma UploadSafety(c: Session, run: seq<Action>)
    requires c.file != [] && c.pwValid != 0 && c.writable && CanRun(c, Init(c), run)
    ensures var s := Run(c, Init(c), run);
            && (s.toServer == [] || s.toClient == [])
            && |s.toServer| <= 1024
            && (!s.server.Finished? ==> s.toClient == [] || s.toClient == [0x06])
            && s.content <= c.file
            && !s.client.Aborted?
            && s.acks <= (|c.file| + 1023) / 1024 + 1
            && (s.server.Finished? <==> s.acks == (|c.file| + 1023) / 1024 + 1)
            && (s.server.Finished? ==> s.server.ok && s.content == c.file)
  {
    RunKeepsInv(c, Init(c), run);
    var s := Run(c, Init(c), run);
    assert c.file[..s.sntBytes][..|s.content|] == s.content;
    if s.server.Finished? {
      assert c.file[..|c.file|] == c.file;
    }
  }

  /** An empty file, a wrong password or an unwritable target: the answer is NAK, the client aborts after
      two steps, and nothing is ever stored. */
  lemma RefusedUploadAborts(c: Session, run: seq<Action>)
    requires c.file == [] || c.pwValid == 0 || !c.writable
    requires CanRun(c, Init(c), run)
    ensures |run| <= 2
    ensures var s := Run(c, Init(c), run);
            && s.content == [] && s.toServer == [] && s.sntBytes == 0 && s.acks == 0
            && (s.client.FirstAck? ==> s.toClient == [] || s.toClient == [0x15] + c.trailer)
            && ((forall a :: !Enabled(c, s, a)) ==> s.client.Aborted? && s.server == Finished(false))
  {
    RefusedRunIsBounded(c, Init(c), run);
    RunKeepsInv(c, Init(c), run);
    var s := Run(c, Init(c), run);
    if s.server.Command? {
      assert Enabled(c, s, Check);
    } else if s.client.FirstAck? {
      assert Enabled(c, s, ReadAck(1));
    }
  }

  lemma {:induction false} RefusedRunIsBounded(c: Session, s: State, run: seq<Action>)
    requires !Accepted(c) && Inv(c, s) && CanRun(c, s, run)
    ensures |run| <= (if s.server.Command? then 1 else 0) + (if s.client.FirstAck? then 1 else 0)
    decreases run
  {
    if run != [] {
      StepKeepsInv(c, s, run[0]);
      RefusedRunIsBounded(c, Apply(c, s, run[0]), run[1..]);
    }
  }

  // ----- progress

  /** Both sides are through, or the client waits in get_answer for a newline that is not coming. */
  predicate Over(s: State) {
    s.server == Finished(true) && (s.client.Done? || (s.client.Answer? && s.toClient == []))
  }

  lemma UploadNeverBlocks(c: Session, s: State) returns (a: Action)
    requires Accepted(c) && Inv(c, s) && !Over(s)
    ensures Enabled(c, s, a)
    ensures a.ReadAck? ==> a.k == Min(3, |s.toClient|)
  {
    a := if s.client.LoopTest? && s.sntBytes < |c.file| then Send
         else if s.client.LoopTest? then Leave
         else if s.client.Answer? then ReadAnswer
         else if s.server.Command? then Check
         else if s.server.LoopHead? then Acknowledge
         else if s.toClient != [] then ReadAck(Min(3, |s.toClient|))
         else Read(1);
  }

  /** Each step spends some of: payload not yet sent, payload in flight, blocks not yet asked for,
      bytes on their way to the client. */
  function Measure(c: Session, s: State): int {
    8 * (|c.file| - s.sntBytes) + 3 * |s.toServer| + 3 * s.nbytes
      + |s.toClient| + (if s.server.Finished? then 0 else |c.trailer| + 2)
      + (match s.server case Command => 4 case LoopHead => 3 case Reading(_, _) => 2 case Finished(_) => 0)
      + (match s.client case FirstAck => 2 case LoopTest => 1 case AwaitAck => 3 case _ => 0)
  }

  lemma StepDecreasesMeasure(c: Session, s: State, a: Action)
    requires Accepted(c) && Inv(c, s) && Enabled(c, s, a)
    ensures 0 <= Measure(c, Apply(c, s, a)) < Measure(c, s)
  {
    StepKeepsInv(c, s, a);
    hide Inv;
    SentWithin(c, s);
    SentWithin(c, Apply(c, s, a));
    MeasureDrops(c, s, a);
  }

  lemma MeasureDrops(c: Session, s: State, a: Action)
    requires Accepted(c) && Enabled(c, s, a) && s.sntBytes <= |c.file| && Apply(c, s, a).sntBytes <= |c.file|
    ensures 0 <= Measure(c, Apply(c, s, a)) < Measure(c, s)
  {
    match a
    case Check =>
    case Acknowledge =>
    case Read(k) => assert |Apply(c, s, a).toServer| == |s.toServer| - k;
    case Send => assert |Apply(c, s, a).toServer| == |s.toServer| + Min(BLOCK, |c.file| - s.sntBytes);
    case ReadAck(k) => assert |Apply(c, s, a).toClient| == |s.toClient| - k;
    case Leave =>
    case ReadAnswer =>
  }

  lemma SentWithin(c: Session, s: State)
    requires Inv(c, s)
    ensures s.sntBytes <= |c.file|
  {
  }

  lemma {:induction false} RunIsBounded(c: Session, s: State, run: seq<Action>)
    requires Accepted(c) && Inv(c, s) && CanRun(c, s, run)
    ensures |run| <= Measure(c, s)
    decreases run
  {
    if run != [] {
      StepDecreasesMeasure(c, s, run[0]);
      StepKeepsInv(c, s, run[0]);
      RunIsBounded(c, Apply(c, s, run[0]), run[1..]);
    }
  }

  ghost predicate Maximal(c: Session, run: seq<Action>)
    requires CanRun(c, Init(c), run)
  {
    forall a :: !Enabled(c, Run(c, Init(c), run), a)
  }

  /** Every run of an accepted upload is finite, and one that cannot be extended has delivered the
      whole file. */
  lemma UploadTerminates(c: Session, run: seq<Action>)
    requires c.file != [] && c.pwValid != 0 && c.writable && CanRun(c, Init(c), run)
    ensures |run| <= 11 * |c.file| + |c.trailer| + 8
    ensures Maximal(c, run) ==> var s := Run(c, Init(c), run); Over(s) && s.content == c.file
    ensures Maximal(c, run) && LateNewline(c) ==> Run(c, Init(c), run).client.Done?
  {
    var s := Run(c, Init(c), run);
    RunIsBounded(c, Init(c), run);
    RunKeepsInv(c, Init(c), run);
    UploadSafety(c, run);
    if !Over(s) {
      var a := UploadNeverBlocks(c, s);
    }
  }

  /** Without a shadow entry for root the upload is accepted as well. */
  lemma NoShadowEntry(c: Session, run: seq<Action>)
    requires c.pwValid == -1 && c.writable && |c.file| >= 1
    requires CanRun(c, Init(c), run) && Maximal(c, run)
    ensures Run(c, Init(c), run).content == c.file
  {
    UploadTerminates(c, run);
  }

  // ----- the client's last read

  /** No newline will reach get_answer any more. */
  ghost predicate Starved(s: State) {
    !s.client.Done? && (s.server.Finished? && (s.client.LoopTest? || s.client.Answer?) ==> LF !in s.toClient)
  }

  /** Reading as much as possible with each acknowledgement starves get_answer. */
  lemma StarvingStep(c: Session, s: State) returns (a: Action)
    requires Accepted(c) && Inv(c, s) && !LateNewline(c) && Starved(s) && !Over(s)
    ensures Enabled(c, s, a) && Starved(Apply(c, s, a))
  {
    a := UploadNeverBlocks(c, s);
    var t := Apply(c, s, a);
    if a.ReadAck? && s.server.Finished? {
      assert forall i :: 0 <= i < |t.toClient| ==> t.toClient[i] == s.toClient[i + a.k];
      assert forall i :: 0 <= i < |t.toClient| ==> t.toClient[i] == c.trailer[i + 2];
    }
  }

  lemma {:induction false} StarvingRun(c: Session, s: State) returns (run: seq<Action>)
    requires Accepted(c) && Inv(c, s) && !LateNewline(c) && Starved(s)
    ensures CanRun(c, s, run) && Over(Run(c, s, run)) && Run(c, s, run).client.Answer?
    decreases Measure(c, s)
  {
    if Over(s) {
      run := [];
    } else {
      var a := StarvingStep(c, s);
      StepKeepsInv(c, s, a);
      StepDecreasesMeasure(c, s, a);
      var rest := StarvingRun(c, Apply(c, s, a));
      run := [a] + rest;
      assert run[1..] == rest;
    }
  }

  /** The client finds the end of the status line in every run exactly if the line has a newline behind its
      first two bytes; otherwise some run leaves it waiting although the file has been stored. */
  lemma AnswerIff(c: Session)
    requires c.file != [] && c.pwValid != 0 && c.writable
    ensures LateNewline(c) <==>
            forall run | CanRun(c, Init(c), run) && Maximal(c, run) :: Run(c, Init(c), run).client.Done?
  {
    if LateNewline(c) {
      forall run | CanRun(c, Init(c), run) && Maximal(c, run)
        ensures Run(c, Init(c), run).client.Done?
      {
        UploadTerminates(c, run);
      }
    } else {
      var run := StarvingRun(c, Init(c));
      RunKeepsInv(c, Init(c), run);
      assert Maximal(c, run);
    }
  }

  /** "OK \r\n", the line imond writes after a stored file, is long enough. */
  lemma StatusLineSuffices(c: Session)
    requires c.trailer == [79, 75, 32, 13, LF]
    ensures LateNewline(c)
  {
    assert c.trailer[4] == LF;
  }
}
