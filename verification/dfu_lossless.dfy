/**
 A run without loss: frames are delivered, no timer fires, every call succeeds, and a reset runs the
 requested version. Whatever the order of the actions, such a run passes through the same stages.
 */
module DfuLossless {
  import opened Bytes
  import Crc
  import opened DfuModel
  import opened DfuSession
  import opened DfuSafety
  import opened DfuTheorems

  // ----- the image in chunks -----

  /** A descriptor that tells the truth about its image, and a chunk count that fits its register. */
  predicate Describes(info: ImgInfo, image: seq<byte>) {
    && 0 < info.imageSize == |image| && info.crc16 == Crc.Ccitt16(0, image)
    && info.chunkSize <= MAX_CHUNK_SIZE && ChunkCount(info) < 0x1_0000
  }

  /** An update the client will take: a new or forced version, and an image that fits its flash. */
  predicate Acceptable(client: Node, info: ImgInfo) {
    && (info.gitSha != client.core.gitSha || info.filterKey == FORCE_UPDATE)
    && info.imageSize < |client.client.flash|
  }

  /** How much of the image `k` chunks cover. */
  function Covered(info: ImgInfo, k: nat): nat {
    if k * info.chunkSize < info.imageSize then k * info.chunkSize else info.imageSize
  }

  lemma {:induction false} Gap(a: nat, b: nat, c: nat)
    requires a < b
    ensures a * c + c <= b * c && (b == a + 1 ==> a * c + c == b * c)
    decreases b
  {
    assert b * c == (b - 1) * c + c;
    if a + 1 < b {
      Gap(a, b - 1, c);
    }
  }

  lemma {:induction false} Division(n: nat, d: nat, q: nat, r: nat)
    requires d > 0 && q == n / d && r == n % d
    ensures n == q * d + r && r < d
  {
  }

  lemma {:induction false} HasChunks(info: ImgInfo)
    requires 0 < info.imageSize
    ensures 0 < ChunkCount(info)
  {
    Division(info.imageSize, info.chunkSize, info.imageSize / info.chunkSize, info.imageSize % info.chunkSize);
  }

  lemma {:induction false} ChunksCover(info: ImgInfo, k: nat)
    requires 0 < info.imageSize && k < ChunkCount(info)
    ensures Covered(info, 0) == 0 && Covered(info, k) == k * info.chunkSize < info.imageSize
    ensures Covered(info, k + 1) - Covered(info, k)
      == if info.imageSize - Covered(info, k) >= info.chunkSize then info.chunkSize else info.imageSize - Covered(info, k)
    ensures k + 1 == ChunkCount(info) <==> Covered(info, k + 1) == info.imageSize
  {
    var c, q, r := info.chunkSize, info.imageSize / info.chunkSize, info.imageSize % info.chunkSize;
    var kc, qc, nextC := k * c, q * c, (k + 1) * c;
    Division(info.imageSize, c, q, r);
    Gap(k, k + 1, c);
    if k < q {
      Gap(k, q, c);
    }
    if k + 1 < q {
      Gap(k + 1, q, c);
    }
  }

  /** Chunk `k` of the image. */
  function Piece(info: ImgInfo, image: seq<byte>, k: nat): (r: seq<byte>)
    requires Describes(info, image) && k < ChunkCount(info)
  {
    ChunksCover(info, k);
    image[Covered(info, k)..Covered(info, k + 1)]
  }

  // ----- one node, one event -----

  predicate HostServing(h: Node, info: ImgInfo, image: seq<byte>, sent: nat) {
    && h.core.phase == HostUpdate && h.core.pending == None && h.core.callbackSet && h.log.callbacks == []
    && h.host.img == info && sent <= |image| == info.imageSize && h.host.bytesRemaining == info.imageSize - sent
    && SliceAt(h.host.store, IMG_START_OFFSET, image)
  }

  /** The client took part in this update since it was `Ready`. */
  predicate ClientTakes(c: Node, info: ImgInfo) {
    && c.core.pending == None && !c.core.resetting && c.core.rebootInfo == RebootInfo(true, info.gitSha)
    && c.log.confirmations == [] && c.log.activations == []
  }

  predicate ClientCollecting(c: Node, info: ImgInfo, image: seq<byte>, k: nat, got: nat) {
    && c.core.phase == ClientReceiving && ClientTakes(c, info)
    && c.client.imageSize == info.imageSize == |image| < |c.client.flash|
    && c.client.numChunks == ChunkCount(info) && c.client.crc16 == info.crc16 && c.client.currentChunk == k
    && got <= |image| && c.client.flashOffset <= |c.client.flash| && Received(c) == image[..got]
    && c.client.runningCrc16 == Crc.Ccitt16(0, image[..got])
  }

  /** The client holds the whole image and is about to ask for the reboot. */
  predicate ClientValidated(c: Node, info: ImgInfo, image: seq<byte>) {
    && c.core.phase == ClientValidating && ClientTakes(c.(core := c.core.(pending := None)), info)
    && c.core.pending == Some(ClientRebootReq) && Holds(c.client.flash, image)
  }

  lemma {:induction false} HostServes(h: Node, seqNum: nat, info: ImgInfo, image: seq<byte>, k: nat)
    requires Describes(info, image) && k < ChunkCount(info)
    requires HostServing(h, info, image, Covered(info, k)) && h.log.out == []
    ensures var h' := SmRun(h, EvFrame(MsgPayloadReq(seqNum)), ENV_OK);
      && HostServing(h', info, image, Covered(info, k + 1))
      && h'.log.out == [MsgPayload(Piece(info, image, k))]
  {
    ChunksCover(info, k);
    SubSlice(h.host.store, IMG_START_OFFSET, image, Covered(info, k), Covered(info, k + 1) - Covered(info, k));
  }

  lemma {:induction false} StoresPiece(c: Node, info: ImgInfo, image: seq<byte>, k: nat, got: nat, got': nat)
    requires ClientCollecting(c, info, image, k, got) && got < got' <= |image| && got' - got <= MAX_CHUNK_SIZE
    ensures ClientCollecting(StoreChunk(c, image[got..got'], ENV_OK), info, image, k, got')
    ensures StoreChunk(c, image[got..got'], ENV_OK).log == c.log
  {
    var data := image[got..got'];
    assert image[..got] + data == image[..got'];
    Crc.Ccitt16Concat(0, image[..got], data);
    var c0 := c.(client := c.client.(runningCrc16 := Crc.Ccitt16(c.client.runningCrc16, data)));
    assert |Received(c)| == c.client.flashOffset + |c.page| == got;
    ProcessPayloadConserves(c0, data, ENV_OK);
  }

  lemma {:induction false} AsksForMore(c: Node, info: ImgInfo, image: seq<byte>, k: nat, got: nat)
    requires ClientCollecting(c, info, image, k, got) && c.log.out == [] && k + 1 < ChunkCount(info)
    ensures var c' := NextChunk(c, ENV_OK);
      ClientCollecting(c', info, image, k + 1, got) && c'.log.out == [MsgPayloadReq(k + 1)]
  {
  }

  lemma {:induction false} FinishesImage(c: Node, ev: Event, info: ImgInfo, image: seq<byte>, k: nat)
    requires ClientCollecting(c, info, image, k, |image|) && c.log.out == [] && k + 1 == ChunkCount(info)
    requires info.crc16 == Crc.Ccitt16(0, image)
    ensures var c' := TakeTransition(NextChunk(c, ENV_OK), ev, ENV_OK);
      ClientValidated(c', info, image) && c'.log.out == []
  {
    assert image[..|image|] == image;
    var c1 := c.(client := c.client.(currentChunk := k + 1, chunkRetry := 0));
    assert |Received(c)| == c.client.flashOffset + |c.page| == |image|;
    ProcessEndConserves(c1, ENV_OK);
    var c2 := NextChunk(c, ENV_OK);
    assert c2 == SetPending(ProcessEnd(c1, ENV_OK).0, ClientValidating);
    assert c2.client.flash[..c2.client.flashOffset] == image;
    var c3 := c2.(core := c2.core.(pending := None, phase := ClientValidating));
    assert TakeTransition(c2, ev, ENV_OK) == ValidatingEntry(c3);
  }

  lemma {:induction false} TakesPiece(c: Node, info: ImgInfo, image: seq<byte>, k: nat)
    requires Describes(info, image) && k < ChunkCount(info)
    requires ClientCollecting(c, info, image, k, Covered(info, k)) && c.log.out == []
    ensures var c' := SmRun(c, EvFrame(MsgPayload(Piece(info, image, k))), ENV_OK);
      if k + 1 < ChunkCount(info) then
        ClientCollecting(c', info, image, k + 1, Covered(info, k + 1)) && c'.log.out == [MsgPayloadReq(k + 1)]
      else ClientValidated(c', info, image) && c'.log.out == []
  {
    ChunksCover(info, k);
    var got, got' := Covered(info, k), Covered(info, k + 1);
    StoresPiece(c, info, image, k, got, got');
    var c1 := StoreChunk(c, Piece(info, image, k), ENV_OK);
    var ev := EvFrame(MsgPayload(Piece(info, image, k)));
    assert Run(c, ev, ENV_OK) == NextChunk(c1, ENV_OK);
    if k + 1 < ChunkCount(info) {
      AsksForMore(c1, info, image, k, got');
    } else {
      FinishesImage(c1, ev, info, image, k);
    }
  }

  lemma {:induction false} HostGrantsReboot(h: Node, info: ImgInfo, image: seq<byte>, sent: nat)
    requires HostServing(h, info, image, sent) && h.log.out == []
    ensures var h' := SmRun(h, EvFrame(MsgRebootReq), ENV_OK);
      HostServing(h', info, image, sent) && h'.log.out == [MsgReboot]
  {
  }

  predicate AwaitsReboot(c: Node, info: ImgInfo, image: seq<byte>) {
    c.core.phase == ClientRebootReq && ClientTakes(c, info) && Holds(c.client.flash, image)
  }

  lemma {:induction false} AsksForReboot(c: Node, ev: Event, info: ImgInfo, image: seq<byte>)
    requires ClientValidated(c, info, image) && c.log.out == []
    ensures var c' := SmRun(c, ev, ENV_OK);
      AwaitsReboot(c', info, image) && c'.log.out == [MsgRebootReq]
  {
  }

  /** The client has handed the image to the bootloader and remembers the version to come. */
  predicate HasActivated(c: Node, info: ImgInfo, image: seq<byte>) {
    && c.core.pending == None && c.core.rebootInfo == RebootInfo(true, info.gitSha)
    && Holds(c.client.flash, image)
    && c.log.confirmations == [] && |c.log.activations| == 1 && Holds(c.log.activations[0], image)
  }

  lemma {:induction false} GoesToReboot(c: Node, info: ImgInfo, image: seq<byte>)
    requires AwaitsReboot(c, info, image) && c.log.out == []
    ensures var c' := SmRun(c, EvFrame(MsgReboot), ENV_OK);
      && c'.core.phase == ClientActivating && c'.core.resetting
      && HasActivated(c', info, image) && c'.log.out == []
  {
  }

  predicate Starting(c: Node, info: ImgInfo, image: seq<byte>) {
    c.core.phase == Init && !c.core.resetting && c.core.gitSha == info.gitSha && HasActivated(c, info, image)
  }

  predicate Booted(c: Node, info: ImgInfo, image: seq<byte>) {
    c.core.phase == ClientRebootDone && !c.core.resetting && c.core.gitSha == info.gitSha && HasActivated(c, info, image)
  }

  lemma {:induction false} Boots(c: Node, info: ImgInfo, image: seq<byte>)
    requires Starting(c, info, image) && c.log.out == []
    ensures var c' := SmRun(c, EvInitSuccess, ENV_OK);
      Booted(c', info, image) && c'.log.out == [MsgBootComplete]
  {
  }

  lemma {:induction false} HostEndsUpdate(h: Node, info: ImgInfo, image: seq<byte>, sent: nat)
    requires HostServing(h, info, image, sent) && h.log.out == []
    ensures var h' := SmRun(h, EvFrame(MsgBootComplete), ENV_OK);
      HostServing(h', info, image, sent) && h'.log.out == [MsgEnd(true, ERR_NONE)]
  {
  }

  predicate Updated(c: Node, info: ImgInfo, image: seq<byte>) {
    && c.core.phase == Idle && c.core.pending == None && !c.core.resetting
    && c.log.confirmations == [info.gitSha] && |c.log.activations| == 1 && Holds(c.log.activations[0], image)
  }

  lemma {:induction false} ConfirmsImage(c: Node, info: ImgInfo, image: seq<byte>)
    requires Booted(c, info, image) && c.log.out == []
    ensures var c' := SmRun(c, EvFrame(MsgEnd(true, ERR_NONE)), ENV_OK);
      Updated(c', info, image) && c'.log.out == [MsgEnd(true, ERR_NONE)]
  {
  }

  lemma {:induction false} HostSucceeds(h: Node, info: ImgInfo, image: seq<byte>, sent: nat)
    requires HostServing(h, info, image, sent) && h.log.out == []
    ensures var h' := SmRun(h, EvFrame(MsgEnd(true, ERR_NONE)), ENV_OK);
      && h'.core.phase == Idle && h'.log.callbacks == [(true, ERR_NONE)] && h'.log.out == []
      && h'.host.bytesRemaining == info.imageSize - sent
  {
  }

  lemma {:induction false} TakesRequest(c: Node, info: ImgInfo, image: seq<byte>)
    requires Ready(c) && c.log.confirmations == [] && c.log.activations == [] && c.log.out == []
    requires Acceptable(c, info) && Describes(info, image)
    ensures var c' := SmRun(c, EvFrame(MsgStart(info)), ENV_OK);
      ClientCollecting(c', info, image, 0, 0) && c'.log.out == [MsgAck(true, ERR_NONE), MsgPayloadReq(0)]
  {
    var ev := EvFrame(MsgStart(info));
    var r := ProcessUpdateRequest(c, info, ENV_OK);
    assert r.core.pending == Some(ClientReceiving) && r.log.out == [MsgAck(true, ERR_NONE)];
    var r1 := r.(core := r.core.(pending := None, phase := ClientReceiving));
    assert TakeTransition(r, ev, ENV_OK) == ReceivingEntry(r1);
    assert Received(ReceivingEntry(r1)) == [];
  }

  predicate HostRequests(h: Node, info: ImgInfo, image: seq<byte>) {
    h.core.phase == HostReqUpdate && HostServing(h.(core := h.core.(phase := HostUpdate)), info, image, 0)
  }

  lemma {:induction false} TakesAck(h: Node, info: ImgInfo, image: seq<byte>)
    requires HostRequests(h, info, image) && h.log.out == []
    ensures var h' := SmRun(h, EvFrame(MsgAck(true, ERR_NONE)), ENV_OK);
      HostServing(h', info, image, 0) && h'.log.out == []
  {
  }

  // ----- stages -----

  datatype Stage =
    | Requested
    | Acknowledged
    | Asked(k: nat)
    | Answered(k: nat)
    | Collected
    | AskedReboot
    | RebootGranted
    | Activating
    | Restarting
    | Restarted
    | Ending
    | Confirmed
    | Done

  function ToClientIn(stage: Stage, info: ImgInfo, image: seq<byte>): seq<Msg>
    requires Describes(info, image) && IsStage(stage, info)
  {
    match stage
    case Requested => [MsgStart(info)]
    case Answered(k) => [MsgPayload(Piece(info, image, k))]
    case RebootGranted => [MsgReboot]
    case Ending => [MsgEnd(true, ERR_NONE)]
    case _ => []
  }

  function ToHostIn(stage: Stage): seq<Msg> {
    match stage
    case Acknowledged => [MsgAck(true, ERR_NONE), MsgPayloadReq(0)]
    case Asked(k) => [MsgPayloadReq(k)]
    case AskedReboot => [MsgRebootReq]
    case Restarted => [MsgBootComplete]
    case Confirmed => [MsgEnd(true, ERR_NONE)]
    case _ => []
  }

  predicate HostIn(stage: Stage, h: Node, info: ImgInfo, image: seq<byte>) {
    match stage
    case Requested => HostRequests(h, info, image)
    case Acknowledged => HostRequests(h, info, image)
    case Asked(k) => HostServing(h, info, image, Covered(info, k))
    case Answered(k) => HostServing(h, info, image, Covered(info, k + 1))
    case Done => h.core.phase == Idle && h.log.callbacks == [(true, ERR_NONE)] && h.host.bytesRemaining == 0
    case _ => HostServing(h, info, image, info.imageSize)
  }

  predicate ClientIn(stage: Stage, c: Node, info: ImgInfo, image: seq<byte>) {
    match stage
    case Requested => Ready(c) && c.log.confirmations == [] && c.log.activations == [] && Acceptable(c, info)
    case Acknowledged => ClientCollecting(c, info, image, 0, 0)
    case Asked(k) => ClientCollecting(c, info, image, k, Covered(info, k))
    case Answered(k) => ClientCollecting(c, info, image, k, Covered(info, k))
    case Collected => ClientValidated(c, info, image)
    case AskedReboot => AwaitsReboot(c, info, image)
    case RebootGranted => AwaitsReboot(c, info, image)
    case Activating => c.core.phase == ClientActivating && c.core.resetting && HasActivated(c, info, image)
    case Restarting => Starting(c, info, image)
    case Restarted => Booted(c, info, image)
    case Ending => Booted(c, info, image)
    case Confirmed => Updated(c, info, image)
    case Done => Updated(c, info, image)
  }

  predicate IsStage(stage: Stage, info: ImgInfo) {
    (stage.Asked? || stage.Answered?) ==> stage.k < ChunkCount(info)
  }

  predicate At(s: Sys, stage: Stage, info: ImgInfo, image: seq<byte>)
    requires Describes(info, image)
  {
    && IsStage(stage, info) && HostIn(stage, s.host, info, image) && ClientIn(stage, s.client, info, image)
    && s.toClient == ToClientIn(stage, info, image) && s.toHost == ToHostIn(stage)
  }

  function Following(stage: Stage, info: ImgInfo): Stage {
    match stage
    case Requested => Acknowledged
    case Acknowledged => Asked(0)
    case Asked(k) => Answered(k)
    case Answered(k) => if k + 1 < ChunkCount(info) then Asked(k + 1) else Collected
    case Collected => AskedReboot
    case AskedReboot => RebootGranted
    case RebootGranted => Activating
    case Activating => Restarting
    case Restarting => Restarted
    case Restarted => Ending
    case Ending => Confirmed
    case Confirmed => Done
    case Done => Done
  }

  function Rank(stage: Stage, info: ImgInfo): nat {
    match stage
    case Requested => 0
    case Acknowledged => 1
    case Asked(k) => 2 + 2 * k
    case Answered(k) => 3 + 2 * k
    case Collected => 2 + 2 * ChunkCount(info)
    case AskedReboot => 3 + 2 * ChunkCount(info)
    case RebootGranted => 4 + 2 * ChunkCount(info)
    case Activating => 5 + 2 * ChunkCount(info)
    case Restarting => 6 + 2 * ChunkCount(info)
    case Restarted => 7 + 2 * ChunkCount(info)
    case Ending => 8 + 2 * ChunkCount(info)
    case Confirmed => 9 + 2 * ChunkCount(info)
    case Done => 10 + 2 * ChunkCount(info)
  }

  function Taken(stage: Stage, info: ImgInfo): nat {
    match stage
    case Requested => 0
    case Acknowledged => 0
    case Asked(k) => k
    case Answered(k) => k
    case _ => ChunkCount(info)
  }

  // ----- runs -----

  /** Frames are delivered, no timer fires, every call succeeds, and a reset runs the requested version. */
  function LosslessActions(info: ImgInfo): set<Action> {
    {HostReceives(ENV_OK), ClientReceives(ENV_OK), ClientLocal(EvNone, ENV_OK),
     ClientLocal(EvInitSuccess, ENV_OK), ClientReset(info.gitSha)}
  }

  /** The action of a lossless run finds something to do. */
  predicate Moves(s: Sys, a: Action) {
    match a
    case HostReceives(_) => s.toHost != []
    case ClientReceives(_) => s.toClient != [] && !s.client.core.resetting
    case ClientLocal(ev, _) =>
      !s.client.core.resetting && (s.client.core.pending != None || (s.client.core.phase == Init && ev == EvInitSuccess))
    case ClientReset(_) => s.client.core.resetting
    case _ => false
  }

  predicate TakesPayload(s: Sys, a: Action) {
    a.ClientReceives? && Moves(s, a) && s.toClient[0].MsgPayload?
  }

  function MovesIn(s: Sys, actions: seq<Action>): nat
    decreases |actions|
  {
    if actions == [] then 0
    else (if Moves(s, actions[0]) then 1 else 0) + MovesIn(Next(s, actions[0]), actions[1..])
  }

  function PayloadsTaken(s: Sys, actions: seq<Action>): nat
    decreases |actions|
  {
    if actions == [] then 0
    else (if TakesPayload(s, actions[0]) then 1 else 0) + PayloadsTaken(Next(s, actions[0]), actions[1..])
  }

  predicate Quiet(s: Sys, info: ImgInfo) {
    forall a :: a in LosslessActions(info) ==> !Moves(s, a)
  }

  lemma {:induction false} FollowingRanks(stage: Stage, info: ImgInfo)
    requires IsStage(stage, info) && stage != Done && 0 < ChunkCount(info)
    ensures var next := Following(stage, info);
      && IsStage(next, info) && Rank(next, info) == Rank(stage, info) + 1
      && Taken(next, info) == Taken(stage, info) + (if stage.Answered? then 1 else 0)
  {
  }

  lemma {:induction false} RankIsBounded(stage: Stage, info: ImgInfo)
    requires IsStage(stage, info) && 0 < ChunkCount(info)
    ensures Rank(stage, info) <= Rank(Done, info) && (Rank(stage, info) == Rank(Done, info) <==> stage == Done)
    ensures Taken(stage, info) <= ChunkCount(info)
  {
  }

  lemma {:induction false} HostGets(h: Node, stage: Stage, info: ImgInfo, image: seq<byte>)
    requires Describes(info, image) && IsStage(stage, info) && HostIn(stage, h, info, image)
    requires ToHostIn(stage) != [] && h.log.out == []
    ensures var h' := SmRun(h, EvFrame(ToHostIn(stage)[0]), ENV_OK);
      HostIn(Following(stage, info), h', info, image) && h'.log.out == ToClientIn(Following(stage, info), info, image)
  {
    HasChunks(info);
    ChunksCover(info, 0);
    match stage
    case Acknowledged => TakesAck(h, info, image);
    case Asked(k) => HostServes(h, k, info, image, k);
    case AskedReboot => HostGrantsReboot(h, info, image, info.imageSize);
    case Restarted => HostEndsUpdate(h, info, image, info.imageSize);
    case Confirmed => HostSucceeds(h, info, image, info.imageSize);
    case _ =>
  }

  lemma {:induction false} ClientGetsPiece(c: Node, k: nat, info: ImgInfo, image: seq<byte>)
    requires Describes(info, image) && k < ChunkCount(info)
    requires ClientIn(Answered(k), c, info, image) && c.log.out == []
    ensures var c' := SmRun(c, EvFrame(MsgPayload(Piece(info, image, k))), ENV_OK);
      ClientIn(Following(Answered(k), info), c', info, image) && c'.log.out == ToHostIn(Following(Answered(k), info))
  {
    TakesPiece(c, info, image, k);
  }

  lemma {:induction false} ClientGets(c: Node, stage: Stage, info: ImgInfo, image: seq<byte>)
    requires Describes(info, image) && IsStage(stage, info) && ClientIn(stage, c, info, image)
    requires ToClientIn(stage, info, image) != [] && c.log.out == []
    ensures var c' := SmRun(c, EvFrame(ToClientIn(stage, info, image)[0]), ENV_OK);
      ClientIn(Following(stage, info), c', info, image) && c'.log.out == ToHostIn(Following(stage, info))
  {
    match stage
    case Requested => TakesRequest(c, info, image);
    case Answered(k) => ClientGetsPiece(c, k, info, image);
    case RebootGranted => GoesToReboot(c, info, image);
    case Ending => ConfirmsImage(c, info, image);
    case _ =>
  }

  lemma {:induction false} ClientWakes(c: Node, stage: Stage, ev: Event, info: ImgInfo, image: seq<byte>)
    requires Describes(info, image) && ClientIn(stage, c, info, image) && c.log.out == []
    requires stage.Collected? || (stage.Restarting? && ev == EvInitSuccess)
    ensures var c' := SmRun(c, ev, ENV_OK);
      ClientIn(Following(stage, info), c', info, image) && c'.log.out == ToHostIn(Following(stage, info))
  {
    if stage.Collected? {
      AsksForReboot(c, ev, info, image);
    } else {
      Boots(c, info, image);
    }
  }

  /** The host's step takes the session to the next stage. */
  lemma {:induction false} AfterHost(s: Sys, h: Node, stage: Stage, info: ImgInfo, image: seq<byte>)
    requires Describes(info, image) && At(s, stage, info, image) && s.toHost != []
    requires IsStage(Following(stage, info), info) && HostIn(Following(stage, info), h, info, image)
    requires h.log.out == ToClientIn(Following(stage, info), info, image)
    ensures At(s.(host := h, toHost := s.toHost[1..], toClient := s.toClient + h.log.out), Following(stage, info), info, image)
  {
  }

  /** So does the client's, on a frame or on its own. */
  lemma {:induction false} AfterClient(s: Sys, c: Node, stage: Stage, info: ImgInfo, image: seq<byte>)
    requires Describes(info, image) && At(s, stage, info, image) && s.toHost == [] && stage != Done
    requires IsStage(Following(stage, info), info) && ClientIn(Following(stage, info), c, info, image)
    requires c.log.out == ToHostIn(Following(stage, info))
    ensures At(s.(client := c, toClient := [], toHost := c.log.out), Following(stage, info), info, image)
  {
    if stage.Answered? {
      ChunksCover(info, stage.k);
    }
  }

  lemma {:induction false} HostMoves(s: Sys, stage: Stage, info: ImgInfo, image: seq<byte>)
    requires Describes(info, image) && At(s, stage, info, image) && s.toHost != []
    ensures At(Next(s, HostReceives(ENV_OK)), Following(stage, info), info, image)
  {
    HasChunks(info);
    FollowingRanks(stage, info);
    HostGets(ClearOut(s.host), stage, info, image);
    AfterHost(s, SmRun(ClearOut(s.host), EvFrame(s.toHost[0]), ENV_OK), stage, info, image);
  }

  lemma {:induction false} ClientMoves(s: Sys, stage: Stage, info: ImgInfo, image: seq<byte>)
    requires Describes(info, image) && At(s, stage, info, image) && s.toClient != []
    ensures At(Next(s, ClientReceives(ENV_OK)), Following(stage, info), info, image)
  {
    HasChunks(info);
    FollowingRanks(stage, info);
    ClientGets(ClearOut(s.client), stage, info, image);
    AfterClient(s, SmRun(ClearOut(s.client), EvFrame(s.toClient[0]), ENV_OK), stage, info, image);
  }

  lemma {:induction false} LocalMoves(s: Sys, stage: Stage, ev: Event, info: ImgInfo, image: seq<byte>)
    requires Describes(info, image) && At(s, stage, info, image)
    requires ev in {EvNone, EvInitSuccess} && Moves(s, ClientLocal(ev, ENV_OK))
    ensures At(Next(s, ClientLocal(ev, ENV_OK)), Following(stage, info), info, image)
  {
    HasChunks(info);
    FollowingRanks(stage, info);
    ClientWakes(ClearOut(s.client), stage, ev, info, image);
    AfterClient(s, SmRun(ClearOut(s.client), ev, ENV_OK), stage, info, image);
  }

  lemma {:induction false} ResetMoves(s: Sys, stage: Stage, info: ImgInfo, image: seq<byte>)
    requires Describes(info, image) && At(s, stage, info, image) && s.client.core.resetting
    ensures At(Next(s, ClientReset(info.gitSha)), Following(stage, info), info, image)
  {
  }

  /** Without a pending transition a wake-up does nothing. */
  lemma {:induction false} WakesIdly(c: Node, ev: Event)
    requires c.core.pending == None && ev in {EvNone, EvInitSuccess} && (c.core.phase == Init ==> ev == EvNone)
    ensures SmRun(c, ev, ENV_OK) == c
  {
  }

  lemma {:induction false} IgnoresOut(stage: Stage, c: Node, info: ImgInfo, image: seq<byte>)
    ensures ClientIn(stage, c, info, image) <==> ClientIn(stage, ClearOut(c), info, image)
  {
  }

  lemma {:induction false} WakingStays(s: Sys, stage: Stage, ev: Event, info: ImgInfo, image: seq<byte>)
    requires Describes(info, image) && At(s, stage, info, image)
    requires ev in {EvNone, EvInitSuccess} && !Moves(s, ClientLocal(ev, ENV_OK))
    ensures At(Next(s, ClientLocal(ev, ENV_OK)), stage, info, image)
  {
    if !s.client.core.resetting {
      var c := ClearOut(s.client);
      WakesIdly(c, ev);
      IgnoresOut(stage, s.client, info, image);
      assert Next(s, ClientLocal(ev, ENV_OK)) == s.(client := c, toHost := s.toHost + []);
    }
  }

  lemma {:induction false} Stays(s: Sys, stage: Stage, a: Action, info: ImgInfo, image: seq<byte>)
    requires Describes(info, image) && At(s, stage, info, image) && a in LosslessActions(info) && !Moves(s, a)
    ensures At(Next(s, a), stage, info, image)
  {
    if a.ClientLocal? {
      WakingStays(s, stage, a.ev, info, image);
    } else {
      assert Next(s, a) == s;
    }
  }

  lemma {:induction false} MovesUntilDone(s: Sys, stage: Stage, a: Action, info: ImgInfo, image: seq<byte>)
    requires Describes(info, image) && At(s, stage, info, image) && a in LosslessActions(info) && Moves(s, a)
    ensures stage != Done && (TakesPayload(s, a) <==> stage.Answered?)
  {
  }

  lemma {:induction false} MovesOn(s: Sys, stage: Stage, a: Action, info: ImgInfo, image: seq<byte>)
    requires Describes(info, image) && At(s, stage, info, image) && a in LosslessActions(info) && Moves(s, a)
    ensures At(Next(s, a), Following(stage, info), info, image)
  {
    if a == HostReceives(ENV_OK) {
      HostMoves(s, stage, info, image);
    } else if a == ClientReceives(ENV_OK) {
      ClientMoves(s, stage, info, image);
    } else if a == ClientReset(info.gitSha) {
      ResetMoves(s, stage, info, image);
    } else {
      LocalMoves(s, stage, a.ev, info, image);
    }
  }

  lemma {:induction false} NextAt(s: Sys, stage: Stage, a: Action, info: ImgInfo, image: seq<byte>)
    requires Describes(info, image) && At(s, stage, info, image) && a in LosslessActions(info)
    ensures At(Next(s, a), if Moves(s, a) then Following(stage, info) else stage, info, image)
  {
    if !Moves(s, a) {
      Stays(s, stage, a, info, image);
    } else {
      MovesOn(s, stage, a, info, image);
    }
  }

  lemma {:induction false} RunStaysOnCourse(s: Sys, stage: Stage, actions: seq<Action>, info: ImgInfo, image: seq<byte>)
    returns (last: Stage)
    requires Describes(info, image) && At(s, stage, info, image)
    requires forall a :: a in actions ==> a in LosslessActions(info)
    ensures At(Exec(s, actions), last, info, image)
    ensures Rank(last, info) == Rank(stage, info) + MovesIn(s, actions)
    ensures Taken(last, info) == Taken(stage, info) + PayloadsTaken(s, actions)
    decreases |actions|
  {
    last := stage;
    if actions != [] {
      var a := actions[0];
      NextAt(s, stage, a, info, image);
      if Moves(s, a) {
        HasChunks(info);
        MovesUntilDone(s, stage, a, info, image);
        FollowingRanks(stage, info);
        last := Following(stage, info);
      }
      last := RunStaysOnCourse(Next(s, a), last, actions[1..], info, image);
    }
  }

  lemma {:induction false} QuietIsDone(s: Sys, stage: Stage, info: ImgInfo, image: seq<byte>)
    requires Describes(info, image) && At(s, stage, info, image)
    ensures Quiet(s, info) <==> stage == Done
  {
    assert HostReceives(ENV_OK) in LosslessActions(info) && ClientReceives(ENV_OK) in LosslessActions(info);
    assert ClientLocal(EvInitSuccess, ENV_OK) in LosslessActions(info) && ClientReset(info.gitSha) in LosslessActions(info);
  }

  /** What holds after every lossless run that found something to do `moves` times and took `taken` payloads. */
  predicate OnCourse(s: Sys, info: ImgInfo, image: seq<byte>, moves: nat, taken: nat) {
    && moves <= 2 * ChunkCount(info) + 10 && taken <= ChunkCount(info)
    && s.host.core.phase != Error && s.client.core.phase != Error
    && (s.client.core.phase == ClientReceiving ==> taken < ChunkCount(info))
    && (s.client.core.phase in {ClientValidating, ClientRebootReq, ClientActivating} ==>
          taken == ChunkCount(info) && s.host.host.bytesRemaining == 0 && Holds(s.client.client.flash, image))
    && (Quiet(s, info) <==> moves == 2 * ChunkCount(info) + 10)
    && (Quiet(s, info) ==>
          && |s.client.log.activations| == 1 && Holds(s.client.log.activations[0], image)
          && s.client.log.confirmations == [info.gitSha] && s.host.log.callbacks == [(true, ERR_NONE)])
  }

  lemma {:induction false} AtIsOnCourse(s: Sys, stage: Stage, info: ImgInfo, image: seq<byte>)
    requires Describes(info, image) && At(s, stage, info, image)
    ensures OnCourse(s, info, image, Rank(stage, info), Taken(stage, info))
  {
    HasChunks(info);
    RankIsBounded(stage, info);
    QuietIsDone(s, stage, info, image);
  }

  /**
   However the actions of a run without loss or timeouts are ordered, nothing fails: at most
   `2 * ChunkCount + 10` of them find something to do; when the client leaves the receiving state it took
   exactly `ChunkCount` payloads, the host has nothing left to send and the client holds the image; and a run
   that got stuck has activated the image once, confirmed the version and reported success once.
   */
  lemma {:induction false} LosslessUpdateSucceeds(host: Node, client: Node, info: ImgInfo, image: seq<byte>,
                                                  actions: seq<Action>)
    requires CanBegin(host, client, info, image) && Acceptable(client, info) && Describes(info, image)
    requires forall a :: a in actions ==> a in LosslessActions(info)
    ensures var s := Begin(host, client, info, ENV_OK);
      OnCourse(Exec(s, actions), info, image, MovesIn(s, actions), PayloadsTaken(s, actions))
  {
    var s := Begin(host, client, info, ENV_OK);
    assert At(s, Requested, info, image);
    var last := RunStaysOnCourse(s, Requested, actions, info, image);
    AtIsOnCourse(Exec(s, actions), last, info, image);
  }
}
