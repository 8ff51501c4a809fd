/**
 The firmware-update state machine of one node, as functions on a value.

 Every node runs the same ten states: a node that starts an update plays the host, the node
 that is updated plays the client. `SmRun` is one iteration of the event thread: it runs the
 current state on an event, then takes the one-slot pending transition and enters the next state.
 The timers, the flash driver and the transmit path answer through `Env`, one field for each
 call that can fail. Everything a node sends during an iteration is appended to `out`.
 */
module DfuModel {
  import opened Bytes
  import Crc

  const MAX_CHUNK_SIZE := 1024
  const MAX_CHUNK_RETRIES := 5
  const MAX_ACK_RETRIES := 2
  const PAGE_LENGTH := 2048
  /** The image follows its packed descriptor in the host's flash. */
  const IMG_START_OFFSET := 18
  const FORCE_UPDATE: uint32 := 0x4CEDc0fe

  const ERR_NONE: uint8 := 0
  const ERR_TOO_LARGE: uint8 := 1
  const ERR_SAME_VER: uint8 := 2
  const ERR_MISMATCH_LEN: uint8 := 3
  const ERR_BAD_CRC: uint8 := 4
  const ERR_IMG_CHUNK_ACCESS: uint8 := 5
  const ERR_TIMEOUT: uint8 := 6
  const ERR_BM_FRAME: uint8 := 7
  const ERR_ABORTED: uint8 := 8
  const ERR_WRONG_VER: uint8 := 9
  const ERR_CHUNK_SIZE: uint8 := 11
  const ERR_CONFIRMATION_ABORT: uint8 := 13
  /** This error and every code above it keep the node in the error state. */
  const ERR_FLASH_ACCESS: uint8 := 14

  type Positive16 = x: int | 1 <= x < 0x1_0000 witness 1
  type PartialPage = s: seq<byte> | |s| < PAGE_LENGTH witness []

  datatype ImgInfo = ImgInfo(imageSize: uint32, chunkSize: Positive16, crc16: bv16,
                             filterKey: uint32, gitSha: uint32)

  datatype Msg =
    | MsgStart(info: ImgInfo)
    | MsgPayloadReq(seqNum: nat)
    | MsgPayload(data: seq<byte>)
    | MsgEnd(success: bool, err: uint8)
    | MsgAck(success: bool, err: uint8)
    | MsgAbort(err: uint8)
    | MsgHeartbeat
    | MsgRebootReq
    | MsgReboot
    | MsgBootComplete

  datatype Event =
    | EvNone
    | EvInitSuccess
    | EvAckTimeout
    | EvChunkTimeout
    | EvUpdateTimer
    | EvBeginHost(info: ImgInfo, hasCallback: bool)
    | EvFrame(msg: Msg)

  datatype Phase =
    | Init | Idle | Error
    | ClientReceiving | ClientValidating | ClientRebootReq | ClientRebootDone | ClientActivating
    | HostReqUpdate | HostUpdate

  /** The record kept in memory that a reset does not clear; `magic` is false once it is zeroed. */
  datatype RebootInfo = RebootInfo(magic: bool, gitSha: uint32)
  const NO_REBOOT_INFO := RebootInfo(false, 0)

  datatype Env = Env(timerStop: bool, timerStart: bool, flashOpen: bool, flashErase: bool,
                     pageWrite: bool, endWrite: bool, malloc: bool, readChunk: bool, tx: bool,
                     confirmEnabled: bool)

  /** Every call of the environment succeeds, and updates are confirmed through the host. */
  const ENV_OK := Env(true, true, true, true, true, true, true, true, true, true)

  /** State machine core, with the version that is running. */
  datatype Core = Core(phase: Phase, pending: Option<Phase>, error: uint8, callbackSet: bool,
                       rebootInfo: RebootInfo, gitSha: uint32, resetting: bool)

  /** Client registers and the flash area that receives the image. */
  datatype Client = Client(imageSize: uint32, numChunks: uint16, crc16: bv16, runningCrc16: bv16,
                           chunkRetry: nat, currentChunk: nat, flashOffset: nat, flash: seq<byte>)

  /** Host registers and the flash the image is read from. */
  datatype Host = Host(img: ImgInfo, bytesRemaining: uint32, ackRetry: nat, store: seq<byte>)

  /** What a node did: frames sent, completion callbacks, versions confirmed, images activated. */
  datatype Log = Log(out: seq<Msg>, callbacks: seq<(bool, uint8)>,
                     confirmations: seq<uint32>, activations: seq<seq<byte>>)

  /** `page` is the filled part of the client's page buffer. */
  datatype Node = Node(core: Core, client: Client, page: PartialPage, host: Host, log: Log)

  function Send(n: Node, m: Msg): Node {
    n.(log := n.log.(out := n.log.out + [m]))
  }

  function SetPending(n: Node, p: Phase): Node {
    n.(core := n.core.(pending := Some(p)))
  }

  function ToError(n: Node, err: uint8): Node {
    n.(core := n.core.(error := err, pending := Some(Error)))
  }

  /** The completion callback, when one is registered. */
  function Finish(n: Node, success: bool, err: uint8): Node {
    if n.core.callbackSet then n.(log := n.log.(callbacks := n.log.callbacks + [(success, err)])) else n
  }

  // ----- client -----

  function CountRetry(n: Node): Node {
    n.(client := n.client.(chunkRetry := n.client.chunkRetry + 1))
  }

  function ClearRetry(n: Node): Node {
    n.(client := n.client.(chunkRetry := 0))
  }

  function ChunkCount(info: ImgInfo): nat {
    if info.imageSize % info.chunkSize != 0 then info.imageSize / info.chunkSize + 1
    else info.imageSize / info.chunkSize
  }

  function Erased(length: nat): seq<byte> {
    seq(length, _ => 0xFF)
  }

  function ProcessUpdateRequest(n: Node, info: ImgInfo, env: Env): Node {
    if info.gitSha != n.core.gitSha || info.filterKey == FORCE_UPDATE then
      if info.chunkSize > MAX_CHUNK_SIZE then
        ToError(Send(n, MsgAbort(ERR_ABORTED)), ERR_CHUNK_SIZE)
      else
        var n1 := n.(client := n.client.(imageSize := info.imageSize,
                                         numChunks := ChunkCount(info) % 0x1_0000,
                                         crc16 := info.crc16));
        if !env.flashOpen then
          ToError(Send(n1, MsgAck(false, ERR_FLASH_ACCESS)), ERR_FLASH_ACCESS)
        else if |n1.client.flash| > info.imageSize then
          if !env.flashErase then
            ToError(Send(n1, MsgAck(false, ERR_FLASH_ACCESS)), ERR_FLASH_ACCESS)
          else
            SetPending(Send(n1.(client := n1.client.(flash := Erased(|n1.client.flash|)),
                                core := n1.core.(rebootInfo := RebootInfo(true, info.gitSha))),
                            MsgAck(true, ERR_NONE)),
                       ClientReceiving)
        else
          Send(n1, MsgAck(false, ERR_TOO_LARGE))
    else
      Send(n, MsgAck(false, ERR_SAME_VER))
  }

  /** A write that does not fit in the area fails, as does one the driver refuses. */
  predicate CanWrite(c: Client, length: nat, driverOk: bool) {
    driverOk && c.flashOffset + length <= |c.flash|
  }

  /** Writes `data` at the flash offset and moves the offset past it. */
  function Write(c: Client, data: seq<byte>): Client
    requires CanWrite(c, |data|, true)
  {
    c.(flash := Splice(c.flash, c.flashOffset, data), flashOffset := c.flashOffset + |data|)
  }

  function ProcessPayload(n: Node, data: seq<byte>, env: Env): (r: (Node, bool))
    requires |data| <= MAX_CHUNK_SIZE
  {
    if |data| == 0 then (n, false)
    else if |n.page| + |data| < PAGE_LENGTH then (n.(page := n.page + data), true)
    else
      var rest := PAGE_LENGTH - |n.page|;
      if CanWrite(n.client, PAGE_LENGTH, env.pageWrite) then
        (n.(client := Write(n.client, n.page + data[..rest]), page := data[rest..]), true)
      else (n.(page := []), false)
  }

  function ProcessEnd(n: Node, env: Env): (r: (Node, bool)) {
    if n.page == [] then (n, true)
    else if CanWrite(n.client, |n.page|, env.endWrite) then
      (n.(client := Write(n.client, n.page)), true)
    else (n, false)
  }

  function RestartImage(n: Node): Node {
    n.(client := n.client.(currentChunk := 0, chunkRetry := 0, flashOffset := 0, runningCrc16 := 0),
       page := [])
  }

  function ReceivingEntry(n: Node): Node {
    Send(RestartImage(n), MsgPayloadReq(0))
  }

  /** A chunk that cannot be stored leaves a pending error, yet it still counts as received. */
  function StoreChunk(n: Node, data: seq<byte>, env: Env): Node
    requires |data| <= MAX_CHUNK_SIZE
  {
    var n0 := n.(client := n.client.(runningCrc16 := Crc.Ccitt16(n.client.runningCrc16, data)));
    var (n1, stored) := ProcessPayload(n0, data, env);
    if stored then n1 else ToError(n1, ERR_BM_FRAME)
  }

  /** Asks for the next chunk; after the last one the rest of the page is written out. */
  function NextChunk(n: Node, env: Env): Node {
    var n1 := n.(client := n.client.(currentChunk := n.client.currentChunk + 1, chunkRetry := 0));
    if n1.client.currentChunk < n1.client.numChunks then
      var n2 := Send(n1, MsgPayloadReq(n1.client.currentChunk));
      if env.timerStart then n2 else ToError(n2, ERR_ABORTED)
    else
      var (n2, ended) := ProcessEnd(n1, env);
      if ended then SetPending(n2, ClientValidating) else ToError(n2, ERR_BM_FRAME)
  }

  function ReceivingRun(n: Node, ev: Event, env: Env): Node {
    match ev
    case EvFrame(MsgPayload(data)) =>
      if |data| > MAX_CHUNK_SIZE then n
      else if !env.timerStop then ToError(n, ERR_ABORTED)
      else NextChunk(StoreChunk(n, data, env), env)
    case EvChunkTimeout =>
      var n1 := CountRetry(n);
      if n1.client.chunkRetry >= MAX_CHUNK_RETRIES then
        ToError(Send(n1, MsgAbort(ERR_ABORTED)), ERR_TIMEOUT)
      else
        var n2 := Send(n1, MsgPayloadReq(n1.client.currentChunk));
        if env.timerStart then n2 else ToError(n2, ERR_ABORTED)
    case EvFrame(MsgStart(_)) =>
      if !env.timerStop then ToError(n, ERR_ABORTED)
      else
        var n1 := Send(RestartImage(Send(n, MsgAck(true, ERR_NONE))), MsgPayloadReq(0));
        if env.timerStart then n1 else ToError(n1, ERR_ABORTED)
    case EvFrame(MsgHeartbeat) =>
      if env.timerStart then n else ToError(n, ERR_ABORTED)
    case _ => n
  }

  function ValidatingEntry(n: Node): Node {
    if n.client.imageSize != n.client.flashOffset then
      ToError(Send(n, MsgEnd(false, ERR_MISMATCH_LEN)), ERR_MISMATCH_LEN)
    else if n.client.crc16 == n.client.runningCrc16 then
      SetPending(n, ClientRebootReq)
    else
      ToError(Send(n, MsgEnd(false, ERR_BAD_CRC)), ERR_BAD_CRC)
  }

  function ActivatingEntry(n: Node): Node {
    n.(log := n.log.(activations := n.log.activations + [n.client.flash]),
       core := n.core.(resetting := true))
  }

  function RebootReqEntry(n: Node): Node {
    Send(ClearRetry(n), MsgRebootReq)
  }

  function RebootReqRun(n: Node, ev: Event): Node {
    match ev
    case EvFrame(MsgReboot) => SetPending(n, ClientActivating)
    case EvChunkTimeout =>
      var n1 := CountRetry(n);
      if n1.client.chunkRetry >= MAX_CHUNK_RETRIES then
        ToError(Send(n1, MsgAbort(ERR_ABORTED)), ERR_TIMEOUT)
      else Send(n1, MsgRebootReq)
    case _ => n
  }

  function Confirm(n: Node): Node {
    n.(log := n.log.(confirmations := n.log.confirmations + [n.core.gitSha]))
  }

  function FailAndReset(n: Node): Node {
    n.(core := n.core.(rebootInfo := NO_REBOOT_INFO, resetting := true))
  }

  function RebootDoneEntry(n: Node, env: Env): Node {
    var n1 := ClearRetry(n);
    if n1.core.gitSha == n1.core.rebootInfo.gitSha then
      if !env.confirmEnabled then
        FailAndReset(Confirm(n1))
      else Send(n1, MsgBootComplete)
    else FailAndReset(Send(n1, MsgEnd(false, ERR_WRONG_VER)))
  }

  function RebootDoneRun(n: Node, ev: Event): Node {
    match ev
    case EvFrame(MsgEnd(_, _)) =>
      SetPending(Send(Confirm(n), MsgEnd(true, ERR_NONE)), Idle)
    case EvChunkTimeout =>
      var n1 := CountRetry(n);
      if n1.client.chunkRetry >= MAX_CHUNK_RETRIES then
        FailAndReset(Send(n1, MsgAbort(ERR_CONFIRMATION_ABORT)))
      else Send(n1, MsgBootComplete)
    case _ => n
  }

  // ----- host -----

  function ReqUpdateEntry(n: Node, ev: Event): Node {
    match ev
    case EvBeginHost(info, _) =>
      Send(n.(host := n.host.(img := info, bytesRemaining := info.imageSize, ackRetry := 0)),
           MsgStart(info))
    case _ => n
  }

  function ReqUpdateRun(n: Node, ev: Event, env: Env): Node {
    match ev
    case EvFrame(MsgAck(success, err)) =>
      if !env.timerStop then ToError(n, ERR_ABORTED)
      else if success then SetPending(n, HostUpdate)
      else ToError(n, err)
    case EvAckTimeout =>
      var n1 := n.(host := n.host.(ackRetry := n.host.ackRetry + 1));
      if n1.host.ackRetry >= MAX_ACK_RETRIES then ToError(n1, ERR_TIMEOUT)
      else
        var n2 := Send(n1, MsgStart(n1.host.img));
        if env.timerStart then n2 else ToError(n2, ERR_ABORTED)
    case EvFrame(MsgAbort(err)) => ToError(n, err)
    case EvUpdateTimer => ToError(n, ERR_ABORTED)
    case _ => n
  }

  function SendChunk(n: Node, env: Env): Node {
    var h := n.host;
    var length := if h.bytesRemaining >= h.img.chunkSize then h.img.chunkSize else h.bytesRemaining;
    var offset := IMG_START_OFFSET + h.img.imageSize - h.bytesRemaining;
    if !env.malloc then n
    else if !env.readChunk || offset < 0 || offset + length > |h.store| then ToError(n, ERR_FLASH_ACCESS)
    else if !env.tx then ToError(n, ERR_IMG_CHUNK_ACCESS)
    else Send(n.(host := h.(bytesRemaining := h.bytesRemaining - length)),
              MsgPayload(h.store[offset..offset + length]))
  }

  function HostUpdateRun(n: Node, ev: Event, env: Env): Node {
    match ev
    case EvFrame(MsgPayloadReq(_)) =>
      if !env.timerStart then ToError(n, ERR_ABORTED)
      else
        var n1 := SendChunk(n, env);
        if env.timerStop then n1 else ToError(n1, ERR_ABORTED)
    case EvFrame(MsgRebootReq) => Send(n, MsgReboot)
    case EvFrame(MsgBootComplete) => Send(n, MsgEnd(true, ERR_NONE))
    case EvFrame(MsgEnd(success, err)) =>
      if !env.timerStop then ToError(n, ERR_ABORTED)
      else SetPending(Finish(n, success, err), Idle)
    case EvFrame(MsgAbort(err)) => ToError(n, err)
    case EvUpdateTimer => ToError(n, ERR_ABORTED)
    case _ => n
  }

  // ----- core -----

  function InitRun(n: Node, ev: Event): Node {
    if ev == EvInitSuccess then SetPending(n, if n.core.rebootInfo.magic then ClientRebootDone else Idle) else n
  }

  function IdleRun(n: Node, ev: Event, env: Env): Node {
    match ev
    case EvFrame(MsgStart(info)) => ProcessUpdateRequest(n, info, env)
    case EvBeginHost(_, hasCallback) => SetPending(n.(core := n.core.(callbackSet := hasCallback)), HostReqUpdate)
    case _ => n
  }

  function ErrorEntry(n: Node): Node {
    var n1 := Finish(n, false, n.core.error);
    if n1.core.error < ERR_FLASH_ACCESS then SetPending(n1, Idle) else n1
  }

  function Run(n: Node, ev: Event, env: Env): Node {
    match n.core.phase
    case Init => InitRun(n, ev)
    case Idle => IdleRun(n, ev, env)
    case ClientReceiving => ReceivingRun(n, ev, env)
    case ClientRebootReq => RebootReqRun(n, ev)
    case ClientRebootDone => RebootDoneRun(n, ev)
    case HostReqUpdate => ReqUpdateRun(n, ev, env)
    case HostUpdate => HostUpdateRun(n, ev, env)
    case Error => n
    case ClientValidating => n
    case ClientActivating => n
  }

  function Entry(n: Node, ev: Event, env: Env): Node {
    match n.core.phase
    case Idle => n.(core := n.core.(rebootInfo := NO_REBOOT_INFO))
    case Error => ErrorEntry(n)
    case ClientReceiving => ReceivingEntry(n)
    case ClientValidating => ValidatingEntry(n)
    case ClientRebootReq => RebootReqEntry(n)
    case ClientRebootDone => RebootDoneEntry(n, env)
    case ClientActivating => ActivatingEntry(n)
    case HostReqUpdate => ReqUpdateEntry(n, ev)
    case HostUpdate => n
    case Init => n
  }

  function TakeTransition(n: Node, ev: Event, env: Env): Node {
    match n.core.pending
    case None => n
    case Some(next) =>
      var n1 := n.(core := n.core.(pending := None));
      if next == n1.core.phase then n1 else Entry(n1.(core := n1.core.(phase := next)), ev, env)
  }

  /** One iteration of the event thread. */
  function SmRun(n: Node, ev: Event, env: Env): Node {
    TakeTransition(Run(n, ev, env), ev, env)
  }
}
