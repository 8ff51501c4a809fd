/** Safety of an update session: an image that passed the length check is the host's image. */
module DfuSafety {
  import opened Bytes
  import opened DfuModel
  import opened DfuSession

  // ----- the client -----

  /** The bytes received so far: the pages written out, then the page being filled. */
  function Received(n: Node): seq<byte>
    requires n.client.flashOffset <= |n.client.flash|
  {
    n.client.flash[..n.client.flashOffset] + n.page
  }

  /** A stored chunk is appended to what was received; a refused one leaves no more than before. */
  lemma {:induction false} ProcessPayloadConserves(n: Node, data: seq<byte>, env: Env)
    requires |data| <= MAX_CHUNK_SIZE && n.client.flashOffset <= |n.client.flash|
    ensures var (n', ok) := ProcessPayload(n, data, env);
      && n'.client.flashOffset <= |n'.client.flash| == |n.client.flash|
      && n'.client.flashOffset - n.client.flashOffset in {0, PAGE_LENGTH}
      && (if ok then Received(n') == Received(n) + data else |Received(n')| <= |Received(n)|)
      && (ok <==> |data| > 0 && (|n.page| + |data| < PAGE_LENGTH || CanWrite(n.client, PAGE_LENGTH, env.pageWrite)))
  {
    var rest := PAGE_LENGTH - |n.page|;
    if |n.page| + |data| >= PAGE_LENGTH && CanWrite(n.client, PAGE_LENGTH, env.pageWrite) {
      var full := n.page + data[..rest];
      var c' := Write(n.client, full);
      assert c'.flash[..c'.flashOffset] == n.client.flash[..n.client.flashOffset] + full;
      assert data == data[..rest] + data[rest..];
    }
  }

  /** Writing out the last page makes the flash alone hold everything that was received. */
  lemma {:induction false} ProcessEndConserves(n: Node, env: Env)
    requires n.client.flashOffset <= |n.client.flash|
    ensures var (n', ok) := ProcessEnd(n, env);
      && n'.client.flashOffset <= |n'.client.flash| == |n.client.flash|
      && (ok ==> n'.client.flash[..n'.client.flashOffset] == Received(n))
  {
    if n.page != [] && CanWrite(n.client, |n.page|, env.endWrite) {
      var c' := Write(n.client, n.page);
      assert c'.flash[..c'.flashOffset] == n.client.flash[..n.client.flashOffset] + n.page;
    }
  }

  function Concat(chunks: seq<seq<byte>>): seq<byte>
    decreases |chunks|
  {
    if chunks == [] then [] else chunks[0] + Concat(chunks[1..])
  }

  function StoreAll(n: Node, chunks: seq<seq<byte>>): Node
    requires forall i :: 0 <= i < |chunks| ==> |chunks[i]| <= MAX_CHUNK_SIZE
    decreases |chunks|
  {
    if chunks == [] then n else StoreAll(ProcessPayload(n, chunks[0], ENV_OK).0, chunks[1..])
  }

  lemma {:induction false} ChunksAreReceived(n: Node, chunks: seq<seq<byte>>)
    requires forall i :: 0 <= i < |chunks| ==> 1 <= |chunks[i]| <= MAX_CHUNK_SIZE
    requires n.client.flashOffset % PAGE_LENGTH == 0
    requires n.client.flashOffset + |n.page| + |Concat(chunks)| <= |n.client.flash|
    ensures var n' := StoreAll(n, chunks);
      && n'.client.flashOffset % PAGE_LENGTH == 0 && n'.client.flashOffset <= |n'.client.flash| == |n.client.flash|
      && Received(n') == Received(n) + Concat(chunks)
    decreases |chunks|
  {
    if chunks == [] {
      assert Received(n) + Concat(chunks) == Received(n);
    } else {
      var (n1, ok) := ProcessPayload(n, chunks[0], ENV_OK);
      ProcessPayloadConserves(n, chunks[0], ENV_OK);
      assert |Received(n1)| == |Received(n)| + |chunks[0]|;
      ChunksAreReceived(n1, chunks[1..]);
      assert Received(n) + Concat(chunks) == Received(n1) + Concat(chunks[1..]);
    }
  }

  /** Any cutting of the data into chunks leaves whole pages in the flash and the rest in the page buffer. */
  lemma {:induction false} PagesHoldChunks(n: Node, chunks: seq<seq<byte>>)
    requires forall i :: 0 <= i < |chunks| ==> 1 <= |chunks[i]| <= MAX_CHUNK_SIZE
    requires n.client.flashOffset % PAGE_LENGTH == 0
    requires n.client.flashOffset + |n.page| + |Concat(chunks)| <= |n.client.flash|
    ensures var n' := StoreAll(n, chunks);
      && n'.client.flashOffset % PAGE_LENGTH == 0 && n'.client.flashOffset <= |n'.client.flash|
      && Received(n') == Received(n) + Concat(chunks)
      && var (end, ok) := ProcessEnd(n', ENV_OK);
         ok && end.client.flash[..end.client.flashOffset] == Received(n) + Concat(chunks)
  {
    ChunksAreReceived(n, chunks);
    var n' := StoreAll(n, chunks);
    assert |Received(n')| == n'.client.flashOffset + |n'.page|;
    ProcessEndConserves(n', ENV_OK);
  }

  lemma {:induction false} StoredExtend(data: seq<byte>, piece: seq<byte>, image: seq<byte>, w: nat, o: nat)
    requires Stored(data, image, w) && w <= o && SliceAt(image, o, piece)
    ensures Stored(data + piece, image, o + |piece|)
  {
    if |data + piece| == o + |piece| {
      assert image[..o + |piece|] == image[..o] + image[o..o + |piece|];
    }
  }

  /** The transitions a client state may have pending once it has run. */
  predicate MayPend(phase: Phase, pending: Option<Phase>) {
    pending == None ||
    match phase
    case Init => pending in {Some(Idle), Some(ClientRebootDone)}
    case Idle => pending in {Some(Error), Some(ClientReceiving)}
    case Error => pending == Some(Idle)
    case ClientReceiving => pending in {Some(Error), Some(ClientValidating)}
    case ClientValidating => pending in {Some(Error), Some(ClientRebootReq)}
    case ClientRebootReq => pending in {Some(Error), Some(ClientActivating)}
    case ClientRebootDone => pending == Some(Idle)
    case _ => false
  }

  /** `ClientInv` between running a state and taking the pending transition. */
  predicate MidInv(c: Node, info: ImgInfo, image: seq<byte>, w: nat) {
    && w <= |image| == info.imageSize
    && c.core.phase !in {HostReqUpdate, HostUpdate} && MayPend(c.core.phase, c.core.pending)
    && ((c.core.phase in {ClientReceiving, ClientValidating, ClientRebootReq, ClientActivating}
         || c.core.pending == Some(ClientReceiving)) ==> c.client.imageSize == info.imageSize)
    && (c.core.phase in {ClientReceiving, ClientValidating} ==> c.client.flashOffset <= |c.client.flash|)
    && (c.core.phase == ClientReceiving && c.core.pending == None ==> Stored(Received(c), image, w))
    && (c.core.phase == ClientValidating || (c.core.phase == ClientReceiving && c.core.pending == Some(ClientValidating))
        ==> Stored(c.client.flash[..c.client.flashOffset], image, w))
    && (c.core.phase == ClientValidating && c.core.pending == Some(ClientRebootReq)
        ==> c.client.flashOffset == c.client.imageSize)
    && (c.core.phase in {ClientRebootReq, ClientActivating} ==> Holds(c.client.flash, image))
  }

  /** A receiving client whose received bytes came from `image[..w]`. */
  predicate ReceivingOk(c: Node, info: ImgInfo, image: seq<byte>, w: nat) {
    && c.core.phase == ClientReceiving && c.core.pending in {None, Some(Error)}
    && w <= |image| == info.imageSize == c.client.imageSize
    && c.client.flashOffset <= |c.client.flash| && Stored(Received(c), image, w)
  }

  lemma {:induction false} EndKeeps(c: Node, env: Env, info: ImgInfo, image: seq<byte>, w: nat)
    requires ReceivingOk(c, info, image, w)
    ensures var (c', ended) := ProcessEnd(c, env);
      MidInv(if ended then SetPending(c', ClientValidating) else ToError(c', ERR_BM_FRAME), info, image, w)
  {
    ProcessEndConserves(c, env);
    var (c', ended) := ProcessEnd(c, env);
    assert c'.core == c.core && c'.client.imageSize == c.client.imageSize;
  }

  lemma {:induction false} NextChunkKeeps(c: Node, env: Env, info: ImgInfo, image: seq<byte>, w: nat)
    requires ReceivingOk(c, info, image, w)
    ensures MidInv(NextChunk(c, env), info, image, w)
  {
    var c' := c.(client := c.client.(currentChunk := c.client.currentChunk + 1, chunkRetry := 0));
    assert Received(c') == Received(c);
    if c'.client.currentChunk < c'.client.numChunks {
      var n := NextChunk(c, env);
      assert n.client == c'.client && n.page == c'.page && n.core.phase == ClientReceiving;
      assert n.core.pending in {None, Some(Error)};
    } else {
      EndKeeps(c', env, info, image, w);
    }
  }

  lemma {:induction false} StoreChunkKeeps(c: Node, data: seq<byte>, env: Env, image: seq<byte>, w: nat, o: nat)
    requires |data| <= MAX_CHUNK_SIZE && c.core.phase == ClientReceiving && c.core.pending == None
    requires c.client.flashOffset <= |c.client.flash| && Stored(Received(c), image, w)
    requires w <= o && SliceAt(image, o, data)
    ensures var c' := StoreChunk(c, data, env);
      && c'.core.phase == ClientReceiving && c'.core.pending in {None, Some(Error)}
      && c'.client.imageSize == c.client.imageSize
      && c'.client.flashOffset <= |c'.client.flash| && Stored(Received(c'), image, o + |data|)
  {
    var c0 := c.(client := c.client.(runningCrc16 := Crc.Ccitt16(c.client.runningCrc16, data)));
    ProcessPayloadConserves(c0, data, env);
    StoredExtend(Received(c), data, image, w, o);
  }

  lemma {:induction false} StoresAndMovesOn(c: Node, data: seq<byte>, env: Env, info: ImgInfo, image: seq<byte>, w: nat, o: nat)
    requires ReceivingOk(c, info, image, w) && c.core.pending == None && |data| <= MAX_CHUNK_SIZE
    requires w <= o && SliceAt(image, o, data)
    ensures MidInv(NextChunk(StoreChunk(c, data, env), env), info, image, o + |data|)
  {
    StoreChunkKeeps(c, data, env, image, w, o);
    NextChunkKeeps(StoreChunk(c, data, env), env, info, image, o + |data|);
  }

  lemma {:induction false} ReceivesChunk(c: Node, data: seq<byte>, env: Env, info: ImgInfo, image: seq<byte>, w: nat, o: nat)
    requires ClientInv(c, info, image, w) && c.core.phase == ClientReceiving
    requires w <= o && SliceAt(image, o, data)
    ensures MidInv(Run(c, EvFrame(MsgPayload(data)), env), info, image, o + |data|)
  {
    if |data| <= MAX_CHUNK_SIZE && env.timerStop {
      StoresAndMovesOn(c, data, env, info, image, w, o);
      assert Run(c, EvFrame(MsgPayload(data)), env) == NextChunk(StoreChunk(c, data, env), env);
    }
  }

  lemma {:induction false} ReceivingKeeps(c: Node, ev: Event, env: Env, info: ImgInfo, image: seq<byte>, w: nat)
    requires ClientInv(c, info, image, w) && c.core.phase == ClientReceiving
    requires ev.EvFrame? ==> !ev.msg.MsgPayload?
    ensures MidInv(Run(c, ev, env), info, image, w)
  {
    assert Received(RestartImage(c)) == [];
  }

  lemma {:induction false} IdleKeeps(c: Node, ev: Event, env: Env, info: ImgInfo, image: seq<byte>, w: nat)
    requires ClientInv(c, info, image, w) && c.core.phase == Idle
    requires !ev.EvBeginHost? && (ev.EvFrame? && ev.msg.MsgStart? ==> ev.msg.info == info)
    ensures MidInv(Run(c, ev, env), info, image, w)
  {
  }

  lemma {:induction false} OtherKeeps(c: Node, ev: Event, env: Env, info: ImgInfo, image: seq<byte>, w: nat)
    requires ClientInv(c, info, image, w) && c.core.phase !in {Idle, ClientReceiving}
    ensures MidInv(Run(c, ev, env), info, image, w)
  {
  }

  /** The length check: a client that moves on to the reboot request holds the whole image. */
  lemma {:induction false} LengthCheck(c: Node, info: ImgInfo, image: seq<byte>, w: nat)
    requires MidInv(c, info, image, w)
    requires c.core.phase == ClientValidating && c.core.pending == Some(ClientRebootReq)
    ensures Holds(c.client.flash, image)
  {
  }

  /** A client state just entered, before its entry function runs. */
  predicate EnteredInv(c: Node, info: ImgInfo, image: seq<byte>, w: nat) {
    && w <= |image| == info.imageSize && c.core.pending == None
    && c.core.phase !in {HostReqUpdate, HostUpdate, Init}
    && (c.core.phase in {ClientReceiving, ClientValidating, ClientRebootReq, ClientActivating}
        ==> c.client.imageSize == info.imageSize)
    && (c.core.phase == ClientValidating
        ==> c.client.flashOffset <= |c.client.flash| && Stored(c.client.flash[..c.client.flashOffset], image, w))
    && (c.core.phase in {ClientRebootReq, ClientActivating} ==> Holds(c.client.flash, image))
  }

  lemma {:induction false} Enters(c: Node, next: Phase, info: ImgInfo, image: seq<byte>, w: nat)
    requires MidInv(c, info, image, w) && c.core.pending == Some(next)
    ensures c.core.phase != next
    ensures EnteredInv(c.(core := c.core.(pending := None, phase := next)), info, image, w)
  {
    if next == ClientRebootReq {
      LengthCheck(c, info, image, w);
    }
  }

  lemma {:induction false} EntryKeeps(c: Node, ev: Event, env: Env, info: ImgInfo, image: seq<byte>, w: nat)
    requires EnteredInv(c, info, image, w)
    ensures ClientInv(Entry(c, ev, env), info, image, w)
  {
    if c.core.phase == ClientReceiving {
      assert Received(ReceivingEntry(c)) == [];
    }
  }

  lemma {:induction false} TransitionKeeps(c: Node, ev: Event, env: Env, info: ImgInfo, image: seq<byte>, w: nat)
    requires MidInv(c, info, image, w)
    ensures ClientInv(TakeTransition(c, ev, env), info, image, w)
  {
    match c.core.pending
    case None =>
    case Some(next) =>
      Enters(c, next, info, image, w);
      EntryKeeps(c.(core := c.core.(pending := None, phase := next)), ev, env, info, image, w);
  }

  // ----- what the client did, across resets -----

  /** The client once handed this image to the bootloader. */
  predicate Activated(c: Node, image: seq<byte>) {
    exists i :: 0 <= i < |c.log.activations| && Holds(c.log.activations[i], image)
  }

  /** The client activated the image and later confirmed the requested version while running it. */
  predicate Earned(c: Node, info: ImgInfo, image: seq<byte>) {
    info.gitSha in c.log.confirmations && Activated(c, image)
  }

  predicate HistoryInv(c: Node, info: ImgInfo, image: seq<byte>) {
    && (c.core.rebootInfo.magic ==> c.core.rebootInfo.gitSha == info.gitSha)
    && (c.core.phase in {Init, ClientRebootDone} && c.core.rebootInfo.magic ==> Activated(c, image))
    && (c.core.pending == Some(ClientRebootDone) ==> c.core.rebootInfo.magic && Activated(c, image))
    && (c.core.phase == ClientActivating ==> Activated(c, image))
    && (c.core.resetting ==> c.core.phase == ClientActivating || !c.core.rebootInfo.magic)
    && (c.core.phase == ClientRebootDone && !c.core.resetting
        ==> c.core.rebootInfo.magic && c.core.gitSha == c.core.rebootInfo.gitSha)
  }

  /** No update is ever requested by the client, and success is only reported when earned. */
  predicate SendsOk(c: Node, out: seq<Msg>, info: ImgInfo, image: seq<byte>) {
    forall m :: m in out ==> !m.MsgStart? && (m.MsgEnd? && m.success ==> Earned(c, info, image))
  }

  predicate LogGrows(c: Node, c': Node) {
    c.log.confirmations <= c'.log.confirmations && c.log.activations <= c'.log.activations
  }

  lemma {:induction false} EarnedGrows(c: Node, c': Node, info: ImgInfo, image: seq<byte>)
    requires LogGrows(c, c')
    ensures Activated(c, image) ==> Activated(c', image)
    ensures Earned(c, info, image) ==> Earned(c', info, image)
  {
    if Activated(c, image) {
      var i :| 0 <= i < |c.log.activations| && Holds(c.log.activations[i], image);
      assert c'.log.activations[i] == c.log.activations[i];
    }
  }

  /** Between `c` and `c'` at most the error and the pending state of the core changed, frames were sent
      and completion callbacks made. */
  predicate Quiet(c: Node, c': Node) {
    && c'.core == c.core.(error := c'.core.error, pending := c'.core.pending)
    && c'.log == c.log.(out := c'.log.out, callbacks := c'.log.callbacks)
    && (forall m :: m in c'.log.out ==> m in c.log.out || !(m.MsgStart? || (m.MsgEnd? && m.success)))
  }

  lemma {:induction false} StoreChunkIsQuiet(c: Node, data: seq<byte>, env: Env)
    requires |data| <= MAX_CHUNK_SIZE
    ensures Quiet(c, StoreChunk(c, data, env))
  {
    assert StoreChunk(c, data, env).log == c.log;
  }

  lemma {:induction false} NextChunkIsQuiet(c: Node, env: Env)
    ensures Quiet(c, NextChunk(c, env))
  {
  }

  lemma {:induction false} ReceivingIsQuiet(c: Node, ev: Event, env: Env)
    requires c.core.phase == ClientReceiving
    ensures Quiet(c, ReceivingRun(c, ev, env))
  {
    match ev
    case EvFrame(MsgPayload(data)) =>
      if |data| <= MAX_CHUNK_SIZE && env.timerStop {
        StoreChunkIsQuiet(c, data, env);
        NextChunkIsQuiet(StoreChunk(c, data, env), env);
      }
    case _ =>
  }

  lemma {:induction false} QuietKeepsHistory(c: Node, c': Node, info: ImgInfo, image: seq<byte>)
    requires Quiet(c, c') && c.core.phase !in {Init, ClientRebootDone}
    requires HistoryInv(c, info, image) && SendsOk(c, c.log.out, info, image)
    requires c'.core.pending != Some(ClientRebootDone)
    ensures HistoryInv(c', info, image) && SendsOk(c', c'.log.out, info, image) && LogGrows(c, c')
  {
    EarnedGrows(c, c', info, image);
  }

  lemma {:induction false} RebootDoneKeepsHistory(c: Node, ev: Event, env: Env, info: ImgInfo, image: seq<byte>)
    requires HistoryInv(c, info, image) && !c.core.resetting && c.core.phase == ClientRebootDone
    requires c.core.pending == None && SendsOk(c, c.log.out, info, image)
    ensures var c' := Run(c, ev, env);
      HistoryInv(c', info, image) && SendsOk(c', c'.log.out, info, image) && LogGrows(c, c')
  {
    var c' := Run(c, ev, env);
    EarnedGrows(c, c', info, image);
    if ev.EvFrame? && ev.msg.MsgEnd? {
      assert c'.log.confirmations[|c.log.confirmations|] == info.gitSha;
    }
  }

  lemma {:induction false} IdleKeepsHistory(c: Node, ev: Event, env: Env, info: ImgInfo, image: seq<byte>)
    requires HistoryInv(c, info, image) && !c.core.resetting && c.core.phase == Idle
    requires c.core.pending == None && SendsOk(c, c.log.out, info, image)
    requires !ev.EvBeginHost? && (ev.EvFrame? && ev.msg.MsgStart? ==> ev.msg.info == info)
    ensures var c' := Run(c, ev, env);
      HistoryInv(c', info, image) && SendsOk(c', c'.log.out, info, image) && LogGrows(c, c')
  {
    EarnedGrows(c, Run(c, ev, env), info, image);
  }

  lemma {:induction false} RunKeepsHistory(c: Node, ev: Event, env: Env, info: ImgInfo, image: seq<byte>, w: nat)
    requires HistoryInv(c, info, image) && !c.core.resetting
    requires ClientInv(c, info, image, w) && SendsOk(c, c.log.out, info, image)
    requires !ev.EvBeginHost? && (ev.EvFrame? && ev.msg.MsgStart? ==> ev.msg.info == info)
    ensures var c' := Run(c, ev, env);
      HistoryInv(c', info, image) && SendsOk(c', c'.log.out, info, image) && LogGrows(c, c')
  {
    match c.core.phase
    case Idle => IdleKeepsHistory(c, ev, env, info, image);
    case ClientRebootDone => RebootDoneKeepsHistory(c, ev, env, info, image);
    case ClientReceiving =>
      ReceivingIsQuiet(c, ev, env);
      QuietKeepsHistory(c, Run(c, ev, env), info, image);
    case ClientRebootReq =>
      assert Quiet(c, Run(c, ev, env));
      QuietKeepsHistory(c, Run(c, ev, env), info, image);
    case _ =>
  }

  lemma {:induction false} EntersRebootDone(c: Node, ev: Event, env: Env, info: ImgInfo, image: seq<byte>)
    requires HistoryInv(c, info, image) && SendsOk(c, c.log.out, info, image)
    requires c.core.pending == Some(ClientRebootDone) && c.core.phase == Init && !c.core.resetting
    ensures var c' := TakeTransition(c, ev, env);
      HistoryInv(c', info, image) && SendsOk(c', c'.log.out, info, image) && LogGrows(c, c')
  {
    EarnedGrows(c, TakeTransition(c, ev, env), info, image);
  }

  lemma {:induction false} EntersActivating(c: Node, ev: Event, env: Env, info: ImgInfo, image: seq<byte>)
    requires HistoryInv(c, info, image) && SendsOk(c, c.log.out, info, image)
    requires c.core.pending == Some(ClientActivating) && c.core.phase == ClientRebootReq
    requires !c.core.resetting && Holds(c.client.flash, image)
    ensures var c' := TakeTransition(c, ev, env);
      HistoryInv(c', info, image) && SendsOk(c', c'.log.out, info, image) && LogGrows(c, c')
  {
    var c' := TakeTransition(c, ev, env);
    assert Holds(c'.log.activations[|c.log.activations|], image);
    EarnedGrows(c, c', info, image);
  }

  lemma {:induction false} EntryIsQuiet(c: Node, ev: Event, env: Env)
    requires c.core.phase in {Error, ClientReceiving, ClientValidating, ClientRebootReq}
    ensures Quiet(c, Entry(c, ev, env))
    ensures c.core.pending == None ==> Entry(c, ev, env).core.pending != Some(ClientRebootDone)
  {
    match c.core.phase
    case ClientReceiving => assert Quiet(c, ReceivingEntry(c));
    case ClientValidating => assert Quiet(c, ValidatingEntry(c));
    case ClientRebootReq => assert Quiet(c, RebootReqEntry(c));
    case _ =>
  }

  lemma {:induction false} EntersQuietly(c: Node, next: Phase, ev: Event, env: Env, info: ImgInfo, image: seq<byte>)
    requires HistoryInv(c, info, image) && SendsOk(c, c.log.out, info, image) && !c.core.resetting
    requires c.core.pending == Some(next) && c.core.phase != next
    requires next in {Idle, Error, ClientReceiving, ClientValidating, ClientRebootReq}
    ensures var c' := TakeTransition(c, ev, env);
      HistoryInv(c', info, image) && SendsOk(c', c'.log.out, info, image) && LogGrows(c, c')
  {
    var c1 := c.(core := c.core.(pending := None, phase := next));
    EarnedGrows(c, c1, info, image);
    EarnedGrows(c1, c, info, image);
    if next == Idle {
      EarnedGrows(c, Entry(c1, ev, env), info, image);
    } else {
      EntryIsQuiet(c1, ev, env);
      QuietKeepsHistory(c1, Entry(c1, ev, env), info, image);
    }
  }

  lemma {:induction false} TransitionKeepsHistory(c: Node, ev: Event, env: Env, info: ImgInfo, image: seq<byte>, w: nat)
    requires MidInv(c, info, image, w)
    requires HistoryInv(c, info, image) && SendsOk(c, c.log.out, info, image)
    requires c.core.resetting ==> c.core.pending == None
    ensures var c' := TakeTransition(c, ev, env);
      HistoryInv(c', info, image) && SendsOk(c', c'.log.out, info, image) && LogGrows(c, c')
  {
    match c.core.pending
    case None =>
    case Some(ClientRebootDone) => EntersRebootDone(c, ev, env, info, image);
    case Some(ClientActivating) => EntersActivating(c, ev, env, info, image);
    case Some(next) => EntersQuietly(c, next, ev, env, info, image);
  }
}
