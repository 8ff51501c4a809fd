/**
 The same state machine as the firmware has it: fields overwritten in place, chunks copied into
 a fixed page buffer, one method for each handler. Every method is proved to do to the fields
 what its function in `DfuModel` does to the value `Abs()`.
 */
module DfuNode {
  import opened Bytes
  import Crc
  import opened DfuModel

  class DfuNode {
    var core: Core
    var client: Client
    const pageBuf: array<byte>
    var pageByteCounter: nat
    var host: Host
    var log: Log

    ghost predicate Valid()
      reads this
    {
      pageBuf.Length == PAGE_LENGTH && pageByteCounter < PAGE_LENGTH
    }

    /** The value of the node; bytes of the page buffer beyond the counter are never read. */
    ghost function Abs(): Node
      reads this, pageBuf
      requires Valid()
    {
      Node(core, client, pageBuf[..pageByteCounter], host, log)
    }

    method Send(m: Msg)
      requires Valid()
      modifies this`log
      ensures Valid() && Abs() == DfuModel.Send(old(Abs()), m)
    {
      log := log.(out := log.out + [m]);
    }

    method SetPendingStateChange(p: Phase)
      requires Valid()
      modifies this`core
      ensures Valid() && Abs() == SetPending(old(Abs()), p)
    {
      core := core.(pending := Some(p));
    }

    method TransitionToError(err: uint8)
      requires Valid()
      modifies this`core
      ensures Valid() && Abs() == ToError(old(Abs()), err)
    {
      core := core.(error := err);
      SetPendingStateChange(Error);
    }

    method UpdateFinished(success: bool, err: uint8)
      requires Valid()
      modifies this`log
      ensures Valid() && Abs() == Finish(old(Abs()), success, err)
    {
      if core.callbackSet {
        log := log.(callbacks := log.callbacks + [(success, err)]);
      }
    }

    // ----- client -----

    method ProcessUpdateRequest(info: ImgInfo, env: Env)
      requires Valid()
      modifies this
      ensures Valid() && Abs() == DfuModel.ProcessUpdateRequest(old(Abs()), info, env)
    {
      if info.gitSha != core.gitSha || info.filterKey == FORCE_UPDATE {
        if info.chunkSize > MAX_CHUNK_SIZE {
          Send(MsgAbort(ERR_ABORTED));
          TransitionToError(ERR_CHUNK_SIZE);
          return;
        }
        client := client.(imageSize := info.imageSize);
        if info.imageSize % info.chunkSize != 0 {
          client := client.(numChunks := (info.imageSize / info.chunkSize + 1) % 0x1_0000);
        } else {
          client := client.(numChunks := (info.imageSize / info.chunkSize) % 0x1_0000);
        }
        client := client.(crc16 := info.crc16);
        if !env.flashOpen {
          Send(MsgAck(false, ERR_FLASH_ACCESS));
          TransitionToError(ERR_FLASH_ACCESS);
        } else if |client.flash| > info.imageSize {
          if !env.flashErase {
            Send(MsgAck(false, ERR_FLASH_ACCESS));
            TransitionToError(ERR_FLASH_ACCESS);
          } else {
            client := client.(flash := Erased(|client.flash|));
            Send(MsgAck(true, ERR_NONE));
            core := core.(rebootInfo := RebootInfo(true, info.gitSha));
            SetPendingStateChange(ClientReceiving);
          }
        } else {
          Send(MsgAck(false, ERR_TOO_LARGE));
        }
      } else {
        Send(MsgAck(false, ERR_SAME_VER));
      }
    }

    /** Copies `data` into the page buffer at the byte counter and moves the counter. */
    method FillPage(data: seq<byte>)
      requires pageBuf.Length == PAGE_LENGTH && pageByteCounter + |data| <= PAGE_LENGTH
      modifies pageBuf, this`pageByteCounter
      ensures pageByteCounter == old(pageByteCounter) + |data|
      ensures pageBuf[..pageByteCounter] == old(pageBuf[..pageByteCounter]) + data
    {
      for i := 0 to |data|
        invariant pageByteCounter == old(pageByteCounter)
        invariant pageBuf[..pageByteCounter + i] == old(pageBuf[..pageByteCounter]) + data[..i]
      {
        pageBuf[pageByteCounter + i] := data[i];
      }
      pageByteCounter := pageByteCounter + |data|;
    }

    method FlashWrite(data: seq<byte>, driverOk: bool) returns (ok: bool)
      requires Valid()
      modifies this`client
      ensures Valid() && ok == CanWrite(old(client), |data|, driverOk)
      ensures client == if ok then Write(old(client), data) else old(client)
    {
      ok := driverOk && client.flashOffset + |data| <= |client.flash|;
      if ok {
        client := client.(flash := Splice(client.flash, client.flashOffset, data));
        client := client.(flashOffset := client.flashOffset + |data|);
      }
    }

    method ProcessPayload(data: seq<byte>, env: Env) returns (ok: bool)
      requires Valid() && |data| <= MAX_CHUNK_SIZE
      modifies this`pageByteCounter, this`client, pageBuf
      ensures Valid() && (Abs(), ok) == DfuModel.ProcessPayload(old(Abs()), data, env)
    {
      if |data| == 0 {
        return false;
      }
      if PAGE_LENGTH > |data| + pageByteCounter {
        FillPage(data);
        return true;
      }
      var remaining := PAGE_LENGTH - pageByteCounter;
      FillPage(data[..remaining]);
      assert pageBuf[..] == old(Abs()).page + data[..remaining];
      pageByteCounter := 0;
      ok := FlashWrite(pageBuf[..], env.pageWrite);
      if ok {
        FillPage(data[remaining..]);
      }
      assert pageBuf[..pageByteCounter] == if ok then data[remaining..] else [];
    }

    method ProcessEnd(env: Env) returns (ok: bool)
      requires Valid()
      modifies this`client
      ensures Valid() && (Abs(), ok) == DfuModel.ProcessEnd(old(Abs()), env)
    {
      ok := true;
      if pageByteCounter != 0 {
        ok := FlashWrite(pageBuf[..pageByteCounter], env.endWrite);
      }
    }

    method RestartImage()
      requires Valid()
      modifies this`client, this`pageByteCounter
      ensures Valid() && Abs() == DfuModel.RestartImage(old(Abs()))
    {
      client := client.(currentChunk := 0, chunkRetry := 0);
      pageByteCounter := 0;
      client := client.(flashOffset := 0, runningCrc16 := 0);
      assert pageBuf[..0] == [];
    }

    method StoreChunk(data: seq<byte>, env: Env)
      requires Valid() && |data| <= MAX_CHUNK_SIZE
      modifies this, pageBuf
      ensures Valid() && Abs() == DfuModel.StoreChunk(old(Abs()), data, env)
    {
      var crc := Crc.Ccitt16Buffer(client.runningCrc16, data);
      client := client.(runningCrc16 := crc);
      var ok := ProcessPayload(data, env);
      if !ok {
        TransitionToError(ERR_BM_FRAME);
      }
    }

    method NextChunk(env: Env)
      requires Valid()
      modifies this
      ensures Valid() && Abs() == DfuModel.NextChunk(old(Abs()), env)
    {
      client := client.(currentChunk := client.currentChunk + 1, chunkRetry := 0);
      if client.currentChunk < client.numChunks {
        Send(MsgPayloadReq(client.currentChunk));
        if !env.timerStart {
          TransitionToError(ERR_ABORTED);
        }
      } else {
        var ok := ProcessEnd(env);
        if !ok {
          TransitionToError(ERR_BM_FRAME);
        } else {
          SetPendingStateChange(ClientValidating);
        }
      }
    }

    method ReceivingRun(ev: Event, env: Env)
      requires Valid()
      modifies this, pageBuf
      ensures Valid() && Abs() == DfuModel.ReceivingRun(old(Abs()), ev, env)
    {
      match ev
      case EvFrame(MsgPayload(data)) =>
        if |data| > MAX_CHUNK_SIZE {
          return;
        }
        if !env.timerStop {
          TransitionToError(ERR_ABORTED);
          return;
        }
        StoreChunk(data, env);
        NextChunk(env);
      case EvChunkTimeout =>
        client := client.(chunkRetry := client.chunkRetry + 1);
        if client.chunkRetry >= MAX_CHUNK_RETRIES {
          Send(MsgAbort(ERR_ABORTED));
          TransitionToError(ERR_TIMEOUT);
        } else {
          Send(MsgPayloadReq(client.currentChunk));
          if !env.timerStart {
            TransitionToError(ERR_ABORTED);
          }
        }
      case EvFrame(MsgStart(_)) =>
        if !env.timerStop {
          TransitionToError(ERR_ABORTED);
          return;
        }
        Send(MsgAck(true, ERR_NONE));
        RestartImage();
        Send(MsgPayloadReq(0));
        if !env.timerStart {
          TransitionToError(ERR_ABORTED);
        }
      case EvFrame(MsgHeartbeat) =>
        if !env.timerStart {
          TransitionToError(ERR_ABORTED);
        }
      case _ =>
    }

    method ValidatingEntry()
      requires Valid()
      modifies this
      ensures Valid() && Abs() == DfuModel.ValidatingEntry(old(Abs()))
    {
      if client.imageSize != client.flashOffset {
        Send(MsgEnd(false, ERR_MISMATCH_LEN));
        TransitionToError(ERR_MISMATCH_LEN);
      } else if client.crc16 == client.runningCrc16 {
        SetPendingStateChange(ClientRebootReq);
      } else {
        Send(MsgEnd(false, ERR_BAD_CRC));
        TransitionToError(ERR_BAD_CRC);
      }
    }

    method RebootReqRun(ev: Event)
      requires Valid()
      modifies this
      ensures Valid() && Abs() == DfuModel.RebootReqRun(old(Abs()), ev)
    {
      match ev
      case EvFrame(MsgReboot) =>
        SetPendingStateChange(ClientActivating);
      case EvChunkTimeout =>
        client := client.(chunkRetry := client.chunkRetry + 1);
        if client.chunkRetry >= MAX_CHUNK_RETRIES {
          Send(MsgAbort(ERR_ABORTED));
          TransitionToError(ERR_TIMEOUT);
        } else {
          Send(MsgRebootReq);
        }
      case _ =>
    }

    method SetConfirmed()
      requires Valid()
      modifies this`log
      ensures Valid() && Abs() == Confirm(old(Abs()))
    {
      log := log.(confirmations := log.confirmations + [core.gitSha]);
    }

    method FailUpdateAndReset()
      requires Valid()
      modifies this`core
      ensures Valid() && Abs() == FailAndReset(old(Abs()))
    {
      core := core.(rebootInfo := NO_REBOOT_INFO);
      core := core.(resetting := true);
    }

    method RebootDoneEntry(env: Env)
      requires Valid()
      modifies this
      ensures Valid() && Abs() == DfuModel.RebootDoneEntry(old(Abs()), env)
    {
      client := client.(chunkRetry := 0);
      if core.gitSha == core.rebootInfo.gitSha {
        if !env.confirmEnabled {
          core := core.(rebootInfo := NO_REBOOT_INFO);
          SetConfirmed();
          core := core.(resetting := true);
        } else {
          Send(MsgBootComplete);
        }
      } else {
        Send(MsgEnd(false, ERR_WRONG_VER));
        FailUpdateAndReset();
      }
    }

    method RebootDoneRun(ev: Event)
      requires Valid()
      modifies this
      ensures Valid() && Abs() == DfuModel.RebootDoneRun(old(Abs()), ev)
    {
      match ev
      case EvFrame(MsgEnd(_, _)) =>
        SetConfirmed();
        Send(MsgEnd(true, ERR_NONE));
        SetPendingStateChange(Idle);
      case EvChunkTimeout =>
        client := client.(chunkRetry := client.chunkRetry + 1);
        if client.chunkRetry >= MAX_CHUNK_RETRIES {
          Send(MsgAbort(ERR_CONFIRMATION_ABORT));
          FailUpdateAndReset();
        } else {
          Send(MsgBootComplete);
        }
      case _ =>
    }

    // ----- host -----

    method ReqUpdateEntry(ev: Event)
      requires Valid()
      modifies this
      ensures Valid() && Abs() == DfuModel.ReqUpdateEntry(old(Abs()), ev)
    {
      match ev
      case EvBeginHost(info, _) =>
        host := host.(img := info);
        host := host.(bytesRemaining := info.imageSize);
        host := host.(ackRetry := 0);
        Send(MsgStart(info));
      case _ =>
    }

    method ReqUpdateRun(ev: Event, env: Env)
      requires Valid()
      modifies this
      ensures Valid() && Abs() == DfuModel.ReqUpdateRun(old(Abs()), ev, env)
    {
      match ev
      case EvFrame(MsgAck(success, err)) =>
        if !env.timerStop {
          TransitionToError(ERR_ABORTED);
          return;
        }
        if success {
          SetPendingStateChange(HostUpdate);
        } else {
          TransitionToError(err);
        }
      case EvAckTimeout =>
        host := host.(ackRetry := host.ackRetry + 1);
        if host.ackRetry >= MAX_ACK_RETRIES {
          TransitionToError(ERR_TIMEOUT);
        } else {
          Send(MsgStart(host.img));
          if !env.timerStart {
            TransitionToError(ERR_ABORTED);
          }
        }
      case EvFrame(MsgAbort(err)) =>
        TransitionToError(err);
      case EvUpdateTimer =>
        TransitionToError(ERR_ABORTED);
      case _ =>
    }

    method SendChunk(env: Env)
      requires Valid()
      modifies this
      ensures Valid() && Abs() == DfuModel.SendChunk(old(Abs()), env)
    {
      var payloadLen: nat := if host.bytesRemaining >= host.img.chunkSize then host.img.chunkSize else host.bytesRemaining;
      if !env.malloc {
        return;
      }
      var offset := IMG_START_OFFSET + host.img.imageSize - host.bytesRemaining;
      if !env.readChunk || offset < 0 || offset + payloadLen > |host.store| {
        TransitionToError(ERR_FLASH_ACCESS);
        return;
      }
      var payload := host.store[offset..offset + payloadLen];
      if env.tx {
        host := host.(bytesRemaining := host.bytesRemaining - payloadLen);
        Send(MsgPayload(payload));
      } else {
        TransitionToError(ERR_IMG_CHUNK_ACCESS);
      }
    }

    method HostUpdateRun(ev: Event, env: Env)
      requires Valid()
      modifies this
      ensures Valid() && Abs() == DfuModel.HostUpdateRun(old(Abs()), ev, env)
    {
      match ev
      case EvFrame(MsgPayloadReq(_)) =>
        if !env.timerStart {
          TransitionToError(ERR_ABORTED);
          return;
        }
        SendChunk(env);
        if !env.timerStop {
          TransitionToError(ERR_ABORTED);
        }
      case EvFrame(MsgRebootReq) =>
        Send(MsgReboot);
      case EvFrame(MsgBootComplete) =>
        Send(MsgEnd(true, ERR_NONE));
      case EvFrame(MsgEnd(success, err)) =>
        if !env.timerStop {
          TransitionToError(ERR_ABORTED);
          return;
        }
        UpdateFinished(success, err);
        SetPendingStateChange(Idle);
      case EvFrame(MsgAbort(err)) =>
        TransitionToError(err);
      case EvUpdateTimer =>
        TransitionToError(ERR_ABORTED);
      case _ =>
    }

    // ----- core -----

    method IdleRun(ev: Event, env: Env)
      requires Valid()
      modifies this
      ensures Valid() && Abs() == DfuModel.IdleRun(old(Abs()), ev, env)
    {
      match ev
      case EvFrame(MsgStart(info)) =>
        ProcessUpdateRequest(info, env);
      case EvBeginHost(_, hasCallback) =>
        core := core.(callbackSet := hasCallback);
        SetPendingStateChange(HostReqUpdate);
      case _ =>
    }

    method ErrorEntry()
      requires Valid()
      modifies this
      ensures Valid() && Abs() == DfuModel.ErrorEntry(old(Abs()))
    {
      UpdateFinished(false, core.error);
      if core.error < ERR_FLASH_ACCESS {
        SetPendingStateChange(Idle);
      }
    }

    method RunState(ev: Event, env: Env)
      requires Valid()
      modifies this, pageBuf
      ensures Valid() && Abs() == DfuModel.Run(old(Abs()), ev, env)
    {
      match core.phase
      case Init =>
        if ev == EvInitSuccess {
          SetPendingStateChange(if core.rebootInfo.magic then ClientRebootDone else Idle);
        }
      case Idle => IdleRun(ev, env);
      case ClientReceiving => ReceivingRun(ev, env);
      case ClientRebootReq => RebootReqRun(ev);
      case ClientRebootDone => RebootDoneRun(ev);
      case HostReqUpdate => ReqUpdateRun(ev, env);
      case HostUpdate => HostUpdateRun(ev, env);
      case _ =>
    }

    method EnterState(ev: Event, env: Env)
      requires Valid()
      modifies this
      ensures Valid() && Abs() == DfuModel.Entry(old(Abs()), ev, env)
    {
      match core.phase
      case Idle => core := core.(rebootInfo := NO_REBOOT_INFO);
      case Error => ErrorEntry();
      case ClientReceiving =>
        RestartImage();
        Send(MsgPayloadReq(client.currentChunk));
      case ClientValidating => ValidatingEntry();
      case ClientRebootReq =>
        client := client.(chunkRetry := 0);
        Send(MsgRebootReq);
      case ClientRebootDone => RebootDoneEntry(env);
      case ClientActivating =>
        log := log.(activations := log.activations + [client.flash]);
        core := core.(resetting := true);
      case HostReqUpdate => ReqUpdateEntry(ev);
      case _ =>
    }

    /** One iteration of the event thread: run the state, then take the pending transition. */
    method SmRun(ev: Event, env: Env)
      requires Valid()
      modifies this, pageBuf
      ensures Valid() && Abs() == DfuModel.SmRun(old(Abs()), ev, env)
    {
      RunState(ev, env);
      if core.pending.Some? {
        var newState := core.pending.value;
        core := core.(pending := None);
        if core.phase != newState {
          core := core.(phase := newState);
          EnterState(ev, env);
        }
      }
    }
  }
}
