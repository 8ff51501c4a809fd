/** Progress of an update: how long a client may stay in the receiving state. */
module DfuProgress {
  import opened Bytes
  import opened DfuModel

  // ----- a bound on receiving -----

  predicate AcceptsChunk(ev: Event, env: Env) {
    ev.EvFrame? && ev.msg.MsgPayload? && |ev.msg.data| <= MAX_CHUNK_SIZE && env.timerStop
  }

  predicate Restarts(ev: Event) {
    ev.EvFrame? && ev.msg.MsgStart?
  }

  /** How many chunks the client accepts and timeouts it handles before it leaves the receiving state. */
  function WorkWhileReceiving(n: Node, evs: seq<(Event, Env)>): nat
    decreases |evs|
  {
    if evs == [] || n.core.phase != ClientReceiving then 0
    else
      (if AcceptsChunk(evs[0].0, evs[0].1) || evs[0].0 == EvChunkTimeout then 1 else 0)
      + WorkWhileReceiving(SmRun(n, evs[0].0, evs[0].1), evs[1..])
  }

  function WorkLeft(n: Node): int {
    var chunksLeft := n.client.numChunks - n.client.currentChunk;
    MAX_CHUNK_RETRIES * (if chunksLeft > 1 then chunksLeft else 1) - n.client.chunkRetry
  }

  /** Running the receiving state moves the counters, unless it makes a transition pending. */
  predicate Works(n: Node, ev: Event, env: Env, r: Node) {
    && r.core.phase == ClientReceiving && r.core.pending in {None, Some(Error), Some(ClientValidating)}
    && r.client.numChunks == n.client.numChunks
    && (r.core.pending == None ==>
          if AcceptsChunk(ev, env) then
            r.client.currentChunk == n.client.currentChunk + 1 < r.client.numChunks && r.client.chunkRetry == 0
          else
            && r.client.currentChunk == n.client.currentChunk
            && r.client.chunkRetry == n.client.chunkRetry + (if ev == EvChunkTimeout then 1 else 0)
            && (ev == EvChunkTimeout ==> r.client.chunkRetry < MAX_CHUNK_RETRIES))
  }

  lemma {:induction false} NextChunkWorks(n: Node, env: Env)
    requires n.core.phase == ClientReceiving && n.core.pending in {None, Some(Error)}
    ensures var r := NextChunk(n, env);
      && r.core.phase == ClientReceiving && r.core.pending in {None, Some(Error), Some(ClientValidating)}
      && r.client.numChunks == n.client.numChunks
      && (r.core.pending == None ==> r.client.currentChunk == n.client.currentChunk + 1 < r.client.numChunks)
      && (r.core.pending == None ==> r.client.chunkRetry == 0)
  {
  }

  lemma {:induction false} ReceivingWorks(n: Node, ev: Event, env: Env)
    requires n.core.phase == ClientReceiving && n.core.pending == None && !Restarts(ev)
    ensures Works(n, ev, env, ReceivingRun(n, ev, env))
  {
    if AcceptsChunk(ev, env) {
      var n1 := StoreChunk(n, ev.msg.data, env);
      assert n1.core.phase == ClientReceiving && n1.core.pending in {None, Some(Error)};
      assert n1.client.currentChunk == n.client.currentChunk && n1.client.numChunks == n.client.numChunks;
      NextChunkWorks(n1, env);
    }
  }

  lemma {:induction false} OneIterationWorks(n: Node, ev: Event, env: Env)
    requires n.core.phase == ClientReceiving && n.core.pending == None && !Restarts(ev)
    requires n.client.chunkRetry < MAX_CHUNK_RETRIES
    ensures var n' := SmRun(n, ev, env);
      n'.core.phase == ClientReceiving ==>
        && n'.core.pending == None && n'.client.chunkRetry < MAX_CHUNK_RETRIES
        && n'.client.numChunks == n.client.numChunks
        && WorkLeft(n') <= WorkLeft(n) - (if AcceptsChunk(ev, env) || ev == EvChunkTimeout then 1 else 0)
  {
    ReceivingWorks(n, ev, env);
    var r := ReceivingRun(n, ev, env);
    LeavesReceiving(r, ev, env);
  }

  lemma {:induction false} LeavesReceiving(r: Node, ev: Event, env: Env)
    requires r.core.phase == ClientReceiving && r.core.pending in {None, Some(Error), Some(ClientValidating)}
    ensures TakeTransition(r, ev, env).core.phase == if r.core.pending == None then ClientReceiving else r.core.pending.value
    ensures r.core.pending == None ==> TakeTransition(r, ev, env) == r
  {
  }

  lemma {:induction false} ReceivingIsBounded(n: Node, evs: seq<(Event, Env)>)
    requires n.core.phase == ClientReceiving && n.core.pending == None
    requires n.client.chunkRetry < MAX_CHUNK_RETRIES
    requires forall i :: 0 <= i < |evs| ==> !Restarts(evs[i].0)
    ensures WorkWhileReceiving(n, evs) <= WorkLeft(n)
    decreases |evs|
  {
    if evs != [] {
      OneIterationWorks(n, evs[0].0, evs[0].1);
      var n' := SmRun(n, evs[0].0, evs[0].1);
      if n'.core.phase == ClientReceiving {
        ReceivingIsBounded(n', evs[1..]);
      }
    }
  }

  lemma {:induction false} EntersReceiving(n: Node, ev: Event, env: Env)
    requires n.core.phase == Idle && n.core.pending == None
    requires SmRun(n, ev, env).core.phase == ClientReceiving
    ensures var n' := SmRun(n, ev, env);
      n'.core.pending == None && n'.client.chunkRetry == 0 && n'.client.currentChunk == 0
  {
    var r := Run(n, ev, env);
    assert ev.EvFrame? && ev.msg.MsgStart? && r == ProcessUpdateRequest(n, ev.msg.info, env);
    assert r.core.pending == Some(ClientReceiving);
    var r1 := r.(core := r.core.(pending := None, phase := ClientReceiving));
    assert TakeTransition(r, ev, env) == ReceivingEntry(r1);
  }

  /** From the entry of the receiving state on, at most five events of work for each chunk of the image. */
  lemma {:induction false} ReceivingEndsWithoutRestart(n: Node, ev: Event, env: Env, evs: seq<(Event, Env)>)
    requires n.core.phase == Idle && n.core.pending == None
    requires SmRun(n, ev, env).core.phase == ClientReceiving
    requires forall i :: 0 <= i < |evs| ==> !Restarts(evs[i].0)
    ensures var n' := SmRun(n, ev, env);
      WorkWhileReceiving(n', evs) <= MAX_CHUNK_RETRIES * (if n'.client.numChunks > 1 then n'.client.numChunks else 1)
  {
    EntersReceiving(n, ev, env);
    ReceivingIsBounded(SmRun(n, ev, env), evs);
  }
}
