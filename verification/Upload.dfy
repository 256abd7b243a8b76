/**
 The resumable sender (src/tus_client.rs): the client of the tus 1.0.0 core
 protocol (HEAD, PATCH) and its Creation extension.

 The relay is the environment. A conforming relay appends bytes only at the current
 offset, may store a part of a PATCH, may lose any reply, may act on a request long
 after the client gave up on it, and may forget an upload. The client is also run
 against a relay that answers anything at all.
 */
module Upload {
  import opened Wrappers
  import opened Utf8
  import opened Model
  import opened Storage

  const MAX_CHUNK_SIZE: nat := 16 * 1024 * 1024

  /** What the Upload-Metadata header says; decoding it is exact, so it is compared as a value. */
  datatype Metadata = Metadata(name: string, mediaType: MediaType, sha256: string, directory: Option<(string, nat)>)

  /** The resume state file. */
  datatype UploadState = UploadState(
    url: string, originalName: string, size: nat, sha256: string, mediaType: MediaType, directory: Option<(string, nat)>)

  datatype RemoteUpload = RemoteUpload(offset: nat, length: nat, metadata: Metadata, deliveryId: Option<string>)

  datatype Problem = Status(code: nat) | Transport | Inconsistent | Refused | LocalIo

  datatype PatchReply = NoContent(remote: RemoteUpload) | Conflict(offset: nat) | Rejected(problem: Problem)

  datatype Outcome = Outcome(uploadedBytes: nat, size: nat, sha256: string, deliveryId: Option<string>)

  predicate ShouldDiscard(p: Problem) {
    p == Status(404) || p == Status(410) || p == Status(422)
  }

  function MetadataOf(name: string, i: FileInspection, directory: Option<(string, nat)>): Metadata {
    Metadata(name, i.mediaType, i.sha256, directory)
  }

  /** Accept only an answer about this very upload, and no delivery before the last byte. */
  predicate ValidRemote(state: UploadState, expected: Metadata, r: RemoteUpload) {
    && r.length == state.size && r.offset <= r.length && r.metadata == expected
    && (r.deliveryId.Some? ==> r.offset == r.length)
  }

  // ------------------------------------------------------------------ the relay

  datatype Stored = Stored(length: nat, metadata: Metadata, bytes: Bytes, deliveryId: Option<string>)

  /** A PATCH on its way; it may be acted on at any later time, or never. */
  datatype Packet = Packet(url: string, offset: nat, chunk: Bytes)

  datatype Relay = Relay(uploads: map<string, Stored>, wire: set<Packet>, deliveries: map<string, Bytes>)

  predicate IsPrefix(a: Bytes, b: Bytes) {
    |a| <= |b| && a == b[..|a|]
  }

  /** Resume refines one upload: whatever happened, each upload holds the source up to its offset. */
  predicate Faithful(r: Relay, source: Bytes) {
    && (forall url | url in r.uploads :: var u := r.uploads[url];
          && u.length == |source| && IsPrefix(u.bytes, source)
          && (u.deliveryId.Some? ==> u.bytes == source && u.deliveryId.value in r.deliveries))
    && (forall p | p in r.wire :: p.offset + |p.chunk| <= |source| && p.chunk == source[p.offset..p.offset + |p.chunk|])
    && (forall id | id in r.deliveries :: r.deliveries[id] == source)
  }

  /** One move of a conforming relay on its own. */
  datatype Move = Arrive(packet: Packet, taken: nat) | Confirm(url: string, id: string) | Expire(url: string) | Lose(packet: Packet)

  predicate Possible(r: Relay, m: Move) {
    match m
    case Arrive(p, taken) =>
      && p in r.wire && p.url in r.uploads && taken <= |p.chunk|
      && p.offset == |r.uploads[p.url].bytes| && p.offset + taken <= r.uploads[p.url].length
    case Confirm(url, id) =>
      && url in r.uploads && |r.uploads[url].bytes| == r.uploads[url].length
      && r.uploads[url].deliveryId.None? && id !in r.deliveries
    case Expire(url) => url in r.uploads
    case Lose(p) => p in r.wire
  }

  function Do(r: Relay, m: Move): Relay
    requires Possible(r, m)
  {
    match m
    case Arrive(p, taken) =>
      var u := r.uploads[p.url];
      r.(uploads := r.uploads[p.url := u.(bytes := u.bytes + p.chunk[..taken])])
    case Confirm(url, id) =>
      var u := r.uploads[url];
      r.(uploads := r.uploads[url := u.(deliveryId := Some(id))], deliveries := r.deliveries[id := u.bytes])
    case Expire(url) => r.(uploads := r.uploads - {url})
    case Lose(p) => r.(wire := r.wire - {p})
  }

  /** What stays true of the relay, however long one waits: uploads only grow, deliveries stay as they are. */
  predicate Evolves(r: Relay, r': Relay) {
    && (forall url | url in r.uploads && url in r'.uploads ::
          && r'.uploads[url].length == r.uploads[url].length && IsPrefix(r.uploads[url].bytes, r'.uploads[url].bytes)
          && r'.uploads[url].metadata == r.uploads[url].metadata
          && (r.uploads[url].deliveryId.Some? ==> r'.uploads[url].deliveryId == r.uploads[url].deliveryId))
    && (forall id | id in r.deliveries :: id in r'.deliveries && r'.deliveries[id] == r.deliveries[id])
  }

  /** Bytes of the source appended to a prefix of it, at its end. */
  lemma Extends(bytes: Bytes, chunk: Bytes, taken: nat, source: Bytes)
    requires IsPrefix(bytes, source) && taken <= |chunk| && |bytes| + |chunk| <= |source|
    requires chunk == source[|bytes|..|bytes| + |chunk|]
    ensures IsPrefix(bytes + chunk[..taken], source) && IsPrefix(bytes, bytes + chunk[..taken])
  {
    var more := bytes + chunk[..taken];
    forall i | 0 <= i < |more| ensures more[i] == source[i] {
      if i < |bytes| {
        assert bytes[i] == source[..|bytes|][i];
      } else {
        assert more[i] == chunk[i - |bytes|] == source[|bytes|..|bytes| + |chunk|][i - |bytes|];
      }
    }
    assert more == source[..|more|];
  }

  lemma MoveKeeps(r: Relay, m: Move, source: Bytes)
    requires Faithful(r, source) && Possible(r, m)
    ensures Faithful(Do(r, m), source) && Evolves(r, Do(r, m)) && Do(r, m).uploads.Keys <= r.uploads.Keys
  {
    if m.Arrive? {
      var u, p := r.uploads[m.packet.url], m.packet;
      Extends(u.bytes, p.chunk, m.taken, source);
    } else if m.Confirm? {
      var u := r.uploads[m.url];
      assert u.bytes == source[..|source|] == source;
    }
  }

  lemma EvolvesTransitive(a: Relay, b: Relay, c: Relay)
    requires Evolves(a, b) && Evolves(b, c) && c.uploads.Keys <= b.uploads.Keys
    ensures Evolves(a, c)
  {
    forall url | url in a.uploads && url in c.uploads ensures IsPrefix(a.uploads[url].bytes, c.uploads[url].bytes) {
      var x, y, z := a.uploads[url].bytes, b.uploads[url].bytes, c.uploads[url].bytes;
      assert x == y[..|x|] == z[..|y|][..|x|] == z[..|x|];
    }
  }

  function Answer(u: Stored): RemoteUpload {
    RemoteUpload(|u.bytes|, u.length, u.metadata, u.deliveryId)
  }

  /** The relay moved on its own: it stayed faithful, and no upload appeared. */
  predicate Waited(before: Relay, after: Relay) {
    Evolves(before, after) && after.uploads.Keys <= before.uploads.Keys
  }

  lemma WaitedReflexive(r: Relay)
    ensures Waited(r, r)
  {
  }

  lemma WaitedTransitive(a: Relay, b: Relay, c: Relay)
    requires Waited(a, b) && Waited(b, c)
    ensures Waited(a, c)
  {
    EvolvesTransitive(a, b, c);
  }

  /** Bytes of the source from one offset on. */
  predicate Slice(source: Bytes, offset: nat, chunk: Bytes) {
    offset + |chunk| <= |source| && chunk == source[offset..offset + |chunk|]
  }

  lemma SendKeeps(r: Relay, p: Packet, source: Bytes)
    requires Faithful(r, source) && Slice(source, p.offset, p.chunk)
    ensures var r' := r.(wire := r.wire + {p}); Faithful(r', source) && Waited(r, r')
  {
  }

  lemma CreateKeeps(r: Relay, url: string, metadata: Metadata, source: Bytes)
    requires Faithful(r, source) && url !in r.uploads
    ensures var r' := r.(uploads := r.uploads[url := Stored(|source|, metadata, [], None)]);
            Faithful(r', source) && Evolves(r, r')
  {
  }

  datatype Request = Request(
    chunkSize: nat, maxChunks: Option<nat>, name: Option<string>, fileName: string, directory: Option<(string, nat)>,
    keepCompletedState: bool)

  predicate ValidRequest(q: Request) {
    1 <= q.chunkSize <= MAX_CHUNK_SIZE && q.maxChunks != Some(0)
  }

  /** How many PATCHes whole chunks need. */
  function Ceiling(remaining: nat, chunk: nat): nat
    requires chunk > 0
  {
    if remaining <= 0 then 0 else 1 + if remaining <= chunk then 0 else Ceiling(remaining - chunk, chunk)
  }

  /** One sender, one source file, one relay. */
  class Session {
    const source: Bytes
    const hash: Bytes -> string
    const conforming: bool // the relay keeps to tus 1.0.0
    const wholeChunks: bool // it answers every PATCH by taking the whole chunk
    const smooth: bool // moreover nothing is lost or forgotten, and nothing fails on this device

    var relay: Relay
    var saved: Option<UploadState>
    var creates: nat
    var patches: nat

    ghost predicate Sound()
      reads this
    {
      (conforming ==> Faithful(relay, source)) && (smooth ==> conforming && wholeChunks)
    }

    constructor (source: Bytes, hash: Bytes -> string, conforming: bool, wholeChunks: bool, smooth: bool)
      requires smooth ==> conforming && wholeChunks
      ensures Sound() && saved == None && creates == 0 && patches == 0
      ensures this.source == source && this.hash == hash && this.conforming == conforming && this.wholeChunks == wholeChunks
      ensures this.smooth == smooth
      ensures relay == Relay(map[], {}, map[])
    {
      this.source, this.hash, this.conforming, this.wholeChunks, this.smooth := source, hash, conforming, wholeChunks, smooth;
      relay, saved, creates, patches := Relay(map[], {}, map[]), None, 0, 0;
    }

    /** Time passes: late packets arrive, finished uploads are confirmed, old ones expire. */
    method Wait()
      requires Sound()
      modifies `relay
      ensures Sound() && (conforming ==> Waited(old(relay), relay))
      ensures smooth ==> relay == old(relay)
    {
      hide Faithful, Evolves, Possible;
      if !conforming {
        relay := *;
        return;
      }
      WaitedReflexive(relay);
      var moves: int := *;
      if moves < 0 || smooth {
        moves := 0;
      }
      for i := 0 to moves
        invariant smooth ==> relay == old(relay)
        invariant Faithful(relay, source) && Waited(old(relay), relay)
      {
        var m: Move := *;
        if Possible(relay, m) {
          ghost var before := relay;
          MoveKeeps(relay, m, source);
          relay := Do(relay, m);
          WaitedTransitive(old(relay), before, relay);
        }
      }
    }

    method Head(url: string) returns (r: Result<RemoteUpload, Problem>)
      requires Sound()
      modifies `relay
      ensures Sound() && (conforming ==> Waited(old(relay), relay))
      ensures conforming && r.Ok? ==> url in relay.uploads && r.value == Answer(relay.uploads[url])
      ensures smooth ==> relay == old(relay) && (url in relay.uploads ==> r.Ok?)
    {
      hide Faithful, Waited;
      Wait();
      var arrived: bool := *;
      arrived := arrived || smooth;
      var problem: Problem := *;
      var remote: RemoteUpload := *;
      if !arrived {
        r := Err(problem);
      } else if !conforming {
        r := Ok(remote);
      } else if url in relay.uploads {
        r := Ok(Answer(relay.uploads[url]));
      } else {
        r := Err(Status(404));
      }
    }

    /** The relay takes the whole chunk as it arrives, and perhaps confirms the finished upload. */
    method TakeAtOnce(url: string, offset: nat, chunk: Bytes) returns (reply: PatchReply)
      requires Sound() && smooth && Slice(source, offset, chunk) && Accepts(relay, url, offset, |source|)
      modifies `relay
      ensures Sound() && Waited(old(relay), relay)
      ensures Accepts(relay, url, offset + |chunk|, |source|)
      ensures relay.uploads[url].metadata == old(relay).uploads[url].metadata
      ensures url in relay.uploads && reply == NoContent(Answer(relay.uploads[url])) && reply.remote.offset == offset + |chunk|
    {
      hide Faithful, Evolves, Slice;
      var packet := Packet(url, offset, chunk);
      SendKeeps(relay, packet, source);
      relay := relay.(wire := relay.wire + {packet});
      ghost var sent := relay;
      SliceFits(source, offset, chunk);
      var move := Arrive(packet, |chunk|);
      MoveKeeps(relay, move, source);
      relay := Do(relay, move);
      ghost var taken := relay;
      EvolvesTransitive(old(relay), sent, taken);
      var id: string := *;
      move := Confirm(url, id);
      if Possible(relay, move) && ValidDeliveryId(id) {
        MoveKeeps(relay, move, source);
        relay := Do(relay, move);
        EvolvesTransitive(old(relay), taken, relay);
      }
      reply := NoContent(Answer(relay.uploads[url]));
    }

    /** The PATCH request itself, and the relay's answer if it comes back. */
    method SendPatch(url: string, offset: nat, chunk: Bytes) returns (reply: PatchReply)
      requires Sound() && Slice(source, offset, chunk)
      modifies `relay, `patches
      ensures Sound() && (conforming ==> Waited(old(relay), relay))
      ensures patches == old(patches) + 1
      ensures conforming && reply.NoContent? ==> url in relay.uploads && reply.remote == Answer(relay.uploads[url])
      ensures wholeChunks ==> !reply.Conflict?
      ensures wholeChunks && reply.NoContent? ==> reply.remote.offset == offset + |chunk|
      ensures smooth && Accepts(old(relay), url, offset, |source|) ==>
                reply.NoContent? && Accepts(relay, url, offset + |chunk|, |source|)
                && relay.uploads[url].metadata == old(relay).uploads[url].metadata
    {
      hide Faithful, Waited, Slice, Possible, Accepts;
      patches := patches + 1;
      if smooth && Accepts(relay, url, offset, |source|) {
        reply := TakeAtOnce(url, offset, chunk);
        return;
      }
      if conforming {
        SendKeeps(relay, Packet(url, offset, chunk), source);
        relay := relay.(wire := relay.wire + {Packet(url, offset, chunk)});
      }
      ghost var sent := relay;
      Wait();
      if conforming {
        WaitedTransitive(old(relay), sent, relay);
      }
      reply := *;
      if conforming && !reply.Rejected? {
        if url !in relay.uploads {
          reply := Rejected(Status(404));
        } else if reply.Conflict? {
          reply := Conflict(|relay.uploads[url].bytes|);
        } else {
          reply := NoContent(Answer(relay.uploads[url]));
        }
      }
      if wholeChunks && (reply.Conflict? || (reply.NoContent? && reply.remote.offset != offset + |chunk|)) {
        reply := Rejected(Transport);
      }
    }

    /** A conflicting offset is settled by asking; the two answers must agree. */
    method Patch(url: string, offset: nat, chunk: Bytes) returns (r: Result<RemoteUpload, Problem>)
      requires Sound() && Slice(source, offset, chunk)
      modifies `relay, `patches
      ensures Sound() && (conforming ==> Waited(old(relay), relay))
      ensures patches == old(patches) + 1
      ensures conforming && r.Ok? ==> url in relay.uploads && r.value == Answer(relay.uploads[url])
      ensures wholeChunks && r.Ok? ==> r.value.offset == offset + |chunk|
      ensures smooth && Accepts(old(relay), url, offset, |source|) ==>
                r.Ok? && Accepts(relay, url, offset + |chunk|, |source|)
                && relay.uploads[url].metadata == old(relay).uploads[url].metadata
    {
      hide Faithful, Waited, Slice, Accepts;
      var reply := SendPatch(url, offset, chunk);
      match reply {
        case NoContent(remote) => r := Ok(remote);
        case Rejected(problem) => r := Err(problem);
        case Conflict(serverOffset) =>
          ghost var between := relay;
          var recovered := Head(url);
          if conforming {
            WaitedTransitive(old(relay), between, relay);
          }
          if recovered.Err? {
            r := recovered;
          } else if recovered.value.offset != serverOffset {
            r := Err(Inconsistent);
          } else {
            r := recovered;
          }
      }
    }

    method Create(metadata: Metadata) returns (r: Result<string, Problem>)
      requires Sound()
      modifies `relay, `creates
      ensures Sound() && creates == old(creates) + 1
      ensures conforming ==> Evolves(old(relay), relay)
      ensures conforming && r.Ok? ==>
                && r.value !in old(relay).uploads
                && relay == old(relay).(uploads := old(relay).uploads[r.value := Stored(|source|, metadata, [], None)])
      ensures smooth ==> r.Ok? && Accepts(relay, r.value, 0, |source|) && relay.uploads[r.value].metadata == metadata
    {
      hide Faithful, Evolves;
      creates := creates + 1;
      var url: string := *;
      var created: bool := *;
      var arrived: bool := *;
      var problem: Problem := *;
      if smooth {
        created, arrived := true, true;
        UnusedString(relay.uploads.Keys);
        url :| url !in relay.uploads;
      }
      if !conforming {
        relay := *;
      } else if url in relay.uploads || !created {
        WaitedReflexive(relay);
        EvolvesReflexive(relay);
        return Err(problem);
      } else {
        CreateKeeps(relay, url, metadata, source);
        relay := relay.(uploads := relay.uploads[url := Stored(|source|, metadata, [], None)]);
      }
      r := if arrived then Ok(url) else Err(problem);
    }

    method SaveState(state: UploadState) returns (ok: bool)
      modifies `saved
      ensures saved == Some(state) || (!ok && saved == old(saved))
      ensures ok ==> saved == Some(state)
      ensures smooth ==> ok
    {
      ok := *;
      ok := ok || smooth;
      var replaced: bool := *;
      if ok || replaced {
        saved := Some(state);
      }
    }

    method RemoveState() returns (ok: bool)
      modifies `saved
      ensures saved == None || (!ok && saved == old(saved))
      ensures ok ==> saved == None
      ensures smooth ==> ok
    {
      ok := *;
      ok := ok || smooth;
      var removed: bool := *;
      if ok || removed {
        saved := None;
      }
    }

    /** The callback; it may ask for a pause. */
    method OnEvent() returns (goOn: bool)
      ensures smooth ==> goOn
    {
      goOn := *;
      goOn := goOn || smooth;
    }

    /**
     The answer to HEAD or PATCH, after the rule that a refused upload's state is
     discarded: 404, 410 and 422 are passed on only once that is done.
     */
    method Settle(r: Result<RemoteUpload, Problem>) returns (settled: Result<RemoteUpload, Problem>)
      modifies `saved
      ensures r.Ok? ==> settled == r && saved == old(saved)
      ensures r.Err? && r.error !in {Status(404), Status(410), Status(422)} ==> settled == r && saved == old(saved)
      ensures r.Err? && r.error in {Status(404), Status(410), Status(422)} ==>
                (settled == r && saved == None) || (settled == Err(LocalIo) && !smooth && (saved == None || saved == old(saved)))
    {
      settled := r;
      if r.Err? && ShouldDiscard(r.error) {
        var ok := RemoveState();
        if !ok {
          settled := Err(LocalIo);
        }
      }
    }

    /** Send the rest of the file, chunk by chunk. */
    method SendChunks(q: Request, state: UploadState, expected: Metadata, first: RemoteUpload, continueUpload: bool)
      returns (r: Result<RemoteUpload, Problem>, paused: bool)
      requires Sound() && ValidRequest(q) && state.size == |source| && ValidRemote(state, expected, first)
      requires conforming ==> state.url in relay.uploads && first == Answer(relay.uploads[state.url])
      modifies `relay, `patches, `saved
      ensures Sound() && (conforming ==> Waited(old(relay), relay))
      ensures saved == old(saved) || (saved == None && r.Err?)
      ensures r.Err? && r.error in {Status(404), Status(410), Status(422)} ==> saved == None
      ensures r.Err? && r.error !in {Status(404), Status(410), Status(422), LocalIo} ==> saved == old(saved)
      ensures r.Ok? ==> ValidRemote(state, expected, r.value) && (!paused ==> r.value.offset == state.size)
      ensures r.Ok? && conforming ==> state.url in relay.uploads && r.value == Answer(relay.uploads[state.url])
      ensures old(patches) <= patches <= old(patches) + (state.size - first.offset)
      ensures q.maxChunks.Some? ==> patches - old(patches) <= q.maxChunks.value
      ensures wholeChunks && r.Ok? && !paused ==>
                patches - old(patches) == Ceiling(state.size - first.offset, q.chunkSize)
      ensures first.offset == state.size ==> r == Ok(first) && !paused && relay == old(relay) && saved == old(saved)
      ensures smooth && continueUpload && q.maxChunks == None && Ready(old(relay), state.url, expected, first.offset, |source|) ==>
                r.Ok? && !paused && Ready(relay, state.url, expected, state.size, |source|)
    {
      hide Faithful, Waited, Ceiling, Accepts;
      WaitedReflexive(relay);
      CeilingStart(q.chunkSize);
      var remote := first;
      var chunksSent := 0;
      paused := false;
      while remote.offset < state.size
        invariant Sound() && (conforming ==> Waited(old(relay), relay)) && saved == old(saved)
        invariant ValidRemote(state, expected, remote) && first.offset <= remote.offset
        invariant conforming ==> state.url in relay.uploads && remote == Answer(relay.uploads[state.url])
        invariant patches == old(patches) + chunksSent && chunksSent <= remote.offset - first.offset
        invariant q.maxChunks.Some? && remote.offset < state.size ==> chunksSent < q.maxChunks.value
        invariant q.maxChunks.Some? ==> chunksSent <= q.maxChunks.value
        invariant wholeChunks ==>
                    Ceiling(state.size - first.offset, q.chunkSize)
                    == chunksSent + Ceiling(state.size - remote.offset, q.chunkSize)
        invariant first.offset == state.size ==> remote == first && relay == old(relay)
        invariant smooth && Ready(old(relay), state.url, expected, first.offset, |source|) ==>
                    Ready(relay, state.url, expected, remote.offset, |source|)
        decreases state.size - remote.offset
      {
        if !continueUpload {
          return Ok(remote), true;
        }
        var goOn := OnEvent();
        if !goOn {
          return Ok(remote), true;
        }
        var previousOffset := remote.offset;
        var remaining := state.size - remote.offset;
        var chunkLength := if remaining <= q.chunkSize then remaining else q.chunkSize;
        var readable: bool := *;
        if !readable && !smooth {
          return Err(LocalIo), false;
        }
        var chunk := source[remote.offset..remote.offset + chunkLength];
        CeilingStep(remaining, q.chunkSize, chunkLength);
        ghost var before := relay;
        var reply := Patch(state.url, remote.offset, chunk);
        if conforming {
          WaitedTransitive(old(relay), before, relay);
        }
        reply := Settle(reply);
        if reply.Err? {
          return reply, false;
        }
        ReadyIsValid(relay, state, expected, reply.value, source);
        if !ValidRemote(state, expected, reply.value) || reply.value.offset <= previousOffset {
          return Err(Inconsistent), false;
        }
        remote := reply.value;
        chunksSent := chunksSent + 1;
        if q.maxChunks.Some? && chunksSent >= q.maxChunks.value && remote.offset < state.size {
          var _ := OnEvent();
          return Ok(remote), true;
        }
      }
      r := Ok(remote);
    }

    /** The delivery id, from the last answer or by asking once more. */
    method Confirmation(state: UploadState, expected: Metadata, last: RemoteUpload) returns (r: Result<string, Problem>)
      requires Sound() && ValidRemote(state, expected, last) && last.offset == state.size == |source|
      requires conforming ==> state.url in relay.uploads && last == Answer(relay.uploads[state.url])
      modifies `relay, `saved
      ensures Sound() && (conforming ==> Waited(old(relay), relay))
      ensures saved == old(saved) || (saved == None && r.Err?)
      ensures r.Err? && r.error in {Status(404), Status(410), Status(422)} ==> saved == None
      ensures r.Err? && r.error !in {Status(404), Status(410), Status(422), LocalIo} ==> saved == old(saved)
      ensures conforming && r.Ok? ==> state.url in relay.uploads && relay.uploads[state.url].deliveryId == Some(r.value)
      ensures conforming && r.Ok? ==> r.value in relay.deliveries && relay.deliveries[r.value] == source
      ensures last.deliveryId.Some? ==> relay == old(relay) && (r.Ok? ==> r.value == last.deliveryId.value)
      ensures smooth ==> relay == old(relay)
      ensures smooth && r.Err? && Ready(relay, state.url, expected, state.size, |source|) ==>
                relay.uploads[state.url].deliveryId == None
    {
      hide Faithful, Waited, Accepts, ValidDeliveryId;
      var remote := last;
      WaitedReflexive(relay);
      AnswerFacts(relay, state.url, source, conforming);
      ReadyIsWhole(relay, state.url, expected, source, conforming);
      if remote.deliveryId.None? {
        var again := Head(state.url);
        again := Settle(again);
        if again.Err? {
          return Err(again.error);
        }
        ReadyIsValid(relay, state, expected, again.value, source);
        if !ValidRemote(state, expected, again.value) {
          return Err(Inconsistent);
        }
        remote := again.value;
        AnswerFacts(relay, state.url, source, conforming);
      }
      if remote.deliveryId.None? || !ValidDeliveryId(remote.deliveryId.value) {
        return Err(Inconsistent);
      }
      r := Ok(remote.deliveryId.value);
    }

    /** Take up the saved upload, or create one and save it. */
    method OpenUpload(q: Request) returns (r: Result<UploadState, Problem>, continueUpload: bool)
      requires Sound()
      modifies `relay, `saved, `creates
      ensures Sound() && creates <= old(creates) + 1
      ensures old(saved).Some? ==> relay == old(relay) && saved == old(saved) && creates == old(creates)
      ensures conforming ==> Evolves(old(relay), relay)
      ensures r.Ok? ==> saved == Some(r.value) && 0 < |source|
      ensures r.Ok? ==> var i := Storage.Inspect(hash, source);
                        && r.value.size == |source| && r.value.sha256 == i.sha256 && r.value.mediaType == i.mediaType
                        && r.value.directory == q.directory
                        && (q.name.Some? ==> r.value.originalName == q.name.value)
                        && (q.name.None? && old(saved).None? ==> r.value.originalName == q.fileName)
      ensures old(saved).None? && (r.Ok? || (smooth && source != [])) ==> creates == old(creates) + 1
      ensures conforming && r.Ok? && old(saved).None? ==>
                var (state, i) := (r.value, Storage.Inspect(hash, source));
                && state.url !in old(relay).uploads && state.url in relay.uploads
                && relay.uploads[state.url]
                   == Stored(|source|, Metadata(state.originalName, i.mediaType, i.sha256, q.directory), [], None)
      ensures r.Err? && (old(saved).Some? || r.error != LocalIo) ==> saved == old(saved)
      ensures r.Err? && old(saved).Some? ==> r.error == Refused
      ensures smooth && Startable(q, Storage.Inspect(hash, source), old(saved), old(relay)) ==>
                r.Ok? && continueUpload && Waiting(relay, r.value, Storage.Inspect(hash, source))
    {
      hide Faithful, Evolves, DetectMediaType, PlainText;
      continueUpload := false;
      EvolvesReflexive(relay);
      var inspection := Storage.Inspect(hash, source);
      var readable: bool := *;
      readable := readable || smooth;
      if source == [] {
        readable := false; // an empty file is refused
      }
      if saved.Some? {
        var state := saved.value;
        if state.directory != q.directory || !readable || inspection.size != state.size
           || inspection.sha256 != state.sha256 || inspection.mediaType != state.mediaType
           || (q.name.Some? && q.name.value != state.originalName) {
          return Err(Refused), false;
        }
        continueUpload := OnEvent();
        return Ok(state), continueUpload;
      }
      var serverMaxSize: int := *;
      if !readable || (|source| > serverMaxSize && !smooth) {
        return Err(Refused), false;
      }
      var name := if q.name.Some? then q.name.value else q.fileName;
      var url := Create(MetadataOf(name, inspection, q.directory));
      if url.Err? {
        return Err(url.error), false;
      }
      var state := UploadState(url.value, name, inspection.size, inspection.sha256, inspection.mediaType, q.directory);
      var ok := SaveState(state);
      if !ok {
        return Err(LocalIo), false;
      }
      continueUpload := OnEvent();
      r := Ok(state);
    }

    /** Send what is missing, obtain the delivery id and clean up. */
    method Complete(q: Request, state: UploadState, expected: Metadata, first: RemoteUpload, continueUpload: bool)
      returns (r: Result<Outcome, Problem>)
      requires Sound() && ValidRequest(q) && state.size == |source| && ValidRemote(state, expected, first)
      requires conforming ==> state.url in relay.uploads && first == Answer(relay.uploads[state.url])
      requires saved.Some?
      modifies `relay, `saved, `patches
      ensures Sound()
      ensures r.Ok? && r.value.deliveryId.Some? ==> r.value.uploadedBytes == r.value.size == |source|
      ensures conforming && r.Ok? && r.value.deliveryId.Some? ==>
                r.value.deliveryId.value in relay.deliveries && relay.deliveries[r.value.deliveryId.value] == source
      ensures old(patches) <= patches && first.offset + (patches - old(patches)) <= |source|
      ensures q.maxChunks.Some? ==> patches - old(patches) <= q.maxChunks.value
      ensures wholeChunks && r.Ok? && r.value.deliveryId.Some? ==>
                patches - old(patches) == Ceiling(|source| - first.offset, q.chunkSize)
      ensures first.deliveryId.Some? ==>
                patches == old(patches) && (r.Ok? ==> r.value.deliveryId == first.deliveryId)
      ensures r.Ok? && r.value.deliveryId.Some? && !q.keepCompletedState ==> saved == None
      ensures r.Ok? && (r.value.deliveryId.None? || q.keepCompletedState) ==> saved == old(saved)
      ensures r.Err? && r.error in {Status(404), Status(410), Status(422)} ==> saved == None
      ensures r.Err? && r.error !in {Status(404), Status(410), Status(422), LocalIo} ==> saved == old(saved)
      ensures conforming && r.Ok? && r.value.deliveryId.Some? ==>
                state.url in relay.uploads && relay.uploads[state.url].deliveryId == r.value.deliveryId
      ensures smooth && continueUpload && q.maxChunks == None && Ready(old(relay), state.url, expected, first.offset, |source|) ==>
                (r.Ok? ==> r.value.deliveryId.Some?) && Arrived(relay, source, r.Ok?)
    {
      hide Faithful, Waited, Ceiling, Accepts, Ready, Arrived, MetadataOf, Answer;
      var sent, paused := SendChunks(q, state, expected, first, continueUpload);
      ReadyIsWhole(relay, state.url, expected, source, conforming);
      if sent.Err? {
        return Err(sent.error);
      }
      var remote := sent.value;
      if paused {
        return Ok(Outcome(remote.offset, state.size, state.sha256, None));
      }
      var confirmed := Confirmation(state, expected, remote);
      AtUrl(relay, state.url, source, confirmed.Ok?);
      if confirmed.Err? {
        return Err(confirmed.error);
      }
      if !q.keepCompletedState {
        var ok := RemoveState();
        if !ok {
          return Err(LocalIo);
        }
      }
      var _ := OnEvent();
      r := Ok(Outcome(state.size, state.size, state.sha256, Some(confirmed.value)));
    }

    /**
     One invocation of the sender. `first` is the relay's answer to the first HEAD, if
     there was one; the number of PATCH requests is bounded by what it left to send.
     */
    method Upload(q: Request) returns (r: Result<Outcome, Problem>, ghost first: Option<FirstAnswer>)
      requires Sound()
      modifies `relay, `saved, `creates, `patches
      ensures Sound()
      ensures r.Ok? && r.value.deliveryId.Some? ==> r.value.uploadedBytes == r.value.size == |source|
      ensures conforming && r.Ok? && r.value.deliveryId.Some? ==>
                r.value.deliveryId.value in relay.deliveries && relay.deliveries[r.value.deliveryId.value] == source
      ensures first.None? ==> r.Err? && patches == old(patches)
      ensures first.Some? && conforming ==> GivenBy(first.value, old(relay))
      ensures first.Some? && old(saved).Some? ==> first.value.url == old(saved).value.url
      ensures first.Some? ==> AnswersFor(first.value.answer, |source|, Storage.Inspect(hash, source), q)
      ensures old(patches) <= patches && (first.Some? ==> first.value.answer.offset + (patches - old(patches)) <= |source|)
      ensures q.maxChunks.Some? ==> patches - old(patches) <= q.maxChunks.value
      ensures wholeChunks && r.Ok? && r.value.deliveryId.Some? && q.chunkSize > 0 ==>
                patches - old(patches) == Ceiling(|source| - first.value.answer.offset, q.chunkSize)
      ensures old(saved).Some? ==> creates == old(creates)
      ensures conforming && HasDelivery(old(saved), old(relay)) ==>
                patches == old(patches) && (r.Ok? ==> r.value.deliveryId == old(relay).uploads[old(saved).value.url].deliveryId)
      ensures !(1 <= q.chunkSize <= 16 * 1024 * 1024) || q.maxChunks == Some(0) ==>
                r == Err(Refused) && relay == old(relay) && saved == old(saved) && creates == old(creates)
      ensures r.Ok? && old(saved).None? ==> creates == old(creates) + 1
      ensures smooth && source != [] && 1 <= q.chunkSize <= 16 * 1024 * 1024 && q.maxChunks != Some(0) && old(saved).None? ==>
                creates == old(creates) + 1
      ensures r.Ok? && r.value.deliveryId.Some? && !q.keepCompletedState ==> saved == None
      ensures r.Ok? && (r.value.deliveryId.None? || q.keepCompletedState) ==>
                saved.Some? && (old(saved).Some? ==> saved == old(saved))
      ensures conforming && r.Ok? && r.value.deliveryId.Some? && q.keepCompletedState ==>
                && saved.value.url in relay.uploads && relay.uploads[saved.value.url].deliveryId == r.value.deliveryId
      ensures r.Err? && r.error in {Status(404), Status(410), Status(422)} ==> saved == None
      ensures r.Err? && r.error !in {Status(404), Status(410), Status(422), LocalIo} && old(saved).Some? ==> saved == old(saved)
      ensures smooth && 1 <= q.chunkSize <= 16 * 1024 * 1024 && q.maxChunks == None
              && Startable(q, Storage.Inspect(hash, source), old(saved), old(relay)) ==>
                && (r.Ok? ==> r.value.deliveryId.Some?)
                && Arrived(relay, source, r.Ok?)
    {
      hide Faithful, Waited, Evolves, Ceiling, Storage.Inspect, Slice, DetectMediaType, PlainText, ValidDeliveryId, Accepts,
        Startable, Ready, Waiting, MetadataOf, Arrived, AnswersFor;
      first := None;
      if !ValidRequest(q) {
        return Err(Refused), first;
      }
      var started, continueUpload := OpenUpload(q);
      if started.Err? {
        return Err(started.error), first;
      }
      var state := started.value;
      ghost var start := relay;
      ghost var before := old(relay);
      var inspection := Storage.Inspect(hash, source);
      var expected := MetadataOf(state.originalName, inspection, state.directory);
      var head := Head(state.url);
      head := Settle(head);
      WaitingAnswers(relay, state, inspection, source);
      if head.Err? {
        return Err(head.error), first;
      }
      if !ValidRemote(state, expected, head.value) {
        return Err(Inconsistent), first;
      }
      if conforming {
        WaitedEvolves(before, start, relay);
      }
      first := Some(FirstAnswer(state.url, head.value, relay));
      ExpectedAnswer(state, inspection, head.value, q);
      DeliveredStays(start, relay, state.url, source, conforming);
      r := Complete(q, state, expected, head.value, continueUpload);
    }
  }

  /** An answer to HEAD, with the relay as it was at that moment. */
  datatype FirstAnswer = FirstAnswer(url: string, answer: RemoteUpload, relay: Relay)

  /** The answer is about an upload of this file, of its length, type and digest, and confirms it only when complete. */
  predicate AnswersFor(a: RemoteUpload, size: nat, i: FileInspection, q: Request) {
    && a.length == size && a.offset <= size && (a.deliveryId.Some? ==> a.offset == size)
    && a.metadata.mediaType == i.mediaType && a.metadata.sha256 == i.sha256 && a.metadata.directory == q.directory
    && (q.name.Some? ==> a.metadata.name == q.name.value)
  }

  lemma ExpectedAnswer(state: UploadState, i: FileInspection, a: RemoteUpload, q: Request)
    requires ValidRemote(state, MetadataOf(state.originalName, i, state.directory), a) && state.directory == q.directory
    requires q.name.Some? ==> state.originalName == q.name.value
    ensures AnswersFor(a, state.size, i, q)
  {
  }

  /** The answer was true, of an upload that has only grown since. */
  predicate GivenBy(answer: FirstAnswer, before: Relay) {
    && answer.url in answer.relay.uploads
    && (var u := answer.relay.uploads[answer.url];
        answer.answer == RemoteUpload(|u.bytes|, u.length, u.metadata, u.deliveryId))
    && Evolves(before, answer.relay)
  }

  lemma WaitedEvolves(a: Relay, b: Relay, c: Relay)
    requires Evolves(a, b) && Waited(b, c)
    ensures Evolves(a, c)
  {
    hide Evolves;
    EvolvesTransitive(a, b, c);
  }

  /** The relay holds exactly `offset` bytes of this upload, and confirms only what is complete. */
  predicate Accepts(r: Relay, url: string, offset: nat, size: nat) {
    && url in r.uploads && r.uploads[url].length == size && |r.uploads[url].bytes| == offset <= size
    && var id := r.uploads[url].deliveryId; id.Some? ==> offset == size && ValidDeliveryId(id.value)
  }

  predicate Ready(r: Relay, url: string, expected: Metadata, offset: nat, size: nat) {
    Accepts(r, url, offset, size) && r.uploads[url].metadata == expected
  }

  /** The upload that the state speaks of is there, as this device expects it. */
  predicate Waiting(r: Relay, state: UploadState, i: FileInspection) {
    && state.url in r.uploads && state.size == i.size
    && Ready(r, state.url, MetadataOf(state.originalName, i, state.directory), |r.uploads[state.url].bytes|, i.size)
  }

  /** There is something to send; a saved state belongs to this file and its upload is there. */
  predicate Startable(q: Request, i: FileInspection, saved: Option<UploadState>, r: Relay) {
    && i.size > 0
    && (saved.Some? ==>
          var state := saved.value;
          && state.directory == q.directory && state.size == i.size && state.sha256 == i.sha256
          && state.mediaType == i.mediaType && (q.name.Some? ==> q.name.value == state.originalName)
          && Waiting(r, state, i))
  }

  lemma WaitingAnswers(r: Relay, state: UploadState, i: FileInspection, source: Bytes)
    ensures Waiting(r, state, i) ==>
              && state.url in r.uploads && state.size == i.size
              && var remote := Answer(r.uploads[state.url]);
                 var expected := MetadataOf(state.originalName, i, state.directory);
              && ValidRemote(state, expected, remote) && Ready(r, state.url, expected, remote.offset, i.size)
  {
  }

  /** The whole source is at the relay; an upload that was not confirmed to us is not confirmed there. */
  ghost predicate Arrived(r: Relay, source: Bytes, confirmed: bool) {
    exists url :: url in r.uploads && r.uploads[url].bytes == source && (confirmed || r.uploads[url].deliveryId == None)
  }

  lemma AtUrl(r: Relay, url: string, source: Bytes, confirmed: bool)
    ensures url in r.uploads && r.uploads[url].bytes == source && (confirmed || r.uploads[url].deliveryId == None) ==>
              Arrived(r, source, confirmed)
  {
  }

  lemma ReadyIsWhole(r: Relay, url: string, expected: Metadata, source: Bytes, conforming: bool)
    requires conforming ==> Faithful(r, source)
    ensures conforming && Ready(r, url, expected, |source|, |source|) ==>
              && url in r.uploads && r.uploads[url].bytes == source && r.uploads[url].metadata == expected
              && r.uploads[url].length == |source|
              && (r.uploads[url].deliveryId.Some? ==> ValidDeliveryId(r.uploads[url].deliveryId.value))
  {
  }

  lemma SliceFits(source: Bytes, offset: nat, chunk: Bytes)
    requires Slice(source, offset, chunk)
    ensures offset + |chunk| <= |source|
  {
  }

  lemma ReadyIsValid(r: Relay, state: UploadState, expected: Metadata, remote: RemoteUpload, source: Bytes)
    ensures (state.size == |source| && Ready(r, state.url, expected, remote.offset, |source|)
             && remote == Answer(r.uploads[state.url])) ==> ValidRemote(state, expected, remote)
  {
  }

  lemma {:induction false} LongerThanAll(s: set<string>) returns (n: nat)
    ensures forall x | x in s :: |x| < n
  {
    if s == {} {
      n := 0;
    } else {
      var x :| x in s;
      n := LongerThanAll(s - {x});
      n := if |x| < n then n else |x| + 1;
    }
  }

  lemma UnusedString(s: set<string>)
    ensures exists url: string :: url !in s
  {
    var n := LongerThanAll(s);
    var url := seq(n, _ => 'u');
    assert |url| == n && url !in s;
  }

  /** The relay has confirmed the saved upload. */
  predicate HasDelivery(saved: Option<UploadState>, relay: Relay) {
    saved.Some? && saved.value.url in relay.uploads && relay.uploads[saved.value.url].deliveryId.Some?
  }

  /** A confirmed upload that is still there answers as before: complete, with the same delivery id. */
  lemma DeliveredStays(before: Relay, after: Relay, url: string, source: Bytes, conforming: bool)
    requires conforming ==> Faithful(before, source) && Waited(before, after) && url in after.uploads
    ensures conforming && url in before.uploads && before.uploads[url].deliveryId.Some? ==>
              && after.uploads[url].deliveryId == before.uploads[url].deliveryId
              && |after.uploads[url].bytes| >= |source|
  {
  }

  lemma AnswerFacts(r: Relay, url: string, source: Bytes, conforming: bool)
    requires conforming ==> Faithful(r, source)
    ensures conforming && url in r.uploads && r.uploads[url].deliveryId.Some? ==>
              r.uploads[url].deliveryId.value in r.deliveries && r.deliveries[r.uploads[url].deliveryId.value] == source
  {
  }

  lemma CeilingStart(chunk: nat)
    requires chunk > 0
    ensures Ceiling(0, chunk) == 0
  {
  }

  lemma CeilingStep(remaining: nat, chunk: nat, taken: nat)
    requires 0 < remaining && chunk > 0 && taken == if remaining <= chunk then remaining else chunk
    ensures Ceiling(remaining, chunk) == 1 + Ceiling(remaining - taken, chunk)
  {
  }

  /** The recursive count is the quotient rounded up. */
  lemma {:induction false} CeilingIsQuotient(remaining: nat, chunk: nat)
    requires chunk > 0
    ensures (Ceiling(remaining, chunk) - 1) * chunk < remaining || remaining == 0
    ensures remaining <= Ceiling(remaining, chunk) * chunk
    decreases remaining
  {
    if remaining > chunk {
      CeilingIsQuotient(remaining - chunk, chunk);
      var c := Ceiling(remaining - chunk, chunk);
      assert Ceiling(remaining, chunk) == c + 1;
      assert (c + 1) * chunk == c * chunk + chunk;
      assert (c - 1) * chunk == c * chunk - chunk;
    }
  }

  lemma EvolvesReflexive(r: Relay)
    ensures Evolves(r, r)
  {
  }

  /**
   Any number of invocations with any requests, with waiting in between, and each cut
   short anywhere (a failed request or write has no further durable effect, which is
   what a crash at that point looks like). Against a conforming relay every upload
   holds the source up to its offset, and everything delivered is the source.
   */
  method AnyCampaign(s: Session, runs: nat)
    requires s.Sound() && s.relay == Relay(map[], {}, map[])
    modifies s
    ensures s.conforming ==>
              && (forall url | url in s.relay.uploads ::
                    |s.relay.uploads[url].bytes| <= |s.source|
                    && s.relay.uploads[url].bytes == s.source[..|s.relay.uploads[url].bytes|])
              && (forall id | id in s.relay.deliveries :: s.relay.deliveries[id] == s.source)
  {
    for i := 0 to runs
      invariant s.Sound()
    {
      s.Wait();
      var q: Request := *;
      var _, _ := s.Upload(q);
    }
  }

  /**
   Sending the same file twice, with nothing lost and nothing failing. A first run that is
   confirmed removes its resume state, so the second creates an upload of its own; when
   the completed state is kept, the second finds it, sends nothing and answers the same
   delivery id. `between` is the number of PATCH requests of the first.
   */
  method SendTwice(s: Session, q: Request)
    returns (first: Result<Outcome, Problem>, second: Result<Outcome, Problem>, ghost between: nat)
    requires s.Sound() && s.smooth && s.source != [] && s.saved == None
    requires 1 <= q.chunkSize <= 16 * 1024 * 1024 && q.maxChunks == None
    modifies s
    ensures s.Sound()
    ensures first.Ok? ==> first.value.deliveryId.Some?
    ensures first.Ok? && second.Ok? ==> second.value.deliveryId.Some?
    ensures first.Ok? && !q.keepCompletedState ==> s.creates == old(s.creates) + 2 && (second.Ok? ==> s.saved == None)
    ensures first.Ok? && q.keepCompletedState ==>
              && s.creates == old(s.creates) + 1 && s.patches == between
              && (second.Ok? ==> second.value.deliveryId == first.value.deliveryId)
  {
    hide DetectMediaType, PlainText, Faithful, Evolves;
    ghost var answer;
    first, answer := s.Upload(q);
    between := s.patches;
    second, answer := s.Upload(q);
  }
}
