/**
 Standard input as it streams in: `InputBuffer` decodes chunks of bytes, and
 `StdinStream` pumps them from a descriptor. A ghost history of the bytes
 taken ties every state to the scan of all of them.
 */
module StreamInput {
  import opened Options
  import opened Sequences
  import opened Utf8

  datatype Error = TooLarge | InvalidData | Incomplete | ReadFailed

  /** The decoder's state is the scan of everything taken so far. */
  ghost predicate Scanned(taken: seq<Byte>, source: seq<Byte>, pending: seq<Byte>) {
    && source == taken[..ValidLength(taken)]
    && pending == taken[ValidLength(taken)..]
    && !Stop(taken).Bad?
  }

  /** After an error: what was valid before it, and nothing pending. */
  ghost predicate Broken(taken: seq<Byte>, source: seq<Byte>, pending: seq<Byte>) {
    source == taken[..ValidLength(taken)] && pending == [] && Stop(taken).Bad?
  }

  lemma PendingIsShort(taken: seq<Byte>, source: seq<Byte>, pending: seq<Byte>)
    requires Scanned(taken, source, pending)
    ensures |pending| <= 3 && source + pending == taken && Utf8Octets(source)
    ensures pending == [] <==> Utf8Octets(taken)
    ensures pending != [] ==> LeadOf(pending).Partial?
  {
    hide LeadOf, Utf8Octets;
    ScannedIsValid(taken);
    ScanStops(taken);
    ValidExactlyWhenScanned(taken);
    if pending != [] { PartialCompletes(pending); }
  }

  /** Scanning the pending bytes with new ones is scanning everything. */
  lemma TakeMore(taken: seq<Byte>, source: seq<Byte>, pending: seq<Byte>, bytes: seq<Byte>)
    requires Scanned(taken, source, pending)
    ensures var all, rest := taken + bytes, pending + bytes;
            && ValidLength(all) == |source| + ValidLength(rest) && Stop(all) == Stop(rest)
            && all[..ValidLength(all)] == source + rest[..ValidLength(rest)]
            && all[ValidLength(all)..] == rest[ValidLength(rest)..]
  {
    hide LeadOf, Utf8Octets, ValidLength, Stop;
    PendingIsShort(taken, source, pending);
    ValidExactlyWhenScanned(source);
    ScanResumes(source, pending + bytes);
    assert source + (pending + bytes) == taken + bytes;
  }

  class InputBuffer {
    var source: seq<Byte>
    var pending: seq<Byte>
    var received: nat
    const limit: nat
    ghost var taken: seq<Byte>

    /** Everything received is decoded or pending, within the limit. */
    ghost predicate Valid()
      reads this
    {
      received == |taken| <= limit && Scanned(taken, source, pending)
    }

    ghost predicate Failed()
      reads this
    {
      received == |taken| <= limit && Broken(taken, source, pending)
    }

    constructor (limit: nat)
      ensures Valid() && this.limit == limit && taken == []
    {
      source, pending, received, taken := [], [], 0, [];
      this.limit := limit;
    }

    /** `push` */
    method Push(bytes: seq<Byte>) returns (result: Result<(), Error>)
      requires Valid()
      modifies this
      ensures result.Ok? ==> Valid() && taken == old(taken) + bytes && !Stop(taken).Bad?
      ensures result == Err(TooLarge) <==> old(received) + |bytes| > limit
      ensures result == Err(TooLarge) ==>
                Valid() && taken == old(taken) && source == old(source) && pending == old(pending)
      ensures result == Err(InvalidData) ==> Failed() && taken == old(taken) + bytes && Stop(taken).Bad?
      ensures result.Ok? || result == Err(TooLarge) || result == Err(InvalidData)
      ensures old(source) <= source
    {
      hide LeadOf, ValidLength;
      if |bytes| > limit - received {
        return Err(TooLarge);
      }
      TakeMore(taken, source, pending, bytes);
      received := received + |bytes|;
      pending := pending + bytes;
      taken := taken + bytes;
      var valid := ValidLength(pending);
      var invalid := Stop(pending).Bad?;
      source := source + pending[..valid];
      pending := pending[valid..];
      if invalid {
        pending := [];
        return Err(InvalidData);
      }
      result := Ok(());
    }

    /** `finish`: no character may be left half received. */
    method Finish() returns (result: Result<(), Error>)
      requires Valid()
      ensures result.Ok? <==> Utf8Octets(taken)
      ensures result.Err? ==> result.error == Incomplete
      ensures result.Ok? ==> source == taken
    {
      PendingIsShort(taken, source, pending);
      if |pending| == 0 {
        result := Ok(());
      } else {
        result := Err(Incomplete);
      }
    }
  }

  // ---------- Any chunking ----------

  /**
   Decoding chunk by chunk refines decoding at once: within the limit, success
   means that all bytes are UTF-8, and either way the source is the longest
   prefix that is, wherever the chunks were cut.
   */
  method DecodeChunks(limit: nat, chunks: seq<seq<Byte>>) returns (source: seq<Byte>, ok: bool)
    requires |Concat(chunks)| <= limit
    ensures ok <==> Utf8Octets(Concat(chunks))
    ensures source == Concat(chunks)[..ValidLength(Concat(chunks))]
  {
    hide LeadOf, ValidLength, Stop, Utf8Octets, Scanned;
    var buffer := new InputBuffer(limit);
    for k := 0 to |chunks|
      invariant buffer.Valid() && buffer.taken == Concat(chunks[..k]) && buffer.limit == limit && fresh(buffer)
    {
      assert chunks[..k + 1][..k] == chunks[..k];
      ghost var rest := PrefixOfConcat(chunks, k + 1);
      var result := buffer.Push(chunks[k]);
      if result.Err? {
        WholeIsBroken(buffer.taken, rest);
        assert buffer.taken + rest == Concat(chunks);
        return buffer.source, false;
      }
    }
    assert chunks[..|chunks|] == chunks;
    var end := buffer.Finish();
    assert buffer.source == buffer.taken[..ValidLength(buffer.taken)] by {
      SourceIs(buffer.taken, buffer.source, buffer.pending);
    }
    return buffer.source, end.Ok?;
  }

  lemma SourceIs(taken: seq<Byte>, source: seq<Byte>, pending: seq<Byte>)
    requires Scanned(taken, source, pending)
    ensures source == taken[..ValidLength(taken)]
  {
  }

  lemma WholeIsBroken(taken: seq<Byte>, rest: seq<Byte>)
    requires Stop(taken).Bad?
    ensures !Utf8Octets(taken + rest)
    ensures (taken + rest)[..ValidLength(taken + rest)] == taken[..ValidLength(taken)]
  {
    hide LeadOf, Utf8Octets;
    ErrorIsFinal(taken, rest);
    ValidExactlyWhenScanned(taken + rest);
    ScanStops(taken + rest);
  }

  // ---------- Pumping a descriptor ----------

  const SOURCE_LIMIT: nat := 16 * 1024 * 1024
  const READ_SIZE: nat := 64 * 1024
  const PUMP_READS: nat := 4

  datatype State = Live | Eof | Stopped | StreamFailed(error: Error)

  /** What poll and read report at one turn; `Data` is what the descriptor has ready. */
  datatype Event = NotReady | PollFailed | BadDescriptor | End | Data(bytes: seq<Byte>) | Again | ReadError

  /** How much one read takes of what is ready: at most one byte more than the limit leaves. */
  function Share(limit: nat, received: nat, ready: nat): nat
    requires received <= limit
  {
    Min(Min(limit - received + 1, READ_SIZE), ready)
  }

  /** One turn: what has been taken after it, and the state. */
  ghost function Turned(limit: nat, taken: seq<Byte>, event: Event): (r: (seq<Byte>, State))
    requires |taken| <= limit
    ensures |r.0| <= limit
  {
    match event
    case NotReady | Again => (taken, Live)
    case PollFailed | BadDescriptor | ReadError => (taken, StreamFailed(ReadFailed))
    case End => (taken, if Utf8Octets(taken) then Eof else StreamFailed(Incomplete))
    case Data(bytes) =>
      var now := taken + bytes[..Share(limit, |taken|, |bytes|)];
      if |now| > limit then (taken, StreamFailed(TooLarge))
      else (now, if Completable(now) then Live else StreamFailed(InvalidData))
  }

  /** Turn after turn, as long as the stream is live. */
  ghost function Followed(limit: nat, taken: seq<Byte>, events: seq<Event>): (r: (seq<Byte>, State))
    requires |taken| <= limit
    ensures |r.0| <= limit
    decreases |events|
  {
    if |events| == 0 then (taken, Live)
    else
      var (now, state) := Turned(limit, taken, events[0]);
      if state.Live? then Followed(limit, now, events[1..]) else (now, state)
  }

  /** A pump follows the stream for `m` turns: all of them if each read is to be followed by another. */
  ghost predicate Pumped(limit: nat, taken: seq<Byte>, events: seq<Event>, m: nat, now: (seq<Byte>, State), full: bool)
    requires |taken| <= limit
  {
    && 0 < m <= |events| && now == Followed(limit, taken, events[..m])
    && (forall k :: 0 <= k < m - 1 ==> events[k].Data?)
    && (full <==> events[m - 1].Data? && now.1.Live?) && (m < |events| ==> !full)
  }

  lemma {:induction false} FollowedOneMore(limit: nat, taken: seq<Byte>, events: seq<Event>, k: nat)
    requires |taken| <= limit && k < |events| && Followed(limit, taken, events[..k]).1.Live?
    ensures Followed(limit, taken, events[..k + 1])
         == Turned(limit, Followed(limit, taken, events[..k]).0, events[k])
    decreases k
  {
    hide Turned;
    var (now, state) := Turned(limit, taken, events[0]);
    if k == 0 {
      assert events[..1][1..] == [];
    } else {
      assert events[..k][0] == events[0] == events[..k + 1][0];
      assert events[..k][1..] == events[1..][..k - 1] && events[..k + 1][1..] == events[1..][..k];
      FollowedOneMore(limit, now, events[1..], k - 1);
    }
  }

  /** Reads that fit one buffer, and waiting. */
  ghost predicate Arriving(events: seq<Event>) {
    forall k :: 0 <= k < |events| ==>
      events[k].NotReady? || events[k].Again? || (events[k].Data? && 0 < |events[k].bytes| <= READ_SIZE)
  }

  function Sent(events: seq<Event>): seq<Byte> {
    if |events| == 0 then [] else (if events[0].Data? then events[0].bytes else []) + Sent(events[1..])
  }

  /**
   However a stream arrives, at its end it has ended well exactly when what
   was sent is within the limit and UTF-8, and then all of it was taken.
   Otherwise it is too large, cut off in a character, or no beginning of a text.
   */
  lemma {:induction false} StreamEndsWell(limit: nat, taken: seq<Byte>, events: seq<Event>)
    requires |taken| <= limit && Completable(taken) && Arriving(events)
    ensures var (now, state), all := Followed(limit, taken, events + [End]), taken + Sent(events);
            && (state.Eof? <==> |all| <= limit && Utf8Octets(all)) && (state.Eof? ==> now == all)
            && (|all| <= limit && Completable(all) && !Utf8Octets(all) ==> state == StreamFailed(Incomplete))
            && (|all| <= limit && !Completable(all) ==> state == StreamFailed(InvalidData))
            && (|all| > limit ==> state == StreamFailed(TooLarge) || state == StreamFailed(InvalidData))
    decreases |events|
  {
    hide Utf8Octets, Completable;
    var all := taken + Sent(events);
    if |events| == 0 {
      assert all == taken && events + [End] == [End] && (events + [End])[1..] == [];
      TextsAreCompletable(all);
    } else {
      var rest := events[1..];
      assert (events + [End])[0] == events[0] && (events + [End])[1..] == rest + [End];
      var (now, state) := Turned(limit, taken, events[0]);
      if events[0].Data? {
        var bytes := events[0].bytes;
        assert all == taken + bytes + Sent(rest);
        assert bytes[..|bytes|] == bytes;
        HopelessStays(taken + bytes, Sent(rest));
        TextsAreCompletable(all);
      } else {
        assert all == taken + Sent(rest);
      }
      if state.Live? { StreamEndsWell(limit, now, rest); }
    }
  }

  lemma TextsAreCompletable(s: seq<Byte>)
    ensures Utf8Octets(s) ==> Completable(s)
  {
    hide Utf8Octets;
    assert s + [] == s;
  }

  lemma HopelessStays(s: seq<Byte>, more: seq<Byte>)
    ensures Completable(s + more) ==> Completable(s)
  {
    hide Utf8Octets;
    if Completable(s + more) {
      var rest :| Utf8Octets(s + more + rest);
      assert s + more + rest == s + (more + rest);
    }
  }

  class StdinStream {
    const buffer: InputBuffer
    var state: State
    var revision: nat

    /** Whatever has happened, the source is the longest valid prefix of the bytes taken. */
    ghost predicate Valid()
      reads this, buffer
    {
      && (buffer.Valid() || (buffer.Failed() && state == StreamFailed(InvalidData)))
      && (state.Eof? ==> buffer.Valid() && buffer.source == buffer.taken && Utf8Octets(buffer.taken))
      && (state == StreamFailed(Incomplete) ==> buffer.Valid() && !Utf8Octets(buffer.taken))
    }

    constructor ()
      ensures Valid() && state == Live && revision == 0 && fresh(buffer)
      ensures buffer.taken == [] && buffer.limit == SOURCE_LIMIT
    {
      buffer := new InputBuffer(SOURCE_LIMIT);
      state, revision := Live, 0;
    }

    method Stop()
      requires Valid()
      modifies this`state
      ensures Valid() && state == (if old(state).Live? then Stopped else old(state))
    {
      if state.Live? {
        state := Stopped;
      }
    }

    /** One turn: poll, then read at most one byte more than the limit leaves. */
    method Turn(event: Event) returns (more: bool)
      requires Valid() && state.Live? && (event.Data? ==> |event.bytes| > 0)
      modifies this, buffer
      ensures Valid() && (buffer.taken, state) == Turned(buffer.limit, old(buffer.taken), event)
      ensures old(buffer.taken) <= buffer.taken && old(buffer.source) <= buffer.source
      ensures revision == old(revision) + (if buffer.source == old(buffer.source) then 0 else 1)
      ensures more <==> event.Data? && state.Live?
      ensures more ==> |buffer.taken| > |old(buffer.taken)|
    {
      hide Utf8Octets, Completable, Scanned, Broken, ValidLength;
      more := false;
      match event {
        case NotReady | Again =>
        case PollFailed | BadDescriptor | ReadError =>
          state := StreamFailed(ReadFailed);
        case End =>
          var end := buffer.Finish();
          state := if end.Ok? then Eof else StreamFailed(end.error);
        case Data(bytes) =>
          var allowance := Min(buffer.limit - buffer.received + 1, READ_SIZE);
          var count := Min(allowance, |bytes|);
          var before := |buffer.source|;
          ghost var source := buffer.source;
          var result := buffer.Push(bytes[..count]);
          assert buffer.source[..before] == source;
          assert |buffer.source| == before ==> buffer.source == buffer.source[..before];
          ErrorsAreHopeless(buffer.taken);
          if |buffer.source| != before {
            revision := revision + 1;
          }
          if result.Err? {
            state := StreamFailed(result.error);
            return false;
          }
          more := true;
      }
    }

    /** `pump_from`: at most four reads, until one is not followed by another; true asks for another pump at once. */
    method PumpFrom(events: seq<Event>) returns (full: bool)
      requires Valid() && |events| == PUMP_READS
      requires forall k :: 0 <= k < |events| && events[k].Data? ==> |events[k].bytes| > 0
      modifies this, buffer
      ensures Valid() && old(buffer.taken) <= buffer.taken && old(buffer.source) <= buffer.source
      ensures old(revision) <= revision <= old(revision) + PUMP_READS
      ensures revision == old(revision) <==> buffer.source == old(buffer.source)
      ensures !old(state).Live? ==> !full && state == old(state) && buffer.taken == old(buffer.taken)
      ensures old(state).Live? ==>
                exists m :: Pumped(buffer.limit, old(buffer.taken), events, m, (buffer.taken, state), full)
      ensures full ==> state.Live?
    {
      hide Utf8Octets, Completable, Scanned, Broken, ValidLength, Turned;
      if !state.Live? {
        return false;
      }
      for k := 0 to PUMP_READS
        invariant Valid() && state.Live?
        invariant old(buffer.taken) <= buffer.taken && old(buffer.source) <= buffer.source
        invariant old(revision) <= revision <= old(revision) + k
        invariant revision == old(revision) <==> buffer.source == old(buffer.source)
        invariant (buffer.taken, Live) == Followed(buffer.limit, old(buffer.taken), events[..k])
        invariant forall j :: 0 <= j < k ==> events[j].Data?
      {
        FollowedOneMore(buffer.limit, old(buffer.taken), events, k);
        var more := Turn(events[k]);
        if !more {
          assert Pumped(buffer.limit, old(buffer.taken), events, k + 1, (buffer.taken, state), false);
          return false;
        }
      }
      full := true;
      assert Pumped(buffer.limit, old(buffer.taken), events, PUMP_READS, (buffer.taken, state), full);
    }
  }
}
