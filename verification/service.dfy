/** The ingest service: one call of Push, through quota, log, tracker and buffer. */
module Services {
  import opened Options
  import opened BigEndian
  import opened Events
  import opened WalFormat
  import opened WalSpec
  import opened FileWal
  import opened Tracker
  import opened Channels
  import opened Registries

  class Service {
    const codec: Codec
    const wal: FileWAL
    const tracker: SeqTracker
    const buf: ChannelBuffer
    const tenants: Registry

    ghost predicate Valid()
      reads buf, tenants
    {
      buf.Valid() && !buf.closed && tenants.Valid()
    }

    constructor (codec: Codec, wal: FileWAL, tracker: SeqTracker, buf: ChannelBuffer, tenants: Registry)
      requires buf.Valid() && !buf.closed && tenants.Valid()
      ensures this.codec == codec && this.wal == wal && this.tracker == tracker && this.buf == buf && this.tenants == tenants
      ensures Valid()
    {
      this.codec, this.wal, this.tracker, this.buf, this.tenants := codec, wal, tracker, buf, tenants;
    }

    function View(): Snapshot
      reads wal, tracker, buf, tenants, tenants.Buckets()
    {
      Snapshot(tenants.View(), wal.walFile, wal.seqNo, tracker.data, buf.queue)
    }

    /**
     * Quota, then log, tracker and buffer. A denied call and a failed append leave the tracker and the
     * buffer alone; a full buffer takes the id out of the tracker again, but the record stays logged.
     */
    method Push(req: Event, now: real, io: IoOutcome) returns (r: Result<()>)
      requires Valid()
      modifies wal`walFile, wal`seqNo, tracker, buf`queue, tenants.Buckets()
      ensures Valid()
      ensures (r, View()) == PushSpec(codec, buf.size, old(View()), req, now, io)
    {
      var admitted := Admit(req, now);
      if !admitted {
        return Err(QuotaExceeded);
      }
      var appended := LogEvent(req, io);
      if appended.Err? {
        return Err(appended.error);
      }
      r := HandOver(req, appended.value);
    }

    method Admit(req: Event, now: real) returns (admitted: bool)
      requires Valid()
      modifies tenants.Buckets()
      ensures Valid() && tenants.Buckets() == old(tenants.Buckets())
      ensures View() == old(View()).(limits := AllowTenant(old(View()).limits, req.tenantId, now).1)
      ensures admitted == AllowTenant(old(View()).limits, req.tenantId, now).0
    {
      admitted := tenants.Allow(req.tenantId, now);
    }

    method LogEvent(req: Event, io: IoOutcome) returns (appended: Result<nat>)
      requires Valid()
      modifies wal`walFile, wal`seqNo
      ensures Valid()
      ensures (appended, View()) == AppendPart(codec, old(View()), req, io)
    {
      hide FileWAL.Valid, FileWAL.View, FileWAL.Log;
      appended := wal.Append(codec, req, io);
      assert old(wal.walFile) + [] == old(wal.walFile);
      assert tenants.View() == old(tenants.View());
    }

    method HandOver(req: Event, n: nat) returns (r: Result<()>)
      requires Valid()
      modifies tracker, buf`queue
      ensures Valid()
      ensures (r, View()) == HandOverPart(buf.size, old(View()), req, n)
    {
      tracker.Store(req.eventId, n);
      r := buf.Push(req);
      assert old(buf.queue) + [] == old(buf.queue);
      assert tenants.View() == old(tenants.View());
      if r.Err? {
        var _ := tracker.LoadAndDelete(req.eventId);
        assert tracker.data == old(tracker.data) - {req.eventId};
        assert tenants.View() == old(tenants.View());
      }
    }
  }

  /** What a call of Push can see and change. */
  datatype Snapshot = Snapshot(limits: Limits, walFile: seq<byte>, seqNo: nat, tracker: map<string, nat>, queue: seq<Event>)

  function AppendPart(codec: Codec, s: Snapshot, req: Event, io: IoOutcome): (Result<nat>, Snapshot) {
    var data := codec.marshal(req);
    var n := NextSeq(s.seqNo);
    if data.None? then (Err(MarshalFailed), s)
    else if io.IoWriteFailed? then (Err(WriteFailed), s.(seqNo := n))
    else
      var logged := s.(seqNo := n, walFile := s.walFile + EncodeRecord(Record(n, data.value)));
      (if io.IoSyncFailed? then Err(SyncFailed) else Ok(n), logged)
  }

  function HandOverPart(size: nat, s: Snapshot, req: Event, n: nat): (Result<()>, Snapshot) {
    if |s.queue| < size then (Ok(()), s.(tracker := s.tracker[req.eventId := n], queue := s.queue + [req]))
    else (Err(BufferFull), s.(tracker := s.tracker - {req.eventId}))
  }

  function PushSpec(codec: Codec, size: nat, s: Snapshot, req: Event, now: real, io: IoOutcome): (Result<()>, Snapshot) {
    var (admitted, limits) := AllowTenant(s.limits, req.tenantId, now);
    var charged := s.(limits := limits);
    if !admitted then (Err(QuotaExceeded), charged)
    else
      var (appended, logged) := AppendPart(codec, charged, req, io);
      if appended.Err? then (Err(appended.error), logged)
      else HandOverPart(size, logged, req, appended.value)
  }

  /** What Push does to the fields that delivery depends on. */
  lemma PushEffects(codec: Codec, size: nat, s: Snapshot, req: Event, now: real, io: IoOutcome)
    ensures var (r, s') := PushSpec(codec, size, s, req, now, io);
      var data := codec.marshal(req);
      if !AllowTenant(s.limits, req.tenantId, now).0 || data.None? then
        && r == Err(if !AllowTenant(s.limits, req.tenantId, now).0 then QuotaExceeded else MarshalFailed)
        && s' == s.(limits := AllowTenant(s.limits, req.tenantId, now).1)
      else
        && s'.limits == AllowTenant(s.limits, req.tenantId, now).1
        && s'.seqNo == NextSeq(s.seqNo)
        && s'.walFile == (if io.IoWriteFailed? then s.walFile else s.walFile + EncodeRecord(Record(NextSeq(s.seqNo), data.value)))
        && r == (match io
            case IoWriteFailed => Err(WriteFailed)
            case IoSyncFailed => Err(SyncFailed)
            case IoOk => if |s.queue| < size then Ok(()) else Err(BufferFull))
        && s'.tracker == (if r.Ok? then s.tracker[req.eventId := NextSeq(s.seqNo)]
          else if io.IoOk? then s.tracker - {req.eventId} else s.tracker)
        && s'.queue == s.queue + (if r.Ok? then [req] else [])
  {
  }
}
