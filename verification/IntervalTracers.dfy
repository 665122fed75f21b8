// The three start/done tracers of the eBPF side: hard IRQ handlers, KMS page flips and DRM
// fence waits. Each keeps a map of open starts; a ghost history of the operations seen
// says which start each completion must be paired with.
module IntervalTracers {
  import opened Types
  import opened StartDone

  // ---- IRQ -------------------------------------------------------------------------------

  datatype IrqSource = IrqSource(irq: u32, cpu: u32)

  // High half: IRQ number. Low half: CPU. Shifting by 32 and or-ing a 32-bit value in is
  // multiplication and addition.
  function IrqKey(irq: u32, cpu: u32): u64 {
    irq * 0x1_0000_0000 + cpu
  }

  lemma IrqKeyInjective(irq: u32, cpu: u32, irq': u32, cpu': u32)
    requires IrqKey(irq, cpu) == IrqKey(irq', cpu')
    ensures irq == irq' && cpu == cpu'
  {
  }

  // The key as the bits are put together, and what it is as a number: both halves are kept
  // and or-ing never carries, so it is the product and sum above.
  lemma IrqKeyBits(irq: bv64, cpu: bv64)
    requires irq < 0x1_0000_0000 && cpu < 0x1_0000_0000
    ensures (irq << 32) | cpu == irq * 0x1_0000_0000 + cpu
    ensures ((irq << 32) | cpu) >> 32 == irq
    ensures ((irq << 32) | cpu) & 0xffff_ffff == cpu
  {
  }

  // The packed map holds exactly the open starts of the (IRQ, CPU) history.
  ghost predicate IrqCoupled(m: map<u64, u64>, history: seq<Op<IrqSource, u64>>) {
    forall irq, cpu :: LastOpen(history, IrqSource(irq, cpu)) == IrqLookup(m, irq, cpu)
  }

  function IrqLookup(m: map<u64, u64>, irq: u32, cpu: u32): Option<u64> {
    if IrqKey(irq, cpu) in m then Some(m[IrqKey(irq, cpu)]) else None
  }

  lemma IrqCoupledStep(m: map<u64, u64>, history: seq<Op<IrqSource, u64>>, op: Op<IrqSource, u64>)
    requires IrqCoupled(m, history)
    ensures var key := IrqKey(op.key.irq, op.key.cpu);
      IrqCoupled(if op.Done? then m - {key} else if op.stored then m[key := op.value] else m, history + [op])
  {
    hide IrqKey, LastOpen;
    var key := IrqKey(op.key.irq, op.key.cpu);
    var r := if op.Done? then m - {key} else if op.stored then m[key := op.value] else m;
    forall irq, cpu
      ensures LastOpen(history + [op], IrqSource(irq, cpu)) == IrqLookup(r, irq, cpu)
    {
      LastOpenSnoc(history, op, IrqSource(irq, cpu));
      assert LastOpen(history, IrqSource(irq, cpu)) == IrqLookup(m, irq, cpu);
      if IrqKey(irq, cpu) == key {
        IrqKeyInjective(irq, cpu, op.key.irq, op.key.cpu);
      }
    }
  }

  datatype IrqEvent = IrqEvent(irq: u32, cpu: u32, enterNs: u64, exitNs: u64, durationNs: u64)

  class IrqTracer {
    var targetIrqs: set<u32>
    var startTimes: map<u64, u64>
    var insertFailures: nat
    var reserveFailures: nat
    var events: seq<IrqEvent>
    ghost var history: seq<Op<IrqSource, u64>>

    ghost predicate Valid()
      reads this
    {
      IrqCoupled(startTimes, history)
    }

    predicate Watches(read: Option<i32>)
      reads this
    {
      read.Some? && read.value >= 0 && (read.value) in targetIrqs
    }

    constructor (targets: set<u32>)
      ensures Valid() && history == [] && events == [] && targetIrqs == targets
    {
      targetIrqs, startTimes, insertFailures, reserveFailures, events := targets, map[], 0, 0, [];
      history := [];
    }

    method HandlerEntry(read: Option<i32>, cpu: u32, now: u64, insertOk: bool) returns (ret: u32)
      requires Valid()
      modifies this
      ensures Valid() && events == old(events) && targetIrqs == old(targetIrqs)
      ensures ret == if read.None? then 1 else 0
      ensures history == old(history)
        + (if old(Watches(read)) then [Start(IrqSource(read.value, cpu), now, insertOk)] else [])
      ensures insertFailures == old(insertFailures) + if old(Watches(read)) && !insertOk then 1 else 0
      ensures reserveFailures == old(reserveFailures)
    {
      hide IrqKey, LastOpen, IrqCoupled;
      if read.None? {
        return 1;
      }
      if read.value < 0 || (read.value) !in targetIrqs {
        return 0;
      }
      var irq := read.value;
      IrqCoupledStep(startTimes, history, Start(IrqSource(irq, cpu), now, insertOk));
      history := history + [Start(IrqSource(irq, cpu), now, insertOk)];
      if insertOk {
        startTimes := startTimes[IrqKey(irq, cpu) := now];
      } else {
        insertFailures := insertFailures + 1;
      }
      return 0;
    }

    method HandlerExit(read: Option<i32>, cpu: u32, now: u64, reserveOk: bool) returns (ret: u32)
      requires Valid()
      modifies this
      ensures Valid() && targetIrqs == old(targetIrqs)
      ensures ret == if read.None? then 1 else 0
      ensures insertFailures == old(insertFailures)
      ensures reserveFailures == old(reserveFailures)
        + if old(Watches(read)) && LastOpen(old(history), IrqSource(read.value, cpu)).Some? && !reserveOk then 1 else 0
      ensures !old(Watches(read)) ==> history == old(history) && events == old(events)
      ensures old(Watches(read)) ==>
        var key := IrqSource(read.value, cpu);
        && history == old(history) + [Done(key)]
        && events == old(events) + (match LastOpen(old(history), key)
             case Some(enter) =>
               if reserveOk then [IrqEvent(key.irq, cpu, enter, now, SaturatingSub(now, enter))] else []
             case None => [])
    {
      hide IrqKey, LastOpen;
      if read.None? {
        return 1;
      }
      if read.value < 0 || (read.value) !in targetIrqs {
        return 0;
      }
      var irq := read.value;
      var key := IrqKey(irq, cpu);
      assert LastOpen(history, IrqSource(irq, cpu)) == IrqLookup(startTimes, irq, cpu);
      IrqCoupledStep(startTimes, history, Done(IrqSource(irq, cpu)));
      history := history + [Done(IrqSource(irq, cpu))];
      var enterNs := if key in startTimes then Some(startTimes[key]) else None;
      assert enterNs.None? ==> startTimes - {key} == startTimes;
      if enterNs.Some? {
        startTimes := startTimes - {key};
      }
      if enterNs.None? {
        return 0;
      }
      if !reserveOk {
        reserveFailures := reserveFailures + 1;
        return 0;
      }
      events := events + [IrqEvent(irq, cpu, enterNs.value, now, SaturatingSub(now, enterNs.value))];
      return 0;
    }
  }

  // ---- KMS flips -------------------------------------------------------------------------

  const KMS_FLIP_HAS_REQUEST_NS: bv32 := 1
  const KMS_FLIP_HAS_DONE_NS: bv32 := 2
  const KMS_FLIP_HAS_DURATION_NS: bv32 := 4
  const KMS_FLIP_HAS_SEQUENCE: bv32 := 8
  const KMS_FLIP_HAS_CRTC: bv32 := 16

  const KMS_FLIP_EVENT_PAGEFLIP_DONE: bv32 := 2
  const KMS_FLIP_EVENT_INTERVAL: bv32 := 3
  const KMS_FLIP_EVENT_VBLANK: bv32 := 4

  const KMS_FLIP_PROVIDER_DRM: bv32 := 1
  const KMS_FLIP_PROVIDER_I915: bv32 := 2
  const KMS_FLIP_PROVIDER_AMDGPU: bv32 := 3

  datatype KmsFlipKey = KmsFlipKey(provider: bv32, cardMinorKnown: bool, cardMinor: u32, crtcId: u32, pipe: u32)

  datatype KmsFlipEvent = KmsFlipEvent(
    eventKind: bv32, provider: bv32, flags: bv32, cardMinor: u32, crtcId: u32, pipe: u32,
    sequence: u64, requestNs: u64, doneNs: u64, durationNs: u64)

  // The optional tracepoint fields; a format without the field reads as None.
  datatype KmsFields = KmsFields(cardMinor: Option<u32>, crtc: Option<u32>, pipe: Option<u32>)

  function OrZero<T>(o: Option<T>, zero: T): T {
    if o.Some? then o.value else zero
  }

  // None when the event names neither a CRTC nor a pipe.
  function FillKey(provider: bv32, x: KmsFields): Option<KmsFlipKey> {
    var crtcId, pipe := OrZero(x.crtc, 0), OrZero(x.pipe, 0);
    if crtcId == 0 && pipe == 0 then None
    else Some(KmsFlipKey(provider, x.cardMinor.Some?, OrZero(x.cardMinor, 0), crtcId, pipe))
  }

  // A CRTC or pipe number, where zero says no more than a missing field.
  function Given(o: Option<u32>): Option<u32> { if o == Some(0) then None else o }

  // A key needs a CRTC or a pipe, and two events share one exactly when provider, card, CRTC
  // and pipe agree.
  lemma KeysAgree(provider: bv32, x: KmsFields, provider': bv32, x': KmsFields)
    ensures FillKey(provider, x).None? <==> Given(x.crtc).None? && Given(x.pipe).None?
    ensures FillKey(provider, x).Some? && FillKey(provider', x').Some? ==>
      (FillKey(provider, x) == FillKey(provider', x') <==>
         provider == provider' && x.cardMinor == x'.cardMinor
         && Given(x.crtc) == Given(x'.crtc) && Given(x.pipe) == Given(x'.pipe))
  {
  }

  function Pack(provider: bv32, kind: bv32): bv32 { (provider << 16) | kind }
  function PackedProvider(p: bv32): bv32 { p >> 16 }
  function PackedKind(p: bv32): bv32 { p & 0xffff }

  lemma PackUnpacks(provider: bv32, kind: bv32)
    requires provider < 0x1_0000 && kind < 0x1_0000
    ensures PackedProvider(Pack(provider, kind)) == provider
    ensures PackedKind(Pack(provider, kind)) == kind
  {
  }

  // The i915 vblank and unknown combinations have no sequence field.
  predicate HasSequenceField(provider: bv32, kind: bv32) {
    || (provider == KMS_FLIP_PROVIDER_I915 && kind == KMS_FLIP_EVENT_PAGEFLIP_DONE)
    || ((provider == KMS_FLIP_PROVIDER_DRM || provider == KMS_FLIP_PROVIDER_AMDGPU)
        && (kind == KMS_FLIP_EVENT_PAGEFLIP_DONE || kind == KMS_FLIP_EVENT_VBLANK))
  }

  // Of the known providers and completions only the i915 vblank has no sequence.
  lemma SequenceMeans(provider: bv32, kind: bv32)
    ensures HasSequenceField(provider, kind) <==>
      1 <= provider <= 3 && (kind == 2 || kind == 4) && !(provider == 2 && kind == 4)
  {
  }

  function Flags(hasCrtc: bool, hasStart: bool, hasSequence: bool): bv32 {
    var flags := KMS_FLIP_HAS_DONE_NS;
    var flags := if hasCrtc then flags | KMS_FLIP_HAS_CRTC else flags;
    var flags := if hasStart then flags | (KMS_FLIP_HAS_REQUEST_NS | KMS_FLIP_HAS_DURATION_NS) else flags;
    if hasSequence then flags | KMS_FLIP_HAS_SEQUENCE else flags
  }

  lemma FlagsMean(hasCrtc: bool, hasStart: bool, hasSequence: bool)
    ensures var f := Flags(hasCrtc, hasStart, hasSequence);
      && f & KMS_FLIP_HAS_DONE_NS != 0
      && (f & KMS_FLIP_HAS_CRTC != 0 <==> hasCrtc)
      && (f & KMS_FLIP_HAS_REQUEST_NS != 0 <==> hasStart)
      && (f & KMS_FLIP_HAS_DURATION_NS != 0 <==> hasStart)
      && (f & KMS_FLIP_HAS_SEQUENCE != 0 <==> hasSequence)
  {
  }

  // The completion event for a key, given what the lookup found.
  function FlipEvent(key: KmsFlipKey, provider: bv32, kind: bv32, sequence: Option<u64>, start: Option<u64>, now: u64)
    : KmsFlipEvent
  {
    KmsFlipEvent(
      if start.Some? then KMS_FLIP_EVENT_INTERVAL else kind, provider,
      Flags(key.crtcId != 0, start.Some?, sequence.Some?), key.cardMinor, key.crtcId, key.pipe,
      OrZero(sequence, 0), OrZero(start, 0), now, if start.Some? then SaturatingSub(now, start.value) else 0)
  }

  // A matched flip is an interval from request to completion; an unmatched one keeps its kind.
  lemma FlipMeans(key: KmsFlipKey, provider: bv32, kind: bv32, sequence: Option<u64>, start: Option<u64>, now: u64)
    ensures var e := FlipEvent(key, provider, kind, sequence, start, now);
      && e.doneNs == now && e.provider == provider
      && e.cardMinor == key.cardMinor && e.crtcId == key.crtcId && e.pipe == key.pipe
      && (start.Some? ==>
            && e.eventKind == 3 && e.requestNs == start.value
            && (start.value <= now ==> e.requestNs + e.durationNs == e.doneNs)
            && (now < start.value ==> e.durationNs == 0))
      && (start.None? ==> e.eventKind == kind && e.requestNs == 0 && e.durationNs == 0)
      && (sequence.Some? ==> e.sequence == sequence.value) && (sequence.None? ==> e.sequence == 0)
  {
    hide Flags;
  }

  class KmsTracer {
    var flipStarts: map<KmsFlipKey, u64>
    var reserveFailures: nat
    var events: seq<KmsFlipEvent>
    ghost var history: seq<Op<KmsFlipKey, u64>>

    ghost predicate Valid()
      reads this
    {
      && flipStarts == Open(history)
      && forall k :: k in flipStarts ==> k.cardMinorKnown
    }

    constructor ()
      ensures Valid() && history == [] && events == []
    {
      flipStarts, reserveFailures, events, history := map[], 0, [], [];
    }

    // A request is only recorded when both it and its completion can name the card.
    method FlipRequest(provider: bv32, x: KmsFields, completionHasCard: bool, now: u64, insertOk: bool)
      requires Valid()
      modifies this
      ensures Valid() && events == old(events)
      ensures var key := FillKey(provider, x);
        history == old(history)
          + (if key.Some? && key.value.cardMinorKnown && completionHasCard then [Start(key.value, now, insertOk)] else [])
    {
      hide Open;
      var key := FillKey(provider, x);
      if key.None? {
        return;
      }
      if !key.value.cardMinorKnown || !completionHasCard {
        return;
      }
      OpenSnoc(history, Start(key.value, now, insertOk));
      history := history + [Start(key.value, now, insertOk)];
      if insertOk {
        flipStarts := flipStarts[key.value := now];
      }
    }

    method FlipDone(provider: bv32, kind: bv32, x: KmsFields, sequence: Option<u64>, now: u64, reserveOk: bool)
      requires Valid() && provider < 0x1_0000 && kind < 0x1_0000
      modifies this
      ensures Valid()
      ensures var key := FillKey(provider, x);
        && (key.None? ==> history == old(history) && events == old(events))
        && (key.Some? ==>
              && history == old(history) + [Done(key.value)]
              && events == old(events) + (if reserveOk
                   then [FlipEvent(key.value, provider, kind,
                                   if HasSequenceField(provider, kind) then sequence else None,
                                   LastOpen(old(history), key.value), now)]
                   else [])
              && (x.cardMinor.None? ==> LastOpen(old(history), key.value) == None))
      ensures forall i :: |old(events)| <= i < |events| && x.cardMinor.None? ==> HasNoDuration(events[i])
    {
      hide Open, Pack, PackedProvider, PackedKind, Flags, HasSequenceField;
      PackUnpacks(provider, kind);
      var providerAndEventKind := Pack(provider, kind);
      var key := FillKey(PackedProvider(providerAndEventKind), x);
      if key.None? {
        return;
      }
      var start := if key.value in flipStarts then Some(flipStarts[key.value]) else None;
      OpenSnoc(history, Done(key.value));
      history := history + [Done(key.value)];
      flipStarts := flipStarts - {key.value};
      var hasSequence := HasSequenceField(PackedProvider(providerAndEventKind), PackedKind(providerAndEventKind));
      if !reserveOk {
        reserveFailures := reserveFailures + 1;
        return;
      }
      UnmatchedHasNoDuration(key.value, provider, kind, if hasSequence then sequence else None, now);
      events := events + [FlipEvent(key.value, PackedProvider(providerAndEventKind), PackedKind(providerAndEventKind),
                                    if hasSequence then sequence else None, start, now)];
    }
  }

  predicate HasNoDuration(e: KmsFlipEvent) {
    && e.flags & KMS_FLIP_HAS_DURATION_NS == 0 && e.flags & KMS_FLIP_HAS_REQUEST_NS == 0
    && e.durationNs == 0 && e.requestNs == 0
  }

  // A completion that matched no request claims no duration.
  lemma UnmatchedHasNoDuration(key: KmsFlipKey, provider: bv32, kind: bv32, sequence: Option<u64>, now: u64)
    ensures var e := FlipEvent(key, provider, kind, sequence, None, now);
      HasNoDuration(e) && e.eventKind == kind
  {
    hide Flags;
    FlagsMean(key.crtcId != 0, false, sequence.Some?);
  }

  // ---- DRM fences ------------------------------------------------------------------------

  datatype FenceKey = FenceKey(context: u64, seqno: u64)

  datatype FenceWaitStart = FenceWaitStart(ts: u64, pid: u32, tid: u32, provider: u32, gpuRole: u32)

  datatype FenceSignal = FenceSignal(ts: u64, provider: u32, gpuRole: u32)

  const DRM_FENCE_HAS_CONTEXT: bv32 := 1
  const DRM_FENCE_HAS_SEQNO: bv32 := 2
  const DRM_FENCE_HAS_TIMELINE: bv32 := 4
  const DRM_FENCE_HAS_DURATION: bv32 := 8
  const DRM_FENCE_HAS_PID: bv32 := 16
  const DRM_FENCE_IS_IMPORTER_SIDE: bv32 := 32
  const DRM_FENCE_IS_EXPORTER_SIDE: bv32 := 64
  const DRM_FENCE_WAIT_DONE_WITHOUT_START: bv32 := 128

  const DRM_FENCE_EVENT_WAIT_DONE: u32 := 2
  const DRM_FENCE_EVENT_SIGNAL: u32 := 3
  const DRM_FENCE_EVENT_WAIT_INTERVAL: u32 := 4

  // The optional identity fields of a fence tracepoint.
  datatype FenceFields = FenceFields(context: Option<u64>, seqno: Option<u64>, timeline: Option<u64>)

  datatype FenceIdentity = FenceIdentity(key: FenceKey, flags: bv32, timelineHash: u64)

  function IdentityFlags(hasContext: bool, hasTimeline: bool): bv32 {
    var flags := DRM_FENCE_HAS_SEQNO;
    var flags := if hasContext then flags | DRM_FENCE_HAS_CONTEXT else flags;
    if hasTimeline then flags | DRM_FENCE_HAS_TIMELINE else flags
  }

  // A fence is named by context and sequence number; a non-zero timeline hash stands in for
  // a missing context. None when neither names it.
  function FillIdentity(x: FenceFields): Option<FenceIdentity> {
    if x.seqno.None? then None
    else
      var hasTimeline := x.timeline.Some? && x.timeline.value != 0;
      var context := if x.context.Some? then x.context else if hasTimeline then x.timeline else None;
      if context.None? then None
      else Some(FenceIdentity(FenceKey(context.value, x.seqno.value), IdentityFlags(x.context.Some?, hasTimeline),
                              if hasTimeline then x.timeline.value else 0))
  }

  datatype FenceEvent = FenceEvent(
    eventKind: u32, provider: u32, flags: bv32, pid: u32, tid: u32, cpu: u32, driverId: u32, gpuRole: u32,
    key: FenceKey, timelineHash: u64, waitStartNs: u64, waitDoneNs: u64, signalNs: u64, durationNs: u64,
    timestampNs: u64)

  function WaitFlags(hasStart: bool, hasSignal: bool): bv32 {
    var flags := if hasStart then DRM_FENCE_HAS_DURATION | DRM_FENCE_HAS_PID | DRM_FENCE_IS_IMPORTER_SIDE
                 else DRM_FENCE_WAIT_DONE_WITHOUT_START | DRM_FENCE_IS_IMPORTER_SIDE;
    if hasSignal then flags | DRM_FENCE_IS_EXPORTER_SIDE else flags
  }

  // Each bit of a completed wait says whether its part is there: a duration and a process
  // exactly with a start, the exporter's side exactly with a signal.
  lemma FenceFlagsMean(hasContext: bool, hasTimeline: bool, hasStart: bool, hasSignal: bool)
    ensures var f := IdentityFlags(hasContext, hasTimeline) | WaitFlags(hasStart, hasSignal);
      && (f & DRM_FENCE_HAS_CONTEXT != 0 <==> hasContext)
      && f & DRM_FENCE_HAS_SEQNO != 0 && f & DRM_FENCE_IS_IMPORTER_SIDE != 0
      && (f & DRM_FENCE_HAS_TIMELINE != 0 <==> hasTimeline)
      && (f & DRM_FENCE_HAS_DURATION != 0 <==> hasStart)
      && (f & DRM_FENCE_HAS_PID != 0 <==> hasStart)
      && (f & DRM_FENCE_WAIT_DONE_WITHOUT_START != 0 <==> !hasStart)
      && (f & DRM_FENCE_IS_EXPORTER_SIDE != 0 <==> hasSignal)
  {
  }

  // The event of a completed wait, given what the two lookups found.
  function WaitEvent(id: FenceIdentity, start: Option<FenceWaitStart>, signal: Option<FenceSignal>, cpu: u32, now: u64)
    : FenceEvent
  {
    var signalNs := if signal.Some? then signal.value.ts else 0;
    var flags := id.flags | WaitFlags(start.Some?, signal.Some?);
    match start
    case Some(s) =>
      FenceEvent(DRM_FENCE_EVENT_WAIT_INTERVAL, s.provider, flags, s.pid, s.tid, cpu,
                 if signal.Some? then signal.value.provider else s.provider, s.gpuRole, id.key, id.timelineHash,
                 s.ts, now, signalNs, SaturatingSub(now, s.ts), now)
    case None =>
      var provider := if signal.Some? then signal.value.provider else 0;
      FenceEvent(DRM_FENCE_EVENT_WAIT_DONE, provider, flags, 0, 0, cpu, provider, 0, id.key, id.timelineHash,
                 0, now, signalNs, 0, now)
  }

  // What names a fence: its context, or else a timeline hash that is not zero.
  function NamedBy(x: FenceFields): Option<u64> {
    if x.context.Some? then x.context else if x.timeline == Some(0) then None else x.timeline
  }

  // Two events are about the same fence exactly when name and sequence number agree.
  lemma FencesAgree(x: FenceFields, x': FenceFields)
    ensures FillIdentity(x).None? <==> x.seqno.None? || NamedBy(x).None?
    ensures FillIdentity(x).Some? && FillIdentity(x').Some? ==>
      (FillIdentity(x).value.key == FillIdentity(x').value.key <==>
         NamedBy(x) == NamedBy(x') && x.seqno == x'.seqno)
    ensures FillIdentity(x).Some? ==>
      FillIdentity(x).value.timelineHash == if x.timeline.Some? then x.timeline.value else 0
  {
    hide IdentityFlags;
  }

  // A completed wait spans from its start to now and takes process and GPU role from the
  // start, the signal time from the signal, and the driver from the signal if there is one.
  lemma WaitMeans(id: FenceIdentity, start: Option<FenceWaitStart>, signal: Option<FenceSignal>, cpu: u32, now: u64)
    ensures var e := WaitEvent(id, start, signal, cpu, now);
      && e.key == id.key && e.timelineHash == id.timelineHash && e.cpu == cpu
      && e.waitDoneNs == e.timestampNs == now
      && (start.Some? ==>
            && e.eventKind == 4 && e.waitStartNs == start.value.ts && e.provider == start.value.provider
            && e.pid == start.value.pid && e.tid == start.value.tid && e.gpuRole == start.value.gpuRole
            && (start.value.ts <= now ==> e.waitStartNs + e.durationNs == e.waitDoneNs)
            && (now < start.value.ts ==> e.durationNs == 0))
      && (start.None? ==>
            e.eventKind == 2 && e.waitStartNs == 0 && e.durationNs == 0 && e.pid == 0 && e.tid == 0 && e.gpuRole == 0)
      && (signal.Some? ==> e.signalNs == signal.value.ts && e.driverId == signal.value.provider)
      && (signal.None? ==> e.signalNs == 0 && (start.Some? ==> e.driverId == start.value.provider))
      && (start.None? ==> e.provider == e.driverId && (signal.None? ==> e.driverId == 0))
  {
    hide WaitFlags;
  }

  function SignalEvent(id: FenceIdentity, signal: FenceSignal, cpu: u32): FenceEvent {
    FenceEvent(DRM_FENCE_EVENT_SIGNAL, signal.provider, id.flags | DRM_FENCE_IS_EXPORTER_SIDE, 0, 0, cpu,
               signal.provider, signal.gpuRole, id.key, id.timelineHash, 0, 0, signal.ts, 0, signal.ts)
  }

  lemma SignalMeans(id: FenceIdentity, signal: FenceSignal, cpu: u32)
    ensures var e := SignalEvent(id, signal, cpu);
      && e.eventKind == 3 && e.key == id.key && e.timelineHash == id.timelineHash && e.cpu == cpu
      && e.signalNs == e.timestampNs == signal.ts && e.provider == e.driverId == signal.provider
      && e.gpuRole == signal.gpuRole && e.waitStartNs == e.waitDoneNs == e.durationNs == 0 && e.pid == e.tid == 0
      && e.flags & DRM_FENCE_IS_EXPORTER_SIDE != 0 && e.flags & id.flags == id.flags
  {
  }

  class FenceTracer {
    var waitStarts: map<FenceKey, FenceWaitStart>
    var signalTimes: map<FenceKey, FenceSignal>
    var missingStarts: nat
    var reserveFailures: nat
    var events: seq<FenceEvent>
    ghost var waits: seq<Op<FenceKey, FenceWaitStart>>
    ghost var signals: seq<Op<FenceKey, FenceSignal>>

    ghost predicate Valid()
      reads this
    {
      waitStarts == Open(waits) && signalTimes == Open(signals)
    }

    constructor ()
      ensures Valid() && waits == [] && signals == [] && events == []
    {
      waitStarts, signalTimes, missingStarts, reserveFailures, events := map[], map[], 0, 0, [];
      waits, signals := [], [];
    }

    method WaitStart(x: FenceFields, start: FenceWaitStart, insertOk: bool)
      requires Valid()
      modifies this
      ensures Valid() && events == old(events) && signals == old(signals)
      ensures waits == old(waits)
        + (if FillIdentity(x).Some? then [Start(FillIdentity(x).value.key, start, insertOk)] else [])
    {
      hide Open;
      var id := FillIdentity(x);
      if id.None? {
        return;
      }
      var key := id.value.key;
      OpenSnoc(waits, Start(key, start, insertOk));
      waits := waits + [Start(key, start, insertOk)];
      if insertOk {
        waitStarts := waitStarts[key := start];
      }
    }

    // A completed wait takes its start and any signal recorded for the same fence.
    method WaitDone(x: FenceFields, cpu: u32, now: u64, reserveOk: bool)
      requires Valid()
      modifies this
      ensures Valid()
      ensures var id := FillIdentity(x);
        && (id.None? ==> unchanged(this))
        && (id.Some? ==>
              var key := id.value.key;
              && waits == old(waits) + [Done(key)] && signals == old(signals) + [Done(key)]
              && events == old(events) + (if reserveOk
                   then [WaitEvent(id.value, LastOpen(old(waits), key), LastOpen(old(signals), key), cpu, now)]
                   else [])
              && missingStarts == old(missingStarts) + (if LastOpen(old(waits), key).None? then 1 else 0)
              && reserveFailures == old(reserveFailures) + (if reserveOk then 0 else 1))
    {
      hide Open, WaitEvent;
      var id := FillIdentity(x);
      if id.None? {
        return;
      }
      var key := id.value.key;
      var start := if key in waitStarts then Some(waitStarts[key]) else None;
      OpenSnoc(waits, Done(key));
      OpenSnoc(signals, Done(key));
      waitStarts := waitStarts - {key};
      var signal := if key in signalTimes then Some(signalTimes[key]) else None;
      signalTimes := signalTimes - {key};
      waits, signals := waits + [Done(key)], signals + [Done(key)];
      if start.None? {
        missingStarts := missingStarts + 1;
      }
      if !reserveOk {
        reserveFailures := reserveFailures + 1;
        return;
      }
      events := events + [WaitEvent(id.value, start, signal, cpu, now)];
    }

    method Signal(x: FenceFields, signal: FenceSignal, cpu: u32, insertOk: bool, reserveOk: bool)
      requires Valid()
      modifies this
      ensures Valid() && waits == old(waits)
      ensures var id := FillIdentity(x);
        && signals == old(signals) + (if id.Some? then [Start(id.value.key, signal, insertOk)] else [])
        && events == old(events) + (if id.Some? && reserveOk then [SignalEvent(id.value, signal, cpu)] else [])
    {
      hide Open, SignalEvent;
      var id := FillIdentity(x);
      if id.None? {
        return;
      }
      var key := id.value.key;
      OpenSnoc(signals, Start(key, signal, insertOk));
      signals := signals + [Start(key, signal, insertOk)];
      if insertOk {
        signalTimes := signalTimes[key := signal];
      }
      if !reserveOk {
        reserveFailures := reserveFailures + 1;
        return;
      }
      events := events + [SignalEvent(id.value, signal, cpu)];
    }
  }
}
