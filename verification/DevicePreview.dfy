/** The preview side of the HAL process: the droid plugin, which copies frames into buffers it does
    not own, and the device controller, which owns, lends and frees them. */
module DevicePreview {
  import opened Wrappers
  import opened Bytes
  import opened Modular
  import opened Layout
  import opened Segment
  import opened CameraSharedMemory
  import opened FramePublication
  import opened PreviewIteration
  import RingHistory
  import CreatedSegment

  const FRAME_COUNT: nat := 8
  const EXTRA_BUFFER: nat := 1024

  /** buffer_t: `start` is a pointer into the mapped segment, None when null. */
  datatype Buffer = Buffer(start: Option<nat>, length: nat)

  /** The size of an NV21 frame, in 32-bit unsigned arithmetic. */
  function FrameSize(width: nat, height: nat): nat {
    (width * height * 3 % 0x1_0000_0000) / 2
  }

  /** The planes of an NV21 picture: one byte of luma a pixel, and two of chroma a block of four. */
  function PlanesSize(width: nat, height: nat): nat {
    width * height + 2 * ((width / 2) * (height / 2))
  }

  /** For even sides the computed size is that of the planes exactly if three times the luma plane fits the
      32-bit arithmetic. */
  lemma FrameSizeIsPlanes(width: nat, height: nat)
    requires width % 2 == 0 && height % 2 == 0
    ensures FrameSize(width, height) == PlanesSize(width, height) <==> 3 * width * height < 0x1_0000_0000
  {
    var a, b := width / 2, height / 2;
    assert width * height == 4 * (a * b) by {
      assert width == 2 * a && height == 2 * b;
      assert (2 * a) * (2 * b) == 4 * (a * b);
    }
    var blocks := a * b;
    assert 3 * width * height == 3 * (width * height);
    assert PlanesSize(width, height) == 6 * blocks && width * height * 3 == 12 * blocks;
    if 12 * blocks >= 0x1_0000_0000 {
      assert 12 * blocks % 0x1_0000_0000 < 0x1_0000_0000;
    }
  }

  class DroidCameraPlugin {
    var buffers: array?<Buffer>
    var nBuffers: nat
    var nextBuffer: nat
    var slotLengths: seq<nat>
    var streaming: bool
    var pipeline: bool        // pipeline_ and appsink_, set and cleared together
    var bufferSize: nat       // format_.buffer_size

    constructor ()
      ensures buffers == null && nBuffers == 0 && nextBuffer == 0 && slotLengths == []
      ensures !streaming && !pipeline
    {
      buffers, nBuffers, nextBuffer, slotLengths := null, 0, 0, [];
      streaming, pipeline := false, false;
      bufferSize := FrameSize(1280, 720);
    }

    /** Keep the service's array and note each slot's capacity, once. */
    method SetBuffer(numBuffer: int, usrbufs: array?<Buffer>) returns (ok: bool)
      requires usrbufs != null ==> numBuffer <= usrbufs.Length
      modifies this`buffers, this`nBuffers, this`nextBuffer, this`slotLengths
      ensures ok <==> usrbufs != null && numBuffer > 0
      ensures buffers == usrbufs && nextBuffer == 0
      ensures ok ==> nBuffers == numBuffer && |slotLengths| == numBuffer
      ensures ok ==> forall i :: 0 <= i < numBuffer ==> slotLengths[i] == usrbufs[i].length
    {
      buffers := usrbufs;
      nBuffers := if numBuffer > 0 then numBuffer else 0;
      nextBuffer := 0;
      if buffers == null || nBuffers == 0 {
        slotLengths := [];
        return false;
      }
      slotLengths := [];
      for i := 0 to nBuffers
        invariant buffers == usrbufs && nBuffers == numBuffer && nextBuffer == 0 && |slotLengths| == i
        invariant forall k :: 0 <= k < i ==> slotLengths[k] == usrbufs[k].length
      {
        slotLengths := slotLengths + [buffers[i].length];
      }
      return true;
    }

    method TeardownPipeline()
      modifies this`pipeline, this`streaming
      ensures !pipeline && !streaming
    {
      pipeline := false;
      streaming := false;
    }

    /** buildPipeline publishes the pipeline only when it reached PLAYING. */
    method BuildPipeline(built: bool) returns (ok: bool)
      modifies this`pipeline
      ensures ok == built
      ensures pipeline == (old(pipeline) || built)
    {
      if built {
        pipeline := true;
      }
      ok := built;
    }

    /** Up to three attempts; `built[k]` says how attempt k went, `budget[k]` whether another fits the
        deadline. Streaming starts exactly when an attempt that was made succeeded. */
    method StartCapture(built: seq<bool>, budget: seq<bool>) returns (ok: bool)
      requires |built| == 3 && |budget| == 3
      modifies this`pipeline, this`streaming
      ensures ok <==> built[0] || (budget[0] && built[1]) || (budget[0] && budget[1] && built[2])
      ensures ok ==> streaming && pipeline
      ensures !ok ==> streaming == old(streaming) && pipeline == old(pipeline)
    {
      for attempt := 0 to 3
        invariant streaming == old(streaming) && pipeline == old(pipeline)
        invariant forall k :: 0 <= k < attempt ==> !built[k] && budget[k]
      {
        var done := BuildPipeline(built[attempt]);
        if done {
          streaming := true;
          return true;
        }
        if attempt == 2 {
          return false;
        }
        if !budget[attempt] {
          return false;
        }
      }
      ok := false;
    }

    method StopCapture()
      modifies this`pipeline, this`streaming
      ensures !pipeline && !streaming
    {
      TeardownPipeline();
    }

    method CloseDevice()
      modifies this`pipeline, this`streaming
      ensures !pipeline && !streaming
    {
      TeardownPipeline();
    }

    /** NV21 only. A running pipeline is rebuilt, and streaming goes on only if that worked. */
    method SetFormat(nv21: bool, width: nat, height: nat, built: bool) returns (ok: bool)
      modifies this`pipeline, this`streaming, this`bufferSize
      ensures ok <==> nv21 && (old(streaming) ==> built)
      ensures streaming == (old(streaming) && (nv21 ==> built))
      ensures streaming && old(pipeline) ==> pipeline
      ensures bufferSize == if nv21 then FrameSize(width, height) else old(bufferSize)
    {
      if !nv21 {
        return false;
      }
      bufferSize := FrameSize(width, height);
      var wasStreaming := streaming;
      if wasStreaming {
        TeardownPipeline();
        var done := BuildPipeline(built);
        if !done {
          return false;
        }
        streaming := true;
      }
      return true;
    }

    method DestroyBuffer()
      modifies this`buffers, this`nBuffers, this`nextBuffer, this`slotLengths
      ensures buffers == null && nBuffers == 0 && nextBuffer == 0 && slotLengths == []
    {
      buffers, nBuffers, nextBuffer, slotLengths := null, 0, 0, [];
    }

    /** Slot `nextBuffer` can take a frame: a real pointer, `capacity` bytes inside the segment. */
    ghost predicate SlotUsable(mem: array<byte>)
      reads this, buffers
    {
      && buffers != null && nextBuffer < nBuffers <= buffers.Length && nBuffers == |slotLengths|
      && buffers[nextBuffer].start.Some?
      && 0 < slotLengths[nextBuffer]
      && buffers[nextBuffer].start.value + slotLengths[nextBuffer] <= mem.Length
    }

    /** Copy one sample into the next slot, cut at the capacity noted in setBuffer, and hand the slot
        back. The array is touched only while streaming, which is when it must be usable. */
    method GetBuffer(mem: array<byte>, sample: Option<seq<byte>>)
      returns (ok: bool, start: Option<nat>, length: nat, index: nat)
      requires streaming && pipeline ==> SlotUsable(mem)
      modifies this`nextBuffer, mem
      ensures ok <==> streaming && pipeline && sample.Some?
      ensures !ok ==> mem[..] == old(mem[..]) && nextBuffer == old(nextBuffer)
      ensures ok ==>
                var slot := old(nextBuffer);
                var frame := Truncated(sample.value, slotLengths[slot]);
                && index == slot && length == |frame| && start == buffers[slot].start
                && nextBuffer == Next(slot, nBuffers)
                && mem[..] == Splice(old(mem[..]), buffers[slot].start.value, frame)
    {
      start, length, index := None, 0, 0;
      if !pipeline || !streaming || buffers == null || nBuffers == 0 {
        return false, start, length, index;
      }
      var slot := buffers[nextBuffer];
      var capacity := if nextBuffer < |slotLengths| then slotLengths[nextBuffer] else 0;
      if slot.start.None? || capacity == 0 {
        return false, start, length, index;
      }
      if sample.None? {
        return false, start, length, index;
      }
      var n := |sample.value|;
      if n > capacity {
        n := capacity;
      }
      assert sample.value[..n] == Truncated(sample.value, capacity);
      CopyIn(mem, slot.start.value, sample.value[..n]);
      start, length, index := slot.start, n, nextBuffer;
      StepsAsRemainders(nextBuffer, nBuffers);
      nextBuffer := (nextBuffer + 1) % nBuffers;
      ok := true;
    }
  }

  class DeviceControl {
    const word: nat
    const plugin: DroidCameraPlugin
    var isStreamOn: bool
    var shmem: CameraSharedMemory?
    var shmDataBuffers: array?<Buffer>
    var shmMetaBuffers: seq<Buffer>
    var shmSolutionBuffers: seq<Buffer>
    ghost var pipe: Pipeline    // the preview as the state machine of FramePublication sees it

    /** The array the plugin writes through is the one the controller holds now, the segment is mapped,
        and everything stands where the pipeline model says. */
    ghost predicate Live()
      reads this, plugin, shmem, if shmem == null then {} else shmem.Mapping(), shmDataBuffers
    {
      && shmem != null && shmem.Valid() && shmem.segment != null && shmem.bufferCount == FRAME_COUNT
      && shmDataBuffers != null && shmDataBuffers.Length == FRAME_COUNT
      && plugin.buffers == shmDataBuffers && plugin.nBuffers == FRAME_COUNT
      && Inv(shmem.G(), pipe) && pipe.phase.Ready?
      && shmem.segment[..] == pipe.seg
      && plugin.nextBuffer == pipe.nextBuffer && plugin.slotLengths == pipe.slotLengths
      && BuffersMatch()
    }

    ghost predicate BuffersMatch()
      requires shmem != null && shmDataBuffers != null && shmDataBuffers.Length == FRAME_COUNT
      requires |pipe.lengths| == FRAME_COUNT
      reads this, shmem, shmDataBuffers
    {
      && |shmMetaBuffers| == |shmSolutionBuffers| == FRAME_COUNT
      && forall i :: 0 <= i < FRAME_COUNT ==>
           && shmDataBuffers[i] == Buffer(Some(PayloadOff(shmem.G(), i, Data)), pipe.lengths[i])
           && shmMetaBuffers[i] == Buffer(Some(PayloadOff(shmem.G(), i, Meta)), shmem.metaSize)
           && shmSolutionBuffers[i] == Buffer(Some(PayloadOff(shmem.G(), i, Solution)), shmem.solutionSize)
    }

    /** Kept by every call in every order, through every failure: the plugin streams only while the
        controller's stream is on, and then only into the buffers that are alive. */
    ghost predicate Valid()
      reads this, plugin, shmem, if shmem == null then {} else shmem.Mapping(), shmDataBuffers
    {
      && IsWord(word)
      && (plugin.streaming ==> isStreamOn && plugin.pipeline)
      && (isStreamOn ==> Live())
    }

    constructor (word: nat)
      requires IsWord(word)
      ensures this.word == word && Valid() && fresh(plugin)
      ensures !isStreamOn && shmem == null && shmDataBuffers == null
    {
      this.word := word;
      plugin := new DroidCameraPlugin();
      isStreamOn, shmem, shmDataBuffers := false, null, null;
      shmMetaBuffers, shmSolutionBuffers := [], [];
    }

    method CloseShmemoryIfNeeded()
      modifies this`shmDataBuffers, this`shmMetaBuffers, this`shmSolutionBuffers, this`shmem
      ensures shmDataBuffers == null && shmMetaBuffers == [] && shmSolutionBuffers == [] && shmem == null
    {
      if shmDataBuffers != null {
        shmDataBuffers := null;
      }
      shmMetaBuffers := [];
      shmSolutionBuffers := [];
      if shmem != null {
        shmem := null;
      }
    }

    /** The loop of startPreview that points the frame buffers into the segment. */
    method FillBuffers(shm: CameraSharedMemory, data: array<Buffer>)
      requires shm.Valid() && shm.segment != null && shm.bufferCount == FRAME_COUNT
      requires data.Length == FRAME_COUNT
      modifies this`shmMetaBuffers, this`shmSolutionBuffers, data
      ensures |shmMetaBuffers| == |shmSolutionBuffers| == FRAME_COUNT
      ensures forall i :: 0 <= i < FRAME_COUNT ==>
                && data[i] == Buffer(Some(PayloadOff(shm.G(), i, Data)), shm.dataSize)
                && shmMetaBuffers[i] == Buffer(Some(PayloadOff(shm.G(), i, Meta)), shm.metaSize)
                && shmSolutionBuffers[i] == Buffer(Some(PayloadOff(shm.G(), i, Solution)), shm.solutionSize)
    {
      var ok, dataList, metaList, extraList, solutionList := shm.GetBufferList();
      shmMetaBuffers, shmSolutionBuffers := [], [];
      for i := 0 to FRAME_COUNT
        invariant |shmMetaBuffers| == |shmSolutionBuffers| == i
        invariant forall k :: 0 <= k < i ==>
                    && data[k] == Buffer(Some(PayloadOff(shm.G(), k, Data)), shm.dataSize)
                    && shmMetaBuffers[k] == Buffer(Some(PayloadOff(shm.G(), k, Meta)), shm.metaSize)
                    && shmSolutionBuffers[k] == Buffer(Some(PayloadOff(shm.G(), k, Solution)), shm.solutionSize)
      {
        data[i] := Buffer(Some(dataList[i]), shm.dataSize);
        shmMetaBuffers := shmMetaBuffers + [Buffer(Some(metaList[i]), shm.metaSize)];
        shmSolutionBuffers := shmSolutionBuffers + [Buffer(Some(solutionList[i]), shm.solutionSize)];
      }
    }

    /** The pipeline model of a preview just set up over `shm`. */
    ghost function FreshPipe(shm: CameraSharedMemory, mem: array<byte>): Pipeline
      reads shm, mem
    {
      var capacity := shm.dataSize;
      var caps := seq(FRAME_COUNT, _ => capacity);
      Pipeline(mem[..], caps, caps, 0, Ready, 0, [], [])
    }

    /** Answers of the outside world to one startPreview. */
    ghost predicate StartSucceeds(g: Geometry, os: CreateAnswers, calloc: bool, built: seq<bool>, budget: seq<bool>)
      requires |built| == 3 && |budget| == 3
    {
      && Validates(g) && os.shmOpen.Some? && os.ftruncate && os.mmap && calloc
      && (built[0] || (budget[0] && built[1]) || (budget[0] && budget[1] && built[2]))
    }

    /** startPreview: the segment, the buffers, the plugin, the stream. Every failure gives back what it
        took, and leaves the plugin idle even when the plugin still points at the freed array. */
    method StartPreview(name: string, textSize: nat, os: CreateAnswers, calloc: bool,
                        built: seq<bool>, budget: seq<bool>) returns (ok: bool)
      requires Valid() && |built| == 3 && |budget| == 3
      modifies this, plugin
      ensures Valid()
      ensures old(isStreamOn) ==> ok && isStreamOn && pipe == old(pipe)
      ensures var g := Geometry(word, old(plugin.bufferSize) + EXTRA_BUFFER, EXTRA_BUFFER, 4, textSize, FRAME_COUNT);
              !old(isStreamOn) ==> ok == isStreamOn == StartSucceeds(g, os, calloc, built, budget)
      ensures !old(isStreamOn) && ok ==> plugin.streaming && Started(shmem.G(), pipe)
      ensures !old(isStreamOn) && ok ==> shmem.dataSize == old(plugin.bufferSize) + EXTRA_BUFFER
      ensures !old(isStreamOn) && ok ==> fresh(shmDataBuffers) && fresh(shmem.segment)
      ensures !ok ==> shmem == null && shmDataBuffers == null && !plugin.streaming
    {
      if isStreamOn {
        return true;
      }
      var shmDataSize := plugin.bufferSize + EXTRA_BUFFER;
      shmDataBuffers := null;
      ok := Prepare(name, Geometry(word, shmDataSize, EXTRA_BUFFER, 4, textSize, FRAME_COUNT), os, calloc);
      if ok {
        ok := Launch(built, budget);
      }
    }

    /** Buffers laid over a freshly created segment, not yet lent to the plugin. */
    ghost predicate Prepared()
      reads this, shmem, if shmem == null then {} else shmem.Mapping(), shmDataBuffers
    {
      && shmem != null && shmem.Valid() && RingCreated(shmem) && shmem.bufferCount == FRAME_COUNT
      && shmDataBuffers != null && shmDataBuffers.Length == FRAME_COUNT
      && |shmMetaBuffers| == |shmSolutionBuffers| == FRAME_COUNT
      && forall i :: 0 <= i < FRAME_COUNT ==>
           && shmDataBuffers[i] == Buffer(Some(PayloadOff(shmem.G(), i, Data)), shmem.dataSize)
           && shmMetaBuffers[i] == Buffer(Some(PayloadOff(shmem.G(), i, Meta)), shmem.metaSize)
           && shmSolutionBuffers[i] == Buffer(Some(PayloadOff(shmem.G(), i, Solution)), shmem.solutionSize)
    }

    /** startPreview up to the filled buffers. */
    method Prepare(name: string, g: Geometry, os: CreateAnswers, calloc: bool) returns (ok: bool)
      requires IsWord(word) && g.word == word && g.bufferCount == FRAME_COUNT
      modifies this`shmem, this`shmDataBuffers, this`shmMetaBuffers, this`shmSolutionBuffers
      ensures ok <==> Validates(g) && os.shmOpen.Some? && os.ftruncate && os.mmap && calloc
      ensures ok ==> Prepared() && shmem.G() == g && fresh(shmDataBuffers) && fresh(shmem.segment)
      ensures !ok ==> shmem == null && shmDataBuffers == null
    {
      var shm := new CameraSharedMemory(word);
      shmem := shm;
      var shmBufferFd := shm.Create(name, g, os);
      if shmBufferFd < 0 {
        CloseShmemoryIfNeeded();
        return false;
      }
      if !calloc {
        CloseShmemoryIfNeeded();
        return false;
      }
      var data := new Buffer[FRAME_COUNT](_ => Buffer(None, 0));
      shmDataBuffers := data;
      FillBuffers(shm, data);
      CreatedSegment.CreateSegmentIsCreated(g, Zeros(TotalSize(g)));
      return true;
    }

    /** startPreview from the filled buffers on: lend them to the plugin, which cannot refuse eight
        non-null buffers, start it, turn the stream on. */
    method Launch(built: seq<bool>, budget: seq<bool>) returns (ok: bool)
      requires IsWord(word) && !plugin.streaming && !isStreamOn && |built| == 3 && |budget| == 3
      requires Prepared()
      modifies this, plugin
      ensures Valid()
      ensures ok == isStreamOn == (built[0] || (budget[0] && built[1]) || (budget[0] && budget[1] && built[2]))
      ensures ok ==> plugin.streaming && shmem != null && Started(shmem.G(), pipe)
      ensures ok ==> shmem == old(shmem) && shmDataBuffers == old(shmDataBuffers)
      ensures !ok ==> shmem == null && shmDataBuffers == null && !plugin.streaming
    {
      var lent := plugin.SetBuffer(FRAME_COUNT, shmDataBuffers);
      assert lent;
      var started := plugin.StartCapture(built, budget);
      if !started {
        CloseShmemoryIfNeeded();
        return false;
      }
      isStreamOn := true;
      pipe := FreshPipe(shmem, shmem.segment);
      StartedIsInv(shmem.G(), pipe);
      return true;
    }

    ghost predicate RingCreated(shm: CameraSharedMemory)
      reads shm, shm.Mapping()
    {
      shm.segment != null && RingHistory.Created(shm.G(), shm.segment[..])
    }

    /** stopPreview: the preview thread is joined, then the plugin lets go of the buffers, and only then
        are they freed. */
    method StopPreview(forceComplete: bool)
      requires Valid()
      modifies this, plugin
      ensures Valid() && !isStreamOn && !plugin.streaming
      ensures plugin.buffers == null && shmDataBuffers == null && shmem == null
    {
      isStreamOn := false;
      plugin.StopCapture();
      plugin.DestroyBuffer();
      CloseShmemoryIfNeeded();
    }

    method SetFormat(nv21: bool, width: nat, height: nat, built: bool) returns (ok: bool)
      requires Valid()
      modifies plugin
      ensures Valid()
      ensures plugin.streaming ==> old(plugin.streaming) && plugin.buffers == shmDataBuffers
      ensures ok <==> nv21 && (old(plugin.streaming) ==> built)
      ensures ok && old(plugin.streaming) ==> plugin.streaming
      ensures ok ==> plugin.bufferSize == FrameSize(width, height)
    {
      ok := plugin.SetFormat(nv21, width, height, built);
    }

    method Close()
      requires Valid()
      modifies plugin
      ensures Valid() && !plugin.streaming
    {
      plugin.CloseDevice();
    }

    /** updateMetaBuffer and updateSolutionBuffer: store the text in the slot if it fits. */
    method SetTextIn(mem: array<byte>, ghost g: Geometry, ghost i: nat, ghost c: Channel,
                     buffer: Buffer, text: seq<byte>)
      requires Fits(g, mem[..]) && i < g.bufferCount && buffer == Buffer(Some(PayloadOff(g, i, c)), Cap(g, c))
      modifies mem
      ensures mem[..] == SetText(g, old(mem[..]), i, c, text)
    {
      FieldBounds(g, i, c);
      if |text| > buffer.length {
        return;
      }
      CopyIn(mem, buffer.start.value, text);
    }

    /** One turn of previewThread, frame in hand: record its length, add the texts, announce it, publish
        it. The announcement is never refused. */
    method Publish(index: nat, length: nat, meta: seq<byte>, solution: seq<byte>)
      requires shmem != null && shmem.Valid() && shmem.segment != null && shmem.bufferCount == FRAME_COUNT
      requires shmDataBuffers != null && shmDataBuffers.Length == FRAME_COUNT
      requires index < FRAME_COUNT && length <= shmem.dataSize
      requires |shmMetaBuffers| == |shmSolutionBuffers| == FRAME_COUNT
      requires shmMetaBuffers[index] == Buffer(Some(PayloadOff(shmem.G(), index, Meta)), shmem.metaSize)
      requires shmSolutionBuffers[index] == Buffer(Some(PayloadOff(shmem.G(), index, Solution)), shmem.solutionSize)
      modifies shmDataBuffers, shmem.segment
      ensures shmDataBuffers[index] == Buffer(old(shmDataBuffers[index].start), length)
      ensures forall i :: 0 <= i < FRAME_COUNT && i != index ==> shmDataBuffers[i] == old(shmDataBuffers[i])
      ensures var g := shmem.G();
              var s := SetText(g, SetText(g, old(shmem.segment[..]), index, Meta, meta), index, Solution, solution);
              shmem.segment[..] == Increment(g, WriteHeader(g, s, index, length))
    {
      var shm, mem := shmem, shmem.segment;
      shmDataBuffers[index] := Buffer(shmDataBuffers[index].start, length);
      SetTextIn(mem, shm.G(), index, Meta, shmMetaBuffers[index], meta);
      SetTextIn(mem, shm.G(), index, Solution, shmSolutionBuffers[index], solution);
      var announced := shm.WriteHeader(index, length);
      assert announced;
      var advanced := shm.IncrementWriteIndex();
    }

    /** One turn of previewThread. It goes on exactly when the plugin streams and delivers, and then
        the whole state moves as the pipeline model says. */
    method PreviewTurn(sample: Option<seq<byte>>, meta: seq<byte>, solution: seq<byte>) returns (go: bool)
      requires Valid() && isStreamOn
      modifies this`pipe, plugin`nextBuffer, shmDataBuffers, shmem.segment
      ensures Valid() && go == (plugin.streaming && sample.Some?)
      ensures go ==> pipe == Turn(shmem.G(), old(pipe), sample.value, meta, solution)
      ensures !go ==> pipe == old(pipe)
    {
      ghost var g := shmem.G();
      ghost var was := pipe;
      FieldBounds(g, plugin.nextBuffer, Data);
      var got, start, length, index := plugin.GetBuffer(shmem.segment, sample);
      if !got {
        return false;
      }
      if start == None || index >= FRAME_COUNT {
        assert false;
      }
      Publish(index, length, meta, solution);
      TurnKeeps(g, was, sample.value, meta, solution);
      pipe := Turn(g, was, sample.value, meta, solution);
      return true;
    }

    /** The same turn, told by the frames it publishes. */
    method Deliver(sample: Option<seq<byte>>, meta: seq<byte>, solution: seq<byte>) returns (go: bool)
      requires Valid() && isStreamOn
      modifies this`pipe, plugin`nextBuffer, shmDataBuffers, shmem.segment
      ensures Valid() && go == (plugin.streaming && sample.Some?)
      ensures pipe.published == old(pipe.published) + if go then [Truncated(sample.value, shmem.dataSize)] else []
    {
      go := PreviewTurn(sample, meta, solution);
    }

    /** previewThread over the samples the camera delivers until it fails or the stream is turned off:
        the frames published are those samples, cut to capacity, in order, up to the first failure. */
    method PreviewThread(samples: seq<Option<seq<byte>>>, metas: seq<seq<byte>>, solutions: seq<seq<byte>>)
      requires Valid() && isStreamOn && plugin.streaming && |metas| == |solutions| == |samples|
      modifies this`pipe, plugin`nextBuffer, shmDataBuffers, shmem.segment
      ensures Valid()
      ensures pipe.published == old(pipe.published) + Delivered(samples, shmem.dataSize)
      ensures ReaderSafe(shmem.G(), pipe)
    {
      ghost var before, capacity := pipe.published, shmem.dataSize;
      assert samples[..0] == [] && before + Delivered(samples[..0], capacity) == before;
      assert shmem.segment != null && shmDataBuffers != null;
      hide *;
      var k := 0;
      var go := true;
      while go && k < |samples|
        invariant shmem == old(shmem) && shmem.segment == old(shmem.segment) && shmDataBuffers == old(shmDataBuffers)
        invariant Valid() && isStreamOn && plugin.streaming && shmem.dataSize == capacity
        invariant 0 <= k <= |samples| && forall j :: 0 <= j < k ==> samples[j].Some?
        invariant pipe.published == before + Delivered(if go then samples[..k] else samples, capacity)
        decreases |samples| - k, go
      {
        DeliveredMore(before, samples, k, capacity);
        go := Deliver(samples[k], metas[k], solutions[k]);
        if go {
          k := k + 1;
        }
      }
      assert samples[..|samples|] == samples;
      LiveIsReaderSafe();
    }

    /** A preview from its format on: set it, start the stream, and let the preview thread run on samples as
        long as an NV21 picture of that width and height. They are published uncut. */
    method PreviewInFormat(width: nat, height: nat, name: string, textSize: nat, os: CreateAnswers, calloc: bool,
                           built: seq<bool>, budget: seq<bool>, samples: seq<Option<seq<byte>>>,
                           metas: seq<seq<byte>>, solutions: seq<seq<byte>>) returns (ok: bool)
      requires Valid() && !isStreamOn && |built| == 3 && |budget| == 3 && |metas| == |solutions| == |samples|
      requires width % 2 == 0 && height % 2 == 0 && 3 * width * height < 0x1_0000_0000
      requires forall i :: 0 <= i < |samples| && samples[i].Some? ==> |samples[i].value| == PlanesSize(width, height)
      modifies this, plugin
      ensures Valid() && ok == isStreamOn
      ensures ok ==> pipe.published == Whole(samples) && ReaderSafe(shmem.G(), pipe)
    {
      FrameSizeIsPlanes(width, height);
      hide FrameSize, PlanesSize, Inv, ReaderSafe, Truncated, Delivered, Whole, StartSucceeds, BuffersMatch;
      assert !plugin.streaming;
      hide Live, Valid;
      var accepted := SetFormat(true, width, height, true);
      ok := StartPreview(name, textSize, os, calloc, built, budget);
      if ok {
        DeliveredWhole(samples, shmem.dataSize);
        PreviewThread(samples, metas, solutions);
      }
    }

    /** A live preview shows readers whole frames. */
    lemma LiveIsReaderSafe()
      requires Valid() && isStreamOn
      ensures ReaderSafe(shmem.G(), pipe)
    {
      InvIsReaderSafe(shmem.G(), pipe);
    }
  }

  /** The samples up to the first failure. */
  function Whole(samples: seq<Option<seq<byte>>>): seq<seq<byte>> {
    if samples == [] || samples[0].None? then [] else [samples[0].value] + Whole(samples[1..])
  }

  /** Samples no longer than the capacity are delivered uncut. */
  lemma {:induction false} DeliveredWhole(samples: seq<Option<seq<byte>>>, capacity: nat)
    requires forall i :: 0 <= i < |samples| && samples[i].Some? ==> |samples[i].value| <= capacity
    ensures Delivered(samples, capacity) == Whole(samples)
  {
    if samples != [] && samples[0].Some? {
      assert |samples[0].value| <= capacity;
      forall i | 0 <= i < |samples[1..]| && samples[1..][i].Some? ensures |samples[1..][i].value| <= capacity {
        assert samples[1..][i] == samples[i + 1];
      }
      DeliveredWhole(samples[1..], capacity);
    }
  }

  /** The frames of the samples up to the first failure. */
  ghost function Delivered(samples: seq<Option<seq<byte>>>, capacity: nat): seq<seq<byte>> {
    if samples == [] || samples[0].None? then []
    else [Truncated(samples[0].value, capacity)] + Delivered(samples[1..], capacity)
  }

  lemma {:induction false} DeliveredStep(samples: seq<Option<seq<byte>>>, k: nat, capacity: nat)
    requires k < |samples| && forall j :: 0 <= j < k ==> samples[j].Some?
    ensures samples[k].None? ==> Delivered(samples, capacity) == Delivered(samples[..k], capacity)
    ensures samples[k].Some? ==> Delivered(samples[..k + 1], capacity) ==
                                 Delivered(samples[..k], capacity) + [Truncated(samples[k].value, capacity)]
  {
    if k == 0 {
      if samples[0].Some? {
        assert samples[..1][1..] == [];
      }
    } else {
      DeliveredStep(samples[1..], k - 1, capacity);
      assert samples[..k][1..] == samples[1..][..k - 1];
      assert samples[..k + 1][1..] == samples[1..][..k];
    }
  }

  /** One more turn, behind what was published before. */
  lemma DeliveredMore(before: seq<seq<byte>>, samples: seq<Option<seq<byte>>>, k: nat, capacity: nat)
    requires k < |samples| && forall j :: 0 <= j < k ==> samples[j].Some?
    ensures samples[k].None? ==>
              before + Delivered(samples[..k], capacity) + [] == before + Delivered(samples, capacity)
    ensures samples[k].Some? ==> before + Delivered(samples[..k], capacity) + [Truncated(samples[k].value, capacity)] ==
                                 before + Delivered(samples[..k + 1], capacity)
  {
    hide Delivered, Truncated;
    DeliveredStep(samples, k, capacity);
  }
}
