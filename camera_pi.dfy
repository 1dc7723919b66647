/** The Raspberry Pi camera driver of `lib/camera_pi.py`: one process-wide
    state (the camera handle, the `recording` flag and the recordings folder's
    `needs_new_recording` flag) changed by `frames`, `record_thread`,
    `stop_recording` and read by `is_recording`.

    The Python class keeps this state in class attributes and changes it from
    static methods; here it is one shared `Camera` object. The recording
    thread is run in the calling context, and another thread's
    `stop_recording` is an input saying at which slice boundary it happens. */
module CameraPi {
  import opened PiCamera
  import opened BytesIO
  import opened Optional

  /** `chunk = 60 * 5` seconds per chunk file. */
  const ChunkSeconds: real := 300.0
  /** `step = 0.5` seconds per `wait_recording` slice. */
  const StepSeconds: real := 0.5
  /** `range(int(chunk / step))`: the slices one chunk is held for
      (`SlicesPerChunkValue` checks the division). */
  const SlicesPerChunk: nat := (ChunkSeconds / StepSeconds).Floor
  /** `range(10000000)`: how many chunk paths the recording asks for. */
  const MaxChunks: nat := 10000000
  /** `record_splitter_port`: the encoder port recording uses. */
  const RecordSplitterPort: nat := 2
  /** What `frames` configures before streaming. */
  const StreamResolution: (int, int) := (1200, 900)
  const StreamFramerate: int := 30

  /** One thing `record_thread` does, in the order it does it. */
  datatype Event =
    | ChunkStarted(index: nat)   // the device moved on to the index-th chunk path
    | FlagChecked(seen: bool)    // `Camera.recording` read at a slice boundary
    | SliceWaited                // `wait_recording(step)` on the splitter port

  /** When another thread runs `Camera.stop_recording` during the recording:
      never, or just before the flag check at slice `slice` of chunk `chunk`. */
  datatype StopRequest = NoStop | StopBefore(chunk: nat, slice: nat)

  /** How `record_thread` ends. */
  datatype ThreadEnd =
    | NoCameraSwallowed          // `Camera.camera` is None: AttributeError, logged
    | ClosedRaised               // PiCameraClosed escapes and ends the thread
    | AlreadyRecordingSwallowed  // PiCameraAlreadyRecording, logged
    | StoppedByFlag(chunk: nat, slice: nat)
    | ChunksExhausted

  /** The driver's class state as a value. */
  datatype CameraView = CameraView(
    camera: Option<DeviceView>,
    recording: bool,
    needsNewRecording: bool)

  /** What one run of `record_thread` does: how it ends, the class state it
      leaves and the events it goes through. */
  datatype ThreadRun = ThreadRun(end: ThreadEnd, view: CameraView, trace: seq<Event>)

  /** `int(chunk / step)` is 600 slices of half a second. */
  lemma SlicesPerChunkValue()
    ensures SlicesPerChunk == 600
    ensures SlicesPerChunk as real * StepSeconds == ChunkSeconds
  {
  }

  /** The class state after `Camera.stop_recording`: the flag is cleared, a
      new chunk session is requested, and the splitter port no longer records,
      whether or not the device was recording and whether or not there is a
      camera at all. */
  function AfterStop(v: CameraView): (r: CameraView)
    ensures !r.recording && r.needsNewRecording
    ensures r.camera.Some? <==> v.camera.Some?
    ensures r.camera.Some? ==>
              RecordSplitterPort !in r.camera.value.recordingPorts
              && r.camera.value.recordingPorts + {RecordSplitterPort}
                 == v.camera.value.recordingPorts + {RecordSplitterPort}
              && r.camera.value.(recordingPorts := {}) == v.camera.value.(recordingPorts := {})
  {
    var camera := match v.camera
      case None => None
      case Some(d) => Some(d.(recordingPorts := d.recordingPorts - {RecordSplitterPort}));
    CameraView(camera, false, true)
  }

  /** `stop_recording` is idempotent: a second call leaves the class state as
      the first left it. */
  lemma StopIdempotent(v: CameraView)
    ensures AfterStop(AfterStop(v)) == AfterStop(v)
  {
  }

  /** Stopping after the splitter port was started leaves the state stopping
      without starting leaves. */
  lemma StopAfterStart(v: CameraView, w: CameraView)
    requires v.camera.Some? && RecordSplitterPort !in v.camera.value.recordingPorts
    requires w.camera.Some? && w.camera.value.recordingPorts - {RecordSplitterPort} == v.camera.value.recordingPorts
    requires w.camera.value.(recordingPorts := {}) == v.camera.value.(recordingPorts := {})
    ensures AfterStop(w) == AfterStop(v)
  {
    var d, e := v.camera.value, w.camera.value;
    assert d.recordingPorts - {RecordSplitterPort} == d.recordingPorts;
    assert e.(recordingPorts := e.recordingPorts - {RecordSplitterPort}) == d;
  }

  /** The class state after the prologue of `frames`: an open camera (a new
      one if there was none or it was closed, else the same one) configured
      to 1200x900 at 30 frames per second; the flags are untouched. */
  function AfterOpen(v: CameraView): (r: CameraView)
    ensures r.camera.Some? && !r.camera.value.closed
    ensures r.camera.value.resolution == StreamResolution
    ensures r.camera.value.framerate == StreamFramerate
    ensures r.recording == v.recording && r.needsNewRecording == v.needsNewRecording
    ensures r.camera.value.recordingPorts ==
              if v.camera.None? || v.camera.value.closed then {} else v.camera.value.recordingPorts
  {
    var d := match v.camera
      case Some(d) => if d.closed then DefaultView else d
      case None => DefaultView;
    v.(camera := Some(d.(resolution := StreamResolution, framerate := StreamFramerate)))
  }

  /** `n` slices that each found the flag set and then waited. */
  function Slices(n: nat): seq<Event>
  {
    if n == 0 then [] else Slices(n - 1) + [FlagChecked(true), SliceWaited]
  }

  /** The first `n` chunks, each held for all its slices. */
  function Chunks(n: nat): seq<Event>
  {
    if n == 0 then [] else Chunks(n - 1) + [ChunkStarted(n - 1)] + Slices(SlicesPerChunk)
  }

  lemma FullChunkTrace(h: seq<Event>, c: nat)
    ensures h + Chunks(c) + [ChunkStarted(c)] + Slices(SlicesPerChunk) == h + Chunks(c + 1)
  {
    assert Chunks(c + 1) == Chunks(c) + [ChunkStarted(c)] + Slices(SlicesPerChunk);
  }

  /** Whether the stop request falls on a slice boundary the thread reaches
      when the device is given `paths` chunk paths. */
  predicate Fires(stop: StopRequest, paths: nat)
  {
    stop.StopBefore? && stop.chunk < paths && stop.slice < SlicesPerChunk
  }

  /** The events of a recording that started with `paths` chunk paths, as
      `stop` ends it. */
  function RecordTrace(stop: StopRequest, paths: nat): seq<Event>
  {
    if Fires(stop, paths)
    then Chunks(stop.chunk) + [ChunkStarted(stop.chunk)] + Slices(stop.slice) + [FlagChecked(false)]
    else Chunks(paths)
  }

  lemma StoppedTrace(h: seq<Event>, stop: StopRequest, paths: nat)
    requires Fires(stop, paths)
    ensures h + Chunks(stop.chunk) + [ChunkStarted(stop.chunk)] + Slices(stop.slice) + [FlagChecked(false)]
            == h + RecordTrace(stop, paths)
  {
  }

  /** What `record_thread` does from class state `v` when another thread
      stops the recording as `stop` says. */
  function RecordRun(v: CameraView, stop: StopRequest): ThreadRun
  {
    match v.camera
    case None => ThreadRun(NoCameraSwallowed, v, [])
    case Some(d) =>
      if d.closed then ThreadRun(ClosedRaised, v, [])
      else if RecordSplitterPort in d.recordingPorts then ThreadRun(AlreadyRecordingSwallowed, v, [])
      else if Fires(stop, MaxChunks)
      then ThreadRun(StoppedByFlag(stop.chunk, stop.slice), AfterStop(v), RecordTrace(stop, MaxChunks))
      else ThreadRun(ChunksExhausted, AfterStop(v), RecordTrace(stop, MaxChunks))
  }

  /** How `record_thread` ends decides the state it leaves: when the device
      never started (no camera, a closed camera, the port already recording)
      nothing changes, the `recording` flag included; once it started, the
      thread always ends through `stop_recording`. */
  lemma RecordRunOutcome(v: CameraView, stop: StopRequest)
    ensures var r := RecordRun(v, stop);
      && (r.end.NoCameraSwallowed? <==> v.camera.None?)
      && (r.end.ClosedRaised? <==> v.camera.Some? && v.camera.value.closed)
      && (r.end.AlreadyRecordingSwallowed? <==>
            v.camera.Some? && !v.camera.value.closed && RecordSplitterPort in v.camera.value.recordingPorts)
      && (r.end.NoCameraSwallowed? || r.end.ClosedRaised? || r.end.AlreadyRecordingSwallowed? ==>
            r.view == v && r.trace == [])
      && (r.end.StoppedByFlag? || r.end.ChunksExhausted? ==>
            r.view == AfterStop(v) && !r.view.recording && r.view.needsNewRecording)
      && (r.end.StoppedByFlag? <==> r.trace != [] && r.trace[|r.trace| - 1] == FlagChecked(false))
  {
    var r := RecordRun(v, stop);
    if r.end.ChunksExhausted? {
      ChunksEnd(MaxChunks);
    }
  }

  lemma ChunksEnd(n: nat)
    requires n > 0
    ensures Chunks(n) != [] && Chunks(n)[|Chunks(n)| - 1] == SliceWaited
  {
    SlicesEnd(SlicesPerChunk);
  }

  lemma SlicesEnd(n: nat)
    requires n > 0
    ensures Slices(n) != [] && Slices(n)[|Slices(n)| - 1] == SliceWaited
  {
  }

  // ---------------------------------------------------------------------
  // The discipline of the recording loop, as an automaton over its events.
  // ---------------------------------------------------------------------

  /** Where the recording loop is: before the first chunk; inside chunk
      `index` with `slicesLeft` waits still allowed and `flagSeen` when the
      flag was found set since the last wait; or returned. */
  datatype Phase = BeforeFirstChunk | InChunk(index: nat, slicesLeft: nat, flagSeen: bool) | Returned

  /** The events the loop may do next: chunks start in order from 0; a wait
      needs a set flag seen since the previous wait and a slice left in the
      chunk; a cleared flag ends the loop; nothing happens after that. */
  function Next(p: Phase, e: Event): Option<Phase>
  {
    match (p, e)
    case (BeforeFirstChunk, ChunkStarted(k)) =>
      if k == 0 then Some(InChunk(0, SlicesPerChunk, false)) else None
    case (InChunk(i, _, _), ChunkStarted(k)) =>
      if k == i + 1 then Some(InChunk(k, SlicesPerChunk, false)) else None
    case (InChunk(i, left, _), FlagChecked(seen)) =>
      if seen then Some(InChunk(i, left, true)) else Some(Returned)
    case (InChunk(i, left, flagSeen), SliceWaited) =>
      if flagSeen && left > 0 then Some(InChunk(i, left - 1, false)) else None
    case _ => None
  }

  function Run(p: Phase, t: seq<Event>): Option<Phase>
    decreases |t|
  {
    if t == [] then Some(p)
    else match Next(p, t[0])
      case None => None
      case Some(q) => Run(q, t[1..])
  }

  /** The events a recording loop may go through. */
  predicate Disciplined(t: seq<Event>)
  {
    Run(BeforeFirstChunk, t).Some?
  }

  lemma {:induction false} RunAppend(p: Phase, a: seq<Event>, b: seq<Event>)
    ensures Run(p, a + b) == match Run(p, a)
                             case None => None
                             case Some(q) => Run(q, b)
    decreases |a|
  {
    if a == [] {
      assert a + b == b;
    } else {
      assert (a + b)[0] == a[0] && (a + b)[1..] == a[1..] + b;
      match Next(p, a[0])
      case None =>
      case Some(q) => RunAppend(q, a[1..], b);
    }
  }

  lemma {:induction false} RunSlices(i: nat, left: nat, n: nat)
    requires n <= left
    ensures Run(InChunk(i, left, false), Slices(n)) == Some(InChunk(i, left - n, false))
  {
    if n > 0 {
      RunSlices(i, left, n - 1);
      RunAppend(InChunk(i, left, false), Slices(n - 1), [FlagChecked(true), SliceWaited]);
    }
  }

  lemma {:induction false} RunChunks(n: nat)
    ensures Run(BeforeFirstChunk, Chunks(n)) ==
              Some(if n == 0 then BeforeFirstChunk else InChunk(n - 1, 0, false))
  {
    if n > 0 {
      RunChunks(n - 1);
      RunAppend(BeforeFirstChunk, Chunks(n - 1) + [ChunkStarted(n - 1)], Slices(SlicesPerChunk));
      RunAppend(BeforeFirstChunk, Chunks(n - 1), [ChunkStarted(n - 1)]);
      RunSlices(n - 1, SlicesPerChunk, SlicesPerChunk);
    }
  }

  /** Every run of `record_thread` keeps the loop discipline: chunks in
      order, at most `SlicesPerChunk` waits per chunk, each wait after a check
      that found the flag set, and a return as soon as a check finds it
      cleared. */
  lemma RecordRunDisciplined(v: CameraView, stop: StopRequest)
    ensures Disciplined(RecordRun(v, stop).trace)
    ensures RecordRun(v, stop).end.StoppedByFlag? ==> Run(BeforeFirstChunk, RecordRun(v, stop).trace) == Some(Returned)
  {
    if Fires(stop, MaxChunks) {
      var c, s := stop.chunk, stop.slice;
      RunChunks(c);
      var p := Run(BeforeFirstChunk, Chunks(c)).value;
      RunAppend(BeforeFirstChunk, Chunks(c), [ChunkStarted(c)]);
      RunSlices(c, SlicesPerChunk, s);
      RunAppend(BeforeFirstChunk, Chunks(c) + [ChunkStarted(c)], Slices(s));
      RunAppend(BeforeFirstChunk, Chunks(c) + [ChunkStarted(c)] + Slices(s), [FlagChecked(false)]);
    }
    RunChunks(MaxChunks);
  }

  function Waits(t: seq<Event>): nat
  {
    if t == [] then 0 else (if t[0] == SliceWaited then 1 else 0) + Waits(t[1..])
  }

  function ChunkCount(t: seq<Event>): nat
  {
    if t == [] then 0 else (if t[0].ChunkStarted? then 1 else 0) + ChunkCount(t[1..])
  }

  function Budget(p: Phase): nat
  {
    if p.InChunk? then p.slicesLeft else 0
  }

  lemma {:induction false} WaitBudget(p: Phase, t: seq<Event>)
    requires Run(p, t).Some?
    ensures Waits(t) + Budget(Run(p, t).value) <= Budget(p) + SlicesPerChunk * ChunkCount(t)
    decreases |t|
  {
    if t != [] {
      var q := Next(p, t[0]).value;
      WaitBudget(q, t[1..]);
    }
  }

  /** A disciplined loop waits at most `SlicesPerChunk` slices for each chunk
      it starts. */
  lemma DisciplinedWaitBound(t: seq<Event>)
    requires Disciplined(t)
    ensures Waits(t) <= SlicesPerChunk * ChunkCount(t)
  {
    WaitBudget(BeforeFirstChunk, t);
  }

  lemma {:induction false} RunPrefix(p: Phase, t: seq<Event>, k: nat)
    requires k < |t| && Run(p, t).Some?
    ensures Run(p, t[..k]).Some?
    ensures Next(Run(p, t[..k]).value, t[k]).Some?
    ensures Run(p, t[..k + 1]) == Next(Run(p, t[..k]).value, t[k])
  {
    assert t == t[..k] + t[k..];
    RunAppend(p, t[..k], t[k..]);
    assert t[k..][0] == t[k];
    assert t[..k + 1] == t[..k] + [t[k]];
    RunAppend(p, t[..k], [t[k]]);
  }

  /** In a disciplined loop every wait comes right after a check that found
      the flag set. */
  lemma WaitFollowsCheck(t: seq<Event>, k: nat)
    requires Disciplined(t) && k < |t| && t[k] == SliceWaited
    ensures k > 0 && t[k - 1] == FlagChecked(true)
  {
    RunPrefix(BeforeFirstChunk, t, k);
    var p := Run(BeforeFirstChunk, t[..k]).value;
    assert p.InChunk? && p.flagSeen;
    assert k > 0;
    RunPrefix(BeforeFirstChunk, t, k - 1);
    assert t[..k][..k - 1] == t[..k - 1];
  }

  // ---------------------------------------------------------------------
  // The driver's state and its static methods.
  // ---------------------------------------------------------------------

  /** `RecordingsFolder`: only its `needs_new_recording` flag is modelled. */
  class RecordingsFolder {
    var needsNewRecording: bool

    constructor (needsNewRecording: bool)
      ensures this.needsNewRecording == needsNewRecording
    {
      this.needsNewRecording := needsNewRecording;
    }
  }

  class Camera {
    /** `Camera.camera`: the device handle, `None` until `frames` opens one. */
    var camera: Device?
    /** `Camera.recording`. */
    var recording: bool
    /** `Camera.recordings_folder`. */
    const recordingsFolder: RecordingsFolder
    /** What the recording thread has done so far. */
    ghost var history: seq<Event>

    ghost predicate Valid()
      reads this, camera
    {
      camera != null ==> camera.Valid()
    }

    function View(): CameraView
      reads this, recordingsFolder, camera
    {
      CameraView(if camera == null then None else Some(camera.View()),
                 recording, recordingsFolder.needsNewRecording)
    }

    /** The class attributes as the class statement sets them. */
    constructor (folder: RecordingsFolder)
      ensures Valid() && camera == null && !recording
      ensures recordingsFolder == folder && history == []
    {
      camera := null;
      recording := false;
      recordingsFolder := folder;
      history := [];
    }

    /** `frames()`: opens a camera unless an open one is held, configures it
        and yields each capture through one reused byte stream. `captures` is
        what the device writes into the stream, capture by capture; every
        yielded frame is exactly its own capture, because the stream is read
        from offset 0 and then emptied. */
    method Frames(captures: seq<seq<byte>>) returns (frames: seq<seq<byte>>)
      requires Valid()
      modifies this, camera
      ensures Valid() && camera != null
      ensures old(camera) == null || old(camera.closed) ==> fresh(camera)
      ensures old(camera) != null && !old(camera.closed) ==> camera == old(camera)
      ensures View() == AfterOpen(old(View()))
      ensures history == old(history)
      ensures frames == captures
    {
      if camera == null || camera.closed {
        camera := new Device();
      }
      camera.resolution := StreamResolution;
      camera.framerate := StreamFramerate;

      frames := StreamCaptures(captures);
    }

    /** The loop of `frames`: the device writes each capture into one byte
        stream, the stream is read from offset 0, yielded, and emptied again,
        so every yielded frame is exactly its own capture. */
    static method StreamCaptures(captures: seq<seq<byte>>) returns (frames: seq<seq<byte>>)
      ensures frames == captures
    {
      var stream := new Buffer();
      frames := [];
      var k := 0;
      while k < |captures|
        invariant 0 <= k <= |captures|
        invariant stream.data == [] && stream.pos == 0
        invariant frames == captures[..k]
      {
        stream.Write(captures[k]);
        OverwriteEmpty(captures[k]);
        stream.Seek(0);
        var frame := stream.Read();
        frames := frames + [frame];
        stream.Seek(0);
        stream.Truncate();
        k := k + 1;
      }
    }

    /** `record()`: starts the recording thread; here it runs to its end. */
    method Record(stop: StopRequest)
      requires Valid()
      modifies this, recordingsFolder, camera
      ensures Valid() && camera == old(camera)
      ensures View() == RecordRun(old(View()), stop).view
      ensures history == old(history) + RecordRun(old(View()), stop).trace
    {
      var _ := RecordThread(stop);
    }

    /** `record_thread()`: starts `record_sequence` on the splitter port,
        swallowing a missing camera and "already recording", then records
        chunk after chunk until a cleared flag or the end of the chunk paths
        ends it through `stop_recording`. */
    method RecordThread(stop: StopRequest) returns (end: ThreadEnd)
      requires Valid()
      modifies this, recordingsFolder, camera
      ensures Valid() && camera == old(camera)
      ensures end == RecordRun(old(View()), stop).end
      ensures View() == RecordRun(old(View()), stop).view
      ensures history == old(history) + RecordRun(old(View()), stop).trace
    {
      if camera == null {
        return NoCameraSwallowed;
      }
      ghost var v0 := View();
      var started := camera.StartSequence(RecordSplitterPort);
      if started == Closed {
        return ClosedRaised;
      } else if started == AlreadyRecording {
        return AlreadyRecordingSwallowed;
      }
      ghost var w := View();
      end := RecordChunks(stop, MaxChunks);
      StopAfterStart(v0, w);
    }

    /** The chunk loop of `record_thread`, once the device records on the
        splitter port: chunk after chunk is recorded by `RecordChunk`; after
        the last chunk path the device ends the sequence itself and
        `stop_recording` runs. */
    method RecordChunks(stop: StopRequest, paths: nat) returns (end: ThreadEnd)
      requires Valid() && camera != null && RecordSplitterPort in camera.recordingPorts
      modifies this, recordingsFolder, camera
      ensures Valid() && camera == old(camera)
      ensures View() == AfterStop(old(View()))
      ensures end == if Fires(stop, paths) then StoppedByFlag(stop.chunk, stop.slice) else ChunksExhausted
      ensures history == old(history) + RecordTrace(stop, paths)
    {
      ghost var v0 := View();
      var c := 0;
      while c < paths
        invariant 0 <= c <= paths
        invariant Valid() && camera == old(camera)
        invariant View() == if c == 0 then v0 else v0.(recording := true)
        invariant history == old(history) + Chunks(c)
        invariant stop.StopBefore? && stop.slice < SlicesPerChunk ==> stop.chunk >= c
      {
        var stopped := RecordChunk(c, stop);
        if stopped {
          assert AfterStop(v0.(recording := true)) == AfterStop(v0);
          StoppedTrace(old(history), stop, paths);
          return StoppedByFlag(c, stop.slice);
        }
        FullChunkTrace(old(history), c);
        c := c + 1;
      }
      EndOfSequence();
      return ChunksExhausted;
    }

    /** One pass of the chunk loop: the device has moved on to chunk `c`,
        the flag is set, and the chunk is held by `HoldChunk`. */
    method RecordChunk(c: nat, stop: StopRequest) returns (stopped: bool)
      requires Valid() && camera != null
      modifies this, recordingsFolder, camera
      ensures Valid() && camera == old(camera)
      ensures stopped <==> stop.StopBefore? && stop.chunk == c && stop.slice < SlicesPerChunk
      ensures stopped ==> View() == AfterStop(old(View()))
                          && history == old(history) + [ChunkStarted(c)] + Slices(stop.slice) + [FlagChecked(false)]
      ensures !stopped ==> View() == old(View()).(recording := true)
                           && history == old(history) + [ChunkStarted(c)] + Slices(SlicesPerChunk)
    {
      ghost var v := View();
      history := history + [ChunkStarted(c)];
      recording := true;
      stopped := HoldChunk(c, stop);
      if stopped {
        assert AfterStop(v.(recording := true)) == AfterStop(v);
      }
    }

    /** What follows the last chunk: `record_sequence` closes the splitter
        port's encoder itself, then `stop_recording` runs. */
    method EndOfSequence()
      requires Valid() && camera != null
      modifies this, recordingsFolder, camera
      ensures Valid() && camera == old(camera)
      ensures View() == AfterStop(old(View()))
      ensures history == old(history)
    {
      camera.EndSequence(RecordSplitterPort);
      StopRecording();
    }

    /** The inner loop of `record_thread`: one chunk held open slice by
        slice, the flag checked before each `wait_recording`. It returns
        whether a cleared flag ended the recording, which happens exactly
        when the stop request falls inside this chunk. */
    method HoldChunk(c: nat, stop: StopRequest) returns (stopped: bool)
      requires Valid() && camera != null && recording
      modifies this, recordingsFolder, camera
      ensures Valid() && camera == old(camera)
      ensures stopped <==> stop.StopBefore? && stop.chunk == c && stop.slice < SlicesPerChunk
      ensures stopped ==> View() == AfterStop(old(View()))
                          && history == old(history) + Slices(stop.slice) + [FlagChecked(false)]
      ensures !stopped ==> View() == old(View()) && history == old(history) + Slices(SlicesPerChunk)
    {
      ghost var v := View();
      var i := 0;
      while i < SlicesPerChunk
        invariant 0 <= i <= SlicesPerChunk
        invariant Valid() && camera == old(camera)
        invariant View() == v
        invariant history == old(history) + Slices(i)
        invariant stop.StopBefore? && stop.chunk == c ==> stop.slice >= i
      {
        if stop == StopBefore(c, i) {
          StopRecording();
        }
        history := history + [FlagChecked(recording)];
        if !recording {
          StopRecording();
          StopIdempotent(v);
          return true;
        }
        history := history + [SliceWaited];
        i := i + 1;
      }
      return false;
    }

    /** `stop_recording()`: stops the splitter port if there is a camera,
        swallows "not recording" and a missing camera, and in every case
        clears the flag and asks the folder for a new chunk session. */
    method StopRecording()
      requires Valid()
      modifies this, recordingsFolder, camera
      ensures Valid() && camera == old(camera)
      ensures View() == AfterStop(old(View()))
      ensures history == old(history)
    {
      if camera != null {
        var _ := camera.StopRecording(RecordSplitterPort);
      }
      recording := false;
      recordingsFolder.needsNewRecording := true;
    }

    /** `is_recording()`: the flag, with nothing changed. */
    method IsRecording() returns (r: bool)
      ensures r == recording
    {
      r := recording;
    }
  }
}
