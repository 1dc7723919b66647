/** An abstract stand-in for the `picamera.PiCamera` object the driver holds:
    whether it is closed, how it is configured, and on which splitter ports an
    encoder is recording. Its refusals (`PiCameraAlreadyRecording`,
    `PiCameraNotRecording`, `PiCameraClosed`) are decided by that state. */
module PiCamera {

  /** What starting `record_sequence` on a splitter port does. */
  datatype StartResult = Started | AlreadyRecording | Closed

  /** What `stop_recording` on a splitter port does. */
  datatype StopResult = Stopped | NotRecording

  /** The device's observable state as a value. */
  datatype DeviceView = DeviceView(
    closed: bool,
    resolution: (int, int),
    framerate: int,
    recordingPorts: set<nat>)

  /** What `picamera.PiCamera()` starts as: open, at 30 frames per second,
      with no encoder on any port. Without a resolution argument picamera
      takes the attached display's size, and 1280x720 only when there is no
      display; the resolution here is that fallback, and the constructor's
      contract leaves it open. */
  const DefaultView: DeviceView := DeviceView(false, (1280, 720), 30, {})

  class Device {
    var closed: bool
    var resolution: (int, int)
    var framerate: int
    var recordingPorts: set<nat>

    /** A closed camera has no encoder left on any port. */
    ghost predicate Valid()
      reads this
    {
      closed ==> recordingPorts == {}
    }

    function View(): DeviceView
      reads this
    {
      DeviceView(closed, resolution, framerate, recordingPorts)
    }

    /** `picamera.PiCamera()`: an open camera with nothing recording. */
    constructor ()
      ensures Valid() && View().(resolution := DefaultView.resolution) == DefaultView
    {
      closed := DefaultView.closed;
      resolution := DefaultView.resolution;
      framerate := DefaultView.framerate;
      recordingPorts := DefaultView.recordingPorts;
    }

    /** The start of `record_sequence(..., splitter_port=port)`: refused on a
        closed camera and on a port that already records; otherwise the port
        starts recording. */
    method StartSequence(port: nat) returns (r: StartResult)
      requires Valid()
      modifies this
      ensures Valid()
      ensures r == if old(closed) then Closed
                   else if port in old(recordingPorts) then AlreadyRecording
                   else Started
      ensures View() == if r == Started
                        then old(View()).(recordingPorts := old(recordingPorts) + {port})
                        else old(View())
    {
      if closed {
        r := Closed;
      } else if port in recordingPorts {
        r := AlreadyRecording;
      } else {
        recordingPorts := recordingPorts + {port};
        r := Started;
      }
    }

    /** The clean-up `record_sequence` does itself once its output paths run
        out: the encoder on `port` is closed. */
    method EndSequence(port: nat)
      requires Valid()
      modifies this
      ensures Valid()
      ensures View() == old(View()).(recordingPorts := old(recordingPorts) - {port})
    {
      recordingPorts := recordingPorts - {port};
    }

    /** `stop_recording(splitter_port=port)`: refused when nothing records on
        `port`, which is always the case on a closed camera (closing it
        stopped every encoder); the port is free afterwards either way. */
    method StopRecording(port: nat) returns (r: StopResult)
      requires Valid()
      modifies this
      ensures Valid()
      ensures r == if port in old(recordingPorts) then Stopped else NotRecording
      ensures old(closed) ==> r == NotRecording
      ensures View() == old(View()).(recordingPorts := old(recordingPorts) - {port})
    {
      r := if port in recordingPorts then Stopped else NotRecording;
      recordingPorts := recordingPorts - {port};
    }
  }
}
