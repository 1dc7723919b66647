# Camera Pi recorder: a verified model of its recording control and HTTP gate

Camera Pi serves a Raspberry Pi camera over HTTP. Viewers pull a live
multipart JPEG stream. A background thread records video to disk in
five-minute chunk files. Recording is started and stopped through two POST
routes guarded by one shared password.

This project models two parts of it in Dafny:

- **The recording-control state machine of `lib/camera_pi.py`**
  (`camera_pi.dfy`, module `CameraPi`). The driver keeps one process-wide
  state: the camera handle, the `recording` flag and the recordings folder's
  `needs_new_recording` flag. It is the `Camera` class here, and `frames`,
  `record`/`record_thread`, `stop_recording` and `is_recording` are its
  methods. The camera device is the `PiCamera.Device` class (`picamera.dfy`).
  Its refusals ("already recording", "not recording", "closed") follow from
  its own state: which splitter ports record and whether it is closed. The
  byte stream that `frames` reuses is the `BytesIO.Buffer` class
  (`bytes_io.dfy`).
- **The request gate and stream framing of `lib/api.py`** (`api.dfy`,
  module `Api`): the route paths, the multipart part around each frame,
  `get_password` over the kinds of JSON body a client can send, the stored
  password as loaded, and the three control handlers acting on the shared
  `Camera`.

`py_text.dfy` (module `PyText`) gives the Python text semantics the gate
depends on. `str.strip()` removes exactly the characters `str.isspace()`
accepts, and `str()` of an integer is its decimal spelling.

The recording thread runs in the caller, not in a thread of its own. A
concurrent `stop_recording` is an input, `StopRequest`. It names the slice
boundary just before which another thread's full `stop_recording` runs. Every
run of the thread is described by `CameraPi.RecordRun`: how it ends, the
class state it leaves, and the sequence of events it goes through (a chunk
starts, the flag is checked, a slice is waited). An automaton over those
events (`Next`, `Run`, `Disciplined`) states the loop's discipline: chunks
start in order, a chunk holds at most 600 waits, each wait follows a check
that found the flag set, and a check that finds it cleared ends the loop.

### Behaviour worth noting

- A `start_recording` while port 2 records starts a second thread. Its
  `record_sequence` is refused with "already recording", the refusal is
  swallowed, and the class state is unchanged (`CameraPi.RecordRunOutcome`).
- `get_password` raises `TypeError` for a JSON number or boolean, an array
  holding `"password"`, or a string containing `password`. Flask answers with
  a server error (`Api.GetPassword`).

## Model

| member | source | states |
|---|---|---|
| `PyText.Strip` | lib/api.py:106 | `strip()` returns an infix of its argument with no whitespace at either end, and everything it removed is whitespace |
| `PyText.StripSplit` | lib/api.py:106 | stripping whitespace + trimmed middle + whitespace gives exactly the middle |
| `PyText.StripTrimmed` | lib/api.py:106 | a string with no whitespace at its ends is its own strip |
| `PyText.StripIdempotent` | lib/api.py:27 | stripping an already stripped string changes nothing |
| `PyText.StripIgnoresPadding` | lib/api.py:106 | surrounding a string with whitespace does not change what `strip()` returns |
| `PyText.IntToString` | lib/api.py:106 | `str()` of an int is non-empty, has no whitespace at its ends, starts with `-` exactly for negative numbers, and is an optional `-` followed by decimal digits with no leading zero, whose value (`IntValue`) is the int itself |
| `PyText.Digits` | lib/api.py:106 | the decimal spelling of a natural number is non-empty, all digits, with no leading zero |
| `PyText.DigitsRoundTrip` | lib/api.py:106 | the decimal spelling of a natural number reads back as that number |
| `BytesIO.Overwrite` | lib/camera_pi.py:40 | an empty write changes nothing; any other write overwrites from the position, keeps the rest and zero-fills a gap |
| `BytesIO.OverwriteEmpty` | lib/camera_pi.py:40 | a write at the start of an empty stream leaves exactly the bytes written |
| `BytesIO.Buffer.constructor` | lib/camera_pi.py:39 | a new stream is empty and positioned at 0 |
| `BytesIO.Buffer.Write` | lib/camera_pi.py:40 | the contents become the overwrite at the old position (unchanged for an empty write); the position moves past the bytes written |
| `BytesIO.Buffer.Seek` | lib/camera_pi.py:43 | the position is set, the contents are kept |
| `BytesIO.Buffer.Read` | lib/camera_pi.py:44 | returns the contents from the position to the end and moves to the end |
| `BytesIO.Buffer.Truncate` | lib/camera_pi.py:48 | the contents are cut at the position, never extended |
| `PiCamera.Device.constructor` | lib/camera_pi.py:31 | a new camera is open, at 30 fps, recording on no port; its resolution is left open (picamera takes the display's size) |
| `PiCamera.Device.StartSequence` | lib/camera_pi.py:63-65 | `record_sequence` is refused on a closed camera and on a port already recording; otherwise the splitter port starts recording and nothing else changes |
| `PiCamera.Device.EndSequence` | lib/camera_pi.py:63-65 | when the chunk paths run out, `record_sequence` frees the splitter port itself |
| `PiCamera.Device.StopRecording` | lib/camera_pi.py:81 | stopping reports "not recording" exactly when the port was idle, always so on a closed camera, and the port is free afterwards |
| `CameraPi.SlicesPerChunkValue` | lib/camera_pi.py:59-67 | `int(chunk / step)` is 600 slices, and 600 slices of 0.5 s make the 300 s chunk |
| `CameraPi.AfterStop` | lib/camera_pi.py:79-87 | after `stop_recording` the flag is cleared, a new chunk session is requested, and the splitter port no longer records; the camera handle and the device's other state are kept |
| `CameraPi.StopIdempotent` | lib/camera_pi.py:79-87 | a second `stop_recording` leaves the state the first one left |
| `CameraPi.StopAfterStart` | lib/camera_pi.py:63-72 | stopping after the splitter port was started leaves the state that stopping without starting leaves |
| `CameraPi.AfterOpen` | lib/camera_pi.py:30-34 | after the prologue of `frames` the camera is open, a fresh one exactly when there was none or it was closed, set to 1200x900 at 30 fps, with the flags untouched |
| `CameraPi.RecordRunOutcome` | lib/camera_pi.py:56-76 | with no camera, a closed camera or the port already recording, the thread ends with the state (the flag included) unchanged; once the device has started, the thread always ends through `stop_recording`; it ends on a cleared flag exactly when its last event is a check that found the flag cleared |
| `CameraPi.RecordRunDisciplined` | lib/camera_pi.py:63-71 | every run of `record_thread` keeps the loop discipline, and a run ended by the flag ends with the loop returned |
| `CameraPi.DisciplinedWaitBound` | lib/camera_pi.py:67-71 | a disciplined loop waits at most 600 slices per chunk it starts |
| `CameraPi.WaitFollowsCheck` | lib/camera_pi.py:68-71 | in a disciplined loop every wait comes right after a check that found the flag set |
| `CameraPi.RecordingsFolder.constructor` | lib/camera_pi.py:22 | the folder starts with the given `needs_new_recording` flag |
| `CameraPi.Camera.constructor` | lib/camera_pi.py:18-22 | the class state starts with no camera and the flag cleared |
| `CameraPi.Camera.Frames` | lib/camera_pi.py:24-48 | opens a new camera only when there is none or it is closed, otherwise reuses it; configures it as `AfterOpen` says; yields exactly the captures, in order |
| `CameraPi.Camera.StreamCaptures` | lib/camera_pi.py:39-48 | each frame read from offset 0 of the reused stream is exactly its own capture, because the stream is emptied after each read |
| `CameraPi.Camera.Record` | lib/camera_pi.py:50-54 | `record()` leaves the state and events that `record_thread` gives |
| `CameraPi.Camera.RecordThread` | lib/camera_pi.py:56-76 | the thread ends, leaves the class state and goes through the events that `RecordRun` gives |
| `CameraPi.Camera.RecordChunks` | lib/camera_pi.py:63-72 | once the port records, the chunk loop ends through `stop_recording`: at the stop request if it falls inside the chunk paths, otherwise after the last chunk |
| `CameraPi.Camera.RecordChunk` | lib/camera_pi.py:63-67 | each chunk the device yields sets the flag and is then held slice by slice |
| `CameraPi.Camera.HoldChunk` | lib/camera_pi.py:67-71 | within a chunk the flag is checked before each of at most 600 waits; a cleared flag calls `stop_recording` and returns, exactly when the stop request falls inside this chunk |
| `CameraPi.Camera.EndOfSequence` | lib/camera_pi.py:72 | after the last chunk the port is freed and `stop_recording` runs |
| `CameraPi.Camera.StopRecording` | lib/camera_pi.py:78-89 | the state becomes `AfterStop` of the old state, with or without a camera and whether or not the port recorded |
| `CameraPi.Camera.IsRecording` | lib/camera_pi.py:91-93 | returns the `recording` flag and changes nothing |
| `Api.StreamPathValue` | lib/api.py:30-47 | the stream path is the base path followed by `stream/`, that is `/camerapi/stream/` |
| `Api.Ascii` | lib/api.py:58-59 | a bytes literal has one byte per character, with that character's code |
| `Api.Part` | lib/api.py:58-59 | each part is the fixed head, the frame and CRLF: 39 bytes longer than the frame |
| `Api.UnframePart` | lib/api.py:58-59 | the frame is recovered from its part by removing the fixed head and tail |
| `Api.UnframeSound` | lib/api.py:58-59 | anything that reads back as a frame is exactly that frame's part |
| `Api.PartStartsWithDelimiter` | lib/api.py:58 | each part starts with `--` and the boundary token `frame` that the response's mimetype announces, then CRLF |
| `Api.StreamAppend` | lib/api.py:56-59 | the body for a longer run of frames extends the body for its prefix |
| `Api.StreamLength` | lib/api.py:56-59 | the body is the frames' total length plus 39 bytes per frame |
| `Api.VideoFeedGenerator` | lib/api.py:50-59 | it yields one part per frame, in order: part k is `Part(frames[k])` and reads back as frame k, and the parts concatenated are `Stream(frames)` |
| `Api.GetPassword` | lib/api.py:97-106 | raises `TypeError` exactly for a number or boolean, an array holding `"password"`, or a string containing `password`; with a `password` field in an object it returns `str()` of the field, stripped; any other body it does not raise on gives `''`; any password it returns has no whitespace at its ends |
| `Api.LoadPassword` | lib/api.py:25-27 | the stored password has no whitespace at its ends |
| `Api.AcceptedPasswordTrimmed` | lib/api.py:121 | only a stored password without surrounding whitespace can ever be matched |
| `Api.MissingPasswordGate` | lib/api.py:97-103 | a body without JSON or without a `password` field never raises, and is accepted exactly when the stored password is empty |
| `Api.PaddedPasswordAccepted` | lib/api.py:25-27 | submitting the password file's text, padded with any whitespace, is accepted |
| `Api.FieldPassword` | lib/api.py:106 | a body whose `password` field is v is read as `str(v)`, stripped |
| `Api.KeywordStrip` | lib/api.py:106 | `str()` of `None`, `True` and `False` is `None`, `True` and `False`, with nothing to strip |
| `Api.KeywordPasswordGate` | lib/api.py:106 | a `null`, `true` or `false` password never raises and is accepted exactly when the stored password is `None`, `True` or `False` respectively |
| `Api.StringPassword` | lib/api.py:106 | a password sent as a JSON string is read as that string with surrounding whitespace stripped |
| `Api.PaddingKeepsVerdict` | lib/api.py:106 | whitespace around a submitted password never changes the gate's verdict |
| `Api.IntPasswordGate` | lib/api.py:106 | an integer password is accepted exactly when the stored password is its decimal spelling, and the stored text then reads back as that integer, negative ones included |
| `Api.Respond` | lib/api.py:121-127 | the answer is `success: True` exactly on a match and `success: False` exactly on a mismatch |
| `Api.StartRecording` | lib/api.py:109-127 | on a match the camera records as `record_thread` does and the answer is success; on a mismatch or a raised error nothing changes |
| `Api.StopRecording` | lib/api.py:130-147 | on a match the state becomes `AfterStop` of the old state and the answer is success; otherwise nothing changes |
| `Api.IsRecording` | lib/api.py:150-160 | answers with the camera's `recording` flag, with no password check |

## Left out

- Threads. `record` starts a daemon thread; here the thread runs to its end inside `record`. Races other than a complete `stop_recording` just before a flag check are not modelled. For example, a stop between the start of `record_sequence` and its first chunk, which the thread's `recording = True` then overrides, is not modelled.
- `CameraPi.Camera.Frames`: the stream is infinite in the source; the model yields the finitely many captures it is given. The captures stand for what `capture_continuous` writes. The device's JPEG encoding is not modelled.
- `Api.VideoFeedGenerator`: the generator loops forever on `camera.get_frame()`. The model takes the frames those calls return as its input. `get_frame` belongs to `lib/camera_base.py`, which is not part of this model.
- The two-second warm-up `time.sleep(2)`, `wait_recording` timing and the `annotate_text` timestamp are not modelled: they change no state the model keeps.
- `RecordingsFolder` and `get_next_chunk_path` are not part of this model. The chunk paths are counted, not named, and `needs_new_recording` is a plain flag that only `stop_recording` sets.
- Chunk files, the recordings directory and any storage error are not modelled.
- Device failures other than "closed", "already recording" and "not recording" are not modelled, for example a hardware fault or a camera that cannot be opened. Configuring a camera while it records is also taken to succeed.
- Flask, CORS, `jsonify`, `redirect`, the `/` and base-path redirect routes, the 404 `start_streaming`/`stop_streaming` stubs and logging are not modelled.
- Reading the `.password` file and choosing the driver with `import_module` are not modelled. The stored password is a parameter, and `Api.LoadPassword` gives its form.
- `video_feed` binds the global `camera` to a new `Camera()`. All driver state lives in the class, so the model keeps one shared `Camera` state.
- `PiCamera.Device.constructor`: picamera, given no resolution, takes the attached display's size (1280x720 only without a display). The display is not modelled, so the constructor's contract leaves the initial resolution open and `DefaultView` carries the no-display value. `frames` overwrites the resolution before it is used (lib/camera_pi.py:33).
- `Api.GetPassword`: `request.get_json()` is modelled by the kind of its result only. Its own errors for a wrong content type or malformed JSON are not modelled. `str()` of a float, an array or an object is taken as a given rendering.
