/** The HTTP provider of `lib/api.py`, without Flask: the route paths, the
    multipart framing of the live stream, the password gate in front of the
    recording controls, and the three control handlers acting on the shared
    camera state of `CameraPi`. */
module Api {
  import opened PyText
  import opened BytesIO
  import opened CameraPi
  import opened Optional

  // ---------------------------------------------------------------------
  // Route paths.
  // ---------------------------------------------------------------------

  /** `get_base_path()`: where the provider sits behind the web server. */
  function BasePath(): string
  {
    "/camerapi/"
  }

  /** `get_stream_path()`: the live stream route, below the base path. */
  function StreamPath(): string
  {
    BasePath() + "stream/"
  }

  /** The stream route is the base path followed by `stream/`, and it is
      `/camerapi/stream/`. */
  lemma StreamPathValue()
    ensures BasePath() <= StreamPath()
    ensures StreamPath()[|BasePath()|..] == "stream/"
    ensures StreamPath() == "/camerapi/stream/"
  {
    assert StreamPath()[|BasePath()|..] == "stream/";
  }

  // ---------------------------------------------------------------------
  // Multipart framing of the live stream.
  // ---------------------------------------------------------------------

  /** The bytes of an ASCII text, as a Python bytes literal spells them. */
  function Ascii(s: string): (b: seq<byte>)
    requires forall i :: 0 <= i < |s| ==> s[i] as int < 128
    ensures |b| == |s| && forall i :: 0 <= i < |s| ==> b[i] == s[i] as int
  {
    seq(|s|, i requires 0 <= i < |s| => s[i] as int)
  }

  /** The boundary token the stream response announces in its mimetype
      `multipart/x-mixed-replace; boundary=frame`. */
  const Boundary: string := "frame"

  /** What goes before each frame: the delimiter line `--frame` and the part
      header, each ended by CRLF, and the empty line ending the header. */
  const PartHead: seq<byte> := Ascii("--frame\r\nContent-Type: image/jpeg\r\n\r\n")
  /** What goes after each frame: the CRLF that precedes the next delimiter. */
  const PartTail: seq<byte> := Ascii("\r\n")

  /** One element of `video_feed_generator`: the frame wrapped as one part of
      the multipart body. */
  function Part(frame: seq<byte>): (p: seq<byte>)
    ensures |p| == |frame| + 39
    ensures p[..|PartHead|] == PartHead && p[|p| - |PartTail|..] == PartTail
  {
    PartHead + frame + PartTail
  }

  /** Reading a part back: the bytes between the fixed head and tail, if the
      part has them. */
  function Unframe(p: seq<byte>): Option<seq<byte>>
  {
    if |p| >= |PartHead| + |PartTail| && p[..|PartHead|] == PartHead && p[|p| - |PartTail|..] == PartTail
    then Some(p[|PartHead|..|p| - |PartTail|])
    else None
  }

  /** Every frame is recovered from its part. */
  lemma UnframePart(frame: seq<byte>)
    ensures Unframe(Part(frame)) == Some(frame)
  {
    var p := Part(frame);
    assert p[|PartHead|..|p| - |PartTail|] == frame;
  }

  /** Whatever reads back as a frame is exactly that frame's part. */
  lemma UnframeSound(p: seq<byte>)
    requires Unframe(p).Some?
    ensures Part(Unframe(p).value) == p
  {
    var f := Unframe(p).value;
    assert p == p[..|PartHead|] + f + p[|p| - |PartTail|..];
  }

  /** The part starts with the delimiter line of section 5.1.1 of RFC 2046:
      two hyphens, the boundary announced in the mimetype, CRLF. */
  lemma PartStartsWithDelimiter(frame: seq<byte>)
    ensures Ascii("--" + Boundary + "\r\n") <= Part(frame)
  {
    var d := Ascii("--" + Boundary + "\r\n");
    assert |d| == 9;
    assert forall i :: 0 <= i < 9 ==> d[i] == Part(frame)[i];
  }

  /** The response body after the parts of `frames`, in order. */
  function Stream(frames: seq<seq<byte>>): seq<byte>
  {
    if frames == [] then [] else Stream(frames[..|frames| - 1]) + Part(frames[|frames| - 1])
  }

  /** The body of a longer feed extends the body of its prefix: parts are
      only ever appended. */
  lemma {:induction false} StreamAppend(a: seq<seq<byte>>, b: seq<seq<byte>>)
    ensures Stream(a + b) == Stream(a) + Stream(b)
    decreases |b|
  {
    if b == [] {
      assert a + b == a;
    } else {
      var b', f := b[..|b| - 1], b[|b| - 1];
      var ab := a + b;
      SplitLast(a, b);
      calc {
        Stream(ab);
        Stream(a + b') + Part(f);
        { StreamAppend(a, b'); }
        Stream(a) + Stream(b') + Part(f);
        Stream(a) + (Stream(b') + Part(f));
        Stream(a) + Stream(b);
      }
    }
  }

  /** Dropping the last element of a concatenation with a non-empty right
      side; a separate lemma keeps this sequence equality out of the larger
      proof's context. */
  lemma SplitLast<T>(a: seq<T>, b: seq<T>)
    requires b != []
    ensures (a + b)[..|a + b| - 1] == a + b[..|b| - 1]
    ensures (a + b)[|a + b| - 1] == b[|b| - 1]
  {
  }

  /** Every frame adds its own length plus 39 bytes of framing. */
  lemma {:induction false} StreamLength(frames: seq<seq<byte>>)
    ensures |Stream(frames)| == FramesLength(frames) + 39 * |frames|
  {
    if frames != [] {
      StreamLength(frames[..|frames| - 1]);
    }
  }

  function FramesLength(frames: seq<seq<byte>>): nat
  {
    if frames == [] then 0 else FramesLength(frames[..|frames| - 1]) + |frames[|frames| - 1]|
  }

  /** The HTTP body a sequence of yielded parts makes, in order. */
  function Concat(parts: seq<seq<byte>>): seq<byte>
  {
    if parts == [] then [] else Concat(parts[..|parts| - 1]) + parts[|parts| - 1]
  }

  /** `video_feed_generator` over the frames `camera.get_frame()` returns,
      call after call: each yield wraps the next frame. */
  method VideoFeedGenerator(frames: seq<seq<byte>>) returns (parts: seq<seq<byte>>)
    ensures |parts| == |frames|
    ensures forall k :: 0 <= k < |frames| ==> parts[k] == Part(frames[k])
    ensures forall k :: 0 <= k < |frames| ==> Unframe(parts[k]) == Some(frames[k])
    ensures Concat(parts) == Stream(frames)
  {
    parts := [];
    var k := 0;
    assert frames[..0] == [];
    while k < |frames|
      invariant 0 <= k <= |frames| && |parts| == k
      invariant forall j :: 0 <= j < k ==> parts[j] == Part(frames[j])
      invariant forall j :: 0 <= j < k ==> Unframe(parts[j]) == Some(frames[j])
      invariant Concat(parts) == Stream(frames[..k])
    {
      var part := Part(frames[k]);
      UnframePart(frames[k]);
      assert frames[..k + 1][..k] == frames[..k];
      assert (parts + [part])[..k] == parts;
      parts := parts + [part];
      k := k + 1;
    }
    assert frames[..|frames|] == frames;
  }

  // ---------------------------------------------------------------------
  // The password gate.
  // ---------------------------------------------------------------------

  /** A JSON value the way `str()` renders it once decoded: strings as they
      are, integers in decimal, `true`/`false` as `True`/`False`, `null` as
      `None`; any other value (a float, an array, an object) by its given
      rendering. */
  datatype Value = VNull | VBool(b: bool) | VInt(i: int) | VString(s: string) | VOther(rendered: string)

  /** What `request.get_json()` returns, by the kind of its top level: no
      JSON at all or JSON `null` (both read as `None`), an object, an array,
      a string, or a number or boolean. */
  datatype Body =
    | NoJson
    | Object(fields: map<string, Value>)
    | Array(items: seq<Value>)
    | Text(text: string)
    | Scalar

  /** `str(value)`. */
  function PyStr(v: Value): string
  {
    match v
    case VNull => "None"
    case VBool(b) => if b then "True" else "False"
    case VInt(i) => IntToString(i)
    case VString(s) => s
    case VOther(rendered) => rendered
  }

  /** Whether `t` occurs in `s`: Python's `t in s` on two strings. */
  predicate Contains(s: string, t: string)
    decreases |s|
  {
    t <= s || (|s| > 0 && Contains(s[1..], t))
  }

  /** What `get_password()` does: return a password, or raise `TypeError`
      (the membership test on a number, or indexing an array or a string by
      `'password'` once the test found it). */
  datatype PasswordRead = Got(password: string) | TypeErrorRaised

  /** `get_password()`: the stripped `str()` of the `password` field, or the
      empty string when there is no JSON or no such field. */
  function GetPassword(body: Body): (r: PasswordRead)
    ensures r.TypeErrorRaised? <==>
              || body.Scalar?
              || (body.Array? && VString("password") in body.items)
              || (body.Text? && Contains(body.text, "password"))
    ensures body.Object? && "password" in body.fields ==>
              r == Got(Strip(PyStr(body.fields["password"])))
    ensures !(body.Object? && "password" in body.fields) && r.Got? ==> r.password == ""
    ensures r.Got? ==> Trimmed(r.password)
  {
    match body
    case NoJson => Got("")
    case Object(fields) =>
      if "password" in fields then Got(Strip(PyStr(fields["password"]))) else Got("")
    case Array(items) => if VString("password") in items then TypeErrorRaised else Got("")
    case Text(text) => if Contains(text, "password") then TypeErrorRaised else Got("")
    case Scalar => TypeErrorRaised
  }

  /** The stored password: the text of the `.password` file, stripped. */
  function LoadPassword(fileText: string): (password: string)
    ensures Trimmed(password)
  {
    Strip(fileText)
  }

  /** How a request meets the gate: the password matches, it does not, or
      reading it raised. */
  datatype Verdict = Accept | Reject | Raise

  function Gate(stored: string, body: Body): Verdict
  {
    match GetPassword(body)
    case TypeErrorRaised => Raise
    case Got(p) => if p == stored then Accept else Reject
  }

  /** A request whose body has the field `password` set to `v`. */
  function PasswordBody(v: Value): Body
  {
    Object(map["password" := v])
  }

  /** Only a trimmed stored password can ever be matched, which is why the
      file text is stripped when it is loaded. */
  lemma AcceptedPasswordTrimmed(stored: string, body: Body)
    requires Gate(stored, body) == Accept
    ensures Trimmed(stored)
  {
  }

  /** A body without JSON or without a `password` field is accepted exactly
      when the stored password is empty. */
  lemma MissingPasswordGate(stored: string, body: Body)
    requires body.NoJson? || (body.Object? && "password" !in body.fields)
    ensures Gate(stored, body) == Accept <==> stored == ""
    ensures Gate(stored, body) != Raise
  {
  }

  /** Whitespace around the submitted password and around the file text
      does not matter: submitting the file text, padded in any way, is
      accepted. */
  lemma PaddedPasswordAccepted(fileText: string, lead: string, trail: string)
    requires AllSpace(lead) && AllSpace(trail)
    ensures Gate(LoadPassword(fileText), PasswordBody(VString(lead + fileText + trail))) == Accept
  {
    StringPassword(lead + fileText + trail);
    StripIgnoresPadding(lead, fileText, trail);
  }

  /** Padding a submitted password with whitespace never changes the
      verdict. */
  lemma PaddingKeepsVerdict(stored: string, lead: string, p: string, trail: string)
    requires AllSpace(lead) && AllSpace(trail)
    ensures Gate(stored, PasswordBody(VString(lead + p + trail))) == Gate(stored, PasswordBody(VString(p)))
  {
    StringPassword(lead + p + trail);
    StringPassword(p);
    StripIgnoresPadding(lead, p, trail);
  }

  /** A password sent as a JSON string is read as that string, stripped. */
  lemma StringPassword(x: string)
    ensures GetPassword(PasswordBody(VString(x))) == Got(Strip(x))
  {
  }

  /** A password sent as JSON `null`, `true` or `false` is compared through
      `str()`: it is accepted exactly when the stored password is `None`,
      `True` or `False` respectively. */
  lemma KeywordPasswordGate(stored: string, v: Value)
    requires v.VNull? || v.VBool?
    ensures Gate(stored, PasswordBody(v)) == Accept <==>
              stored == (if v.VNull? then "None" else if v.b then "True" else "False")
    ensures Gate(stored, PasswordBody(v)) != Raise
  {
    FieldPassword(v);
    KeywordStrip(v);
  }

  /** `str()` of `None`, `True` or `False` has no whitespace to strip. */
  lemma KeywordStrip(v: Value)
    requires v.VNull? || v.VBool?
    ensures Strip(PyStr(v)) == if v.VNull? then "None" else if v.b then "True" else "False"
  {
    var s := PyStr(v);
    assert !IsSpace(s[0]) && !IsSpace(s[|s| - 1]);
    StripTrimmed(s);
  }

  /** A body whose `password` field is `v` is read as `str(v)`, stripped. */
  lemma FieldPassword(v: Value)
    ensures GetPassword(PasswordBody(v)) == Got(Strip(PyStr(v)))
  {
  }

  /** A password sent as a JSON integer is compared through `str()`: it is
      accepted exactly when the stored password is its decimal spelling, and
      then the stored password reads back as that integer. */
  lemma IntPasswordGate(stored: string, i: int)
    ensures Gate(stored, PasswordBody(VInt(i))) == Accept <==> stored == IntToString(i)
    ensures Gate(stored, PasswordBody(VInt(i))) == Accept ==> IsIntText(stored) && IntValue(stored) == i
  {
    var s := IntToString(i);
    StripTrimmed(s);
    assert GetPassword(PasswordBody(VInt(i))) == Got(s);
  }

  // ---------------------------------------------------------------------
  // The recording control handlers.
  // ---------------------------------------------------------------------

  /** The JSON answer `{'success': ...}`, or the server error a raised
      `TypeError` turns into. */
  datatype Response = Json(success: bool) | ServerError

  function Respond(v: Verdict): (r: Response)
    ensures r == Json(true) <==> v == Accept
    ensures r == Json(false) <==> v == Reject
  {
    match v
    case Accept => Json(true)
    case Reject => Json(false)
    case Raise => ServerError
  }

  /** `start_recording()`: with the right password the camera records (its
      thread run to the end, as `stop` lets it) and the answer is success;
      otherwise nothing changes. */
  method StartRecording(cam: Camera, stored: string, body: Body, stop: StopRequest) returns (resp: Response)
    requires cam.Valid()
    modifies cam, cam.recordingsFolder, cam.camera
    ensures cam.Valid() && cam.camera == old(cam.camera)
    ensures resp == Respond(Gate(stored, body))
    ensures Gate(stored, body) == Accept ==>
              cam.View() == RecordRun(old(cam.View()), stop).view
              && cam.history == old(cam.history) + RecordRun(old(cam.View()), stop).trace
    ensures Gate(stored, body) != Accept ==>
              cam.View() == old(cam.View()) && cam.history == old(cam.history)
  {
    var read := GetPassword(body);
    if read.TypeErrorRaised? {
      return ServerError;
    }
    if read.password != stored {
      return Json(false);
    }
    cam.Record(stop);
    return Json(true);
  }

  /** `stop_recording()`: with the right password the camera stops and the
      answer is success; otherwise nothing changes. */
  method StopRecording(cam: Camera, stored: string, body: Body) returns (resp: Response)
    requires cam.Valid()
    modifies cam, cam.recordingsFolder, cam.camera
    ensures cam.Valid() && cam.camera == old(cam.camera)
    ensures resp == Respond(Gate(stored, body))
    ensures Gate(stored, body) == Accept ==> cam.View() == AfterStop(old(cam.View()))
    ensures Gate(stored, body) != Accept ==> cam.View() == old(cam.View())
    ensures cam.history == old(cam.history)
  {
    var read := GetPassword(body);
    if read.TypeErrorRaised? {
      return ServerError;
    }
    if read.password != stored {
      return Json(false);
    }
    cam.StopRecording();
    return Json(true);
  }

  /** `is_recording()`: the flag, without any password, changing nothing. */
  method IsRecording(cam: Camera) returns (resp: Response)
    ensures resp == Json(cam.recording)
  {
    var flag := cam.IsRecording();
    return Json(flag);
  }
}
