/** The metadata side of the vision UDFs: reading an ffprobe result into a
    flat record of video properties, the helpers that pull single numbers out
    of an ffprobe dictionary, and the `{"_errors": ...}` record every failure
    becomes.  The probe itself is an input. */
module Vision {
  import opened PyModel

  /** A Python `dict` with string keys. */
  type Dict = map<string, Value>

  /** `d.get(key, default)`. */
  function Get(d: Dict, key: string, default: Value): Value {
    if key in d then d[key] else default
  }

  /** `key in s` for two strings: `key` occurs somewhere in `s`. */
  predicate IsSubstring(key: string, s: string)
    decreases |s|
  {
    key <= s || (s != [] && IsSubstring(key, s[1..]))
  }

  /** `key in container` for a string `key`. */
  function Contains(container: Value, key: string): (r: Result<bool>)
    ensures container.PyDict? ==> r == Ok(key in container.entries)
    ensures r.Raise? <==> !(container.PyDict? || container.PyStr? || container.PyList?)
  {
    match container
    case PyDict(m) => Ok(key in m)
    case PyStr(s) => Ok(IsSubstring(key, s))
    case PyList(items) => Ok(PyStr(key) in items)
    case _ => Raise(TypeError("argument of type " + Quote(TypeName(container)) + " is not iterable"))
  }

  /** `container[key]` for a string `key`. */
  function GetItem(container: Value, key: string): (r: Result<Value>)
    ensures container.PyDict? && key in container.entries ==> r == Ok(container.entries[key])
    ensures r.Ok? ==> container.PyDict? && key in container.entries
  {
    match container
    case PyDict(m) => if key in m then Ok(m[key]) else Raise(KeyError(Quote(key)))
    case PyStr(_) => Raise(TypeError("string indices must be integers, not 'str'"))
    case PyList(_) => Raise(TypeError("list indices must be integers or slices, not str"))
    case _ => Raise(TypeError(Quote(TypeName(container)) + " object is not subscriptable"))
  }

  /** A Python `Optional[int]` as a value. */
  function IntValue(o: Option<int>): Value {
    match o
    case None => PyNone
    case Some(n) => PyInt(n)
  }

  // ---------------------------------------------------------------------------
  // _int_or_none, _float_or_none

  /** `_int_or_none(data, key)`: `int(data[key])` when `key in data`, else None. */
  function IntOrNone(data: Value, key: string): (r: Result<Option<int>>)
    ensures data.PyDict? ==> (r == Ok(None) <==> key !in data.entries)
    ensures r.Ok? && r.value.Some? ==>
      data.PyDict? && key in data.entries && ToInt(data.entries[key]) == Ok(r.value.value)
  {
    var present :- Contains(data, key);
    if present then
      var v :- GetItem(data, key);
      var n :- ToInt(v);
      Ok(Some(n))
    else Ok(None)
  }

  /** On a dictionary holding the key, `_int_or_none` gives what `int()`
      makes of the entry, exception included. */
  lemma IntOrNoneOnDict(data: Dict, key: string)
    ensures key in data ==>
      IntOrNone(PyDict(data), key) == (match ToInt(data[key])
                                       case Ok(n) => Ok(Some(n))
                                       case Raise(e) => Raise(e))
  {
  }

  /** An integer entry is returned as it is; a missing one is None. */
  lemma IntOrNoneOfInt(data: Dict, key: string, n: int)
    requires key in data && data[key] == PyInt(n)
    ensures IntOrNone(PyDict(data), key) == Ok(Some(n))
  {
  }

  /** An entry holding the decimal text of `n` reads back as `n`. */
  lemma IntOrNoneOfDecimalText(data: Dict, key: string, n: int)
    requires key in data && data[key] == PyStr(IntToString(n))
    ensures IntOrNone(PyDict(data), key) == Ok(Some(n))
  {
    ParseIntOfIntToString(n);
  }

  /** Containers that are not dictionaries: a value that is not a container
      raises TypeError; a string or list that does not contain the key is
      None; one that does raises TypeError on indexing. */
  lemma IntOrNoneOnNonDict(data: Value, key: string)
    requires !data.PyDict?
    ensures IntOrNone(data, key).Raise? <==> Contains(data, key) != Ok(false)
    ensures IntOrNone(data, key).Raise? ==> IntOrNone(data, key).error.TypeError?
  {
  }

  /** `_float_or_none(data, key)`: `float(data[key] if key in data else None)`;
      despite its name it never returns None, since `float(None)` raises. */
  function FloatOrNone(data: Dict, key: string): (r: Result<real>)
    ensures key !in data ==> r.Raise? && r.error.TypeError?
  {
    ToFloat(Get(data, key, PyNone))
  }

  /** A missing key raises TypeError rather than giving None. */
  lemma FloatOrNoneMissing(data: Dict, key: string)
    requires key !in data
    ensures FloatOrNone(data, key) == Raise(TypeError("float() argument must be a string or a real number, not " + Quote("NoneType")))
  {
  }

  /** Numbers are read as they are, decimal text as its value. */
  lemma FloatOrNonePresent(data: Dict, key: string)
    requires key in data
    ensures data[key].PyInt? ==> FloatOrNone(data, key) == Ok(data[key].i as real)
    ensures data[key].PyFloat? ==> FloatOrNone(data, key) == Ok(data[key].f)
    ensures data[key].PyStr? ==> FloatOrNone(data, key) == ParseFloat(data[key].s)
  {
  }

  // ---------------------------------------------------------------------------
  // _fps_or_none

  const ZeroTimeBase := ValueError("avg_frame_rate had 0 time base")
  const TooManyValues := ValueError("too many values to unpack (expected 2)")

  /** `_fps_or_none(data)`: None when `avg_frame_rate` is missing or None;
      otherwise the `n/d` fraction it holds, rounded half to even. */
  function FpsOrNone(data: Dict): (r: Result<Option<int>>)
    ensures r == Ok(None) <==> "avg_frame_rate" !in data || data["avg_frame_rate"] == PyNone
    ensures r.Ok? && r.value.Some? ==> "avg_frame_rate" in data && data["avg_frame_rate"].PyStr?
  {
    var rate := Get(data, "avg_frame_rate", PyNone);
    if rate == PyNone then Ok(None)
    else if !rate.PyStr? then Raise(AttributeError(Quote(TypeName(rate)) + " object has no attribute 'split'"))
    else FpsOfParts(Comprehension(ParseInt, Split(rate.s, '/')))
  }

  /** The rest of `_fps_or_none` once the parts are read: unpacking into
      `n, d`, the zero-time-base check and the rounding. */
  function FpsOfParts(parsed: Result<seq<int>>): (r: Result<Option<int>>)
    ensures parsed.Raise? ==> r == Raise(parsed.error)
    ensures r.Ok? <==> parsed.Ok? && |parsed.value| == 2 && parsed.value[1] != 0
    ensures r.Ok? ==> r.value.Some?
    ensures parsed.Ok? && |parsed.value| == 2 && parsed.value[1] == 0 ==> r == Raise(ZeroTimeBase)
    ensures r.Ok? ==> r.value.value == RoundHalfEven(parsed.value[0] as real / parsed.value[1] as real)
  {
    var nums :- parsed;
    if |nums| > 2 then Raise(TooManyValues)
    else if |nums| < 2 then
      Raise(ValueError("not enough values to unpack (expected 2, got " + IntToString(|nums|) + ")"))
    else if nums[1] == 0 then Raise(ZeroTimeBase)
    else Ok(Some(RoundHalfEven(nums[0] as real / nums[1] as real)))
  }

  /** A well-formed `"n/d"` rate: a zero `d` raises, any other gives the
      nearest integer to `n / d`, the even one on a tie. */
  lemma FpsOrNoneOfFraction(data: Dict, n: int, d: int)
    requires "avg_frame_rate" in data
    requires data["avg_frame_rate"] == PyStr(IntToString(n) + "/" + IntToString(d))
    ensures d == 0 ==> FpsOrNone(data) == Raise(ZeroTimeBase)
    ensures d != 0 ==> FpsOrNone(data) == Ok(Some(RoundHalfEven(n as real / d as real)))
    ensures d != 0 ==> (FpsOrNone(data).Ok? && FpsOrNone(data).value.Some? &&
      var r := FpsOrNone(data).value.value;
      -0.5 <= r as real - n as real / d as real <= 0.5 &&
      ((r as real - n as real / d as real == 0.5 || n as real / d as real - r as real == 0.5) ==> r % 2 == 0))
  {
    ParseFraction(n, d);
  }

  /** Any rate of two parts that `int()` reads as `n` and `d`, whatever their
      spelling (a sign, padding, leading zeros): a zero `d` raises, any other
      gives `n / d` rounded half to even. */
  lemma FpsOrNoneOfTwoParts(data: Dict, t: string, n: int, d: int)
    requires "avg_frame_rate" in data && data["avg_frame_rate"] == PyStr(t)
    requires |Split(t, '/')| == 2 && ParseInt(Split(t, '/')[0]) == Ok(n) && ParseInt(Split(t, '/')[1]) == Ok(d)
    ensures d == 0 ==> FpsOrNone(data) == Raise(ZeroTimeBase)
    ensures d != 0 ==> FpsOrNone(data) == Ok(Some(RoundHalfEven(n as real / d as real)))
  {
    ComprehensionOfPair(ParseInt, Split(t, '/'), n, d);
  }

  /** The two parts of `"n/d"` read back as `[n, d]`. */
  lemma ParseFraction(n: int, d: int)
    ensures Comprehension(ParseInt, Split(IntToString(n) + "/" + IntToString(d), '/')) == Ok([n, d])
  {
    var parts := [IntToString(n), IntToString(d)];
    assert Join(parts, '/') == IntToString(n) + "/" + IntToString(d) by {
      assert Join(parts[1..], '/') == IntToString(d);
    }
    SplitJoin(parts, '/');
    ParseIntOfIntToString(n);
    ParseIntOfIntToString(d);
    ComprehensionOk(ParseInt, parts);
    var nums := Comprehension(ParseInt, parts).value;
    assert ParseInt(parts[0]) == Ok(nums[0]) && ParseInt(parts[1]) == Ok(nums[1]);
    assert nums == [n, d];
  }

  /** 5/2 and 7/2 lie halfway between two integers. */
  lemma RoundedHalves()
    ensures RoundHalfEven(5 as real / 2 as real) == 2 && RoundHalfEven(7 as real / 2 as real) == 4
  {
    RoundHalfEvenUnique(2.5, 2);
    RoundHalfEvenUnique(3.5, 4);
  }

  lemma HalvesText()
    ensures IntToString(5) + "/" + IntToString(2) == "5/2"
    ensures IntToString(7) + "/" + IntToString(2) == "7/2"
  {
  }

  /** A rate on a tie rounds to the even neighbour: 5/2 frames per second
      is reported as 2. */
  lemma FpsOrNoneTieDown(data: Dict)
    requires "avg_frame_rate" in data && data["avg_frame_rate"] == PyStr("5/2")
    ensures FpsOrNone(data) == Ok(Some(2))
  {
    HalvesText();
    FpsOrNoneOfFraction(data, 5, 2);
    RoundedHalves();
  }

  /** ... and 7/2 as 4. */
  lemma FpsOrNoneTieUp(data: Dict)
    requires "avg_frame_rate" in data && data["avg_frame_rate"] == PyStr("7/2")
    ensures FpsOrNone(data) == Ok(Some(4))
  {
    HalvesText();
    FpsOrNoneOfFraction(data, 7, 2);
    RoundedHalves();
  }

  /** A rate with no `/` whose text `int()` accepts has one part only. */
  lemma FpsOrNoneOnePart(data: Dict, t: string)
    requires "avg_frame_rate" in data && data["avg_frame_rate"] == PyStr(t)
    requires '/' !in t && ParseInt(t).Ok?
    ensures FpsOrNone(data) == Raise(ValueError("not enough values to unpack (expected 2, got " + IntToString(1) + ")"))
  {
    SplitNoSeparator(t, '/');
    ComprehensionOk(ParseInt, [t]);
  }

  /** A rate with more than two parts, all of which `int()` accepts, has too
      many to unpack. */
  lemma FpsOrNoneTooManyParts(data: Dict, t: string)
    requires "avg_frame_rate" in data && data["avg_frame_rate"] == PyStr(t)
    requires |Split(t, '/')| > 2
    requires forall k :: 0 <= k < |Split(t, '/')| ==> ParseInt(Split(t, '/')[k]).Ok?
    ensures FpsOrNone(data) == Raise(TooManyValues)
  {
    ComprehensionOk(ParseInt, Split(t, '/'));
  }

  /** A rate with a part that is not an integer raises what `int()` raised
      for the first such part. */
  lemma FpsOrNoneMalformedPart(data: Dict, t: string, k: nat)
    requires "avg_frame_rate" in data && data["avg_frame_rate"] == PyStr(t)
    requires k < |Split(t, '/')| && ParseInt(Split(t, '/')[k]).Raise?
    requires forall k' :: 0 <= k' < k ==> ParseInt(Split(t, '/')[k']).Ok?
    ensures FpsOrNone(data) == Raise(ParseInt(Split(t, '/')[k]).error)
  {
    ComprehensionFirstFailure(ParseInt, Split(t, '/'), k);
    FpsOrNoneOfFailedParse(data, t);
  }

  lemma FpsOrNoneOfFailedParse(data: Dict, t: string)
    requires "avg_frame_rate" in data && data["avg_frame_rate"] == PyStr(t)
    requires Comprehension(ParseInt, Split(t, '/')).Raise?
    ensures FpsOrNone(data) == Raise(Comprehension(ParseInt, Split(t, '/')).error)
  {
  }

  /** A rate that is not text has no `split`. */
  lemma FpsOrNoneNotText(data: Dict)
    requires "avg_frame_rate" in data
    requires data["avg_frame_rate"] != PyNone && !data["avg_frame_rate"].PyStr?
    ensures FpsOrNone(data).Raise? && FpsOrNone(data).error.AttributeError?
  {
  }

  // ---------------------------------------------------------------------------
  // _error

  /** `_error(message, stderr, probe)`: a record whose only key is `_errors`,
      holding the message and, when given, the decoded stderr and the
      rendered probe. */
  function Error(message: string, stderr: Option<string>, probe: Option<string>): (r: Dict)
    ensures r.Keys == {"_errors"} && r["_errors"].PyDict?
    ensures var err := r["_errors"].entries;
      err.Keys == {"message"} + (if stderr.Some? then {"stderr"} else {}) + (if probe.Some? then {"probe"} else {}) &&
      err["message"] == PyStr(message) &&
      (stderr.Some? ==> err["stderr"] == PyStr(stderr.value)) &&
      (probe.Some? ==> err["probe"] == PyStr(probe.value))
  {
    var err := map["message" := PyStr(message)];
    var err := if stderr.Some? then err["stderr" := PyStr(stderr.value)] else err;
    var err := if probe.Some? then err["probe" := PyStr(probe.value)] else err;
    map["_errors" := PyDict(err)]
  }

  // ---------------------------------------------------------------------------
  // video_metadata after the probe

  /** `stream.get("codec_type", None) == "video"`. */
  predicate IsVideo(stream: Dict) {
    Get(stream, "codec_type", PyNone) == PyStr("video")
  }

  /** `next(s for s in items if s.get("codec_type") == "video", None)` over a
      list: items are looked at in order up to the first video stream, and an
      item before it that is not a dictionary has no `get`. */
  function FirstVideo(items: seq<Value>): (r: Result<Option<Dict>>)
    ensures r.Ok? && r.value.Some? ==> IsVideo(r.value.value) && PyDict(r.value.value) in items
    ensures r.Raise? ==> r.error.AttributeError?
    decreases |items|
  {
    if items == [] then Ok(None)
    else if !items[0].PyDict? then Raise(AttributeError(Quote(TypeName(items[0])) + " object has no attribute 'get'"))
    else if IsVideo(items[0].entries) then Ok(Some(items[0].entries))
    else FirstVideo(items[1..])
  }

  /** Every item before index `k` is a stream dictionary that is not video. */
  predicate NoVideoBefore(items: seq<Value>, k: int)
    requires 0 <= k <= |items|
  {
    forall k' :: 0 <= k' < k ==> items[k'].PyDict? && !IsVideo(items[k'].entries)
  }

  /** The search finds nothing iff every item is a non-video dictionary; it
      finds the first video stream when one comes before any non-dictionary;
      and it raises for the first non-dictionary that comes before any video
      stream. */
  lemma {:induction false} FirstVideoSpec(items: seq<Value>)
    ensures FirstVideo(items) == Ok(None) <==> NoVideoBefore(items, |items|)
    ensures forall k :: 0 <= k < |items| && NoVideoBefore(items, k) && items[k].PyDict? && IsVideo(items[k].entries) ==>
      FirstVideo(items) == Ok(Some(items[k].entries))
    ensures forall k :: 0 <= k < |items| && NoVideoBefore(items, k) && !items[k].PyDict? ==>
      FirstVideo(items) == Raise(AttributeError(Quote(TypeName(items[k])) + " object has no attribute 'get'"))
    ensures FirstVideo(items).Ok? || exists k :: 0 <= k < |items| && NoVideoBefore(items, k) && !items[k].PyDict?
    decreases |items|
  {
    if items != [] {
      var tail := items[1..];
      FirstVideoSpec(tail);
      assert forall k :: 1 <= k < |items| ==> items[k] == tail[k - 1];
      forall k | 1 <= k <= |items| && items[0].PyDict? && !IsVideo(items[0].entries)
        ensures NoVideoBefore(items, k) <==> NoVideoBefore(tail, k - 1)
      {
        if NoVideoBefore(tail, k - 1) {
          forall k' | 0 <= k' < k ensures items[k'].PyDict? && !IsVideo(items[k'].entries) {
            if k' > 0 { assert items[k'] == tail[k' - 1]; }
          }
        }
      }
      if items[0].PyDict? && !IsVideo(items[0].entries) && FirstVideo(tail).Raise? {
        var k :| 0 <= k < |tail| && NoVideoBefore(tail, k) && !tail[k].PyDict?;
        assert NoVideoBefore(items, k + 1);
      }
    }
  }

  /** The search over whatever `probe.get("streams", [])` holds: a list is
      searched; a dictionary or string is iterated (over its keys or
      characters, none of which has `get`); anything else is not iterable. */
  function FindVideoStream(streams: Value): (r: Result<Option<Dict>>)
    ensures r.Ok? && r.value.Some? ==> streams.PyList? && IsVideo(r.value.value) && PyDict(r.value.value) in streams.items
    ensures !(streams.PyList? || streams.PyDict? || streams.PyStr?) ==> r.Raise? && r.error.TypeError?
    ensures (streams.PyList? || streams.PyDict? || streams.PyStr?) && r.Raise? ==> r.error.AttributeError?
  {
    match streams
    case PyList(items) => FirstVideo(items)
    case PyDict(m) =>
      if m == map[] then Ok(None) else Raise(AttributeError("'str' object has no attribute 'get'"))
    case PyStr(s) =>
      if s == [] then Ok(None) else Raise(AttributeError("'str' object has no attribute 'get'"))
    case _ => Raise(TypeError(Quote(TypeName(streams)) + " object is not iterable"))
  }

  /** The keys of a metadata record, in the order they are computed. */
  const RecordKeys: set<string> :=
    {"width", "height", "num_frames", "frame_rate", "duration", "bit_rate", "codec", "size"}

  /** The record built inside the `try`: each field in source order, the
      first exception abandoning the rest. */
  function BuildRecord(probe: Dict, stream: Dict): (r: Result<Dict>)
    ensures r.Ok? ==> r.value.Keys == RecordKeys && r.value["codec"] == Get(stream, "codec_name", PyNone)
  {
    var width :- IntOrNone(PyDict(stream), "width");
    var height :- IntOrNone(PyDict(stream), "height");
    var numFrames :- IntOrNone(PyDict(stream), "nb_frames");
    var frameRate :- FpsOrNone(stream);
    var duration :- FloatOrNone(stream, "duration");
    var bitRate :- IntOrNone(PyDict(stream), "bit_rate");
    var codec := Get(stream, "codec_name", PyNone);
    var size :- IntOrNone(Get(probe, "format", PyDict(map[])), "size");
    Ok(map[
      "width" := IntValue(width),
      "height" := IntValue(height),
      "num_frames" := IntValue(numFrames),
      "frame_rate" := IntValue(frameRate),
      "duration" := PyFloat(duration),
      "bit_rate" := IntValue(bitRate),
      "codec" := codec,
      "size" := IntValue(size)])
  }

  /** The `try`/`except Exception` around the record: any exception becomes
      an error record carrying `str(e)`. */
  function Assemble(probe: Dict, stream: Dict): (r: Dict)
    ensures r.Keys == RecordKeys || r.Keys == {"_errors"}
  {
    match BuildRecord(probe, stream)
    case Ok(record) => record
    case Raise(e) => Error(e.message, None, None)
  }

  const NoVideoStream := "No video stream found"

  /** `video_metadata` once `_probe` has returned `probe`; `render` stands for
      `str()` of a dictionary.  Only the stream search can raise: it sits
      outside the `try`. */
  function VideoMetadata(probe: Dict, render: Dict -> string): (r: Result<Dict>)
    ensures Truthy(Get(probe, "_errors", PyNone)) ==> r == Ok(probe)
    ensures r.Ok? ==> r.value == probe || r.value.Keys == RecordKeys || r.value.Keys == {"_errors"}
  {
    if Truthy(Get(probe, "_errors", PyNone)) then Ok(probe)
    else
      var stream :- FindVideoStream(Get(probe, "streams", PyList([])));
      match stream
      case None => Ok(Error(NoVideoStream, None, Some(render(probe))))
      case Some(s) => Ok(Assemble(probe, s))
  }

  /** In particular the error record `_probe` makes when ffprobe fails. */
  lemma ProbeErrorPassesThrough(message: string, stderr: Option<string>, render: Dict -> string)
    ensures VideoMetadata(Error(message, stderr, None), render) == Ok(Error(message, stderr, None))
  {
    var r := Error(message, stderr, None);
    assert "message" in r["_errors"].entries;
  }

  /** Only the stream search lets an exception out of `video_metadata`;
      anything raised while the record is assembled becomes an error record. */
  lemma RaisesOnlyFromSearch(probe: Dict, render: Dict -> string)
    ensures VideoMetadata(probe, render).Raise? <==>
      !Truthy(Get(probe, "_errors", PyNone)) && FindVideoStream(Get(probe, "streams", PyList([]))).Raise?
  {
  }

  /** The streams ffprobe reports: a list of dictionaries. */
  predicate StreamList(probe: Dict) {
    "streams" in probe && probe["streams"].PyList? &&
    forall k :: 0 <= k < |probe["streams"].items| ==> probe["streams"].items[k].PyDict?
  }

  /** On ffprobe's own output (no errors, a list of stream dictionaries),
      `video_metadata` never raises: it returns the metadata record of the
      first video stream, or an error record — "No video stream found" with
      the rendered probe when there is none. */
  lemma {:induction false} VideoMetadataOfStreams(probe: Dict, render: Dict -> string)
    requires !Truthy(Get(probe, "_errors", PyNone)) && StreamList(probe)
    ensures VideoMetadata(probe, render).Ok?
    ensures var items := probe["streams"].items;
      NoVideoBefore(items, |items|) ==>
        VideoMetadata(probe, render).value == Error(NoVideoStream, None, Some(render(probe)))
    ensures var items := probe["streams"].items;
      forall k :: 0 <= k < |items| && NoVideoBefore(items, k) && IsVideo(items[k].entries) ==>
        VideoMetadata(probe, render).value == Assemble(probe, items[k].entries)
    ensures VideoMetadata(probe, render).value.Keys == RecordKeys ||
            VideoMetadata(probe, render).value.Keys == {"_errors"}
  {
    FirstVideoSpec(probe["streams"].items);
  }

  /** A video stream with no `duration` yields an error record, not a record
      with a missing duration: `float(None)` raises inside the `try`.  When
      the four readers before it return, that record carries `float(None)`'s
      message and nothing else. */
  lemma MissingDurationIsError(probe: Dict, stream: Dict)
    requires "duration" !in stream
    ensures Assemble(probe, stream).Keys == {"_errors"}
    ensures IntOrNone(PyDict(stream), "width").Ok? && IntOrNone(PyDict(stream), "height").Ok? &&
            IntOrNone(PyDict(stream), "nb_frames").Ok? && FpsOrNone(stream).Ok? ==>
      Assemble(probe, stream) ==
        Error("float() argument must be a string or a real number, not " + Quote("NoneType"), None, None)
  {
    FloatOrNoneMissing(stream, "duration");
    if BuildRecord(probe, stream).Ok? {
      assert false;
    }
    if IntOrNone(PyDict(stream), "width").Ok? && IntOrNone(PyDict(stream), "height").Ok? &&
       IntOrNone(PyDict(stream), "nb_frames").Ok? && FpsOrNone(stream).Ok? {
      assert BuildRecord(probe, stream) ==
        Raise(TypeError("float() argument must be a string or a real number, not " + Quote("NoneType")));
    }
  }

  /** The pieces of ffprobe's duration text around its point. */
  lemma DurationTextSplit()
    ensures Split("10.000000", '.') == ["10", "000000"]
  {
    SplitJoin(["10", "000000"], '.');
    assert Join(["10", "000000"], '.') == "10.000000";
  }

  /** Six zero places are worth nothing. */
  lemma ZeroPlaces()
    ensures AllDigits("000000") && DigitsValue("000000") == 0
  {
    assert DigitsValue("00") == 0;
    assert DigitsValue("0000") == 0 by { assert "0000"[..3][..2] == "00"; }
    assert "000000"[..5][..4] == "0000";
  }

  /** The unsigned decimal of ffprobe's duration text. */
  lemma DurationTextValue()
    ensures DecimalValue("10.000000") == Some(10.0)
  {
    DurationTextSplit();
    ZeroPlaces();
    assert AllDigits("10") && DigitsValue("10") == 10;
  }

  /** The duration text has no padding and no sign. */
  lemma DurationTextUnsigned()
    ensures SplitSign(Strip("10.000000")) == (1, "10.000000")
  {
    StripUnchanged("10.000000");
  }

  /** ffprobe writes a duration as decimal text with six places; `float()`
      reads it as its value. */
  lemma DurationTextIsAccepted()
    ensures ToFloat(PyStr("10.000000")) == Ok(10.0)
  {
    DurationTextUnsigned();
    DurationTextValue();
    ParseFloatOfUnsigned("10.000000", 10.0);
  }

  /** ffprobe reports an unknown rate as `"0/0"`: the whole record then
      becomes the zero-time-base error record. */
  lemma UnknownRateIsError(probe: Dict, stream: Dict)
    requires IntOrNone(PyDict(stream), "width").Ok? && IntOrNone(PyDict(stream), "height").Ok?
    requires IntOrNone(PyDict(stream), "nb_frames").Ok?
    requires "avg_frame_rate" in stream && stream["avg_frame_rate"] == PyStr(IntToString(0) + "/" + IntToString(0))
    ensures Assemble(probe, stream) == Error(ZeroTimeBase.message, None, None)
  {
    FpsOrNoneOfFraction(stream, 0, 0);
  }

  /** Once every reader has returned, the record holds what each returned,
      under its own key. */
  lemma BuildRecordOfFields(probe: Dict, stream: Dict, width: Option<int>, height: Option<int>,
                            frames: Option<int>, rate: Option<int>, duration: real,
                            bitRate: Option<int>, size: Option<int>)
    requires IntOrNone(PyDict(stream), "width") == Ok(width)
    requires IntOrNone(PyDict(stream), "height") == Ok(height)
    requires IntOrNone(PyDict(stream), "nb_frames") == Ok(frames)
    requires FpsOrNone(stream) == Ok(rate)
    requires FloatOrNone(stream, "duration") == Ok(duration)
    requires IntOrNone(PyDict(stream), "bit_rate") == Ok(bitRate)
    requires IntOrNone(Get(probe, "format", PyDict(map[])), "size") == Ok(size)
    ensures Assemble(probe, stream) == map[
      "width" := IntValue(width), "height" := IntValue(height), "num_frames" := IntValue(frames),
      "frame_rate" := IntValue(rate), "duration" := PyFloat(duration), "bit_rate" := IntValue(bitRate),
      "codec" := Get(stream, "codec_name", PyNone), "size" := IntValue(size)]
  {
  }

  /** A video stream as ffprobe writes it (integer sizes, the frame count and
      bit rate as decimal text, the rate as `"n/d"` with `d != 0`, a duration
      `float()` accepts, and the container size as decimal text) yields the full record: the frame rate
      is `n / d` rounded half to even and every other field its value. */
  lemma WellFormedStream(probe: Dict, stream: Dict, format: Dict, width: int, height: int, frames: int,
                         n: int, d: int, duration: real, bitRate: int, size: int)
    requires "width" in stream && stream["width"] == PyInt(width)
    requires "height" in stream && stream["height"] == PyInt(height)
    requires "nb_frames" in stream && stream["nb_frames"] == PyStr(IntToString(frames))
    requires "avg_frame_rate" in stream && stream["avg_frame_rate"] == PyStr(IntToString(n) + "/" + IntToString(d))
    requires d != 0
    requires "duration" in stream && ToFloat(stream["duration"]) == Ok(duration)
    requires "bit_rate" in stream && stream["bit_rate"] == PyStr(IntToString(bitRate))
    requires "format" in probe && probe["format"] == PyDict(format)
    requires "size" in format && format["size"] == PyStr(IntToString(size))
    ensures Assemble(probe, stream) == map[
      "width" := PyInt(width), "height" := PyInt(height), "num_frames" := PyInt(frames),
      "frame_rate" := PyInt(RoundHalfEven(n as real / d as real)), "duration" := PyFloat(duration),
      "bit_rate" := PyInt(bitRate), "codec" := Get(stream, "codec_name", PyNone), "size" := PyInt(size)]
  {
    var rate := RoundHalfEven(n as real / d as real);
    IntOrNoneOfInt(stream, "width", width);
    IntOrNoneOfInt(stream, "height", height);
    IntOrNoneOfDecimalText(stream, "nb_frames", frames);
    FpsOrNoneOfFraction(stream, n, d);
    IntOrNoneOfDecimalText(stream, "bit_rate", bitRate);
    IntOrNoneOfDecimalText(format, "size", size);
    BuildRecordOfFields(probe, stream, Some(width), Some(height), Some(frames),
                        Some(rate), duration, Some(bitRate), Some(size));
  }
}
