# ligavision: IoU oracle and video metadata, modelled in Dafny

This project models two small parts of ligavision, a computer-vision extension
for Spark.

**IoU benchmark** (`iou_benchmark.dfy`, module `IouBenchmark`). The naive
pairwise Intersection-over-Union oracle is the reference that the vectorised
`Box2d.ious` is benchmarked against. It has three parts:

- `getvalue`, the IoU of one pair of boxes;
- `iou_matrix_naive_version`, a nested loop that builds the matrix, with entry
  [i][j] the IoU of box i of the first list and box j of the second;
- the benchmark's random box generator.

The matrix builder is a `method` with two `for` loops. Its loop invariants
tie it to the functional specification `Matrix(GetValue, ...)`. Properties of
that specification are proved as lemmas: shape, entries in input order, when
it raises, symmetry, bounds, self-overlap and a worked example.

**Video metadata** (`vision.dfy`, module `Vision`). This is what
`video_metadata` does once ffprobe has answered:

- a probe result that carries a truthy `_errors` is passed through unchanged;
- otherwise the first stream whose `codec_type` is `"video"` is found;
- seven of its eight fields are read, in source order, by `_int_or_none`,
  `_float_or_none` and `_fps_or_none`, and `codec` by `.get("codec_name", None)`;
- any exception during that reading becomes an `{"_errors": {...}}` record
  built by `_error`.

The probe result is an input to the model.

**Python semantics** (`py_model.dfy`, module `PyModel`). The code above relies
on a small part of Python, modelled here:

- JSON-like values and built-in exceptions, each carrying the message
  `str(e)` gives;
- truthiness, `str.split`, `str.strip`;
- `int()` and `float()` of strings and numbers, and `round()`, which rounds
  half to even;
- list comprehensions over a call that may raise.

A raised exception is the `Raise` case of `Result`. Floats are exact reals.

Two facts about the code shape the IoU model:

- **Zero denominator.** `getvalue` has no guard for a zero denominator
  (iou_benchmark.py line 34). Two zero-area boxes make Python raise
  `ZeroDivisionError`. `GetValue` returns
  `Raise(ZeroDivisionError("float division by zero"))` exactly when the
  denominator is zero, and the whole matrix then raises.
- **Area.** `Box2d` is not among the files modelled here. `Area` is taken to
  be the unclamped `(xmax - xmin) * (ymax - ymin)`. Every bound that needs it
  carries a well-formedness precondition. `SelfIouOfMalformedBox` shows what
  goes wrong without one.

## Model

| member | source | states |
|---|---|---|
| IouBenchmark.Overlap | python/benchmark/types/iou_benchmark.py:29-33 | The clamped overlap of two intervals is never negative. It is positive exactly when both intervals are non-empty and they overlap. It is at most the length of each well-formed interval. |
| IouBenchmark.InterArea | python/benchmark/types/iou_benchmark.py:29-33 | `inter_area` is never negative. It is 0 when the boxes are apart on either axis. |
| IouBenchmark.UnionAtLeastAreas | python/benchmark/types/iou_benchmark.py:34 | For well-formed boxes the denominator `a.area + b.area - inter_area` is at least the area of each box. |
| IouBenchmark.GetValue | python/benchmark/types/iou_benchmark.py:28-34 | `getvalue` raises exactly when `a.area + b.area - inter_area` is 0. The exception is ZeroDivisionError("float division by zero"). |
| IouBenchmark.GetValueSymmetric | python/benchmark/types/iou_benchmark.py:29-34 | `getvalue(a, b) == getvalue(b, a)`, including which pairs raise. |
| IouBenchmark.InterAreaAtMostAreas | python/benchmark/types/iou_benchmark.py:29-34 | For well-formed boxes the overlap is at most the area of each box. |
| IouBenchmark.GetValueBounds | python/benchmark/types/iou_benchmark.py:28-34 | For well-formed boxes, `getvalue` raises exactly when both boxes have zero area. Otherwise its value is between 0 and 1. |
| IouBenchmark.SelfIouIsOne | python/benchmark/types/iou_benchmark.py:28-34 | A well-formed box with positive area has IoU 1 with itself. |
| IouBenchmark.SelfIouOfMalformedBox | python/benchmark/types/iou_benchmark.py:29-34 | A box with both extents negative has positive area but IoU 0 with itself, so self-IoU 1 needs well-formedness. |
| IouBenchmark.DisjointScoresZero | python/benchmark/types/iou_benchmark.py:29-34 | Boxes apart on some axis score 0.0. If both areas add to 0 the pair raises instead. |
| IouBenchmark.OneSeventhExample | python/benchmark/types/iou_benchmark.py:28-34 | Boxes (0,0,2,2) and (1,1,3,3) give 1/7. |
| IouBenchmark.Row | python/benchmark/types/iou_benchmark.py:38-41 | A row that is built has one entry per box of the second list. |
| IouBenchmark.Matrix | python/benchmark/types/iou_benchmark.py:36-42 | A matrix that is built has one row per box of the first list. |
| IouBenchmark.RowCells | python/benchmark/types/iou_benchmark.py:38-41 | A row is built exactly when every pair in it scores. It then has one entry per box of the second list, each that pair's score, in order. Otherwise it raises what some pair raised. |
| IouBenchmark.MatrixCells | python/benchmark/types/iou_benchmark.py:36-42 | The matrix is built exactly when every pair scores. It then has `len(box_list1)` rows of `len(box_list2)` entries, entry [i][j] being the score of box i against box j. Otherwise it raises what some pair raised. |
| IouBenchmark.IouMatrixCells | python/benchmark/types/iou_benchmark.py:25-42 | The IoU matrix exists exactly when no pair has a zero denominator. It then holds `getvalue` of each pair, in input order. Otherwise it raises ZeroDivisionError. |
| IouBenchmark.EmptyInputs | python/benchmark/types/iou_benchmark.py:36-42 | An empty first list gives no rows. An empty second list gives one empty row per box of the first. |
| IouBenchmark.IouMatrixNaiveVersion | python/benchmark/types/iou_benchmark.py:25-42 | The nested loops return the matrix specification of `getvalue`, or the first exception a pair raises. |
| IouBenchmark.RandomBox | python/benchmark/types/iou_benchmark.py:46-51 | Any four draws of `random.random()` give a well-formed box inside the unit square. |
| PyModel.JoinSplit | python/ligavision/spark/functions/vision.py:259 | Joining the pieces of `s.split(sep)` with `sep` gives back `s`. |
| PyModel.SplitJoin | python/ligavision/spark/functions/vision.py:259 | Splitting a join of separator-free pieces gives back the pieces. |
| PyModel.ParseIntOfIntToString | python/ligavision/spark/functions/vision.py:259 | `int(str(i)) == i` for every integer. |
| PyModel.ParseFloatOfIntToString | python/ligavision/spark/functions/vision.py:251 | `float(str(i)) == i` for every integer. |
| PyModel.Trunc | python/ligavision/spark/functions/vision.py:247 | `int()` of a float truncates toward zero. |
| PyModel.RoundHalfEven | python/ligavision/spark/functions/vision.py:262 | `round(q)` is within 1/2 of `q`. On a tie it is even. |
| PyModel.ComprehensionOk | python/ligavision/spark/functions/vision.py:259 | A list comprehension over a call that may raise is built exactly when every call returns. It then holds each result in order. |
| PyModel.ComprehensionRaise | python/ligavision/spark/functions/vision.py:259 | Otherwise it raises what the first failing call raised, and every call before that one returned. |
| Vision.Contains | python/ligavision/spark/functions/vision.py:247 | `key in data` is dictionary membership on a dict. It raises exactly when `data` is not a dict, string or list. |
| Vision.GetItem | python/ligavision/spark/functions/vision.py:247 | `data[key]` returns a value only for a dict holding `key`, and then returns that entry. |
| Vision.IntOrNone | python/ligavision/spark/functions/vision.py:246-247 | On a dict, `_int_or_none` is None exactly when the key is absent. An integer it returns is what `int()` makes of the entry under a present key of a dict. |
| Vision.IntOrNoneOnDict | python/ligavision/spark/functions/vision.py:246-247 | On a dict holding the key, `_int_or_none` is what `int()` makes of the entry, exception included. |
| Vision.IntOrNoneOfInt | python/ligavision/spark/functions/vision.py:246-247 | An integer entry is returned unchanged. |
| Vision.IntOrNoneOfDecimalText | python/ligavision/spark/functions/vision.py:246-247 | An entry holding the decimal text of `n` gives `n`. |
| Vision.IntOrNoneOnNonDict | python/ligavision/spark/functions/vision.py:246-247 | On a value that is not a dict, `_int_or_none` raises exactly when `key in data` is not False. It then raises TypeError. |
| Vision.FloatOrNone | python/ligavision/spark/functions/vision.py:250-251 | A missing key makes `_float_or_none` raise TypeError. |
| Vision.FloatOrNoneMissing | python/ligavision/spark/functions/vision.py:250-251 | A missing key makes `_float_or_none` raise TypeError from `float(None)`. It never returns None. |
| Vision.FloatOrNonePresent | python/ligavision/spark/functions/vision.py:250-251 | A present int or float entry is returned as a float. A string entry is parsed by `float()`. |
| Vision.FpsOrNone | python/ligavision/spark/functions/vision.py:254-262 | `_fps_or_none` is None exactly when `avg_frame_rate` is absent or None. An integer it returns comes from a text rate. |
| Vision.FpsOfParts | python/ligavision/spark/functions/vision.py:259-262 | An exception from `int()` on a part propagates. A rate is returned exactly when there are two parts and the second is not 0, and it is the first over the second rounded half to even. Two parts with a zero second raise ValueError("avg_frame_rate had 0 time base"). |
| Vision.FpsOrNoneOfFraction | python/ligavision/spark/functions/vision.py:254-262 | For the text `"n/d"`, a zero `d` raises ValueError("avg_frame_rate had 0 time base"). Otherwise the result is the integer nearest `n / d`, the even one on a tie. |
| Vision.FpsOrNoneOfTwoParts | python/ligavision/spark/functions/vision.py:254-262 | For any rate text of two parts that `int()` reads as n and d (signs, padding and leading zeros included), a zero d raises ValueError("avg_frame_rate had 0 time base"). Otherwise the result is n / d rounded half to even. |
| Vision.FpsOrNoneTieDown | python/ligavision/spark/functions/vision.py:262 | A rate of "5/2" is reported as 2. |
| Vision.FpsOrNoneTieUp | python/ligavision/spark/functions/vision.py:262 | A rate of "7/2" is reported as 4. |
| Vision.FpsOrNoneOnePart | python/ligavision/spark/functions/vision.py:259 | A rate with no `/`, whose text `int()` accepts, raises the "not enough values to unpack (expected 2, got 1)" ValueError. |
| Vision.FpsOrNoneTooManyParts | python/ligavision/spark/functions/vision.py:259 | A rate with more than two parts, all of which `int()` accepts, raises the "too many values to unpack (expected 2)" ValueError. |
| Vision.FpsOrNoneMalformedPart | python/ligavision/spark/functions/vision.py:259 | A rate with a part `int()` rejects raises what `int()` raised for the first such part, whatever the number of parts (so "abc" and "a/b/c" raise `int()`'s ValueError). |
| Vision.FpsOrNoneNotText | python/ligavision/spark/functions/vision.py:259 | A rate that is neither None nor text raises AttributeError, since it has no `split`. |
| Vision.Error | python/ligavision/spark/functions/vision.py:265-271 | `_error` returns a dict whose only key is `_errors`. That holds `message`, plus `stderr` and `probe` exactly when they are given, each with its value. |
| Vision.FirstVideo | python/ligavision/spark/functions/vision.py:203-210 | A stream the search returns is a video stream from the list. The search can only raise AttributeError. |
| Vision.FindVideoStream | python/ligavision/spark/functions/vision.py:203-210 | A stream found is a video stream from a list of streams. A `streams` value that is not a list, dict or string raises TypeError, since it cannot be iterated. An iterable one can only raise AttributeError. |
| Vision.FirstVideoSpec | python/ligavision/spark/functions/vision.py:203-210 | The stream search gives None exactly when every stream is a dict that is not video. It returns the first video stream when no non-dict comes before it. It raises AttributeError for the first non-dict that comes before any video stream. |
| Vision.BuildRecord | python/ligavision/spark/functions/vision.py:215-224 | A built record has exactly the eight metadata keys. Its `codec` is the stream's `codec_name` or None. |
| Vision.Assemble | python/ligavision/spark/functions/vision.py:214-226 | After the `try`, the result has exactly either the eight metadata keys or the single key `_errors`. |
| Vision.VideoMetadata | python/ligavision/spark/functions/vision.py:199-226 | A probe result with truthy `_errors` is returned unchanged. Any other result is the probe itself, an eight-key record or a record whose only key is `_errors`. |
| Vision.ProbeErrorPassesThrough | python/ligavision/spark/functions/vision.py:199-201 | The error record made for a failed probe is returned unchanged. |
| Vision.RaisesOnlyFromSearch | python/ligavision/spark/functions/vision.py:199-226 | `video_metadata` raises exactly when there are no errors and the stream search raises. |
| Vision.VideoMetadataOfStreams | python/ligavision/spark/functions/vision.py:199-226 | On ffprobe output without errors whose streams are a list of dicts, `video_metadata` never raises. With no video stream it returns the "No video stream found" record with the rendered probe. Otherwise it returns the record assembled from the first video stream. |
| Vision.MissingDurationIsError | python/ligavision/spark/functions/vision.py:214-226 | A video stream without `duration` yields an error record, not a record with a missing duration. When width, height, nb_frames and the rate read cleanly, that record is `_error(str(e))` with float(None)'s TypeError message and no other entry. |
| Vision.UnknownRateIsError | python/ligavision/spark/functions/vision.py:214-226 | A video stream whose width, height and nb_frames read cleanly and whose rate is "0/0" yields the zero-time-base error record. |
| Vision.BuildRecordOfFields | python/ligavision/spark/functions/vision.py:214-224 | When every reader returns, the result is the eight-key record holding each reader's value in its field, None where a reader gave None. |
| Vision.DurationTextIsAccepted | python/ligavision/spark/functions/vision.py:220 | `float()` reads ffprobe's duration text "10.000000" as 10.0. |
| Vision.WellFormedStream | python/ligavision/spark/functions/vision.py:214-224 | A video stream with integer width and height, decimal-text frame count and bit rate, a duration `float()` accepts (such as the text "10.000000") and a rate "n/d" with `d != 0`, in a probe whose `format` holds a decimal-text size, yields the full record: those values, the frame rate rounded from n/d, and the size. |

## Left out

- `Box2d` itself, its `area` and the vectorised `Box2d.ious`. They are defined outside the files modelled here. `Area` is assumed to be width times height with no clamping.
- Floating point: coordinates, IoU values, durations and frame-rate quotients are exact reals. Float rounding, overflow of large integers converted to float, and infinities and NaN are not modelled.
- The conversion of rows and the result to numpy arrays (`np.asarray`). The matrix is a sequence of rows, so an empty first list gives `[]`, not numpy's array of shape (0,).
- The benchmark's timing with `timeit`, its printing and its command-line arguments.
- RandomBox: `random.uniform` is given its draw of `random.random()` as a parameter, so the randomness itself is not modelled.
- The Spark UDF wrappers and the image UDFs (`to_image`, `image_copy`, `numpy_to_image`, `crop`), and the Spark result schema. They are Spark, PIL and numpy glue.
- `_probe` and the ffmpeg call. The probe result is the input of `VideoMetadata`. Its error record on failure is covered by `ProbeErrorPassesThrough`.
- Error: `stderr.decode("utf-8", "backslashreplace")` is not modelled. The caller passes the decoded text.
- Error: `str(probe)` is not modelled. `VideoMetadata` takes a `render` function standing for it.
- `repr` of a string is approximated by single quotes around it, in exception messages.
- `int()` and `float()` of strings handle ASCII whitespace, a sign, decimal digits and one optional point. Underscores, exponents, `inf`/`nan` and non-ASCII digits are not modelled.
- ParseIntOfIntToString: holds for every integer here. CPython 3.11 `int()` and `str()` refuse decimal text longer than 4300 digits, and that limit is not modelled (nor in `ParseInt`, `ParseFloatOfIntToString` and the lemmas built on them).
- Exception messages follow CPython 3.11. Other versions word some of them differently.
- The Faster R-CNN model wrapper and the configuration module are not part of this model.
