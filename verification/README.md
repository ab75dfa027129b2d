# Thermal camera pipeline — Dafny model

This project models the numerical core of the OnionBot thermal camera
(`thermal_camera.py`). The camera reads 768-reading frames from an MLX90640
infrared sensor and retries until a frame passes three plausibility checks:
no zero reading, maximum at most 300, minimum at least 5. From the frame it
computes a calibrated temperature: the mean of 16 fixed readings, times 1.35,
minus 6. It pushes that temperature onto a 120-entry history. It also colours
every reading through a 1000-entry false-colour table.

Modules, one per component of the worker:

- `Numeric`: `_constrain`, `_map_value`, and Python's `int()` on a float (truncation toward zero).
- `FrameValidation`: the frame type, `max`/`min`, and the three checks in source order.
- `Acquisition`: the retry loop. It runs over a finite sequence of poll outcomes, each a fault (`ValueError`, `RuntimeError`, `OSError`) or a frame. There is a recursive definition and a loop proved equal to it.
- `Temperature`: the centre-square indices, the mean and the affine calibration.
- `ThermalHistory`: the deque of 120 entries with append-then-popleft, over a generic `seq<T>`.
- `ColorMap`: the palette, the Gaussian-sum gradient with its byte clamp, the colour table, and the reading-to-index map.
- `Worker`: one dequeued request — capture, `_value`, and the pixel list of `_image`.

Floats are modelled as `real`. Three things are parameters, because the model
cannot see them: the sensor (a sequence of poll outcomes), `math.exp`
(`exp: real -> real`), and the one-decimal string formatting
(`format: real -> S`). History entries are `Entry<S>`. `Zero` stands for the
integer 0 the deque is created with, and `Sample(s)` for a formatted reading.

Points where the code differs from what its names or comments suggest; the model follows the code:

- Readings equal to 5 or 300 are accepted: the accepted range is `[5, 300]`.
- The "centre square" indices 72–75, 88–91, 104–107 and 120–123 are four runs of four, spaced 16 apart. On a 32-column grid they do not form a 4×4 block, and they are not the centre of the frame. The model keeps the indices as written.
- The image is resized to 240×240 (line 163), not 320×240 as a ×10 upsampling of 32×24 would give. Rendering is not part of this model.

## Model

| member | source | states |
|---|---|---|
| Numeric.Constrain | thermal_camera.py:76-77 | result never exceeds the upper bound; with lo ≤ hi it lies in [lo, hi], is the identity on values in range, lo below the range, hi above it; with lo > hi it is hi |
| Numeric.ConstrainIdempotent | thermal_camera.py:76-77 | clamping an already clamped value changes nothing |
| Numeric.ConstrainMonotone | thermal_camera.py:76-77 | clamping preserves order |
| Numeric.MapValueEndpoints | thermal_camera.py:79-80 | in_min maps to out_min and in_max to out_max, for any non-empty input range |
| Numeric.MapValueMonotone | thermal_camera.py:79-80 | mapping between increasing ranges is monotone |
| Numeric.MapValueRoundTrip | thermal_camera.py:79-80 | mapping into a non-empty range and back returns the input |
| Numeric.Trunc | thermal_camera.py:105-107 | `int()` rounds toward zero: the result is the integer within distance 1 of x on x's side of 0 |
| Numeric.TruncIsFloorOnNonNegative | thermal_camera.py:158 | on clamped, non-negative values `int()` is the floor |
| Numeric.TruncMonotone | thermal_camera.py:158 | truncation preserves order on non-negative values |
| FrameValidation.MaxOf | thermal_camera.py:198 | `max(frame)` is an element of the frame and bounds every element from above |
| FrameValidation.MinOf | thermal_camera.py:205 | `min(frame)` is an element of the frame and bounds every element from below |
| FrameValidation.Validate | thermal_camera.py:193-213 | zero rejection iff the frame holds a 0; over-maximum iff no zero and some reading > 300; under-minimum iff neither and some reading < 5; accepted iff every reading lies in [5, 300] |
| FrameValidation.ZeroCheckSubsumed | thermal_camera.py:193-211 | a frame whose minimum is at least 5 contains no zero, so the zero check adds nothing to acceptance |
| Acquisition.Acquire | thermal_camera.py:177-213 | the loop returns the first poll that is an accepted frame, with the number of polls before it; every earlier poll was a fault or a rejected frame; it keeps retrying exactly when no poll is acceptable |
| Acquisition.RetriedPollsWereRejected | thermal_camera.py:178-211 | each retried poll raised a fault or produced a frame failing validation |
| Acquisition.AcquireLoop | thermal_camera.py:177-213 | the poll-by-poll loop agrees with the recursive definition on every outcome sequence |
| Acquisition.PlausibleFirstFrameAccepted | thermal_camera.py:193-213 | a first frame entirely within [5, 300] is accepted with zero retries |
| Acquisition.UniformFrameAcceptedFirst | thermal_camera.py:193-213 | a frame reading 150.0 everywhere is accepted on the first poll |
| Acquisition.RejectedPrefixIsRetried | thermal_camera.py:178-211 | polls that raised or gave a rejected frame are skipped: putting any number of them in front of the polls leaves the captured frame unchanged and adds their count to the retries |
| Temperature.CentreSquareShape | thermal_camera.py:116-133 | 16 indices, all below 768, strictly increasing hence distinct, four runs of four spaced 16 apart; exactly the x in [72, 124) with (x − 72) mod 16 < 4 |
| Temperature.CentreReadings | thermal_camera.py:115-133 | 16 readings, the k-th taken from the k-th centre index |
| Temperature.SumMonotone | thermal_camera.py:135 | pointwise larger readings have a larger sum |
| Temperature.SumConstant | thermal_camera.py:135 | n copies of v sum to n·v |
| Temperature.RawEstimateMonotone | thermal_camera.py:135-136 | raising centre readings never lowers the estimate |
| Temperature.RawEstimateIgnoresOutside | thermal_camera.py:116-136 | frames agreeing on the centre square have the same estimate |
| Temperature.RawEstimateUniform | thermal_camera.py:135-136 | a uniform centre square of v gives 1.35·v − 6 |
| Temperature.RawEstimateOfHundred | thermal_camera.py:135-136 | a centre square of 100.0 gives 129.0 |
| Temperature.RawEstimateOfAcceptedFrame | thermal_camera.py:135-136 | on an accepted frame the estimate lies in [0.75, 399] |
| ThermalHistory.Initial | thermal_camera.py:69 | the history starts as 120 copies of the zero entry |
| ThermalHistory.Push | thermal_camera.py:141-144 | append-then-popleft keeps the length; the newest entry is the sample and the others are the old history without its head |
| ThermalHistory.PushAll | thermal_camera.py:141-144 | any number of pushes keeps the length |
| ThermalHistory.PushAllWindow | thermal_camera.py:141-144 | after pushing xs the history is the last \|h\| entries of old history followed by xs |
| ThermalHistory.PushAllFewSamples | thermal_camera.py:141-144 | up to capacity the pushed samples fill the newest slots in arrival order |
| ThermalHistory.PushAllManySamples | thermal_camera.py:141-144 | beyond capacity the history is exactly the 120 most recent samples |
| ThermalHistory.InitialHistoryAfterSamples | thermal_camera.py:141-144 | from the initial 120 zeros, n ≤ 120 samples leave 120 − n zeros followed by the samples in arrival order |
| ColorMap.ChannelByte | thermal_camera.py:105-107 | a byte in [0, 255] for any real sum; 0 for sums ≤ 0, 255 for sums ≥ 1, otherwise the floor of sum·255 |
| ColorMap.ChannelByteMonotone | thermal_camera.py:105-107 | a larger sum never gives a smaller byte |
| ColorMap.Gradient | thermal_camera.py:85-108 | every channel is a byte whatever `exp` returns; an empty palette gives black |
| ColorMap.ColorTable | thermal_camera.py:152-153 | the table has 1000 entries, all byte triples |
| ColorMap.ColorIndex | thermal_camera.py:157-158 | the index lies in [0, 999] for every reading; ≤ 20 gives 0, ≥ 200 gives 999, and p in [20, 200] gives the floor of (p − 20)·999/180 |
| ColorMap.ColorIndexInRange | thermal_camera.py:157-158 | for readings in [20, 200] the index is the floor of (p − 20)·999/180 |
| ColorMap.ColorIndexMonotone | thermal_camera.py:157-158 | a warmer reading never gets a lower index |
| ColorMap.Pixels | thermal_camera.py:155-159 | one pixel per reading, each a table entry; readings ≤ 20 get the first entry, readings ≥ 200 the last, and a reading p in [20, 200] the entry at the floor of (p − 20)·999/180 |
| ColorMap.PixelsAreBytes | thermal_camera.py:152-159 | every pixel coloured from the built table is a byte triple |
| Worker.Value | thermal_camera.py:111-146 | the published temperature is the formatted estimate; the history keeps its length, drops its oldest entry and ends with that temperature |
| Worker.HandleRequest | thermal_camera.py:172-219 | a request stays pending exactly while no acceptable frame has arrived; once one has, the camera is updated from that frame and the 768 byte-triple pixels are the colouring of that same frame through the built table |
| Worker.InitialisedCoherent | thermal_camera.py:68-69 | the fresh camera holds 120 entries and its newest equals the initial temperature 0 |
| Worker.HandleRequestKeepsCoherent | thermal_camera.py:139-144 | a completed request keeps the history at 120 entries with the published temperature as the newest |
| Worker.PublishedTemperatureInRange | thermal_camera.py:177-218 | for a completed request the published temperature is the formatted estimate of the accepted frame, and that estimate lies in [0.75, 399] |

## Left out

- Sensor bring-up and I/O (`board`, `busio`, `adafruit_mlx90640`, `getFrame`, refresh rate): hardware calls. Each poll is an abstract outcome. The worker reuses one 768-entry buffer across polls (lines 175, 179), so a poll that raises partway through can leave a mix of old and new readings for the next poll. An arbitrary frame in `Polled(frame)` covers that case, since the model places no constraint on the frame a poll yields.
- `time.sleep` back-off, `time.monotonic` and logging: timing and side effects with no pure behaviour.
- `math.exp` inside `_gaussian`: a transcendental float function. It is a parameter, so the colours of the table's end entries are not stated. With the real `exp` the first entry is a dark blue (the navy anchor at 0.2 still contributes), not black.
- `"{:.1f}".format`: binary-float string formatting. It is an abstract parameter `format`.
- PIL rendering (`putdata`, bicubic resize, rotation, flip, `save`): a foreign library plus file output. The model stops at the pixel list.
- The worker thread, the capacity-1 queue, `task_done`/`join`, the quit event, `start`/`launch`/`quit`, `get_temperature`/`get_thermal_history` and the `data` snapshot: their point is concurrency and publication across threads.
- Floating-point rounding and NaN: readings and all arithmetic are exact reals.
- `cloud.py`, `souschef/sous_API.py`, `souschef/recipes.py`: network upload, HTTP dispatch and a static table, outside the camera core.
- Acquisition.Acquire: the source loop polls forever; the model runs over a finite prefix of polls and reports `StillRetrying` when that prefix holds no acceptable frame.
- ColorMap.Gradient: states only the byte bounds of each channel, not the Gaussian values, because `exp` is abstract.
