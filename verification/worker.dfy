/** One request handled by `_worker`: capture a frame, update the published
    temperature and history (`_value`), and colour the frame (`_image`).
    The queue, the thread and the image library are not modelled; the
    one-decimal formatting is a parameter `format`, `math.exp` a parameter `exp`. */
module Worker {
  import opened FrameValidation
  import opened Acquisition
  import opened Temperature
  import opened ThermalHistory
  import opened ColorMap

  /** The camera fields `_value` writes: `temperature` and `thermal_history`. */
  datatype Camera<S> = Camera(temperature: Entry<S>, history: seq<Entry<S>>)

  /** The fields as `__init__` sets them: temperature 0, history of 120 zeros. */
  function Initialised<S>(): Camera<S> {
    Camera(Zero, Initial(Zero))
  }

  /** The camera keeps 120 entries, the newest being the published temperature. */
  ghost predicate Coherent<S>(cam: Camera<S>) {
    |cam.history| == Capacity && cam.history[Capacity - 1] == cam.temperature
  }

  /** `_value`: estimate, format, store and push onto the history. */
  function Value<S>(format: real -> S, cam: Camera<S>, f: Frame): (next: Camera<S>)
    ensures next.temperature == Sample(format(RawEstimate(f)))
    ensures |next.history| == |cam.history|
    ensures |cam.history| > 0 ==>
              next.history[..|next.history| - 1] == cam.history[1..]
              && next.history[|next.history| - 1] == next.temperature
  {
    var sample := Sample(format(RawEstimate(f)));
    Camera(sample, Push(cam.history, sample))
  }

  /** What a completed request leaves behind: the camera fields and the
      coloured 32 x 24 pixel list handed to the image library. */
  datatype Outcome<S> = Rendered(camera: Camera<S>, pixels: seq<Rgb>) | Pending

  /** One dequeued request, over the polls the sensor produces meanwhile.
      Until a frame is accepted the request stays pending and nothing changes. */
  function HandleRequest<S>(format: real -> S, exp: real -> real,
                            cam: Camera<S>, polls: seq<PollOutcome>): (o: Outcome<S>)
    ensures o.Pending? <==> Acquire(polls) == StillRetrying
    ensures o.Rendered? ==>
              && |o.pixels| == FrameSize
              && (forall i :: 0 <= i < |o.pixels| ==> IsByteTriple(o.pixels[i]))
              && o.camera == Value(format, cam, Acquire(polls).frame)
              && o.pixels == Pixels(Acquire(polls).frame, ColorTable(exp))
  {
    match Acquire(polls)
    case StillRetrying => Pending
    case Captured(_, f) => Rendered(Value(format, cam, f), Pixels(f, ColorTable(exp)))
  }

  /** The fresh camera is coherent. */
  lemma InitialisedCoherent<S>()
    ensures Coherent(Initialised<S>())
  {
  }

  /** Handling a request keeps the camera coherent: once a frame is accepted
      the history stays at 120 entries and its newest entry is the
      temperature just published. */
  lemma HandleRequestKeepsCoherent<S>(format: real -> S, exp: real -> real,
                                      cam: Camera<S>, polls: seq<PollOutcome>)
    requires Coherent(cam)
    ensures HandleRequest(format, exp, cam, polls).Rendered? ==>
              Coherent(HandleRequest(format, exp, cam, polls).camera)
  {
  }

  /** The temperature published for a completed request is the formatted
      estimate of the accepted frame, and that estimate lies in [0.75, 399]. */
  lemma PublishedTemperatureInRange<S>(format: real -> S, exp: real -> real,
                                       cam: Camera<S>, polls: seq<PollOutcome>)
    ensures HandleRequest(format, exp, cam, polls).Rendered? ==>
              && HandleRequest(format, exp, cam, polls).camera.temperature
                   == Sample(format(RawEstimate(Acquire(polls).frame)))
              && 0.75 <= RawEstimate(Acquire(polls).frame) <= 399.0
  {
    if Acquire(polls).Captured? {
      RawEstimateOfAcceptedFrame(Acquire(polls).frame);
    }
  }
}
