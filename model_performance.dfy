/**
 * `ModelPerformanceResolver`: the frame rate each ML model runs at, from a
 * per-model table of low/high rates chosen by device class, and the
 * requested mode and rate.
 *
 * Every rate in the table and every midpoint of it is a multiple of 0.5,
 * so `real` holds the `Float` values exactly.
 */
module ModelPerformance {
  datatype Mode = Fixed | Dynamic

  datatype Rate = Low | Medium | High

  datatype Performance = Performance(mode: Mode, rate: Rate)

  datatype ModelType = Segmentation | Detection

  datatype CoreModelPerformance = FixedFps(fps: real) | DynamicFps(minFps: real, maxFps: real)

  /** The two ends of a model's frame-rate range. */
  datatype Entry = Entry(low: real, high: real) {
    /** The frame rate for `rate`: the low end, the midpoint, or the high end. */
    function Fps(rate: Rate): real {
      match rate
      case Low => low
      case Medium => (low + high) / 2.0
      case High => high
    }
  }

  const SegmentationHighEnd: Entry := Entry(2.0, 7.0)
  const DetectionHighEnd: Entry := Entry(4.0, 12.0)
  const SegmentationLowEnd: Entry := Entry(2.0, 5.0)
  const DetectionLowEnd: Entry := Entry(4.0, 11.0)

  /** `performanceEntry(for:)`, with the device class passed in. */
  function PerformanceEntry(model: ModelType, isTopDevice: bool): (e: Entry)
    ensures 0.0 < e.low < e.high
    ensures e.low == (if model == Segmentation then 2.0 else 4.0)
    ensures isTopDevice ==> e.high == (if model == Segmentation then 7.0 else 12.0)
    ensures !isTopDevice ==> e.high == (if model == Segmentation then 5.0 else 11.0)
  {
    match model
    case Segmentation => if isTopDevice then SegmentationHighEnd else SegmentationLowEnd
    case Detection => if isTopDevice then DetectionHighEnd else DetectionLowEnd
  }

  /** `coreModelPerformance(for:with:)`. */
  function CoreModelPerformanceFor(model: ModelType, performance: Performance, isTopDevice: bool): (r: CoreModelPerformance)
    ensures performance.mode == Fixed <==> r.FixedFps?
    ensures r.FixedFps? ==> r.fps == PerformanceEntry(model, isTopDevice).Fps(performance.rate)
    ensures r.DynamicFps? ==>
      && r.minFps == PerformanceEntry(model, isTopDevice).low
      && r.maxFps == PerformanceEntry(model, isTopDevice).Fps(performance.rate)
  {
    var entry := PerformanceEntry(model, isTopDevice);
    match performance.mode
    case Fixed => FixedFps(entry.Fps(performance.rate))
    case Dynamic => DynamicFps(entry.Fps(Low), entry.Fps(performance.rate))
  }

  /** A higher rate never gives a lower frame rate, for any entry whose low end is at most its high end. */
  lemma RatesOrdered(e: Entry)
    requires e.low <= e.high
    ensures e.Fps(Low) <= e.Fps(Medium) <= e.Fps(High)
    ensures e.Fps(Low) == e.low && e.Fps(High) == e.high
  {
  }

  /** On the table's entries, where the ends differ, each rate gives its own frame rate. */
  lemma TableRatesDistinct(model: ModelType, isTopDevice: bool)
    ensures var e := PerformanceEntry(model, isTopDevice);
      e.Fps(Low) < e.Fps(Medium) < e.Fps(High)
  {
  }

  /** A dynamic range never ends below where it starts, and is a single point exactly at the low rate. */
  lemma DynamicRangeWellFormed(model: ModelType, rate: Rate, isTopDevice: bool)
    ensures var r := CoreModelPerformanceFor(model, Performance(Dynamic, rate), isTopDevice);
      && r.DynamicFps?
      && r.minFps <= r.maxFps
      && (r.minFps == r.maxFps <==> rate == Low)
  {
    TableRatesDistinct(model, isTopDevice);
  }

  /** The frame rates each table entry gives at the medium rate. */
  lemma MediumRates()
    ensures SegmentationHighEnd.Fps(Medium) == 4.5 && DetectionHighEnd.Fps(Medium) == 8.0
    ensures SegmentationLowEnd.Fps(Medium) == 3.5 && DetectionLowEnd.Fps(Medium) == 7.5
  {
  }

  /** A top device never runs a model slower than another device at the same mode and rate. */
  lemma TopDeviceNeverSlower(model: ModelType, performance: Performance)
    ensures var top := CoreModelPerformanceFor(model, performance, true);
      var other := CoreModelPerformanceFor(model, performance, false);
      && (top.FixedFps? ==> top.fps >= other.fps)
      && (top.DynamicFps? ==> top.minFps == other.minFps && top.maxFps >= other.maxFps)
  {
  }
}
