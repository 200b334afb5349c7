/**
  * The environment dashboard: a rolling window of the last twenty sensor
  * samples and the threshold badges for temperature and humidity.
  */
module TemperaturePage {
  import opened Wrappers

  /** One reading (`SensorData`); the timestamp is the display string. */
  datatype SensorData = SensorData(temp: real, humidity: real, timestamp: string)

  /** The page state `fetchData` updates. */
  datatype Dashboard = Dashboard(data: seq<SensorData>, currentData: Option<SensorData>, isConnected: bool)

  /** How many samples the chart keeps. */
  const WindowSize: nat := 20

  /** `[...prev, point].slice(-20)`. */
  function PushSample(window: seq<SensorData>, point: SensorData): (r: seq<SensorData>)
    ensures |r| == if |window| + 1 < WindowSize then |window| + 1 else WindowSize
    ensures |r| <= WindowSize && r[|r| - 1] == point
    ensures r == (window + [point])[|window| + 1 - |r|..]
  {
    var updated := window + [point];
    if |updated| <= WindowSize then updated else updated[|updated| - WindowSize..]
  }

  /** `fetchData` after its sample is drawn: the newest point is shown and charted. */
  function FetchData(st: Dashboard, point: SensorData): (r: Dashboard)
    ensures r.currentData == Some(point) && r.isConnected
    ensures r.data == PushSample(st.data, point)
  {
    Dashboard(PushSample(st.data, point), Some(point), true)
  }

  /** The dashboard after `fetchData` ran once per sample, in order. */
  function AfterSamples(st: Dashboard, samples: seq<SensorData>): Dashboard
    decreases |samples|
  {
    if samples == [] then st
    else AfterSamples(FetchData(st, samples[0]), samples[1..])
  }

  function LastN(s: seq<SensorData>, n: nat): (r: seq<SensorData>)
  {
    if |s| <= n then s else s[|s| - n..]
  }

  /**
    * Whatever samples arrive, the window is the last twenty of the charted
    * points followed by the samples, in arrival order.
    */
  lemma {:induction false} WindowIsLastSamples(start: Dashboard, samples: seq<SensorData>)
    requires |start.data| <= WindowSize
    ensures AfterSamples(start, samples).data == LastN(start.data + samples, WindowSize)
    decreases |samples|
  {
    if samples != [] {
      var next := FetchData(start, samples[0]);
      assert AfterSamples(start, samples) == AfterSamples(next, samples[1..]);
      WindowIsLastSamples(next, samples[1..]);
      LastNPush(start.data, samples[0], samples[1..]);
      assert start.data + [samples[0]] + samples[1..] == start.data + samples by {
        assert samples == [samples[0]] + samples[1..];
      }
    } else {
      assert start.data + samples == start.data;
    }
  }

  /** After a run of samples the current reading is the newest one. */
  lemma {:induction false} CurrentIsNewest(start: Dashboard, samples: seq<SensorData>)
    requires samples != []
    ensures AfterSamples(start, samples).currentData == Some(samples[|samples| - 1])
    decreases |samples|
  {
    var next := FetchData(start, samples[0]);
    assert AfterSamples(start, samples) == AfterSamples(next, samples[1..]);
    if samples[1..] != [] {
      CurrentIsNewest(next, samples[1..]);
      assert samples[1..][|samples[1..]| - 1] == samples[|samples| - 1];
    }
  }

  /** Pushing then keeping the last twenty equals keeping the last twenty of everything. */
  lemma LastNPush(window: seq<SensorData>, point: SensorData, more: seq<SensorData>)
    requires |window| <= WindowSize
    ensures LastN(PushSample(window, point) + more, WindowSize) == LastN(window + [point] + more, WindowSize)
  {
    var all := window + [point] + more;
    var pushed := PushSample(window, point);
    var drop := |window| + 1 - |pushed|;
    assert pushed + more == all[drop..];
  }

  /** The three badges; `Name` is the text shown. */
  datatype Level = Low | Normal | High
  {
    function Name(): string
    {
      match this
      case Low => "low"
      case Normal => "normal"
      case High => "high"
    }
  }

  datatype Status = Status(status: Level, color: string, bg: string)

  /** `getTemperatureStatus`: below 18 is low, above 28 high, 18 to 28 inclusive normal. */
  function TemperatureStatus(temp: real): (r: Status)
    ensures r.status == Low <==> temp < 18.0
    ensures r.status == High <==> temp > 28.0
    ensures r.status == Normal <==> 18.0 <= temp <= 28.0
  {
    if temp < 18.0 then Status(Low, "text-blue-600", "bg-blue-100")
    else if temp > 28.0 then Status(High, "text-red-600", "bg-red-100")
    else Status(Normal, "text-green-600", "bg-green-100")
  }

  /** `getHumidityStatus`: below 30 is low, above 70 high, 30 to 70 inclusive normal. */
  function HumidityStatus(humidity: real): (r: Status)
    ensures r.status == Low <==> humidity < 30.0
    ensures r.status == High <==> humidity > 70.0
    ensures r.status == Normal <==> 30.0 <= humidity <= 70.0
  {
    if humidity < 30.0 then Status(Low, "text-orange-600", "bg-orange-100")
    else if humidity > 70.0 then Status(High, "text-blue-600", "bg-blue-100")
    else Status(Normal, "text-green-600", "bg-green-100")
  }

  function Rank(l: Level): nat
  {
    match l
    case Low => 0
    case Normal => 1
    case High => 2
  }

  /** A warmer reading never gets a lower badge; likewise for humidity. */
  lemma StatusMonotone(a: real, b: real)
    requires a <= b
    ensures Rank(TemperatureStatus(a).status) <= Rank(TemperatureStatus(b).status)
    ensures Rank(HumidityStatus(a).status) <= Rank(HumidityStatus(b).status)
  {
  }
}
