/** `weather_advice` (utils.py:127-151): at most one temperature message
    chosen by first-match thresholds, at most one humidity message, at most
    one wind message, in that order, joined by single spaces. */
module Advice {
  import opened Json
  import Text

  /** The eight messages the engine can emit. */
  datatype Message =
    | ExtremeHeat | Hot | VeryCold | Cool | Pleasant
    | HighHumidity | LowHumidity
    | StrongWind

  /** Which of the three checks emits a message. */
  datatype Topic = Temperature | Humidity | Wind

  function TopicOf(m: Message): Topic
  {
    match m
    case ExtremeHeat | Hot | VeryCold | Cool | Pleasant => Temperature
    case HighHumidity | LowHumidity => Humidity
    case StrongWind => Wind
  }

  /** Position of a topic in the output: temperature, humidity, wind. */
  function Rank(t: Topic): nat
  {
    match t
    case Temperature => 0
    case Humidity => 1
    case Wind => 2
  }

  /** The text appended for each message. */
  const ExtremeHeatText := "🔥 Extreme heat — stay hydrated and avoid going out."
  const HotText := "🌞 Hot weather — drink plenty of water."
  const VeryColdText := "❄ Very cold — wear warm clothes."
  const CoolText := "🧥 Cool weather — light jacket recommended."
  const PleasantText := "🌤 Pleasant temperature."
  const HighHumidityText := "💧 High humidity — you may feel sticky."
  const LowHumidityText := "🏜 Low humidity — keep your skin hydrated."
  const StrongWindText := "🌬 Strong winds — be cautious outdoors."

  function MessageText(m: Message): string
  {
    match m
    case ExtremeHeat => ExtremeHeatText
    case Hot => HotText
    case VeryCold => VeryColdText
    case Cool => CoolText
    case Pleasant => PleasantText
    case HighHumidity => HighHumidityText
    case LowHumidity => LowHumidityText
    case StrongWind => StrongWindText
  }

  /** The temperature message: the first of >= 38, >= 30, <= 8, <= 15 that
      holds, else pleasant. Read as bands: 38 is extreme heat, 8 is very
      cold, 15 is cool. */
  function TemperatureMessage(t: real): (m: Message)
    ensures TopicOf(m) == Temperature
    ensures m == ExtremeHeat <==> 38.0 <= t
    ensures m == Hot <==> 30.0 <= t < 38.0
    ensures m == VeryCold <==> t <= 8.0
    ensures m == Cool <==> 8.0 < t <= 15.0
    ensures m == Pleasant <==> 15.0 < t < 30.0
  {
    if t >= 38.0 then ExtremeHeat
    else if t >= 30.0 then Hot
    else if t <= 8.0 then VeryCold
    else if t <= 15.0 then Cool
    else Pleasant
  }

  /** The messages, in emission order, for the three optional readings;
      `None` (Python `None`) skips its check. */
  function Messages(temp: Option<real>, humidity: Option<real>, wind: Option<real>): (ms: seq<Message>)
    ensures |ms| <= 3
    ensures temp.Some? ==> |ms| > 0 && ms[0] == TemperatureMessage(temp.value)
    ensures temp.None? && humidity.None? && wind.None? ==> ms == []
  {
    (if temp.Some? then [TemperatureMessage(temp.value)] else [])
    + (if humidity.Some? && humidity.value >= 80.0 then [HighHumidity]
       else if humidity.Some? && humidity.value <= 30.0 then [LowHumidity]
       else [])
    + (if wind.Some? && wind.value >= 10.0 then [StrongWind] else [])
  }

  /** The texts of a message list. */
  function Texts(ms: seq<Message>): (r: seq<string>)
    ensures |r| == |ms|
    ensures forall i :: 0 <= i < |ms| ==> r[i] == MessageText(ms[i])
  {
    if |ms| == 0 then [] else [MessageText(ms[0])] + Texts(ms[1..])
  }

  lemma TextsAppend(ms: seq<Message>, m: Message)
    ensures Texts(ms + [m]) == Texts(ms) + [MessageText(m)]
  {
    var r := Texts(ms + [m]);
    assert |r| == |Texts(ms) + [MessageText(m)]|;
    forall i | 0 <= i < |r| ensures r[i] == (Texts(ms) + [MessageText(m)])[i] {
      assert (ms + [m])[i] == if i < |ms| then ms[i] else m;
    }
  }

  /** `weather_advice(temp, humidity, wind)`: builds the advice list by
      appending under the threshold branches, then joins it with spaces. */
  method WeatherAdvice(temp: Option<real>, humidity: Option<real>, wind: Option<real>)
    returns (advice: string)
    ensures advice == Text.Join(" ", Texts(Messages(temp, humidity, wind)))
  {
    var list: seq<string> := [];
    ghost var emitted: seq<Message> := [];

    if temp.Some? {
      var t := temp.value;
      if t >= 38.0 {
        list := list + [ExtremeHeatText];
      } else if t >= 30.0 {
        list := list + [HotText];
      } else if t <= 8.0 {
        list := list + [VeryColdText];
      } else if t <= 15.0 {
        list := list + [CoolText];
      } else {
        list := list + [PleasantText];
      }
      emitted := [TemperatureMessage(t)];
    }
    assert list == Texts(emitted);

    if humidity.Some? {
      if humidity.value >= 80.0 {
        list := list + [HighHumidityText];
        TextsAppend(emitted, HighHumidity);
        emitted := emitted + [HighHumidity];
      } else if humidity.value <= 30.0 {
        list := list + [LowHumidityText];
        TextsAppend(emitted, LowHumidity);
        emitted := emitted + [LowHumidity];
      }
    }
    assert list == Texts(emitted);

    if wind.Some? && wind.value >= 10.0 {
      list := list + [StrongWindText];
      TextsAppend(emitted, StrongWind);
      emitted := emitted + [StrongWind];
    }
    assert list == Texts(emitted);
    assert emitted == Messages(temp, humidity, wind);
    advice := Text.Join(" ", list);
  }

  /** A temperature reading gives exactly one temperature message, the one
      its band selects; a missing reading gives none. */
  lemma {:induction false} OneTemperatureMessage(temp: Option<real>, humidity: Option<real>, wind: Option<real>)
    ensures var ms := Messages(temp, humidity, wind);
      CountTopic(ms, Temperature) == (if temp.Some? then 1 else 0)
      && (temp.Some? ==> ms[0] == TemperatureMessage(temp.value))
  {
    var ms := Messages(temp, humidity, wind);
    var rest := Messages(None, humidity, wind);
    assert forall i :: 0 <= i < |rest| ==> TopicOf(rest[i]) != Temperature;
    NoTopicCountsZero(rest, Temperature);
    if temp.Some? {
      assert ms == [TemperatureMessage(temp.value)] + rest;
      assert ms[1..] == rest;
    } else {
      assert ms == rest;
    }
  }

  /** How many messages of the list are about topic `t`. */
  function CountTopic(ms: seq<Message>, t: Topic): nat
  {
    if |ms| == 0 then 0 else (if TopicOf(ms[0]) == t then 1 else 0) + CountTopic(ms[1..], t)
  }

  lemma {:induction false} NoTopicCountsZero(ms: seq<Message>, t: Topic)
    requires forall i :: 0 <= i < |ms| ==> TopicOf(ms[i]) != t
    ensures CountTopic(ms, t) == 0
  {
    if |ms| > 0 {
      NoTopicCountsZero(ms[1..], t);
    }
  }

  /** The humidity message is high exactly when humidity is present and at
      least 80, low exactly when it is present and at most 30 (a reading of
      0 is present), and absent otherwise. */
  lemma HumidityMessages(temp: Option<real>, humidity: Option<real>, wind: Option<real>)
    ensures HighHumidity in Messages(temp, humidity, wind)
        <==> humidity.Some? && humidity.value >= 80.0
    ensures LowHumidity in Messages(temp, humidity, wind)
        <==> humidity.Some? && humidity.value <= 30.0
    ensures (exists i :: 0 <= i < |Messages(temp, humidity, wind)|
               && TopicOf(Messages(temp, humidity, wind)[i]) == Humidity)
        <==> humidity.Some? && (humidity.value >= 80.0 || humidity.value <= 30.0)
  {
    var ms := Messages(temp, humidity, wind);
    if humidity.Some? && humidity.value >= 80.0 {
      assert TopicOf(ms[|ms| - 1 - (if wind.Some? && wind.value >= 10.0 then 1 else 0)]) == Humidity;
    } else if humidity.Some? && humidity.value <= 30.0 {
      assert TopicOf(ms[|ms| - 1 - (if wind.Some? && wind.value >= 10.0 then 1 else 0)]) == Humidity;
    }
  }

  /** The wind message appears exactly when wind is present and at least 10. */
  lemma WindMessage(temp: Option<real>, humidity: Option<real>, wind: Option<real>)
    ensures StrongWind in Messages(temp, humidity, wind) <==> wind.Some? && wind.value >= 10.0
  {
  }

  /** Messages come in the order temperature, humidity, wind, with at most
      one of each topic, so never more than three. */
  lemma MessageOrder(temp: Option<real>, humidity: Option<real>, wind: Option<real>)
    ensures var ms := Messages(temp, humidity, wind);
      |ms| <= 3
      && forall i, j :: 0 <= i < j < |ms| ==> Rank(TopicOf(ms[i])) < Rank(TopicOf(ms[j]))
  {
  }

  /** With every reading missing the advice is the empty string. */
  lemma NoReadingsNoAdvice()
    ensures Text.Join(" ", Texts(Messages(None, None, None))) == ""
  {
  }

  /** Seven degrees, 85% humidity and wind 12 give three messages: very
      cold, high humidity, strong wind, in that order. */
  lemma ColdHumidWindy()
    ensures Messages(Some(7.0), Some(85.0), Some(12.0)) == [VeryCold, HighHumidity, StrongWind]
    ensures Text.Join(" ", Texts(Messages(Some(7.0), Some(85.0), Some(12.0))))
         == MessageText(VeryCold) + " " + MessageText(HighHumidity) + " " + MessageText(StrongWind)
  {
    var ms := [VeryCold, HighHumidity, StrongWind];
    assert Texts(ms) == [MessageText(VeryCold), MessageText(HighHumidity), MessageText(StrongWind)];
  }

  /** The boundary readings: 38 is already extreme heat, 30 hot, 8 very
      cold rather than cool, 15 still cool, 20 pleasant. */
  lemma TemperatureBoundaries()
    ensures TemperatureMessage(38.0) == ExtremeHeat && TemperatureMessage(37.9) == Hot
    ensures TemperatureMessage(30.0) == Hot && TemperatureMessage(29.9) == Pleasant
    ensures TemperatureMessage(8.0) == VeryCold && TemperatureMessage(8.1) == Cool
    ensures TemperatureMessage(15.0) == Cool && TemperatureMessage(20.0) == Pleasant
  {
  }
}
