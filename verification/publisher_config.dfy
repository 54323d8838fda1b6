/** The sensor publisher's configuration: a master address and a list of sensors, each
    with a topic, a message type, the name of the sensor to read, and a sample rate. */
module PublisherConfig {
  import opened Wrappers
  import opened Validation

  datatype SensorConfig = SensorConfig(topic: string, typeName: string, name: string, sampleRate: real)

  /** `sensors` is `None` when the key is absent or null; an entry is `None` when the
      list holds a null. */
  datatype RosBridgeConfig = RosBridgeConfig(primaryUri: string, sensors: Option<seq<Option<SensorConfig>>>)

  const PrimaryUriRequired: string := "primary_uri is required"
  const SensorsRequired: string := "sensors is required"
  const TopicRequired: string := "topic is required"
  const NameRequired: string := "sensor name is required"
  const TypeRequired: string := "sensor type is required"

  /** The per-sensor checks, in the order the validator makes them. */
  function SensorChecks(s: SensorConfig): seq<Required> {
    [Required(s.topic, TopicRequired), Required(s.name, NameRequired), Required(s.typeName, TypeRequired)]
  }

  /** A sensor entry that passes its checks. */
  predicate SensorComplete(e: Option<SensorConfig>) {
    e.Some? && e.value.topic != "" && e.value.name != "" && e.value.typeName != ""
  }

  /** The loop over the sensors, returning at the first failing check. */
  function ValidateSensors(sensors: seq<Option<SensorConfig>>): (v: Verdict)
    ensures v == Accepted([]) <==> forall i | 0 <= i < |sensors| :: SensorComplete(sensors[i])
    ensures v.Accepted? ==> v.deps == []
    decreases |sensors|
  {
    if |sensors| == 0 then Accepted([])
    else
      match sensors[0]
      case None => NilDereference
      case Some(s) =>
        if s.topic == "" then Rejected(TopicRequired)
        else if s.name == "" then Rejected(NameRequired)
        else if s.typeName == "" then Rejected(TypeRequired)
        else
          assert forall i | 1 <= i < |sensors| :: sensors[i] == sensors[1..][i - 1];
          ValidateSensors(sensors[1..])
  }

  /** The address first, then the presence of the list, then its entries; a
      configuration is accepted exactly when the address is set and every listed
      entry is present and complete. */
  function Validate(cfg: RosBridgeConfig): (v: Verdict)
    ensures cfg.primaryUri == "" ==> v == Rejected(PrimaryUriRequired)
    ensures cfg.primaryUri != "" && cfg.sensors.None? ==> v == Rejected(SensorsRequired)
    ensures cfg.primaryUri != "" && cfg.sensors.Some? ==> v == ValidateSensors(cfg.sensors.value)
    ensures v == Accepted([]) <==>
      && cfg.primaryUri != ""
      && cfg.sensors.Some?
      && forall i | 0 <= i < |cfg.sensors.value| :: SensorComplete(cfg.sensors.value[i])
    ensures v.Accepted? ==> v.deps == []
  {
    if cfg.primaryUri == "" then Rejected(PrimaryUriRequired)
    else if cfg.sensors.None? then Rejected(SensorsRequired)
    else ValidateSensors(cfg.sensors.value)
  }

  /** The verdict for one sensor entry on its own. */
  function EntryVerdict(e: Option<SensorConfig>): Verdict {
    match e
    case None => NilDereference
    case Some(s) => VerdictOf(SensorChecks(s))
  }

  /** An incomplete first entry decides the verdict on its own. */
  lemma {:induction false} IncompleteHeadDecides(sensors: seq<Option<SensorConfig>>)
    requires |sensors| > 0 && !SensorComplete(sensors[0])
    ensures ValidateSensors(sensors) == EntryVerdict(sensors[0])
  {
    if sensors[0].Some? {
      var c := SensorChecks(sensors[0].value);
      assert c[1..] == [c[1], c[2]] && c[1..][1..] == [c[2]];
    }
  }

  /** First error wins: the sensors are checked in list order and, inside a sensor, topic
      before name before type; the verdict is that of the first entry that fails. */
  lemma {:induction false} ValidateSensorsFirstFailure(sensors: seq<Option<SensorConfig>>)
    ensures ValidateSensors(sensors) != Accepted([]) ==>
      exists i | 0 <= i < |sensors| ::
        && !SensorComplete(sensors[i])
        && (forall j | 0 <= j < i :: SensorComplete(sensors[j]))
        && ValidateSensors(sensors) == EntryVerdict(sensors[i])
    decreases |sensors|
  {
    if |sensors| > 0 && ValidateSensors(sensors) != Accepted([]) {
      if !SensorComplete(sensors[0]) {
        IncompleteHeadDecides(sensors);
      } else {
        var tail := sensors[1..];
        assert ValidateSensors(sensors) == ValidateSensors(tail);
        ValidateSensorsFirstFailure(tail);
        var i :| 0 <= i < |tail| && !SensorComplete(tail[i])
          && (forall j | 0 <= j < i :: SensorComplete(tail[j]))
          && ValidateSensors(tail) == EntryVerdict(tail[i]);
        assert sensors[i + 1] == tail[i];
        assert forall j | 0 <= j < i + 1 :: SensorComplete(sensors[j]) by {
          forall j | 0 <= j < i + 1 ensures SensorComplete(sensors[j]) {
            if j > 0 { assert sensors[j] == tail[j - 1]; }
          }
        }
      }
    }
  }

  /** An empty but present sensor list is accepted. */
  lemma EmptySensorListAccepted(primaryUri: string)
    requires primaryUri != ""
    ensures Validate(RosBridgeConfig(primaryUri, Some([]))) == Accepted([])
  {
  }

  /** Two sensor lists that differ only in sample rates. */
  predicate SameButRates(a: seq<Option<SensorConfig>>, b: seq<Option<SensorConfig>>) {
    && |a| == |b|
    && forall i | 0 <= i < |a| ::
      && a[i].Some? == b[i].Some?
      && (a[i].Some? ==>
           && a[i].value.topic == b[i].value.topic
           && a[i].value.name == b[i].value.name
           && a[i].value.typeName == b[i].value.typeName)
  }

  /** The sample rate is never checked: any rate, zero and negative included, gives the
      same verdict. */
  lemma {:induction false} SampleRateNeverChecked(a: seq<Option<SensorConfig>>, b: seq<Option<SensorConfig>>)
    requires SameButRates(a, b)
    ensures ValidateSensors(a) == ValidateSensors(b)
    decreases |a|
  {
    if |a| > 0 {
      assert SameButRates(a[1..], b[1..]) by {
        forall i | 0 <= i < |a| - 1 ensures a[1..][i] == a[i + 1] && b[1..][i] == b[i + 1] {
        }
      }
      SampleRateNeverChecked(a[1..], b[1..]);
    }
  }
}
