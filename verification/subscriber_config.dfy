/** The sensor subscriber's configuration: a master address, an optional local host,
    and one sensor with a topic and a message type. */
module SubscriberConfig {
  import opened Wrappers
  import opened Validation

  datatype SensorConfig = SensorConfig(topic: string, messageType: string)

  /** `sensor` is `None` when the key is absent or null. */
  datatype RosBridgeConfig = RosBridgeConfig(primaryUri: string, host: string, sensor: Option<SensorConfig>)

  const PrimaryUriRequired: string := "primary_uri is required"
  const SensorRequired: string := "sensor is required"
  const TopicRequired: string := "topic is required"
  const TypeRequired: string := "sensor type is required"

  function Validate(cfg: RosBridgeConfig): (v: Verdict)
    ensures v.Accepted? ==> v.deps == []
    ensures !v.NilDereference?
  {
    if cfg.primaryUri == "" then Rejected(PrimaryUriRequired)
    else if cfg.sensor.None? then Rejected(SensorRequired)
    else if cfg.sensor.value.topic == "" then Rejected(TopicRequired)
    else if cfg.sensor.value.messageType == "" then Rejected(TypeRequired)
    else Accepted([])
  }

  /** First error wins: a present sensor is checked as the list primary_uri, topic,
      message type, and a missing sensor is reported right after primary_uri. */
  lemma ValidateFirstError(cfg: RosBridgeConfig)
    ensures cfg.sensor.Some? ==>
      Validate(cfg) == VerdictOf([
        Required(cfg.primaryUri, PrimaryUriRequired),
        Required(cfg.sensor.value.topic, TopicRequired),
        Required(cfg.sensor.value.messageType, TypeRequired)])
    ensures cfg.sensor.None? ==> Validate(cfg) == VerdictOf([
        Required(cfg.primaryUri, PrimaryUriRequired),
        Required("", SensorRequired)])
  {
    var c0 := Required(cfg.primaryUri, PrimaryUriRequired);
    if cfg.sensor.Some? {
      var c := [c0, Required(cfg.sensor.value.topic, TopicRequired), Required(cfg.sensor.value.messageType, TypeRequired)];
      assert c[1..] == [c[1], c[2]] && c[1..][1..] == [c[2]];
    } else {
      var c := [c0, Required("", SensorRequired)];
      assert c[1..] == [c[1]];
    }
  }

  /** The host is never checked. */
  lemma HostNeverChecked(cfg: RosBridgeConfig, host: string)
    ensures Validate(cfg.(host := host)) == Validate(cfg)
  {
  }
}
