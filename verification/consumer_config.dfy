/** The sensor consumer's configuration: a master address and one sensor with a topic,
    a message type and a name. */
module ConsumerConfig {
  import opened Wrappers
  import opened Validation

  datatype SensorConfig = SensorConfig(topic: string, typeName: string, name: string)

  /** `sensor` is `None` when the key is absent or null. */
  datatype RosBridgeConfig = RosBridgeConfig(primaryUri: string, sensor: Option<SensorConfig>)

  const PrimaryUriRequired: string := "primary_uri is required"
  const SensorRequired: string := "sensor is required"
  const TopicRequired: string := "topic is required"
  const NameRequired: string := "sensor name is required"
  const TypeRequired: string := "sensor type is required"

  function Validate(cfg: RosBridgeConfig): (v: Verdict)
    ensures v.Accepted? ==> v.deps == []
    ensures !v.NilDereference?
  {
    if cfg.primaryUri == "" then Rejected(PrimaryUriRequired)
    else if cfg.sensor.None? then Rejected(SensorRequired)
    else if cfg.sensor.value.topic == "" then Rejected(TopicRequired)
    else if cfg.sensor.value.name == "" then Rejected(NameRequired)
    else if cfg.sensor.value.typeName == "" then Rejected(TypeRequired)
    else Accepted([])
  }

  /** First error wins: a present sensor is checked as the list primary_uri, topic, name,
      type, and a missing sensor is reported right after primary_uri. */
  lemma ValidateFirstError(cfg: RosBridgeConfig)
    ensures cfg.sensor.Some? ==>
      Validate(cfg) == VerdictOf([
        Required(cfg.primaryUri, PrimaryUriRequired),
        Required(cfg.sensor.value.topic, TopicRequired),
        Required(cfg.sensor.value.name, NameRequired),
        Required(cfg.sensor.value.typeName, TypeRequired)])
    ensures cfg.sensor.None? ==> Validate(cfg) == VerdictOf([
        Required(cfg.primaryUri, PrimaryUriRequired),
        Required("", SensorRequired)])
  {
    var c0 := Required(cfg.primaryUri, PrimaryUriRequired);
    if cfg.sensor.Some? {
      var s := cfg.sensor.value;
      var c := [c0, Required(s.topic, TopicRequired), Required(s.name, NameRequired), Required(s.typeName, TypeRequired)];
      assert c[1..] == [c[1], c[2], c[3]] && c[1..][1..] == [c[2], c[3]] && c[1..][1..][1..] == [c[3]];
    } else {
      var c := [c0, Required("", SensorRequired)];
      assert c[1..] == [c[1]];
    }
  }
}
