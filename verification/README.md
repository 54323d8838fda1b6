# viam-ros-sensor-bridge, modelled in Dafny

The bridge connects sensor components to a ROS 1 graph in both directions:

- the **publisher** component reads other sensors on a timer and publishes each
  reading as a typed ROS message;
- the **subscriber** and **consumer** components subscribe to one ROS topic and serve
  the latest message received as their readings.

Both directions go through the **message layer**, which has three parts:

- a registry maps symbolic type names (`std_msgs/Int8`, …, `ThrottlingStates`) to
  message types;
- a callback table selects the typed subscription callback for a name;
- a converter turns a generic readings map into a typed message and back, by
  marshalling to JSON and unmarshalling.

The model covers the following, each as a Dafny module:

- **Message layer:** `Wire` holds the shapes and the field-wise conversion. `Messages`
  holds the registries, the callback dispatch and the converter.
- **Shared node table:** `Rosnode` is the table that caches one session per master
  address and names nodes with a global counter.
- **Retry loop:** `Retry` models the loop that builds a node.
- **Configuration validators:** `Validation`, `PublisherConfig`, `SubscriberConfig` and
  `ConsumerConfig` model the three validators, which report the first error.
- **Components:** `Publisher`, `Subscriber` and `Consumer` model the three components.
  Each is a step function over a millisecond clock. Every call into the ROS library,
  a sensor or the retry loop is an input of the event that makes it. A step returns
  the new state and the trace of effects it caused, in order: closes, writes and
  logged failures.
- **Support:** `Wrappers` (Option/Result), `Strings` (prefix, substring and decimal
  rendering) and `Ros`. `Ros` defines the opaque handles of the library: nodes,
  publishers and subscribers.

## Model

| member | source | states |
|---|---|---|
| Wire.SchemaNamesDistinct | messages/custom_messages.go:22-33 | the fields of every message type have pairwise distinct Go names, so a readings key addresses at most one field |
| Wire.SchemaRanked | messages/custom_messages.go:22-33 | message types nest without cycles: every field's shape ranks strictly below its message type |
| Wire.ZeroConforms | messages/message_handler.go:57-66 | the value a registry constructor builds (every field at its zero value) has the type's shape and holds no NaN or infinity |
| Wire.DecodeSound | messages/message_handler.go:77-80 | whatever unmarshalling accepts has the shape of the target and is finite |
| Wire.DecodeListSound | messages/message_handler.go:77-80 | an unmarshalled slice has one element per JSON element, each of the element shape |
| Wire.DecodeFieldsSound | messages/message_handler.go:77-80 | an unmarshalled struct has one value per declared field, each of that field's shape |
| Wire.DecodeFieldsFieldwise | messages/message_handler.go:77-80 | a struct unmarshals exactly when each declared field does on its own, and then each field holds what its own key gives (zero when absent) |
| Wire.DecodeFieldsOkIff | messages/message_handler.go:77-80 | fields `j..` of a struct unmarshal exactly when each of them, looked up by its own name, does |
| Wire.DecodeFieldsValues | messages/message_handler.go:77-80 | when fields `j..` unmarshal, there is one value per field and each is what its own key gives (zero when absent) |
| Wire.DecodeStructFieldwise | messages/message_handler.go:77-80 | unmarshalling an object into a message succeeds iff every field does, and the result has the target type and one value per field, taken field by field; it fails with a time field's own error exactly when some time field rejects its value, and with a type error otherwise |
| Wire.DecodeErrors | messages/message_handler.go:77-80 | unmarshalling fails only with a type error (wrong shape, or an integer out of the field's range) or with a time field's own parse error, and the latter only for a kind that holds a time |
| Wire.DecodeListErrors | messages/message_handler.go:77-80 | a slice fails to unmarshal only with a type error or a time error, and only with a type error when its element holds no time |
| Wire.DecodeFieldsErrors | messages/message_handler.go:77-80 | a struct fails to unmarshal with a time field's error exactly when one of its fields rejects its value that way, and otherwise with a type error; with no time field, only a type error is possible |
| Wire.EncodeFailsIffNonFinite | messages/message_handler.go:84-88 | marshalling a message fails exactly when it holds a NaN or infinity, and the error is then an unsupported value |
| Wire.EncodeListOk | messages/message_handler.go:84-88 | a slice marshals iff each element does |
| Wire.DecodeColorRGBA | messages/message_handler_test.go:112-119 | an object whose `R`, `G`, `B`, `A` fit a `float32` unmarshals into the color message holding exactly those four components, its package marker left zero |
| Wire.DecodeColorOverflow | messages/message_handler.go:77-80 | a channel beyond the `float32` range, whichever of `R`, `G`, `B`, `A` it is, makes unmarshalling a color-shaped message fail with a type error, whatever the other channels hold |
| Wire.DecodeFieldsData | messages/message_handler.go:77-80 | the field list of a message with the package marker and `Data` unmarshals `{"Data": v}` to a zero marker and `v` unmarshalled into the field, or fails with that error |
| Wire.DecodeDataField | messages/message_handler.go:77-80 | the same for the message itself: the result is the message with marker zero and `Data` holding the unmarshalled `v` |
| Wire.EncodeFieldsOk | messages/message_handler.go:84-88 | a struct marshals iff each field does |
| Wire.EncodeFieldsSpec | messages/message_handler.go:84-96 | when every field marshals, the object holds each field under its own Go name, with that field's marshalled value (distinct names, so no field overwrites another) |
| Wire.EncodeFieldsKeys | messages/message_handler.go:84-96 | the keys of a marshalled struct are exactly its Go field names |
| Wire.EncodeFinite | messages/message_handler.go:84-96 | marshalling never produces a NaN or infinity |
| Wire.EncodeListFinite | messages/message_handler.go:84-96 | every element of a marshalled slice is finite |
| Wire.EncodeFieldsFinite | messages/message_handler.go:84-96 | every value of a marshalled struct is finite |
| Wire.DecodeFieldsFromValues | messages/message_handler.go:77-80 | when each field, taken from the object by its own name (zero when absent), gives the matching value, the message decodes to exactly those values |
| Wire.EncodeDecodeRoundTrip | messages/message_handler.go:68-96 | a finite, well-shaped value marshals, and unmarshalling the result gives the value back |
| Wire.EncodeListRoundTrip | messages/message_handler.go:68-96 | the same round trip for a slice of finite, well-shaped elements |
| Messages.LookupIn | messages/message_handler.go:57-63 | a name is found iff some registry holds it, and the result is the entry of the first registry that does |
| Messages.GetMessageType | messages/message_handler.go:55-66 | the standard registry is consulted before the custom one; a name in neither gives the type-not-found error; a found name gives a zero-valued message of the registered type |
| Messages.GetCallback | messages/message_handler.go:26-33 | a callback exists exactly for the names some registry holds; it takes the standard registry's type for a standard name and the custom registry's type otherwise |
| Messages.GetSubscriberConfigWithHandler | messages/message_handler.go:35-41 | subscribing is configured exactly for the names the type lookup resolves, with a callback that takes the type the lookup builds; every other name gives type-not-found |
| Messages.StdCallbackTableMatchesRegistry | messages/standard_messages.go:7-80 | the standard callback switch has a case exactly for each name in the standard registry, and each case's callback takes the type that name's constructor builds |
| Messages.CustomCallbackTableMatchesRegistry | messages/custom_messages.go:8-20 | the custom callback switch has a case exactly for the names in the custom registry, and the callback takes the registered type |
| Messages.StdRegistryPrefixed | messages/standard_messages.go:7-30 | every standard registry name carries the `std_msgs/` prefix the dispatcher tests |
| Messages.CustomRegistryShape | messages/custom_messages.go:8-20 | the custom registry holds only `ThrottlingStates`, which lacks the standard prefix, so dispatch reaches the custom callback for it |
| Messages.RegisteredNamesResolve | messages/message_handler.go:57-62 | every registered name resolves to a zero-valued, well-shaped message of its registered type, with the standard registry winning |
| Messages.ConvertToRosMsg | messages/message_handler.go:68-82 | an unknown name fails with type-not-found before anything else; a nil readings map converts to a nil message; an unmarshallable map fails with unsupported value; a map gives a message of the registered type's shape, finite; the only errors are type-not-found, unsupported value, a type error and a time error |
| Messages.ConvertToRosMsgFieldwise | messages/message_handler.go:68-82 | for a known name and a marshallable map: success iff every field unmarshals; each present key fills the same-named field, each absent key leaves the zero value, other keys are ignored; a failure is a time error exactly when some time field rejects its value, and a type error otherwise |
| Messages.ConvertFromRosMsg | messages/message_handler.go:84-96 | a message converts to a map iff it is finite; the map's keys are exactly the message's Go field names, the embedded `Package` marker included; the only error is unsupported value |
| Messages.ConvertRoundTrip | messages/message_handler.go:68-96 | converting a finite message to a map and back under its registered name gives the same message, with integers carried exactly (see "## Left out") |
| Messages.ConvertDataField | messages/message_handler_test.go:26-36 | for a type whose fields are the package marker and `Data`, converting `{"Data": v}` gives the message whose marker is zero and whose `Data` is `v` unmarshalled into the field type, and fails with that unmarshalling's error when it fails |
| Messages.ConvertIntegerData | messages/message_handler_test.go:38-84 | converting an integer into a fixed-width `Data` field succeeds with that integer (marker zero) iff it fits the field's width; otherwise it is a type error |
| Messages.ConvertColorRGBA | messages/message_handler_test.go:112-119 | a map whose R, G, B, A fit a `float32` converts to the color message with those four components and a zero marker |
| Messages.ColorChannelOverflowRejected | messages/message_handler.go:77-80 | a finite colour channel too large for a `float32`, whichever of the four it is, makes the whole conversion fail with a type error |
| Messages.ConvertFloat32Data | messages/message_handler.go:68-82 | a finite number in a `float32` `Data` field is kept (marker zero) iff it rounds to a finite `float32`; otherwise the conversion is a type error |
| Messages.ConvertMapDecodes | messages/message_handler.go:68-82 | for a known name, converting a marshallable map gives exactly what unmarshalling the object into the registered type gives, result or error |
| Messages.ConvertNilReadings | messages/message_handler.go:68-82 | a nil readings map converts to a nil message under every registered name, and fails with type-not-found under any other |
| Messages.HandleMessage | messages/message_handler.go:43-53 | a received message reaches `setLastMessage` exactly once, as its converted map, iff it is finite; otherwise the handler returns unsupported value and stores nothing |
| Messages.Invoke | messages/standard_messages.go:32-78 | a typed callback passes its message to the handler: the map stored, if any, is the handler's single call |
| Rosnode.GetInstance | viamrosnode/rosnode.go:22-41 | a cached address returns its node and leaves the table unchanged; otherwise a failed creation returns the error and leaves the table unchanged, and a successful one stores a node named `viamrosnode_` + address + counter for that master and raises the counter by one |
| Rosnode.ShutdownNodes | viamrosnode/rosnode.go:43-52 | every cached node is closed, the table is emptied, and the name counter is kept |
| Rosnode.NodeNameInjective | viamrosnode/rosnode.go:30 | for one address, different counter values give different node names |
| Rosnode.GetInstancePreservesValid | viamrosnode/rosnode.go:22-41 | each cached node belongs to its address and is named with a counter value already used; a lookup keeps this and never lowers the counter |
| Rosnode.GetInstanceReturnsStoredNode | viamrosnode/rosnode.go:25-27 | once an address has a node, every later lookup returns that node and leaves the table alone, whatever the library would answer |
| Rosnode.FreshNameAfterShutdown | viamrosnode/rosnode.go:30-38 | a node created after a shutdown never reuses the name of a node the shutdown closed for that address |
| Rosnode.RunNamesNodesInOrder | viamrosnode/rosnode.go:22-52 | along any run of lookups and shutdowns, the i-th created node carries the starting counter plus i, and the counter rises by exactly the number of creations |
| Rosnode.RunCreatedNamesDistinct | viamrosnode/rosnode.go:22-52 | along any run, nodes created for one address have pairwise distinct names |
| Rosnode.RunPreservesValid | viamrosnode/rosnode.go:22-52 | every run of lookups and shutdowns keeps the table valid |
| Retry.GetRosNodeWithRetry | utils/common.go:12-36 | the loop returns the node of the first successful attempt, exactly when some attempt succeeds; every earlier attempt failed; each failure logs, sleeps one second and warns on every tenth, so failures equal sleeps and warnings are failures / 10 |
| Retry.FailureTraceCounts | utils/common.go:25-32 | after n failures there are n sleeps and n / 10 warnings, and the last action is a sleep |
| Validation.FirstMissing | ros_sensor_subscriber/config.go:16-32 | the reported message is that of the first empty required field, and none is reported iff every field is set |
| Validation.VerdictOf | ros_sensor_consumer/config.go:16-35 | a first-error-wins check accepts (with no dependencies) iff every required field is non-empty, and otherwise rejects |
| PublisherConfig.Validate | ros_sensor_publisher/config.go:17-40 | an empty address is reported first; a missing sensor list second; with both present the verdict is the sensor list's; the configuration is accepted, with no dependencies, iff the address is set, the list is present and every entry has a topic, name and type |
| PublisherConfig.ValidateSensors | ros_sensor_publisher/config.go:27-39 | the sensor list is accepted iff every entry is present with topic, name and type set |
| PublisherConfig.ValidateSensorsFirstFailure | ros_sensor_publisher/config.go:27-37 | a rejected list is judged by its first incomplete entry, checked topic before name before type; a nil entry dereferences |
| PublisherConfig.EmptySensorListAccepted | ros_sensor_publisher/config.go:23-39 | a present but empty sensor list is accepted |
| PublisherConfig.SampleRateNeverChecked | ros_sensor_publisher/config.go:27-37 | lists that differ only in sample rates get the same verdict: zero and negative rates pass |
| SubscriberConfig.Validate | ros_sensor_subscriber/config.go:16-32 | the validator never dereferences nil and accepts with no dependencies |
| SubscriberConfig.ValidateFirstError | ros_sensor_subscriber/config.go:16-32 | the verdict is first-error-wins over address, topic, type; a missing sensor is reported right after the address |
| SubscriberConfig.HostNeverChecked | ros_sensor_subscriber/config.go:16-32 | the host field never affects the verdict |
| ConsumerConfig.Validate | ros_sensor_consumer/config.go:16-35 | the validator never dereferences nil and accepts with no dependencies |
| ConsumerConfig.ValidateFirstError | ros_sensor_consumer/config.go:16-35 | the verdict is first-error-wins over address, topic, name, type; a missing sensor is reported right after the address |
| Publisher.OnLog | ros_sensor_publisher/component.go:146-167 | a reconnect is requested iff the line is not fatal and contains both "got an error" and "dial tcp"; a fatal line exits; an unknown level is reported as an error; other levels log at their level |
| Publisher.Teardown | ros_sensor_publisher/component.go:224-233 | the publisher is closed before the node, each only if present, and nothing else happens |
| Publisher.Connect | ros_sensor_publisher/component.go:169-209 | the old publisher and node are closed first; a retry loop that never returns leaves the reader blocked, still referring to the closed node; otherwise the new node is bound, and a publisher exists afterwards iff the type is registered and creation succeeded, on the configured topic; at most one failure is logged after the closes; nothing else changes |
| Publisher.EffectiveRate | ros_sensor_publisher/component.go:234-237 | a zero sample rate becomes one sample per second; any other rate is kept |
| Publisher.FirstDelayMs | ros_sensor_publisher/component.go:239 | the first delay as written: never negative (a non-positive duration fires at once); at most one second for rates of at least 1 and zero for every rate above 1; exactly the truncated seconds of `1/rate` while their nanoseconds fit an `int64` |
| Publisher.WrapInt64 | ros_sensor_publisher/component.go:239 | the `int64` product keeps its value modulo 2^64 within the `int64` range, and is unchanged when it already fits |
| Publisher.DurationOf | ros_sensor_publisher/component.go:239 | the float-to-`Duration` conversion truncates toward zero when the result fits an `int64` |
| Publisher.FirstDelayWraps | ros_sensor_publisher/component.go:239 | at one sample per 10^10 seconds the nanosecond product wraps negative and the first tick fires at once |
| Publisher.Start | ros_sensor_publisher/component.go:211-239 | a starting reader is running; if its first retry never returns it is blocked with nothing bound; otherwise the node is bound, its rate defaulted, its debounce clock at the start time and its timer at the first delay, with a publisher iff the type is registered and creation succeeded |
| Publisher.StartWarnsLast | ros_sensor_publisher/component.go:222-237 | a starting reader logs at most one connection failure and then the rate warning, which comes last and appears iff the rate was zero and the retry loop returned |
| Publisher.Tick | ros_sensor_publisher/component.go:252-273 | one effect per tick; a write happens iff the reading and conversion succeed and a publisher exists, and writes the converted message (nil for a nil reading); the timer is re-armed one second later iff they succeed, and left disarmed on either error |
| Publisher.Step | ros_sensor_publisher/component.go:240-274 | a stopped reader, or one stuck in the retry loop, ignores events; a reconnect request within a second of the last is dropped; an accepted one rebinds and restarts the debounce clock, or leaves the reader stuck if the retry never returns; cancellation closes publisher then node, then signals completion; a due timer ticks |
| Publisher.DisarmedReaderNeverWrites | ros_sensor_publisher/component.go:252-273 | once the timer is disarmed the reader never writes again, whatever events follow |
| Publisher.ReadErrorStallsReader | ros_sensor_publisher/component.go:254-258 | a single failed sensor read leaves a reader running but never writing again |
| Publisher.BlockedReaderIgnoresEvents | ros_sensor_publisher/component.go:184-251 | a reader stuck in the retry loop takes no further event: no write, no reconnect, no stop on cancellation, no completion signal |
| Publisher.StartThenCancel | ros_sensor_publisher/component.go:222-251 | a reader that started with a node and is then cancelled closes its publisher (iff it made one) before its node, and signals completion last |
| Publisher.NilReadingWritesNilMessage | ros_sensor_publisher/component.go:254-272 | a nil readings map under a registered type writes a nil message and re-arms the timer |
| Publisher.CadenceIgnoresRate | ros_sensor_publisher/component.go:239-272 | at two samples per second the first tick is immediate and later ticks are a second apart, against a configured period of half a second |
| Publisher.PeriodMs | ros_sensor_publisher/component.go:239 | the configured period, 1/rate seconds, in whole milliseconds (rounded down), and zero for a non-positive rate |
| Publisher.TickIntended | ros_sensor_publisher/component.go:252-273 | the corrected tick: same effects as the tick, timer always re-armed one period later |
| Publisher.StartIntended | ros_sensor_publisher/component.go:234-239 | the corrected start: same effects, first deadline one period away |
| Publisher.StepIntended | ros_sensor_publisher/component.go:240-274 | the corrected step: a due timer ticks with the corrected tick; every other event is handled as written |
| Publisher.IntendedReaderStaysArmed | ros_sensor_publisher/component.go:252-273 | with the corrected tick a running reader always has an armed timer |
| Publisher.IntendedReaderRecovers | ros_sensor_publisher/component.go:252-273 | with the corrected tick a failed read loses one sample only: the next due tick with a convertible reading writes it |
| Publisher.StopSignalsAppend | ros_sensor_publisher/component.go:214-220 | completion signals of two traces add up |
| Publisher.SpawnsCount | ros_sensor_publisher/component.go:104-128 | each configured entry whose lookup succeeds starts one reader with the component's address and host, so an entry listed twice starts two; an entry whose lookup fails starts none |
| Publisher.SpawnsAppend | ros_sensor_publisher/component.go:104-128 | readers start in configuration order: an entry appended to the list adds its reader, if any, after all the others |
| Publisher.TeardownSilent | ros_sensor_publisher/component.go:224-233 | closing the publisher and node gives no completion signal |
| Publisher.StopAllWaitsForEveryReader | ros_sensor_publisher/component.go:57-65 | cancelling gives one completion signal per running reader except those stuck in the retry loop, which never signal; the wait group therefore drains exactly when no running reader is stuck |
| Publisher.CancelAndWait | ros_sensor_publisher/component.go:57-65 | closing returns iff no running reader is stuck in the retry loop, and then has one completion signal per running reader; when it does not return, fewer signals than running readers arrive |
| Publisher.Reconfigure | ros_sensor_publisher/component.go:89-130 | reconfiguration returns iff no running reader is stuck in the retry loop; it then has one completion signal per running reader, and starts, with the component's address and host, one reader per configured entry whose lookup succeeds (an entry listed twice starts two) and none for the others |
| Publisher.CloseHangsWhileRetrying | utils/common.go:19-33 | as written, a reader whose master never answers at start stays stuck whatever events follow, and closing the component never returns |
| Publisher.StepCancellable | utils/common.go:19-33 | the corrected step: a stuck reader returns from the retry on cancellation with nothing to close and signals completion; every other case is as written |
| Publisher.CancellableStopWaitsForEveryReader | ros_sensor_publisher/component.go:57-65 | with the corrected step, cancelling gives exactly one completion signal per running reader, so closing and reconfiguring always return |
| Subscriber.OnLog | ros_sensor_subscriber/component.go:126-143 | a reconnect is queued iff the line is not fatal and contains both "got an error" and "tcp"; a fatal line exits; an unknown level is not logged |
| Subscriber.DialErrorIsTcpError | ros_sensor_subscriber/component.go:139 | every line that makes the publisher reconnect makes the subscriber reconnect too |
| Subscriber.TcpErrorNeedNotBeDialError | ros_sensor_subscriber/component.go:139 | the converse fails: "got an error tcp" makes only the subscriber reconnect |
| Subscriber.Cleanup | ros_sensor_subscriber/component.go:172-183 | the subscriber is closed before the node, each only if present |
| Subscriber.SetLastMessage | ros_sensor_subscriber/component.go:185-191 | the stored map is the received map plus a `Timestamp` key holding the receive time in milliseconds; nothing else changes |
| Subscriber.Connect | ros_sensor_subscriber/component.go:145-170 | cleanup comes first; a retry loop that never returns leaves the component stuck with the old handles referenced; otherwise the new node is bound, and a new subscriber replaces the old only if the type has a callback and subscribing succeeds, else the closed one stays referenced |
| Subscriber.Close | ros_sensor_subscriber/component.go:72-79 | closing returns iff the lock is not held for good; it then cancels the handlers and runs the cleanup, keeping the closed handles referenced, so a later cleanup closes them again |
| Subscriber.Step | ros_sensor_subscriber/component.go:106-143 | a TCP-error log queues a non-forced request; an unblocked handler takes the oldest request, cancelled or not, and acts on it iff it is forced or a second has passed since its last reconnect, rebinding and restarting its clock; a retry that never returns makes the component stuck and blocks the handler; once stuck, nothing happens; configuration and stored message are untouched |
| Subscriber.ReconnectAfterClose | ros_sensor_subscriber/component.go:106-170 | as written, a request queued more than a second after a handler's last reconnect and taken after closing binds a new node and subscriber to the closed component, with no cleanup to come |
| Subscriber.StepIntended | ros_sensor_subscriber/component.go:106-124 | before closing it steps as the handler does; after closing a take is a no-op that only pops the queue, so no effect happens and nothing else changes |
| Subscriber.CancelledRunChangesOnlyQueue | ros_sensor_subscriber/component.go:106-124 | with cancellation checked first, any run of events on a closed component has no effect and changes only the queue |
| Subscriber.ClosedComponentStaysClosed | ros_sensor_subscriber/component.go:72-124 | with cancellation checked first, after closing no run of events reconnects: no effect, the component stays cancelled and unstuck, and its node and subscriber are unchanged |
| Subscriber.ReadingsAfterDelivery | ros_sensor_subscriber/component.go:185-191 | after a finite message arrives the readings are its Go field names (the `Package` marker included) plus `Timestamp`, holding the receive time; an unmarshallable message leaves the readings as they were; while the lock is held for good readings never return |
| Subscriber.ReconfigureForcesReconnect | ros_sensor_subscriber/component.go:87-104 | a reconfiguration queues its forced request behind every request already pending and starts one more, unblocked, handler |
| Subscriber.ForcedTakeAccepted | ros_sensor_subscriber/component.go:113-120 | a forced request at the head of the queue is acted on by any unblocked handler, however recently it last reconnected, which restarts its clock and rebinds the node when the retry returns |
| Subscriber.StuckRetryBlocksComponent | ros_sensor_subscriber/component.go:145-149 | a reconnect whose retry loop never returns holds the lock for good: readings, closing and reconfiguring never return, the handler blocks, and no later event changes anything |
| Subscriber.DebounceDropsEarlyRequests | ros_sensor_subscriber/component.go:113-117 | a non-forced request within a second of the handler's last reconnect is popped, dropped, and changes nothing else |
| Subscriber.FailedConnectClosesSubscriberTwice | ros_sensor_subscriber/component.go:145-183 | when subscribing fails, the subscriber closed by cleanup stays referenced and closing the component closes it again |
| Subscriber.HandlersAccumulate | ros_sensor_subscriber/component.go:87-104 | reconfigurations return exactly when the lock is not held for good; each adds a reconnect handler and none is removed |
| Consumer.ReadingsVerbatim | ros_sensor_consumer/component.go:56-60 | the readings are the stored map verbatim, with no timestamp, and absent before the first message |
| Consumer.Cleanup | ros_sensor_consumer/component.go:124-137 | the subscriber is closed if present; if a node is held, every node of the shared table is shut down and the table emptied; otherwise the table is untouched |
| Consumer.CleanupClosesEveryTableNode | ros_sensor_consumer/component.go:133-136 | a consumer holding a node closes every node in the shared table, including nodes other components hold |
| Consumer.ReconfigureOutcome | ros_sensor_consumer/component.go:93-122 | reconfiguration cleans up first; its error is that of the first failing step (node lookup, type lookup, subscribing); a node error clears the node; only success stores the new subscriber |
| Consumer.ReconfigureRenewsNode | ros_sensor_consumer/component.go:93-102 | a consumer that holds a node always gets a freshly created node on reconfiguration, even for the same address, whose name differs from every closed node's |
| Strings.NatToString | viamrosnode/rosnode.go:30 | the decimal rendering of the node counter is a non-empty string of digits |
| Strings.ParseNatToString | viamrosnode/rosnode.go:30 | parsing the decimal rendering gives the number back |
| Strings.NatToStringInjective | viamrosnode/rosnode.go:30 | distinct counters render differently |

## Left out

- I/O, goroutines, mutexes and the wait group are not modelled; each component is a
  sequence of events. A lock held for good and a wait that never returns appear as `None`
  results and as blocked readers and handlers. The `wg.Add` inside the reader goroutine can
  race with `wg.Wait`. That race is a concurrency effect and is not modelled.
- The reconnect channel's capacity of 100 is not modelled. The model's queue is unbounded,
  so a blocked send on a full channel is not represented.
- Logging is modelled only where it decides something: a fatal log exits the process
  and ends the model. Other log lines appear as effects, or not at all.
- `resource.NativeConfig`, dependency resolution, resource names, `DoCommand` and module
  registration (`module.go`, `init`) are not modelled. Dependency lookup is a set of the
  names that resolve.
- Floating-point values are opaque (`Frac`) apart from integral values. The sample rate is
  an exact `real`, so float64 rounding of `1/rate` is not modelled.
- Publisher.FirstDelayMs: converting a float beyond the `int64` range to a `Duration` is
  implementation-dependent in Go. The model takes the value amd64 gives, the least
  `int64`, which only arises below about 1.1 x 10^-19 samples per second. The `int64` wrap of
  the nanosecond product is modelled.
- Wire.Decode: a number in a `float32` field is kept exactly; its rounding to a `float32`
  is not modelled. Only the overflow bound is: an integral value of magnitude
  2^128 - 2^103 or more is a type error. A fractional value is always below 2^52 and
  always fits. Double rounding of the decimal text at that boundary is not modelled.
- Subscriber.Close: it does not promise that the handlers stop. A handler's `select`
  may take a queued request after closing (see Findings). A handler that picks the
  cancelled context returns, and that return is not modelled, so a closed component's
  handlers may take any number of requests.
- Messages.ConvertToRosMsg: the JSON text is not modelled. Marshalling is field-wise: an
  object keyed by Go field name. The case-insensitive key match of the JSON decoder is
  left out, and only exact keys fill a field.
- Messages.ConvertToRosMsg: a time and a string are distinct value shapes, while in JSON
  both are strings. An RFC 3339 string in a time field, and a time in a string field, are
  rejected with a type error where the Go decoder accepts them. RFC 3339 parsing and
  rendering are not modelled.
- Wire.Decode: a string never unmarshals into a time field, nor a time into a string
  field, for the same reason. A non-string value in a time field fails with the time
  parser's own error, as in Go, but the text of that error is not modelled.
- Messages.ConvertFromRosMsg: the decoder reads every JSON number back as a float64,
  which loses precision above 2^53. The model keeps integers exact. It also renders
  times as a `Time` value rather than an RFC 3339 string.
- Messages.ConvertRoundTrip: it holds for the model, whose map keeps integers exact. In
  Go the map holds float64 numbers, so an integer field beyond 2^53 does not survive the
  trip: an `int64` of 2^53 + 1 comes back as 2^53, and a `uint64` of 2^64 - 1 becomes
  2^64 and is rejected with a type error. The round trip is promised only as far as the
  model's exact map goes.
- Wire.Schema gives every message type the embedded `msg.Package` marker as a leading
  integer `Package` field. The custom message declares it in
  `messages/custom_messages.go`; for the standard types it comes from the generated types
  of the ROS library, which is not part of this model.
- Publisher.Tick: what the library does with a nil message passed to `Write` is not
  modelled. The model records the write.
- The exact count of 22 standard registry entries is not stated as a lemma. The registry
  is a map literal of 22 entries, and Messages.StdCallbackTableMatchesRegistry ties it to
  the callback table entry by entry.
- Retry.GetRosNodeWithRetry: the source loops forever until a node is made. The model
  takes a finite list of attempt outcomes and reports "no node yet" when all fail. The
  components take the loop's answer as an input: a node, or `None` when it never returns.
- The node constructor with a log callback (`viamrosnode.GetInsanceWithLogCallback`) is
  not part of this model. The node it returns is an input of the retry loop.
- `messages/msgs.go` is an older conversion path that nothing else calls. It is not
  modelled.
- The publisher reads a `Host` field that its configuration struct does not declare. The
  model takes the host as an input of the component.
- No domain converter for ThrottlingStates (field-not-found errors and the like) exists
  in the code. Only the generic conversion is modelled.
- The publisher validator accepts an empty sensor list: it rejects only a missing list,
  with the error "sensors is required" (ros_sensor_publisher/config.go:23-25). The model
  follows the code (PublisherConfig.EmptySensorListAccepted).
- `ros_sensor_consumer/config.go` declares the package `ros_sensor_publisher`. This
  build-level oddity has no behaviour to model.
- The time a reconnect finishes, the receive time of a message and the sensor's answer
  are event inputs. Clocks, sensors and the library are not modelled.

## Findings

| source | as written | input that shows it | evidently intended | confidence | as-written member | corrected member |
|---|---|---|---|---|---|---|
| ros_sensor_publisher/component.go:254-264 | a read or conversion error takes `continue` before `timer.Reset`, so the fired timer is never re-armed | a reader whose sensor answers one `Readings` call with an error: the tick logs it and the reader never writes again | a failed sample is skipped and the timer re-armed, so the next period reads again | high (not executed) | Publisher.ReadErrorStallsReader | Publisher.IntendedReaderRecovers |
| ros_sensor_publisher/component.go:239-272 | the first delay converts `1/rate` to a whole number of seconds before scaling, and every later tick is re-armed with one second | sample rate 2: the first tick fires at once and later ticks a second apart | ticks every 1/rate seconds (every half second at rate 2) | high (not executed) | Publisher.CadenceIgnoresRate | Publisher.TickIntended |
| ros_sensor_publisher/component.go:57-65 | `Close` and `reconfigure` cancel the context and then `wg.Wait()`; a reader whose master is unreachable sits in `GetRosNodeWithRetry` (utils/common.go:19-33), which never looks at the context, so it never reaches its `select` and never calls `wg.Done()` | a reader started while the master is down, then `Close`: the wait never returns, and holds the component's lock | cancellation also ends the retry loop, so every reader stops and closing returns | medium (not executed) | Publisher.CloseHangsWhileRetrying | Publisher.CancellableStopWaitsForEveryReader |
| ros_sensor_subscriber/component.go:106-124 | the handler's `select` chooses at random between `ctx.Done()` and a queued request, and a reconnect that waited on the lock runs once `Close` releases it; neither checks the context before `connect` | a TCP-error log queues a request more than a second after a handler's last reconnect, then `Close`: the handler can still take the request and bind a fresh node and subscriber that nothing will close | a handler checks cancellation before reconnecting, so a closed component stays closed | medium (not executed) | Subscriber.ReconnectAfterClose | Subscriber.ClosedComponentStaysClosed |
