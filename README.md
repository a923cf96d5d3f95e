# my_2d_robot telemetry, modelled in Dafny

The repository is a two-node ROS system for a planar two-link arm.

- The generator node (`my_2d_robo_state_publisher`) publishes two pseudo-random joint angles on the
  `joint_states` topic, once per loop iteration.
- The logger node (`SensorMeasurementData`) receives each message. It computes the end-effector
  point from the two angles and appends one YAML record to an accumulated text. It rewrites the
  whole text to its output file. Once its counter reaches the configured number of samples, it
  calls `ros::shutdown()`.

The project has four modules, one file each:

- `joint_state.dfy` (`JointStateMsg`): the `sensor_msgs::JointState` fields the two nodes touch.
- `state_publisher.dfy` (`StatePublisher`): the publish loop, as a method over the supplied clock
  readings and `rand()` draws. It also has the per-tick sample, the angle range, and the loop
  condition.
- `yaml_log.dfy` (`YamlLog`): the record text `saveJointAnglesEepos` builds. It also has a
  reader for that text, with the round trip proved in both directions.
- `kinematics_logger.dfy` (`KinematicsLogger`): the logger as a class `SensorMeasurementData`.
  - The fields are the node's own; ghost fields hold the records behind the text, how many of them
    the file holds, and how often shutdown was called.
  - Its callback is proved equal to a pure step function `Callback` on a `LoggerState` snapshot.
  - The invariants and the promises of the logger are proved about that step function and about
    `Deliver`, which applies it to a sequence of deliveries.

Outside inputs are parameters:

- The package path and the UTC date stamp are constructor inputs.
- The parameter-server values are a `KinematicsConfig`.
- Whether opening the output file succeeds is a `bool` passed to each callback.
- The clock readings and the `rand()` draws are the publish loop's `ticks`.
- `eePos` is a function value of the configuration and the two angles.
- How yaml-cpp prints a double is a function value `render: real -> string`.

## Model

| member | source | states |
|---|---|---|
| StatePublisher.Position | my_2d_robot/src/my_2d_robo_state_publisher.cpp:23-24 | the angle put into the message: the draw's hundredths, `(rand() % 315) / 100.0` |
| StatePublisher.Sample | my_2d_robot/src/my_2d_robo_state_publisher.cpp:21-32 | the message one iteration publishes: the tick's stamp, names `["joint1","joint2"]` and the two drawn positions in that order |
| StatePublisher.Hundredths | my_2d_robot/src/my_2d_robo_state_publisher.cpp:23-24 | a drawn angle is `rand() % 315` hundredths: below 315 and congruent to the draw |
| StatePublisher.EveryAngleReachable | my_2d_robot/src/my_2d_robo_state_publisher.cpp:23-24 | every value from 0 to 314 hundredths is produced by some draw, so the range is tight |
| StatePublisher.SampleWellFormed | my_2d_robot/src/my_2d_robo_state_publisher.cpp:21-32 | every sample has names exactly `["joint1","joint2"]` and exactly two positions, index-aligned with them. `position[0]` comes from the first draw and `position[1]` from the second, each in [0.00, 3.14]. The stamp is the tick's time |
| StatePublisher.Samples | my_2d_robot/src/my_2d_robo_state_publisher.cpp:19-42 | the messages published for a list of ticks: one per tick, the k-th being the k-th tick's sample |
| StatePublisher.Resize | my_2d_robot/src/my_2d_robo_state_publisher.cpp:28-29 | `std::vector::resize`: the new length, with existing elements kept and the rest default |
| StatePublisher.AsCondition | my_2d_robot/src/my_2d_robo_state_publisher.cpp:19 | `ros::ok` used without a call is a non-null function address, so the condition is always true |
| StatePublisher.PublishLoop | my_2d_robot/src/my_2d_robo_state_publisher.cpp:19-42 | the loop as written publishes one message per tick, the k-th being the sample of the k-th tick, all well formed |
| StatePublisher.AsWrittenPublishesAll | my_2d_robot/src/my_2d_robo_state_publisher.cpp:19-42 | with the always-true condition as written, a loop publishes the sample of every tick, which is what `PublishLoop` returns |
| StatePublisher.AsWrittenGuard | my_2d_robot/src/my_2d_robo_state_publisher.cpp:19 | the answers the condition as written gives before each iteration: true every time |
| StatePublisher.OkRun | my_2d_robot/src/my_2d_robo_state_publisher.cpp:19 | the number of iterations a loop guarded by `ros::ok()` runs: the answers before it are all true and the next one is false |
| StatePublisher.OkRunAllTrue | my_2d_robot/src/my_2d_robo_state_publisher.cpp:19 | a condition that answers true every time lets the loop run through every tick |
| StatePublisher.Published | my_2d_robot/src/my_2d_robo_state_publisher.cpp:19-42 | what a loop hands to `publish` when its condition answers `guard[i]` before iteration i: exactly the samples of the ticks before the first false answer, in order |
| StatePublisher.PublishUntilShutdown | my_2d_robot/src/my_2d_robo_state_publisher.cpp:19-42 | the intended loop publishes what a loop guarded by the successive `ros::ok()` answers publishes: the samples of exactly the ticks before the first false answer, in order, all well formed |
| StatePublisher.ShutdownIgnoredAsWritten | my_2d_robot/src/my_2d_robo_state_publisher.cpp:19 | with shutdown requested before the only tick, the loop as written publishes that tick's sample, while the intended loop publishes nothing |
| YamlLog.LayoutOnto | my_2d_robot/src/joint_states_subscriber.h:148-157 | one record's text followed by a rest: `- joint angles: [a, b]`, a newline, `  end effector position: [x, y]`, the newline appended after the emitter's output |
| YamlLog.Layout | my_2d_robot/src/joint_states_subscriber.h:148-157 | one record's text on its own |
| YamlLog.RecordText | my_2d_robot/src/joint_states_subscriber.h:145-160 | the text for one logged record: its four numbers printed and laid out |
| YamlLog.RenderAll | my_2d_robot/src/joint_states_subscriber.h:150-153 | one rendered record per logged record, in the same order |
| YamlLog.ConcatMap | my_2d_robot/src/joint_states_subscriber.h:132 | the texts of a list of elements, appended one after another |
| YamlLog.Concat | my_2d_robot/src/joint_states_subscriber.h:132 | the layouts of a list of rendered records, appended one after another |
| YamlLog.LogText | my_2d_robot/src/joint_states_subscriber.h:132 | the accumulated text after logging some records: each record's text appended in turn |
| YamlLog.FileText | my_2d_robot/src/joint_states_subscriber.h:135-136 | what a successful write leaves in the file: the accumulated text followed by `std::endl` |
| YamlLog.TakeUntil | my_2d_robot/src/joint_states_subscriber.h:150-153 | splitting before the first delimiter: the halves concatenate back, the first has no delimiter, and the second is empty or starts with it |
| YamlLog.TakeUntilDelimited | my_2d_robot/src/joint_states_subscriber.h:150-153 | the split of a delimiter-free token followed by its delimiter is that token and the rest |
| YamlLog.ParseRecord | my_2d_robot/src/joint_states_subscriber.h:148-157 | whatever the record reader accepts is one record's layout followed by the rest |
| YamlLog.ParseRecordLayout | my_2d_robot/src/joint_states_subscriber.h:148-157 | a record whose numbers contain no `,` or `]` is read back exactly, whatever follows it |
| YamlLog.LayoutOntoAppend | my_2d_robot/src/joint_states_subscriber.h:148-157 | a record laid out in front of a text is the record's text followed by that text |
| YamlLog.LogTextAppend | my_2d_robot/src/joint_states_subscriber.h:132 | logging one more record appends exactly that record's text |
| YamlLog.LogTextPrefix | my_2d_robot/src/joint_states_subscriber.h:132 | every earlier accumulated text is a prefix of every later one |
| YamlLog.ConcatFront | my_2d_robot/src/joint_states_subscriber.h:132 | the text built by appending starts with the first record's layout, followed by the rest |
| YamlLog.ParseLogCons | my_2d_robot/src/joint_states_subscriber.h:148-157 | a record in front of a readable log reads as that record followed by the log's records |
| YamlLog.ParseConcat | my_2d_robot/src/joint_states_subscriber.h:132-157 | the accumulated text reads back as exactly the records that produced it, in order |
| YamlLog.ParseLogSound | my_2d_robot/src/joint_states_subscriber.h:132-157 | every text the reader accepts is a sequence of record layouts |
| YamlLog.FileRoundTrip | my_2d_robot/src/joint_states_subscriber.h:132-160 | a file written after logging some records reads back as exactly those records, each holding its printed numbers |
| KinematicsLogger.EePos | my_2d_robot/src/joint_states_subscriber.h:98-110 | the end-effector point: the node's forward kinematics applied to its configuration and the two angles |
| KinematicsLogger.SaveJointAnglesEepos | my_2d_robot/src/joint_states_subscriber.h:145-160 | the record text for the two current joint positions and a point |
| KinematicsLogger.Initial | my_2d_robot/src/joint_states_subscriber.h:51-95 | the state after construction: counter 0, the configured maximum, empty text, no file, no errors, no shutdown, and the path package path + "/Output_yaml/" + date stamp + "_output.yaml" |
| KinematicsLogger.Callback | my_2d_robot/src/joint_states_subscriber.h:113-142 | one callback's new state: both positions stored, one record appended to the text and the log, the counter moved by one, the file rewritten with the whole text plus a newline or "error" reported, and shutdown called when the new count equals the maximum |
| KinematicsLogger.Deliver | my_2d_robot/src/joint_states_subscriber.h:113-142 | the state after a run of callbacks, applied in arrival order |
| KinematicsLogger.ShutdownAtMostOnce | my_2d_robot/src/joint_states_subscriber.h:134-141 | after n callbacks `ros::shutdown()` has been called once if 1 <= maximum <= n, and otherwise never |
| KinematicsLogger.InitialState | my_2d_robot/src/joint_states_subscriber.h:51-95 | a new node has counter 0, empty text, no file and no shutdown, and satisfies the invariant. Its output path is package path + "/Output_yaml/" + date stamp + "_output.yaml" |
| KinematicsLogger.FileStep | my_2d_robot/src/joint_states_subscriber.h:124-136 | a successful open replaces the file with the whole log, the new record included; a failed open leaves the file as it was. Either way the file holds a complete prefix of the log |
| KinematicsLogger.TextStep | my_2d_robot/src/joint_states_subscriber.h:132-134 | a callback keeps the counter equal to the number of records and the text equal to their layout |
| KinematicsLogger.PointsStep | my_2d_robot/src/joint_states_subscriber.h:117-122 | a callback keeps every logged point equal to `eePos` of its logged angles |
| KinematicsLogger.ShutdownStep | my_2d_robot/src/joint_states_subscriber.h:134-141 | a callback keeps the number of shutdown calls equal to the number of counter values that equalled the maximum |
| KinematicsLogger.CallbackPreservesInvariant | my_2d_robot/src/joint_states_subscriber.h:113-142 | every callback preserves the node's invariant |
| KinematicsLogger.CallbackEffects | my_2d_robot/src/joint_states_subscriber.h:113-142 | one callback's effects: the received `position[0]` and `position[1]` are echoed into one new record. The old text is a prefix of the new one, which is longer by exactly that record's text. The counter moves by one even when the open fails. A successful open rewrites the file with the whole log; a failed one reports "error" and leaves the file alone. The path and the maximum stay unchanged |
| KinematicsLogger.ShutdownOnce | my_2d_robot/src/joint_states_subscriber.h:138-141 | in every reachable state shutdown has been called at most once. It has been requested exactly when the counter has reached a maximum of at least 1 |
| KinematicsLogger.FileHoldsLoggedPrefix | my_2d_robot/src/joint_states_subscriber.h:124-136 | a written output file always reads back as a complete prefix of the logged records, never more than the counter |
| KinematicsLogger.DeliverAppends | my_2d_robot/src/joint_states_subscriber.h:113-142 | a run of callbacks appends one record per message in arrival order, counts each one, and never changes the path or the maximum |
| KinematicsLogger.DeliverPreservesInvariant | my_2d_robot/src/joint_states_subscriber.h:113-142 | a run of callbacks preserves the invariant |
| KinematicsLogger.DeliverFromInitial | my_2d_robot/src/joint_states_subscriber.h:57-142 | after n messages a new node has counter n. The k-th record holds the k-th message's angles and the path is the initial one. Shutdown was requested exactly when n has reached a maximum of at least 1 |
| KinematicsLogger.SensorMeasurementData.constructor | my_2d_robot/src/joint_states_subscriber.h:57-95 | builds the output path step by step, then establishes the initial state and the invariant |
| KinematicsLogger.SensorMeasurementData.JointStatesCallback | my_2d_robot/src/joint_states_subscriber.h:113-142 | the new state is `Callback` of the old state, the received positions and the open's outcome |
| KinematicsLogger.SensorMeasurementData.AppendSample | my_2d_robot/src/joint_states_subscriber.h:132 | the accumulated text grows by the record text, and the record is logged |
| KinematicsLogger.SensorMeasurementData.CountSample | my_2d_robot/src/joint_states_subscriber.h:134-141 | the counter moves by one; shutdown is called when the new count equals the maximum |
| KinematicsLogger.SensorMeasurementData.WriteOutput | my_2d_robot/src/joint_states_subscriber.h:124-136 | an open file is replaced by the whole text plus a newline; a failed open reports "error" and changes nothing else |

## Left out

- `eePos` (my_2d_robot/src/joint_states_subscriber.h:98-110) is a function value. Its double-precision `cos`/`sin` and its double conversion to radians are not modelled. Every property holds whatever the kinematics are.
- How yaml-cpp prints a double is a function value too. The round trip assumes it never prints `,` or `]`.
- The record layout `- joint angles: [a, b]\n  end effector position: [x, y]` is the emitter's block-sequence and flow-sequence style for this call sequence. It is fixed in the model, not derived from yaml-cpp.
- The constructor leaves `position_joint1_` and `position_joint2_` uninitialised. The model starts them at 0.0; every callback assigns both before reading them, so no behaviour depends on it.
- Doubles and the `float` narrowing of `(rand() % 315) / 100.0` are exact reals. The angles are exact hundredths.
- `data_count_` is an unbounded integer. The 32-bit overflow after 2^31 - 1 callbacks is not modelled.
- The date stamp is an input. `strftime`, and the uninitialised `date_holder` when `time` fails, are not modelled.
- Several things are not modelled: `getParam` with a missing parameter, `getPath`, creation of the `Output_yaml` folder, `ROS_INFO`, the subscription, `publish` transport, `ros::Rate::sleep` and `srand`.
- Callback scheduling and the queue of 1000 messages are outside the sequential model. Deliveries are applied one after another.
- A message with fewer than two positions makes the callback read out of bounds. It is a precondition of the callback, not an error path.
- KinematicsLogger.SensorMeasurementData.JointStatesCallback: the method does not restate the invariant in its own contract. It is proved equal to `Callback`, and `CallbackPreservesInvariant` carries the invariant for that function.
- KinematicsLogger.SensorMeasurementData.WriteOutput: it opens the stream and writes it in one step.
  - The source opens it (truncating the file) before the append and writes after the count.
  - Nothing reads the file in between, so the final state is the same.
  - A failed open's report appears in the error log at the same point.

The code and the behaviour a reader might expect differ in a few places. The model follows the code:

- The callback keeps accepting samples after requesting shutdown.
- The counter is compared with `==`, so a maximum below 1 never shuts down.
- The counter moves even when the file cannot be opened.

## Findings

| source | as written | input that shows it | evidently intended | confidence | as-written member | corrected member |
|---|---|---|---|---|---|---|
| my_2d_robot/src/my_2d_robo_state_publisher.cpp:19 | `while (ros::ok)` converts the function's address to `bool`, which is always true, so the loop never stops on shutdown | `ros::ok()` answering false before the first iteration, for example after Ctrl-C: the loop still publishes every tick | `while (ros::ok())`, stopping at the first false answer | high; not executed | StatePublisher.ShutdownIgnoredAsWritten | StatePublisher.PublishUntilShutdown |
