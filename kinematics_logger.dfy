/** The kinematics logger node (`SensorMeasurementData`): for every received joint state it
    computes the end-effector point, appends a record to its accumulated YAML text, rewrites the
    whole text to its output file and asks ROS to shut down once the configured number of samples
    has been counted. */
module KinematicsLogger {
  import opened JointStateMsg
  import opened YamlLog

  /** The parameters read from the parameter server: link lengths and joint offsets (degrees). */
  datatype KinematicsConfig = KinematicsConfig(link1: real, link2: real, theta1Offset: real, theta2Offset: real)

  /** `eePos`: the trigonometric forward kinematics, taken as given. */
  type ForwardKinematics = (KinematicsConfig, real, real) -> Point

  /** What the node holds fixed for its lifetime: its configuration, its kinematics and how the
      YAML emitter prints a double. */
  datatype NodeParams = NodeParams(config: KinematicsConfig, forwardKinematics: ForwardKinematics, render: Render)

  const OutputFolder := "/Output_yaml"
  const OutputSuffix := "_output.yaml"

  /** The node's state, field by field, with the records behind the text (`records`), how many of
      them the output file holds (`persisted`) and how often `ros::shutdown()` was called. */
  datatype LoggerState = LoggerState(
    positionJoint1: real,
    positionJoint2: real,
    outputPath: string,
    outputDataYaml: string,
    dataCount: int,
    dataNumMax: int,
    shutdownRequested: bool,
    fileContents: string,
    errorLog: seq<string>,
    records: seq<LogRecord>,
    persisted: nat,
    shutdownCalls: nat)

  /** One delivered message and whether opening the output file succeeds while handling it. */
  datatype Delivery = Delivery(msg: JointState, fileOpens: bool)

  function EePos(p: NodeParams, joint1: real, joint2: real): Point
  {
    p.forwardKinematics(p.config, joint1, joint2)
  }

  /** `saveJointAnglesEepos`: the record text for the current joint positions and a point. */
  function SaveJointAnglesEepos(p: NodeParams, joint1: real, joint2: real, eePosition: Point): string
  {
    RecordText(LogRecord(joint1, joint2, eePosition), p.render)
  }

  /** The state right after construction. The constructor leaves the two joint positions
      uninitialised; every callback assigns both before reading them, so 0.0 stands for them. */
  function Initial(packagePath: string, dateStamp: string, dataPointCount: int): LoggerState
  {
    LoggerState(0.0, 0.0, packagePath + OutputFolder + "/" + dateStamp + OutputSuffix, "",
                0, dataPointCount, false, "", [], [], 0, 0)
  }

  /** The effect of one `jointStatesCallback`. */
  function Callback(p: NodeParams, s: LoggerState, position: seq<real>, fileOpens: bool): LoggerState
    requires |position| >= 2
  {
    var joint1, joint2 := position[0], position[1];
    var eePosition := EePos(p, joint1, joint2);
    var text := s.outputDataYaml + SaveJointAnglesEepos(p, joint1, joint2, eePosition);
    var count := s.dataCount + 1;
    s.(positionJoint1 := joint1,
       positionJoint2 := joint2,
       errorLog := if fileOpens then s.errorLog else s.errorLog + ["error"],
       outputDataYaml := text,
       records := s.records + [LogRecord(joint1, joint2, eePosition)],
       dataCount := count,
       fileContents := if fileOpens then text + "\n" else s.fileContents,
       persisted := if fileOpens then |s.records| + 1 else s.persisted,
       shutdownRequested := s.shutdownRequested || count == s.dataNumMax,
       shutdownCalls := s.shutdownCalls + if count == s.dataNumMax then 1 else 0)
  }

  ghost predicate Deliverable(ds: seq<Delivery>)
  {
    forall k :: 0 <= k < |ds| ==> |ds[k].msg.position| >= 2
  }

  /** The callbacks for `ds`, one after another in arrival order. */
  function Deliver(p: NodeParams, s: LoggerState, ds: seq<Delivery>): LoggerState
    requires Deliverable(ds)
  {
    if ds == [] then s
    else
      var last := ds[|ds| - 1];
      Callback(p, Deliver(p, s, ds[..|ds| - 1]), last.msg.position, last.fileOpens)
  }

  /** How many times `ros::shutdown()` has been called after `n` callbacks: the k-th callback
      calls it when its incremented counter, k, equals the maximum. */
  function ShutdownCalls(dataNumMax: int, n: nat): nat
  {
    if n == 0 then 0 else ShutdownCalls(dataNumMax, n - 1) + (if n == dataNumMax then 1 else 0)
  }

  /** Shutdown is requested at most once: exactly once from the callback whose counter reaches the
      maximum onwards, and never when the maximum is below 1. */
  lemma {:induction false} ShutdownAtMostOnce(dataNumMax: int, n: nat)
    ensures ShutdownCalls(dataNumMax, n) == if 1 <= dataNumMax <= n then 1 else 0
  {
    if n > 0 {
      ShutdownAtMostOnce(dataNumMax, n - 1);
    }
  }

  /** The output file is never written or holds the whole text of the first `persisted` records. */
  ghost predicate FileConsistent(records: seq<LogRecord>, persisted: nat, fileContents: string, render: Render)
  {
    && persisted <= |records|
    && (persisted == 0 ==> fileContents == "")
    && (persisted > 0 ==> fileContents == FileText(records[..persisted], render))
  }

  /** The counter counts the records and the accumulated text is their layout. */
  ghost predicate TextInvariant(p: NodeParams, s: LoggerState)
  {
    s.dataCount == |s.records| && s.outputDataYaml == LogText(s.records, p.render)
  }

  /** Each logged point is `eePos` of the logged angles. */
  ghost predicate PointsInvariant(p: NodeParams, s: LoggerState)
  {
    forall k :: 0 <= k < |s.records| ==>
      s.records[k].eePosition == EePos(p, s.records[k].joint1, s.records[k].joint2)
  }

  /** `ros::shutdown()` has been called once per counter value equal to the maximum. */
  ghost predicate ShutdownInvariant(s: LoggerState)
  {
    s.shutdownCalls == ShutdownCalls(s.dataNumMax, |s.records|) && s.shutdownRequested == (s.shutdownCalls > 0)
  }

  /** What ties the logger's fields together: the three above, and a file holding a complete
      prefix of the log. */
  ghost predicate Invariant(p: NodeParams, s: LoggerState)
  {
    && TextInvariant(p, s)
    && PointsInvariant(p, s)
    && FileConsistent(s.records, s.persisted, s.fileContents, p.render)
    && ShutdownInvariant(s)
  }

  /** A fresh node: nothing counted, nothing accumulated, no file, no shutdown, and the output
      file named after the package path and the date stamp. */
  lemma InitialState(p: NodeParams, packagePath: string, dateStamp: string, dataPointCount: int)
    ensures Invariant(p, Initial(packagePath, dateStamp, dataPointCount))
    ensures Initial(packagePath, dateStamp, dataPointCount).dataCount == 0
    ensures Initial(packagePath, dateStamp, dataPointCount).outputDataYaml == ""
    ensures Initial(packagePath, dateStamp, dataPointCount).outputPath
            == packagePath + "/Output_yaml/" + dateStamp + "_output.yaml"
  {
  }

  /** One callback keeps the file consistent: a failed open leaves it as it was, a successful one
      replaces it with the text of every record, the new one included. */
  lemma FileStep(records: seq<LogRecord>, entry: LogRecord, persisted: nat, fileContents: string,
                 render: Render, fileOpens: bool)
    requires FileConsistent(records, persisted, fileContents, render)
    ensures fileOpens ==>
      FileConsistent(records + [entry], |records| + 1, LogText(records + [entry], render) + "\n", render)
    ensures !fileOpens ==> FileConsistent(records + [entry], persisted, fileContents, render)
  {
    var longer := records + [entry];
    if fileOpens {
      assert longer[..|records| + 1] == longer;
    } else if persisted > 0 {
      assert longer[..persisted] == records[..persisted];
    }
  }

  lemma TextStep(p: NodeParams, s: LoggerState, position: seq<real>, fileOpens: bool)
    requires |position| >= 2
    requires TextInvariant(p, s)
    ensures TextInvariant(p, Callback(p, s, position, fileOpens))
  {
    var entry := LogRecord(position[0], position[1], EePos(p, position[0], position[1]));
    LogTextAppend(s.records, entry, p.render);
  }

  lemma PointsStep(p: NodeParams, s: LoggerState, position: seq<real>, fileOpens: bool)
    requires |position| >= 2
    requires PointsInvariant(p, s)
    ensures PointsInvariant(p, Callback(p, s, position, fileOpens))
  {
  }

  lemma ShutdownStep(p: NodeParams, s: LoggerState, position: seq<real>, fileOpens: bool)
    requires |position| >= 2
    requires ShutdownInvariant(s) && s.dataCount == |s.records|
    ensures ShutdownInvariant(Callback(p, s, position, fileOpens))
  {
  }

  /** Every callback preserves the invariant. */
  lemma CallbackPreservesInvariant(p: NodeParams, s: LoggerState, position: seq<real>, fileOpens: bool)
    requires |position| >= 2
    requires Invariant(p, s)
    ensures Invariant(p, Callback(p, s, position, fileOpens))
  {
    var entry := LogRecord(position[0], position[1], EePos(p, position[0], position[1]));
    TextStep(p, s, position, fileOpens);
    PointsStep(p, s, position, fileOpens);
    ShutdownStep(p, s, position, fileOpens);
    LogTextAppend(s.records, entry, p.render);
    FileStep(s.records, entry, s.persisted, s.fileContents, p.render, fileOpens);
  }

  /** What one callback promises: the received angles are echoed unchanged into one new record,
      the accumulated text only grows, by exactly that record's text, the counter moves by one
      whether or not the file opened, a successful open rewrites the file with the whole log and a
      failed one reports "error" and leaves the file alone, the output path and the maximum stay. */
  lemma CallbackEffects(p: NodeParams, s: LoggerState, position: seq<real>, fileOpens: bool)
    requires |position| >= 2
    requires Invariant(p, s)
    ensures var s' := Callback(p, s, position, fileOpens);
      && s'.records == s.records + [LogRecord(position[0], position[1], EePos(p, position[0], position[1]))]
      && s.outputDataYaml <= s'.outputDataYaml
      && s'.outputDataYaml[|s.outputDataYaml|..] == RecordText(s'.records[|s.records|], p.render)
      && s'.dataCount == s.dataCount + 1 == |s'.records|
      && (fileOpens ==> s'.fileContents == FileText(s'.records, p.render) && s'.errorLog == s.errorLog)
      && (!fileOpens ==> s'.fileContents == s.fileContents && s'.errorLog == s.errorLog + ["error"])
      && s'.outputPath == s.outputPath && s'.dataNumMax == s.dataNumMax
  {
    CallbackPreservesInvariant(p, s, position, fileOpens);
  }

  /** In every reachable state shutdown has been requested at most once, and it has been requested
      exactly when the counter has reached a maximum of at least 1. */
  lemma ShutdownOnce(p: NodeParams, s: LoggerState)
    requires Invariant(p, s)
    ensures s.shutdownCalls <= 1
    ensures s.shutdownRequested <==> 1 <= s.dataNumMax <= s.dataCount
  {
    ShutdownAtMostOnce(s.dataNumMax, |s.records|);
  }

  /** The output file is always complete: once written it reads back as the first `persisted`
      records, and that is never more than the counter. */
  lemma FileHoldsLoggedPrefix(p: NodeParams, s: LoggerState)
    requires Invariant(p, s) && PlainRender(p.render)
    requires s.fileContents != ""
    ensures ParseFile(s.fileContents) == Some(RenderAll(s.records[..s.persisted], p.render))
    ensures |ParseFile(s.fileContents).value| <= s.dataCount
  {
    FileRoundTrip(s.records[..s.persisted], p.render);
  }

  /** The record one delivered message produces. */
  function Logged(p: NodeParams, d: Delivery): LogRecord
    requires |d.msg.position| >= 2
  {
    LogRecord(d.msg.position[0], d.msg.position[1], EePos(p, d.msg.position[0], d.msg.position[1]))
  }

  lemma DeliverablePrefix(ds: seq<Delivery>, n: nat)
    requires Deliverable(ds) && n <= |ds|
    ensures Deliverable(ds[..n])
  {
    forall k | 0 <= k < n ensures |ds[..n][k].msg.position| >= 2 {
      assert ds[..n][k] == ds[k];
    }
  }

  /** Delivering messages in order appends one record per message, in the same order, and counts
      each of them; the output path and the maximum never change. */
  lemma {:induction false} DeliverAppends(p: NodeParams, s: LoggerState, ds: seq<Delivery>)
    requires Deliverable(ds)
    ensures var r := Deliver(p, s, ds);
      && |r.records| == |s.records| + |ds|
      && r.records[..|s.records|] == s.records
      && (forall k :: 0 <= k < |ds| ==> r.records[|s.records| + k] == Logged(p, ds[k]))
      && r.dataCount == s.dataCount + |ds|
      && r.outputPath == s.outputPath && r.dataNumMax == s.dataNumMax
    decreases |ds|
  {
    if ds != [] {
      var init := ds[..|ds| - 1];
      DeliverablePrefix(ds, |ds| - 1);
      DeliverAppends(p, s, init);
      var before := Deliver(p, s, init);
      var r := Deliver(p, s, ds);
      assert r.records == before.records + [Logged(p, ds[|ds| - 1])];
      forall k | 0 <= k < |ds| ensures r.records[|s.records| + k] == Logged(p, ds[k]) {
        if k < |init| {
          assert init[k] == ds[k];
        }
      }
      assert r.records[..|s.records|] == before.records[..|s.records|];
    }
  }

  /** Delivering messages in order preserves the invariant. */
  lemma {:induction false} DeliverPreservesInvariant(p: NodeParams, s: LoggerState, ds: seq<Delivery>)
    requires Deliverable(ds) && Invariant(p, s)
    ensures Invariant(p, Deliver(p, s, ds))
    decreases |ds|
  {
    if ds != [] {
      DeliverablePrefix(ds, |ds| - 1);
      DeliverPreservesInvariant(p, s, ds[..|ds| - 1]);
      CallbackPreservesInvariant(p, Deliver(p, s, ds[..|ds| - 1]), ds[|ds| - 1].msg.position, ds[|ds| - 1].fileOpens);
    }
  }

  /** After `n` deliveries to a fresh node the counter is `n`, the k-th record holds the k-th
      message's two positions, and shutdown has been requested exactly when `n` has reached a
      maximum of at least 1. */
  lemma DeliverFromInitial(p: NodeParams, packagePath: string, dateStamp: string,
                           dataPointCount: int, ds: seq<Delivery>)
    requires Deliverable(ds)
    ensures var s := Deliver(p, Initial(packagePath, dateStamp, dataPointCount), ds);
      && Invariant(p, s)
      && s.dataCount == |ds| == |s.records|
      && (forall k :: 0 <= k < |ds| ==>
            s.records[k].joint1 == ds[k].msg.position[0] && s.records[k].joint2 == ds[k].msg.position[1])
      && s.outputPath == Initial(packagePath, dateStamp, dataPointCount).outputPath
      && (s.shutdownRequested <==> 1 <= dataPointCount <= |ds|)
  {
    var s0 := Initial(packagePath, dateStamp, dataPointCount);
    InitialState(p, packagePath, dateStamp, dataPointCount);
    DeliverAppends(p, s0, ds);
    DeliverPreservesInvariant(p, s0, ds);
    ShutdownOnce(p, Deliver(p, s0, ds));
  }

  class SensorMeasurementData {
    const params: NodeParams

    var positionJoint1: real
    var positionJoint2: real
    /** The output file path. */
    var outputPath: string
    /** The accumulated YAML text of all records so far. */
    var outputDataYaml: string
    var dataCount: int
    var dataNumMax: int
    /** Set by `ros::shutdown()`. */
    var shutdownRequested: bool
    /** The content of the file at `outputPath` ("" while it has never been written). */
    var fileContents: string
    /** Messages passed to `ROS_ERROR`. */
    var errorLog: seq<string>

    /** The records behind `outputDataYaml`, in arrival order. */
    ghost var records: seq<LogRecord>
    /** How many records the output file holds. */
    ghost var persisted: nat
    /** How many times `ros::shutdown()` has been called. */
    ghost var shutdownCalls: nat

    ghost function State(): LoggerState
      reads this
    {
      LoggerState(positionJoint1, positionJoint2, outputPath, outputDataYaml, dataCount, dataNumMax,
                  shutdownRequested, fileContents, errorLog, records, persisted, shutdownCalls)
    }

    ghost predicate Valid()
      reads this
    {
      Invariant(params, State())
    }

    /** Reads the parameters, fixes the output path and starts with nothing logged. The package
        path, the UTC date stamp and the parameter values come from the environment. */
    constructor (packagePath: string, dateStamp: string, dataPointCount: int, params: NodeParams)
      ensures Valid() && this.params == params
      ensures State() == Initial(packagePath, dateStamp, dataPointCount)
    {
      this.params := params;
      dataCount := 0;
      dataNumMax := dataPointCount;
      positionJoint1, positionJoint2 := 0.0, 0.0;
      var myOutput := packagePath;
      myOutput := myOutput + OutputFolder;
      var check := myOutput;
      myOutput := check;
      myOutput := myOutput + "/" + dateStamp;
      myOutput := myOutput + OutputSuffix;
      outputPath := myOutput;
      outputDataYaml := "";
      shutdownRequested := false;
      fileContents := "";
      errorLog := [];
      records := [];
      persisted := 0;
      shutdownCalls := 0;
      new;
      InitialState(params, packagePath, dateStamp, dataPointCount);
    }

    /** `jointStatesCallback`. `fileOpens` is whether opening the output file for writing succeeds. */
    method JointStatesCallback(msg: JointState, fileOpens: bool)
      requires |msg.position| >= 2
      modifies this
      ensures State() == Callback(params, old(State()), msg.position, fileOpens)
    {
      positionJoint1 := msg.position[0];
      positionJoint2 := msg.position[1];
      var eePosition := EePos(params, positionJoint1, positionJoint2);
      AppendSample(SaveJointAnglesEepos(params, positionJoint1, positionJoint2, eePosition),
                   LogRecord(positionJoint1, positionJoint2, eePosition));
      CountSample();
      // The stream is opened before the append and written after the count; nothing reads
      // the file in between, so its open and its write are taken together here.
      WriteOutput(fileOpens);
    }

    /** Appends one rendered record to `output_data_yaml_`. */
    method AppendSample(line: string, ghost record: LogRecord)
      modifies this
      ensures State() == old(State()).(outputDataYaml := old(outputDataYaml) + line, records := old(records) + [record])
    {
      outputDataYaml := outputDataYaml + line;
      records := records + [record];
    }

    /** Counts one sample, and requests shutdown when the target count is reached. */
    method CountSample()
      modifies this
      ensures var count := old(dataCount) + 1;
        State() == old(State()).(dataCount := count,
                                 shutdownRequested := old(shutdownRequested) || count == dataNumMax,
                                 shutdownCalls := old(shutdownCalls) + if count == dataNumMax then 1 else 0)
    {
      dataCount := dataCount + 1;
      if dataCount == dataNumMax {
        shutdownRequested := true;
        shutdownCalls := shutdownCalls + 1;
      }
    }

    /** Rewrites the output file with the whole log, or reports that it could not be opened. */
    method WriteOutput(fileOpens: bool)
      modifies this
      ensures State() == old(State()).(fileContents := if fileOpens then old(outputDataYaml) + "\n" else old(fileContents),
                                       persisted := if fileOpens then |old(records)| else old(persisted),
                                       errorLog := if fileOpens then old(errorLog) else old(errorLog) + ["error"])
    {
      if fileOpens {
        fileContents := outputDataYaml + "\n";
        persisted := |records|;
      } else {
        errorLog := errorLog + ["error"];
      }
    }
  }
}
