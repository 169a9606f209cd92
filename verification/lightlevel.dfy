/**
 * The server's light-level proxy: the configuration read from the
 * environment, the validation of a `/light-level` request against it, the
 * slot-major task list and the per-task results gathered from the upstream
 * optics service.
 */
module LightLevel {
  import opened Wrappers
  import opened Text
  import opened Json
  import opened Env
  import Seqs

  /** The allow-lists and port bounds the server serves at `/light-config`. */
  datatype LightConfig = LightConfig(ip: string, olts: seq<string>, slots: seq<string>, minPort: real, maxPort: real)

  /** `Number(v) || fallback`: a value that reads as `NaN` or as zero gives
      way to the fallback. */
  function NumberOr(v: string, fallback: real): (r: real)
    ensures JsNumber(v).Some? && JsNumber(v).value != 0.0 ==> r == JsNumber(v).value
    ensures JsNumber(v).None? || JsNumber(v) == Some(0.0) ==> r == fallback
    ensures fallback != 0.0 ==> r != 0.0
  {
    match JsNumber(v)
    case Some(x) => if x != 0.0 then x else fallback
    case None => fallback
  }

  /** An allow-list variable read as a comma list. */
  function ListVar(env: Environment, key: string, default: string): (r: seq<string>)
    ensures CleanItems(r)
  {
    CommaList(EnvOr(env, key, default))
  }

  /** A port bound variable read as `Number(v) || fallback`. */
  function PortVar(env: Environment, key: string, default: string, fallback: real): (r: real)
    requires fallback != 0.0
    ensures r != 0.0
  {
    NumberOr(EnvOr(env, key, default), fallback)
  }

  /** The configuration as the server builds it at start-up. */
  function ParseLightConfig(env: Environment): (cfg: LightConfig)
    ensures cfg.olts == Seqs.Filter(TrimAll(Split(EnvOr(env, "LIGHT_ALLOWED_OLTS", ""), ',')), NonBlank)
    ensures cfg.slots == Seqs.Filter(TrimAll(Split(EnvOr(env, "LIGHT_ALLOWED_SLOTS", "LT1,LT2"), ',')), NonBlank)
    ensures CleanItems(cfg.olts) && CleanItems(cfg.slots)
    ensures cfg.minPort != 0.0 && cfg.maxPort != 0.0
  {
    LightConfig(
      EnvOr(env, "LIGHT_IP", "172.30.36.146"),
      ListVar(env, "LIGHT_ALLOWED_OLTS", ""),
      ListVar(env, "LIGHT_ALLOWED_SLOTS", "LT1,LT2"),
      PortVar(env, "LIGHT_MIN_PORT", "1", 1.0),
      PortVar(env, "LIGHT_MAX_PORT", "16", 16.0))
  }

  /** With nothing configured: no OLT allow-list, slots `LT1` and `LT2`,
      ports 1 to 16. */
  lemma DefaultLightConfig()
    ensures ParseLightConfig(map[]) == LightConfig("172.30.36.146", [], ["LT1", "LT2"], 1.0, 16.0)
  {
    var env: Environment := map[];
    assert EnvOr(env, "LIGHT_ALLOWED_OLTS", "") == "";
    assert EnvOr(env, "LIGHT_ALLOWED_SLOTS", "LT1,LT2") == "LT1,LT2";
    assert EnvOr(env, "LIGHT_MIN_PORT", "1") == "1";
    assert EnvOr(env, "LIGHT_MAX_PORT", "16") == "16";
    DefaultLists();
    DefaultPorts();
  }

  lemma DefaultLists()
    ensures CommaList("") == []
    ensures CommaList("LT1,LT2") == ["LT1", "LT2"]
  {
    assert Split("", ',') == [""];
    assert Trim("") == "";
    assert Join(["LT1", "LT2"], ',') == "LT1,LT2";
    CommaListJoin(["LT1", "LT2"]);
  }

  lemma DefaultPorts()
    ensures NumberOr("1", 1.0) == 1.0
    ensures NumberOr("16", 16.0) == 16.0
  {
    assert NatToString(1) == "1";
    JsNumberOfNat(1);
    assert NatToString(16) == "16";
    JsNumberOfNat(16);
  }

  /** An allow-listed configuration variable survives the trip through the
      environment: comma-joined, it is read back item for item. */
  lemma AllowListRoundTrip(env: Environment, slots: seq<string>)
    requires CleanItems(slots)
    ensures ParseLightConfig(env["LIGHT_ALLOWED_SLOTS" := Join(slots, ',')]).slots == slots
  {
    CommaListJoin(slots);
  }

  // ---------------------------------------------------------------------------
  // validation

  /** Why a request was turned away; every rejection is a 400 response. */
  datatype Rejection =
    | MissingField
    | OltNotAllowed
    | SlotNotAllowed(slot: Json)
    | PortOutOfRange(port: Option<real>)

  /** A request that passed validation: the OLT, the slot list and the
      numeric ports. */
  datatype Accepted = Accepted(olt: Json, slots: seq<Json>, ports: seq<real>)

  /** `Array.isArray(v) ? v : [v]`. */
  function AsList(v: Json): seq<Json> {
    if v.JArr? then v.items else [v]
  }

  /** `lightConfig.olts.includes(olt)`: only a string can equal an
      allow-listed name. */
  predicate Listed(names: seq<string>, v: Json) {
    v.JStr? && v.s in names
  }

  predicate OltAllowed(cfg: LightConfig, olt: Json) {
    |cfg.olts| == 0 || Listed(cfg.olts, olt)
  }

  predicate SlotAllowed(cfg: LightConfig, s: Json) {
    |cfg.slots| == 0 || Listed(cfg.slots, s)
  }

  predicate PortAllowed(cfg: LightConfig, p: Option<real>) {
    p.Some? && cfg.minPort <= p.value <= cfg.maxPort
  }

  /** `ports.map(p => Number(p))`; `None` stands for `NaN`. */
  function PortNumbers(ports: seq<Json>): (r: seq<Option<real>>)
    ensures |r| == |ports|
    ensures forall k :: 0 <= k < |ports| ==> r[k] == ToNumber(ports[k])
  {
    seq(|ports|, k requires 0 <= k < |ports| => ToNumber(ports[k]))
  }

  /** The fields a request body is read for: `req.body || {}` destructured. */
  function Field(body: Option<Json>, key: string): Option<Json> {
    if body.Some? && Truthy(body.value) then Get(body.value, key) else None
  }

  /** The missing-field rule: a falsy `olt` or `slot`, or no `port` at all. */
  predicate Missing(body: Option<Json>) {
    !TruthyOpt(Field(body, "olt")) || !TruthyOpt(Field(body, "slot")) || Field(body, "port").None?
  }

  /** The OLT, slot list and port list of a request that names all three. */
  function Olt(body: Option<Json>): Json
    requires !Missing(body)
  {
    Field(body, "olt").value
  }

  function SlotList(body: Option<Json>): seq<Json>
    requires !Missing(body)
  {
    AsList(Field(body, "slot").value)
  }

  function PortList(body: Option<Json>): seq<Json>
    requires !Missing(body)
  {
    AsList(Field(body, "port").value)
  }

  predicate SlotsAllowed(cfg: LightConfig, slots: seq<Json>) {
    forall k :: 0 <= k < |slots| ==> SlotAllowed(cfg, slots[k])
  }

  /** Slot `k` is the first one outside the allow-list: what `slots.find`
      returns. */
  predicate FirstDisallowed(cfg: LightConfig, slots: seq<Json>, k: int) {
    0 <= k < |slots| && !SlotAllowed(cfg, slots[k]) && forall j :: 0 <= j < k ==> SlotAllowed(cfg, slots[j])
  }

  /** The handler's slot gate lets the list through: there is no disallowed
      slot, or the first one is falsy, so `if (invalidSlot)` does not fire. */
  predicate SlotGatePasses(cfg: LightConfig, slots: seq<Json>) {
    forall k :: 0 <= k < |slots| && FirstDisallowed(cfg, slots, k) ==> !Truthy(slots[k])
  }

  predicate PortsAllowed(cfg: LightConfig, ports: seq<Json>) {
    forall k :: 0 <= k < |ports| ==> PortAllowed(cfg, ToNumber(ports[k]))
  }

  /** Port `k` is the first that is not a number within the bounds: what
      `portNums.find` returns. */
  predicate FirstBadPort(cfg: LightConfig, ports: seq<Json>, k: int) {
    0 <= k < |ports| && !PortAllowed(cfg, ToNumber(ports[k]))
    && forall j :: 0 <= j < k ==> PortAllowed(cfg, ToNumber(ports[j]))
  }

  /** `a` carries the request's OLT and slots unchanged and the numbers of
      its ports, one for one. */
  predicate AcceptedFrom(a: Accepted, olt: Json, slots: seq<Json>, ports: seq<Json>) {
    a.olt == olt && a.slots == slots && |a.ports| == |ports|
    && forall k :: 0 <= k < |ports| ==> ToNumber(ports[k]) == Some(a.ports[k])
  }

  /** There is at most one first disallowed slot. */
  lemma FirstDisallowedUnique(cfg: LightConfig, slots: seq<Json>, k: int, m: int)
    requires FirstDisallowed(cfg, slots, k) && FirstDisallowed(cfg, slots, m)
    ensures k == m
  {
  }

  /** The checks after the slot check: every port numeric and in range. */
  function CheckPorts(cfg: LightConfig, olt: Json, slots: seq<Json>, ports: seq<Json>): (r: Result<Accepted, Rejection>)
    ensures r.Success? <==> PortsAllowed(cfg, ports)
    ensures r.Success? ==> AcceptedFrom(r.value, olt, slots, ports)
    ensures r.Failure? ==> exists k :: FirstBadPort(cfg, ports, k) && r.error == PortOutOfRange(ToNumber(ports[k]))
  {
    var nums := PortNumbers(ports);
    match Seqs.FirstIndex(nums, p => !PortAllowed(cfg, p), 0)
    case Some(k) =>
      assert FirstBadPort(cfg, ports, k);
      Failure(PortOutOfRange(nums[k]))
    case None =>
      Success(Accepted(olt, slots, seq(|nums|, k requires 0 <= k < |nums| => nums[k].value)))
  }

  /** The `/light-level` validation with the slot check the allow-list is
      meant to enforce: any slot outside a non-empty allow-list rejects the
      request, naming the first such slot. */
  function Validate(cfg: LightConfig, body: Option<Json>): (r: Result<Accepted, Rejection>)
    ensures r == Failure(MissingField) <==> Missing(body)
    ensures r == Failure(OltNotAllowed) <==> !Missing(body) && !OltAllowed(cfg, Olt(body))
    ensures r.Failure? && r.error.SlotNotAllowed? <==>
              !Missing(body) && OltAllowed(cfg, Olt(body)) && !SlotsAllowed(cfg, SlotList(body))
    ensures r.Failure? && r.error.SlotNotAllowed? ==>
              !Missing(body) && exists k :: FirstDisallowed(cfg, SlotList(body), k) && r.error.slot == SlotList(body)[k]
    ensures r.Failure? && r.error.PortOutOfRange? ==>
              !Missing(body) && exists k :: FirstBadPort(cfg, PortList(body), k) && r.error.port == ToNumber(PortList(body)[k])
    ensures r.Success? <==>
              !Missing(body) && OltAllowed(cfg, Olt(body)) && SlotsAllowed(cfg, SlotList(body))
              && PortsAllowed(cfg, PortList(body))
    ensures r.Success? ==> !Missing(body) && AcceptedFrom(r.value, Olt(body), SlotList(body), PortList(body))
  {
    if Missing(body) then Failure(MissingField)
    else
      var olt := Olt(body);
      var slots := SlotList(body);
      var ports := PortList(body);
      if !OltAllowed(cfg, olt) then Failure(OltNotAllowed)
      else
        match Seqs.FirstIndex(slots, s => !SlotAllowed(cfg, s), 0)
        case Some(k) =>
          assert FirstDisallowed(cfg, slots, k);
          Failure(SlotNotAllowed(slots[k]))
        case None => CheckPorts(cfg, olt, slots, ports)
  }

  /** The validation as the handler writes it: the first disallowed slot is
      looked up with `find`, and the request is rejected only if that slot
      is truthy. A disallowed slot placed after a falsy one is let through. */
  function ValidateAsWritten(cfg: LightConfig, body: Option<Json>): (r: Result<Accepted, Rejection>)
    ensures r == Failure(MissingField) <==> Missing(body)
    ensures r == Failure(OltNotAllowed) <==> !Missing(body) && !OltAllowed(cfg, Olt(body))
    ensures r.Failure? && r.error.SlotNotAllowed? <==>
              !Missing(body) && OltAllowed(cfg, Olt(body)) && !SlotGatePasses(cfg, SlotList(body))
    ensures r.Failure? && r.error.SlotNotAllowed? ==>
              !Missing(body) && exists k :: FirstDisallowed(cfg, SlotList(body), k) && r.error.slot == SlotList(body)[k]
                                            && Truthy(SlotList(body)[k])
    ensures r.Failure? && r.error.PortOutOfRange? ==>
              !Missing(body) && exists k :: FirstBadPort(cfg, PortList(body), k) && r.error.port == ToNumber(PortList(body)[k])
    ensures r.Success? <==>
              !Missing(body) && OltAllowed(cfg, Olt(body)) && SlotGatePasses(cfg, SlotList(body))
              && PortsAllowed(cfg, PortList(body))
    ensures r.Success? ==> !Missing(body) && AcceptedFrom(r.value, Olt(body), SlotList(body), PortList(body))
  {
    if Missing(body) then Failure(MissingField)
    else
      var olt := Olt(body);
      var slots := SlotList(body);
      var ports := PortList(body);
      if !OltAllowed(cfg, olt) then Failure(OltNotAllowed)
      else
        match Seqs.FirstIndex(slots, s => !SlotAllowed(cfg, s), 0)
        case Some(k) =>
          assert FirstDisallowed(cfg, slots, k);
          if Truthy(slots[k]) then Failure(SlotNotAllowed(slots[k]))
          else
            assert SlotGatePasses(cfg, slots) by {
              forall m | 0 <= m < |slots| && FirstDisallowed(cfg, slots, m) ensures !Truthy(slots[m]) {
                FirstDisallowedUnique(cfg, slots, k, m);
              }
            }
            CheckPorts(cfg, olt, slots, ports)
        case None => CheckPorts(cfg, olt, slots, ports)
  }

  /** The two validations agree whenever the first disallowed slot, if any,
      is truthy: the written check only goes wrong on a falsy one. */
  lemma AsWrittenAgrees(cfg: LightConfig, body: Option<Json>)
    requires !Missing(body)
    requires forall k :: 0 <= k < |SlotList(body)| && !SlotAllowed(cfg, SlotList(body)[k]) ==> Truthy(SlotList(body)[k])
    ensures ValidateAsWritten(cfg, body) == Validate(cfg, body)
  {
  }

  /** Whatever the corrected check accepts, the written check accepts with
      the same result; so whatever the written check rejects, the corrected
      one rejects too. */
  lemma AsWrittenAcceptsMore(cfg: LightConfig, body: Option<Json>)
    ensures Validate(cfg, body).Success? ==> ValidateAsWritten(cfg, body) == Validate(cfg, body)
    ensures ValidateAsWritten(cfg, body).Failure? ==> Validate(cfg, body).Failure?
  {
  }

  /** The default configuration: slots `LT1` and `LT2`, ports 1 to 16. */
  function BypassConfig(): LightConfig {
    LightConfig("172.30.36.146", [], ["LT1", "LT2"], 1.0, 16.0)
  }

  /** `{olt: "X", slot: ["", "LT9"], port: 1}`. */
  function BypassBody(): Option<Json> {
    Some(JObj(map["olt" := JStr("X"), "slot" := JArr([JStr(""), JStr("LT9")]), "port" := JNum(1.0)]))
  }

  /** The request that shows the gap: with slots `LT1` and `LT2` allowed, the
      slot list `["", "LT9"]` passes the written check although `LT9` is not
      allowed; the corrected check rejects it at its first disallowed slot,
      the empty one. */
  lemma SlotBypass()
    ensures ValidateAsWritten(BypassConfig(), BypassBody()).Success?
    ensures !SlotAllowed(BypassConfig(), JStr("LT9"))
    ensures JStr("LT9") in ValidateAsWritten(BypassConfig(), BypassBody()).value.slots
    ensures Validate(BypassConfig(), BypassBody()) == Failure(SlotNotAllowed(JStr("")))
  {
    var cfg := BypassConfig();
    var body := BypassBody();
    var slots := [JStr(""), JStr("LT9")];
    assert AsList(Field(body, "slot").value) == slots;
    assert !SlotAllowed(cfg, slots[0]);
    assert Seqs.FirstIndex(slots, s => !SlotAllowed(cfg, s), 0) == Some(0);
    assert !SlotAllowed(cfg, slots[1]);
    assert AsList(Field(body, "port").value) == [JNum(1.0)];
    assert PortAllowed(cfg, ToNumber(JNum(1.0)));
    assert ValidateAsWritten(cfg, body) == CheckPorts(cfg, JStr("X"), slots, [JNum(1.0)]);
    assert CheckPorts(cfg, JStr("X"), slots, [JNum(1.0)]).Success?;
    assert Seqs.FirstIndex(slots, s => !SlotAllowed(cfg, s), 1) == Some(1);
  }

  // ---------------------------------------------------------------------------
  // tasks

  datatype Task = Task(slot: Json, port: real)

  /** `slots.forEach(s => portNums.forEach(p => tasks.push({slot: s, port: p})))`. */
  function Tasks(slots: seq<Json>, ports: seq<real>): seq<Task> {
    if |slots| == 0 then []
    else seq(|ports|, j requires 0 <= j < |ports| => Task(slots[0], ports[j])) + Tasks(slots[1..], ports)
  }

  /** One task per slot and port. */
  lemma {:induction false} TasksLength(slots: seq<Json>, ports: seq<real>)
    ensures |Tasks(slots, ports)| == |slots| * |ports|
  {
    if |slots| > 0 {
      TasksLength(slots[1..], ports);
      assert |slots| * |ports| == |ports| + (|slots| - 1) * |ports|;
    }
  }

  /** The task list is the slot-major cross product: slot `i` with port `j`
      sits at position `i * |ports| + j`. */
  lemma {:induction false} TaskAt(slots: seq<Json>, ports: seq<real>, i: nat, j: nat)
    requires i < |slots| && j < |ports|
    ensures i * |ports| + j < |Tasks(slots, ports)|
    ensures Tasks(slots, ports)[i * |ports| + j] == Task(slots[i], ports[j])
  {
    TasksLength(slots, ports);
    TasksLength(slots[1..], ports);
    var n := |ports|;
    assert i * n + j < |slots| * n by {
      assert (|slots| - 1 - i) * n >= 0;
      assert |slots| * n == i * n + n + (|slots| - 1 - i) * n;
    }
    if i > 0 {
      TaskAt(slots[1..], ports, i - 1, j);
      assert i * n + j == n + ((i - 1) * n + j);
      assert slots[1..][i - 1] == slots[i];
    }
  }

  // ---------------------------------------------------------------------------
  // proxying

  /** What the upstream optics service gives for one request: a JSON body on
      success, a status and text on an HTTP error, or a thrown error (network
      failure, unreadable JSON). */
  datatype Upstream = UpOk(data: Json) | UpError(status: int, body: string) | UpThrew

  /** The body posted to the upstream service for one task. */
  datatype ProxyRequest = ProxyRequest(ip: string, olt: Json, slot: Json, port: real, insecure: bool)

  /** One entry of the reply: `{slot, port, data}` or
      `{slot, port, error: "Upstream error", status, body}`. */
  datatype TaskResult =
    | Data(slot: Json, port: real, data: Json)
    | UpstreamError(slot: Json, port: real, status: int, body: string)

  /** The handler's answer. */
  datatype Reply = Rejected(reason: Rejection) | Replied(results: seq<TaskResult>) | ProxyFailed

  function Request(cfg: LightConfig, olt: Json, t: Task): ProxyRequest {
    ProxyRequest(cfg.ip, olt, t.slot, t.port, true)
  }

  /** Some upstream call of the loop throws. */
  predicate SomeCallThrows(cfg: LightConfig, olt: Json, tasks: seq<Task>, upstream: ProxyRequest -> Upstream) {
    exists k :: 0 <= k < |tasks| && upstream(Request(cfg, olt, tasks[k])).UpThrew?
  }

  /** The sequential `for ... of tasks` loop: one result per task, in order,
      or a failure as soon as one call throws. */
  function RunTasks(cfg: LightConfig, olt: Json, tasks: seq<Task>, upstream: ProxyRequest -> Upstream): (r: Option<seq<TaskResult>>)
    ensures r.None? <==> SomeCallThrows(cfg, olt, tasks, upstream)
    ensures r.Some? ==> |r.value| == |tasks|
    ensures r.Some? ==> forall k :: 0 <= k < |tasks| ==>
      r.value[k].slot == tasks[k].slot && r.value[k].port == tasks[k].port
      && (r.value[k].Data? <==> upstream(Request(cfg, olt, tasks[k])).UpOk?)
      && (r.value[k].Data? ==> r.value[k].data == upstream(Request(cfg, olt, tasks[k])).data)
      && (r.value[k].UpstreamError? ==> r.value[k].status == upstream(Request(cfg, olt, tasks[k])).status
                                        && r.value[k].body == upstream(Request(cfg, olt, tasks[k])).body)
  {
    if |tasks| == 0 then Some([])
    else
      var t := tasks[0];
      match upstream(Request(cfg, olt, t))
      case UpThrew => None
      case UpOk(data) =>
        (match RunTasks(cfg, olt, tasks[1..], upstream)
         case None => None
         case Some(rest) => Some([Data(t.slot, t.port, data)] + rest))
      case UpError(status, text) =>
        (match RunTasks(cfg, olt, tasks[1..], upstream)
         case None => None
         case Some(rest) => Some([UpstreamError(t.slot, t.port, status, text)] + rest))
  }

  /** What the handler does with a validation outcome: reply 400 with the
      rejection, or build the slot-major task list, ask the upstream
      service once per task and reply with the results in task order. */
  function Serve(cfg: LightConfig, v: Result<Accepted, Rejection>, upstream: ProxyRequest -> Upstream): (r: Reply)
    ensures r.Rejected? <==> v.Failure?
    ensures r.Rejected? ==> r.reason == v.error
    ensures r.Replied? ==> var tasks := Tasks(v.value.slots, v.value.ports);
                           |r.results| == |tasks|
                           && forall k :: 0 <= k < |tasks| ==> r.results[k].slot == tasks[k].slot && r.results[k].port == tasks[k].port
    ensures r.ProxyFailed? <==> v.Success? && SomeCallThrows(cfg, v.value.olt, Tasks(v.value.slots, v.value.ports), upstream)
  {
    match v
    case Failure(e) => Rejected(e)
    case Success(a) =>
      match RunTasks(cfg, a.olt, Tasks(a.slots, a.ports), upstream)
      case None => ProxyFailed
      case Some(results) => Replied(results)
  }

  /** `POST /light-level` as the server runs it, with the written slot
      check. */
  function HandleLightLevel(cfg: LightConfig, body: Option<Json>, upstream: ProxyRequest -> Upstream): (r: Reply)
    ensures r.Rejected? <==> ValidateAsWritten(cfg, body).Failure?
    ensures r.Rejected? ==> r.reason == ValidateAsWritten(cfg, body).error
    ensures r.Replied? ==> var a := ValidateAsWritten(cfg, body).value;
                           var tasks := Tasks(a.slots, a.ports);
                           |r.results| == |tasks|
                           && forall k :: 0 <= k < |tasks| ==> r.results[k].slot == tasks[k].slot && r.results[k].port == tasks[k].port
    ensures r.ProxyFailed? <==> (ValidateAsWritten(cfg, body).Success?
      && SomeCallThrows(cfg, ValidateAsWritten(cfg, body).value.olt,
                        Tasks(ValidateAsWritten(cfg, body).value.slots, ValidateAsWritten(cfg, body).value.ports), upstream))
  {
    Serve(cfg, ValidateAsWritten(cfg, body), upstream)
  }

  /** The same handler with the corrected slot check. */
  function HandleLightLevelCorrected(cfg: LightConfig, body: Option<Json>, upstream: ProxyRequest -> Upstream): (r: Reply)
    ensures r.Rejected? <==> Validate(cfg, body).Failure?
    ensures r.Rejected? ==> r.reason == Validate(cfg, body).error
    ensures r.Replied? ==> var a := Validate(cfg, body).value;
                           var tasks := Tasks(a.slots, a.ports);
                           |r.results| == |tasks|
                           && forall k :: 0 <= k < |tasks| ==> r.results[k].slot == tasks[k].slot && r.results[k].port == tasks[k].port
    ensures r.ProxyFailed? <==> (Validate(cfg, body).Success?
      && SomeCallThrows(cfg, Validate(cfg, body).value.olt,
                        Tasks(Validate(cfg, body).value.slots, Validate(cfg, body).value.ports), upstream))
  {
    Serve(cfg, Validate(cfg, body), upstream)
  }

  /** The two handlers answer alike whenever the written slot check gives
      the intended verdict, and every request the corrected handler serves
      is served identically by the running one. */
  lemma HandlersAgree(cfg: LightConfig, body: Option<Json>, upstream: ProxyRequest -> Upstream)
    ensures Validate(cfg, body).Success? ==>
              HandleLightLevel(cfg, body, upstream) == HandleLightLevelCorrected(cfg, body, upstream)
    ensures !Missing(body)
            && (forall k :: 0 <= k < |SlotList(body)| && !SlotAllowed(cfg, SlotList(body)[k]) ==> Truthy(SlotList(body)[k]))
            ==> HandleLightLevel(cfg, body, upstream) == HandleLightLevelCorrected(cfg, body, upstream)
  {
    AsWrittenAcceptsMore(cfg, body);
    if !Missing(body)
       && (forall k :: 0 <= k < |SlotList(body)| && !SlotAllowed(cfg, SlotList(body)[k]) ==> Truthy(SlotList(body)[k])) {
      AsWrittenAgrees(cfg, body);
    }
  }

  /** The running server forwards the bypass request: it never rejects it,
      and a reply holds a result for the disallowed slot `LT9`; the
      corrected handler turns it away. */
  lemma BypassForwarded(upstream: ProxyRequest -> Upstream)
    ensures !HandleLightLevel(BypassConfig(), BypassBody(), upstream).Rejected?
    ensures HandleLightLevel(BypassConfig(), BypassBody(), upstream).Replied? ==>
              exists k :: 0 <= k < |HandleLightLevel(BypassConfig(), BypassBody(), upstream).results|
                          && HandleLightLevel(BypassConfig(), BypassBody(), upstream).results[k].slot == JStr("LT9")
    ensures HandleLightLevelCorrected(BypassConfig(), BypassBody(), upstream) == Rejected(SlotNotAllowed(JStr("")))
  {
    SlotBypass();
    var a := ValidateAsWritten(BypassConfig(), BypassBody()).value;
    assert a.slots == [JStr(""), JStr("LT9")] && |a.ports| == 1;
    TaskAt(a.slots, a.ports, 1, 0);
    TasksLength(a.slots, a.ports);
  }
}
