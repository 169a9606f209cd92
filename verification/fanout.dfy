/**
 * The browser's light-level run: planning one request per allowed OLT over
 * the configured slots and ports, and flattening the replies' irregular
 * optics JSON (`ont-optics`, `pon-optics`, `data.parsed`) into readings
 * tagged with the OLT, slot and port they came from.
 */
module Fanout {
  import opened Wrappers
  import opened Json
  import opened Identifier
  import opened ClientFilters
  import opened LightLevel
  import Text
  import Seqs

  // ---------------------------------------------------------------------------
  // planning

  /** The light configuration as the browser received it from the server;
      the whole object is missing until it has loaded. */
  datatype ClientConfig = ClientConfig(olts: Option<seq<string>>, slots: Option<seq<string>>,
                                       minPort: Option<real>, maxPort: Option<real>)

  /** The configuration object the server serves. */
  function Served(cfg: LightConfig): ClientConfig {
    ClientConfig(Some(cfg.olts), Some(cfg.slots), Some(cfg.minPort), Some(cfg.maxPort))
  }

  /** `v || fallback` for an optional number. */
  function NumOr(v: Option<real>, fallback: real): real {
    if v.Some? && v.value != 0.0 then v.value else fallback
  }

  /** `for (let p = min; p <= max; p++) ports.push(p)`: consecutive values
      from `lo`, as many as fit below or at `hi`. For whole-number bounds
      these are exactly the integers `lo..hi`. */
  function PortRange(lo: real, hi: real): (r: seq<real>)
    ensures |r| == if lo > hi then 0 else (hi - lo).Floor + 1
    ensures forall k :: 0 <= k < |r| ==> r[k] == lo + k as real && r[k] <= hi
    decreases if lo > hi then 0 else (hi - lo).Floor + 1
  {
    if lo > hi then [] else [lo] + PortRange(lo + 1.0, hi)
  }

  /** The loop stops at the first value above `hi`. */
  lemma PortRangeStops(lo: real, hi: real)
    ensures lo + |PortRange(lo, hi)| as real > hi
  {
  }

  function ClientOlts(city: string, cfg: Option<ClientConfig>): seq<string> {
    AllowedOltsByCity(city, Some(if cfg.Some? && cfg.value.olts.Some? then cfg.value.olts.value else []))
  }

  function ClientSlots(cfg: Option<ClientConfig>): seq<string> {
    if cfg.Some? && cfg.value.slots.Some? then cfg.value.slots.value else []
  }

  function ClientPorts(cfg: Option<ClientConfig>): seq<real> {
    PortRange(NumOr(if cfg.Some? then cfg.value.minPort else None, 1.0),
              NumOr(if cfg.Some? then cfg.value.maxPort else None, 16.0))
  }

  /** The request body for one OLT: all slots and all ports at once. */
  datatype Payload = Payload(olt: string, slots: seq<string>, ports: seq<real>)

  /** The plan of a run: nothing to do, or the combination count and the
      payloads to post. */
  datatype Plan = NoCombos | Run(comboCount: nat, payloads: seq<Payload>)

  /** The plan for given OLT, slot and port lists: nothing when any list is
      empty, otherwise one payload per OLT, in order, each with every slot
      and port. */
  function Fan(olts: seq<string>, slots: seq<string>, ports: seq<real>): (r: Plan)
    ensures r.NoCombos? <==> |olts| == 0 || |slots| == 0 || |ports| == 0
    ensures r.Run? ==> r.comboCount == |olts| * |slots| * |ports|
    ensures r.Run? ==> |r.payloads| == |olts|
                       && forall i :: 0 <= i < |olts| ==> r.payloads[i] == Payload(olts[i], slots, ports)
  {
    if |olts| == 0 || |slots| == 0 || |ports| == 0 then NoCombos
    else Run(|olts| * |slots| * |ports|,
             seq(|olts|, i requires 0 <= i < |olts| => Payload(olts[i], slots, ports)))
  }

  /** The planning half of `handleLightLevel`: the city's OLTs, the
      configured slots and the port range. */
  function PlanLightRun(city: string, cfg: Option<ClientConfig>): Plan {
    Fan(ClientOlts(city, cfg), ClientSlots(cfg), ClientPorts(cfg))
  }

  /** The JSON a payload is posted as. */
  function PayloadBody(p: Payload): Json {
    JObj(map["olt" := JStr(p.olt),
             "slot" := JArr(seq(|p.slots|, k requires 0 <= k < |p.slots| => JStr(p.slots[k]))),
             "port" := JArr(seq(|p.ports|, k requires 0 <= k < |p.ports| => JNum(p.ports[k])))])
  }

  /** The number of server tasks the payloads ask for. */
  function TaskCount(payloads: seq<Payload>): nat {
    if |payloads| == 0 then 0 else |payloads[0].slots| * |payloads[0].ports| + TaskCount(payloads[1..])
  }

  /** The combination count announced to the user is the number of upstream
      calls the server will make for the plan. */
  lemma ComboCountIsTaskCount(olts: seq<string>, slots: seq<string>, ports: seq<real>)
    requires Fan(olts, slots, ports).Run?
    ensures TaskCount(Fan(olts, slots, ports).payloads) == Fan(olts, slots, ports).comboCount
  {
    var ps := Fan(olts, slots, ports).payloads;
    var n := |slots| * |ports|;
    SameTasks(ps, n);
    assert |olts| * |slots| * |ports| == |olts| * n;
  }

  lemma {:induction false} SameTasks(ps: seq<Payload>, n: nat)
    requires forall i :: 0 <= i < |ps| ==> |ps[i].slots| * |ps[i].ports| == n
    ensures TaskCount(ps) == |ps| * n
  {
    if |ps| > 0 {
      SameTasks(ps[1..], n);
    }
  }

  /** Both the corrected and the running check accept a payload whose OLT
      is allow-listed, whose slots are the configured slots and whose ports
      lie within the bounds. */
  lemma PayloadAccepted(cfg: LightConfig, p: Payload)
    requires p.olt != "" && (|cfg.olts| == 0 || p.olt in cfg.olts)
    requires forall k :: 0 <= k < |p.slots| ==> SlotAllowed(cfg, JStr(p.slots[k]))
    requires forall k :: 0 <= k < |p.ports| ==> cfg.minPort <= p.ports[k] <= cfg.maxPort
    ensures Validate(cfg, Some(PayloadBody(p))).Success?
    ensures Validate(cfg, Some(PayloadBody(p))).value.slots == seq(|p.slots|, k requires 0 <= k < |p.slots| => JStr(p.slots[k]))
    ensures |Validate(cfg, Some(PayloadBody(p))).value.ports| == |p.ports|
    ensures ValidateAsWritten(cfg, Some(PayloadBody(p))) == Validate(cfg, Some(PayloadBody(p)))
  {
    var body := Some(PayloadBody(p));
    var slots := AsList(Field(body, "slot").value);
    var ports := AsList(Field(body, "port").value);
    assert Field(body, "olt") == Some(JStr(p.olt));
    assert slots == seq(|p.slots|, k requires 0 <= k < |p.slots| => JStr(p.slots[k]));
    assert ports == seq(|p.ports|, k requires 0 <= k < |p.ports| => JNum(p.ports[k]));
    assert !Missing(body);
    assert forall k :: 0 <= k < |slots| ==> SlotAllowed(cfg, slots[k]);
    assert forall k :: 0 <= k < |ports| ==> PortAllowed(cfg, ToNumber(ports[k]));
    AsWrittenAcceptsMore(cfg, body);
  }

  /** What the browser plans from the served configuration: OLTs from the
      allow-list, exactly the configured slots, and the configured port
      range (the `|| 1` and `|| 16` fallbacks never apply, since the server
      never serves a zero bound). */
  lemma ServedLists(city: string, cfg: LightConfig)
    requires cfg.minPort != 0.0 && cfg.maxPort != 0.0
    ensures forall o :: o in ClientOlts(city, Some(Served(cfg))) ==> o in cfg.olts
    ensures ClientSlots(Some(Served(cfg))) == cfg.slots
    ensures ClientPorts(Some(Served(cfg))) == PortRange(cfg.minPort, cfg.maxPort)
  {
    Seqs.SubseqMembers(ClientOlts(city, Some(Served(cfg))), cfg.olts);
  }

  /** End to end: when the browser plans with the configuration the server
      serves, the server accepts every payload of the plan and posts one
      upstream request per slot and port of it. */
  lemma ServerAcceptsPlan(city: string, cfg: LightConfig, i: nat)
    requires Text.CleanItems(cfg.olts) && cfg.minPort != 0.0 && cfg.maxPort != 0.0
    requires PlanLightRun(city, Some(Served(cfg))).Run?
    requires i < |PlanLightRun(city, Some(Served(cfg))).payloads|
    ensures var p := PlanLightRun(city, Some(Served(cfg))).payloads[i];
            var v := Validate(cfg, Some(PayloadBody(p)));
            v.Success? && |Tasks(v.value.slots, v.value.ports)| == |p.slots| * |p.ports|
            && ValidateAsWritten(cfg, Some(PayloadBody(p))) == v
  {
    var ccfg := Some(Served(cfg));
    var olts, slots, ports := ClientOlts(city, ccfg), ClientSlots(ccfg), ClientPorts(ccfg);
    ServedLists(city, cfg);
    var p := Fan(olts, slots, ports).payloads[i];
    assert p == Payload(olts[i], cfg.slots, PortRange(cfg.minPort, cfg.maxPort));
    assert p.olt in cfg.olts;
    PayloadAccepted(cfg, p);
    var v := Validate(cfg, Some(PayloadBody(p)));
    TasksLength(v.value.slots, v.value.ports);
  }

  /** The same for a configuration read from any environment. */
  lemma ServerAcceptsPlanFromEnv(city: string, env: map<string, string>, i: nat)
    requires PlanLightRun(city, Some(Served(ParseLightConfig(env)))).Run?
    requires i < |PlanLightRun(city, Some(Served(ParseLightConfig(env)))).payloads|
    ensures Validate(ParseLightConfig(env),
                     Some(PayloadBody(PlanLightRun(city, Some(Served(ParseLightConfig(env)))).payloads[i]))).Success?
    ensures ValidateAsWritten(ParseLightConfig(env),
                              Some(PayloadBody(PlanLightRun(city, Some(Served(ParseLightConfig(env)))).payloads[i]))).Success?
  {
    ServerAcceptsPlan(city, ParseLightConfig(env), i);
  }

  // ---------------------------------------------------------------------------
  // flattening

  /** One reply of the server, as `{ ok: res.ok, data }`. */
  datatype Response = Response(ok: bool, data: Json)

  predicate Ok(resp: Response) {
    resp.ok
  }

  /** The tag every reading of a row carries: the payload's OLT, and the
      row's own slot and port unless those are falsy, in which case the
      payload's first slot and port. */
  function Meta(p: Payload, row: Json): (m: Object)
    ensures "olt" in m && m["olt"] == JStr(p.olt)
    ensures |p.slots| > 0 ==> "slot" in m
    ensures |p.ports| > 0 ==> "port" in m
    ensures TruthyOpt(Get(row, "slot")) ==> "slot" in m && m["slot"] == Get(row, "slot").value
    ensures !TruthyOpt(Get(row, "slot")) && |p.slots| > 0 ==> m["slot"] == JStr(p.slots[0])
    ensures TruthyOpt(Get(row, "port")) ==> "port" in m && m["port"] == Get(row, "port").value
    ensures !TruthyOpt(Get(row, "port")) && |p.ports| > 0 ==> m["port"] == JNum(p.ports[0])
  {
    var slot: Option<Json> :=
      if TruthyOpt(Get(row, "slot")) then Get(row, "slot")
      else if |p.slots| > 0 then Some(JStr(p.slots[0])) else None;
    var port: Option<Json> :=
      if TruthyOpt(Get(row, "port")) then Get(row, "port")
      else if |p.ports| > 0 then Some(JNum(p.ports[0])) else None;
    var m := map["olt" := JStr(p.olt)];
    var m := if slot.Some? then m["slot" := slot.value] else m;
    if port.Some? then m["port" := port.value] else m
  }

  /** `addOptic`: an object (or array) becomes one reading, its own fields
      overriding the tag; anything else is skipped. */
  function AddOptic(opt: Json, meta: Object): seq<Entry> {
    if IsObjectLike(opt) then [meta + SpreadFields(opt)] else []
  }

  /** `addCollection`: every member of an array, or a single object. */
  function AddCollection(c: Option<Json>, meta: Object): seq<Entry> {
    if !TruthyOpt(c) then []
    else if c.value.JArr? then Seqs.FlatMap(c.value.items, o => AddOptic(o, meta))
    else if c.value.JObj? then AddOptic(c.value, meta)
    else []
  }

  /** One member of a `pon-optics` array: itself, then its `ont-optics`. */
  function PonMember(o: Json, meta: Object): seq<Entry> {
    AddOptic(o, meta) + (if IsObjectLike(o) then AddCollection(Get(o, "ont-optics"), meta) else [])
  }

  /** `processSource`: the source's `ont-optics`, then its `pon-optics`
      (each member with its own `ont-optics`, or a single object with its
      `ont-optics`). */
  function ProcessSource(src: Option<Json>, meta: Object): seq<Entry> {
    if !TruthyOpt(src) || !IsObjectLike(src.value) then []
    else
      var s := src.value;
      AddCollection(Get(s, "ont-optics"), meta) +
      match Get(s, "pon-optics")
      case Some(JArr(items)) => Seqs.FlatMap(items, o => PonMember(o, meta))
      case Some(pon) => if Truthy(pon) && IsObjectLike(pon) then PonMember(pon, meta) else []
      case None => []
  }

  /** A reading built from the tag: the tag spread first, then the fields of
      some object. */
  ghost predicate FromMeta(e: Entry, meta: Object) {
    exists o :: IsObjectLike(o) && e == meta + SpreadFields(o)
  }

  /** Non-object members of a collection are skipped and the rest are kept:
      an array yields one reading per object-like member. */
  lemma CollectionSkipsNonObjects(items: seq<Json>, meta: Object)
    ensures |AddCollection(Some(JArr(items)), meta)| == Seqs.Count(items, IsObjectLike)
  {
    Seqs.FlatMapCount(items, o => AddOptic(o, meta), IsObjectLike);
  }

  lemma CollectionFromMeta(c: Option<Json>, meta: Object)
    ensures forall k :: 0 <= k < |AddCollection(c, meta)| ==> FromMeta(AddCollection(c, meta)[k], meta)
  {
    if TruthyOpt(c) && c.value.JArr? {
      Seqs.FlatMapAll(c.value.items, o => AddOptic(o, meta), e => FromMeta(e, meta));
    }
  }

  lemma PonMemberFromMeta(o: Json, meta: Object)
    ensures forall k :: 0 <= k < |PonMember(o, meta)| ==> FromMeta(PonMember(o, meta)[k], meta)
  {
    if IsObjectLike(o) {
      CollectionFromMeta(Get(o, "ont-optics"), meta);
    }
  }

  /** Every reading of a source is some object spread over the tag. */
  lemma SourceFromMeta(src: Option<Json>, meta: Object)
    ensures forall k :: 0 <= k < |ProcessSource(src, meta)| ==> FromMeta(ProcessSource(src, meta)[k], meta)
  {
    if TruthyOpt(src) && IsObjectLike(src.value) {
      var s := src.value;
      CollectionFromMeta(Get(s, "ont-optics"), meta);
      match Get(s, "pon-optics")
      case Some(JArr(items)) =>
        forall i | 0 <= i < |items|
          ensures forall m :: 0 <= m < |PonMember(items[i], meta)| ==> FromMeta(PonMember(items[i], meta)[m], meta)
        {
          PonMemberFromMeta(items[i], meta);
        }
        Seqs.FlatMapAll(items, o => PonMember(o, meta), e => FromMeta(e, meta));
      case Some(pon) =>
        PonMemberFromMeta(pon, meta);
      case None =>
    }
  }

  /** The readings of one row: `data.parsed`, then `data`. Reading `row.slot`
      of a `null` row throws. */
  function RowEntries(p: Payload, row: Json): Option<seq<Entry>> {
    if row.JNull? then None
    else
      var meta := Meta(p, row);
      var data := Get(row, "data");
      Some(ProcessSource(GetOpt(data, "parsed"), meta) + ProcessSource(data, meta))
  }

  function RowsEntries(p: Payload, rows: seq<Json>): (r: Option<seq<Entry>>)
    ensures r.None? <==> JNull in rows
  {
    if |rows| == 0 then Some([])
    else
      match RowEntries(p, rows[0])
      case None => None
      case Some(es) =>
        match RowsEntries(p, rows[1..])
        case None => None
        case Some(rest) => Some(es + rest)
  }

  /** The rows of a reply contribute one after another, in row order. */
  lemma {:induction false} RowsEntriesAppend(p: Payload, r1: seq<Json>, r2: seq<Json>)
    ensures RowsEntries(p, r1 + r2).Some? ==>
              RowsEntries(p, r1 + r2).value == RowsEntries(p, r1).value + RowsEntries(p, r2).value
  {
    if |r1| > 0 && RowsEntries(p, r1 + r2).Some? {
      assert (r1 + r2)[0] == r1[0];
      assert (r1 + r2)[1..] == r1[1..] + r2;
      RowsEntriesAppend(p, r1[1..], r2);
    } else if |r1| == 0 {
      assert r1 + r2 == r2;
    }
  }

  /** An ok reply whose data is an array holding a `null` row. */
  predicate Throws(resp: Response) {
    resp.ok && resp.data.JArr? && JNull in resp.data.items
  }

  /** The readings of one reply: only an ok reply whose data is an array
      contributes. */
  function ResponseEntries(p: Payload, resp: Response): (r: Option<seq<Entry>>)
    ensures r.None? <==> Throws(resp)
    ensures !resp.ok ==> r == Some([])
  {
    if !resp.ok then Some([])
    else if resp.data.JArr? then RowsEntries(p, resp.data.items)
    else Some([])
  }

  /** What the run ends with: the readings and the number of ok replies, or
      the failure message after an exception. */
  datatype Outcome = Loaded(entries: seq<Entry>, okCount: nat) | Failed

  /** The `allResponses.forEach` walk, for any way `step` of reading one
      reply; replies pair up with the payloads by position, and the walk
      stops at the first reply whose reading throws. */
  function Walk(payloads: seq<Payload>, responses: seq<Response>,
                step: (Payload, Response) -> Option<seq<Entry>>): Outcome
    requires |responses| == |payloads|
  {
    if |payloads| == 0 then Loaded([], 0)
    else
      match step(payloads[0], responses[0])
      case None => Failed
      case Some(es) =>
        match Walk(payloads[1..], responses[1..], step)
        case Failed => Failed
        case Loaded(rest, n) => Loaded(es + rest, (if responses[0].ok then 1 else 0) + n)
  }

  /** The walk over the replies of a light-level run. */
  function Flatten(payloads: seq<Payload>, responses: seq<Response>): Outcome
    requires |responses| == |payloads|
  {
    Walk(payloads, responses, ResponseEntries)
  }

  lemma {:induction false} WalkAppend(p1: seq<Payload>, r1: seq<Response>, p2: seq<Payload>, r2: seq<Response>,
                                      step: (Payload, Response) -> Option<seq<Entry>>)
    requires |r1| == |p1| && |r2| == |p2|
    ensures Walk(p1 + p2, r1 + r2, step).Failed? <==> Walk(p1, r1, step).Failed? || Walk(p2, r2, step).Failed?
    ensures Walk(p1 + p2, r1 + r2, step).Loaded? ==>
              Walk(p1 + p2, r1 + r2, step).entries == Walk(p1, r1, step).entries + Walk(p2, r2, step).entries
              && Walk(p1 + p2, r1 + r2, step).okCount == Walk(p1, r1, step).okCount + Walk(p2, r2, step).okCount
  {
    if |p1| == 0 {
      assert p1 + p2 == p2 && r1 + r2 == r2;
    } else {
      WalkAppend(p1[1..], r1[1..], p2, r2, step);
      assert (p1 + p2)[1..] == p1[1..] + p2;
      assert (r1 + r2)[1..] == r1[1..] + r2;
      assert (p1 + p2)[0] == p1[0] && (r1 + r2)[0] == r1[0];
    }
  }

  /** The run fails exactly when some ok reply holds a `null` row, and
      otherwise counts the ok replies. */
  lemma {:induction false} FlattenOutcome(payloads: seq<Payload>, responses: seq<Response>)
    requires |responses| == |payloads|
    ensures Flatten(payloads, responses).Failed? <==> exists i :: 0 <= i < |responses| && Throws(responses[i])
    ensures Flatten(payloads, responses).Loaded? ==> Flatten(payloads, responses).okCount == Seqs.Count(responses, Ok)
  {
    if |payloads| > 0 {
      FlattenOutcome(payloads[1..], responses[1..]);
      assert forall i :: 1 <= i < |responses| ==> responses[i] == responses[1..][i - 1];
      if exists i :: 0 <= i < |responses[1..]| && Throws(responses[1..][i]) {
        var i :| 0 <= i < |responses[1..]| && Throws(responses[1..][i]);
        assert Throws(responses[i + 1]);
      }
    }
  }

  /** Replies are independent: the outcome of a run over two batches is the
      first batch's readings followed by the second's, with the ok counts
      added. */
  lemma FlattenAppend(p1: seq<Payload>, r1: seq<Response>, p2: seq<Payload>, r2: seq<Response>)
    requires |r1| == |p1| && |r2| == |p2|
    ensures Flatten(p1 + p2, r1 + r2).Failed? <==> Flatten(p1, r1).Failed? || Flatten(p2, r2).Failed?
    ensures Flatten(p1 + p2, r1 + r2).Loaded? ==>
              Flatten(p1 + p2, r1 + r2).entries == Flatten(p1, r1).entries + Flatten(p2, r2).entries
              && Flatten(p1 + p2, r1 + r2).okCount == Flatten(p1, r1).okCount + Flatten(p2, r2).okCount
  {
    WalkAppend(p1, r1, p2, r2, ResponseEntries);
  }

  /** A failed reply contributes nothing: whatever its data, the outcome is
      the same. */
  lemma {:induction false} FailedReplyIgnored(payloads: seq<Payload>, responses: seq<Response>, i: nat, d: Json)
    requires |responses| == |payloads| && i < |responses| && !responses[i].ok
    ensures Flatten(payloads, responses[i := Response(false, d)]) == Flatten(payloads, responses)
  {
    var rs := responses[i := Response(false, d)];
    if i > 0 {
      FailedReplyIgnored(payloads[1..], responses[1..], i - 1, d);
      assert rs[1..] == responses[1..][i - 1 := Response(false, d)];
    } else {
      assert rs[1..] == responses[1..];
    }
  }

  /** A reading from a tagged row names the OLT, slot and port. */
  predicate Tagged(e: Entry) {
    "olt" in e && "slot" in e && "port" in e
  }

  lemma RowTagged(p: Payload, row: Json)
    requires |p.slots| > 0 && |p.ports| > 0
    requires RowEntries(p, row).Some?
    ensures forall k :: 0 <= k < |RowEntries(p, row).value| ==> Tagged(RowEntries(p, row).value[k])
  {
    var meta := Meta(p, row);
    var data := Get(row, "data");
    SourceFromMeta(GetOpt(data, "parsed"), meta);
    SourceFromMeta(data, meta);
    var a := ProcessSource(GetOpt(data, "parsed"), meta);
    var b := ProcessSource(data, meta);
    forall k | 0 <= k < |a + b|
      ensures Tagged((a + b)[k])
    {
      var e := (a + b)[k];
      assert FromMeta(e, meta);
      var o :| IsObjectLike(o) && e == meta + SpreadFields(o);
    }
  }

  lemma {:induction false} RowsTagged(p: Payload, rows: seq<Json>)
    requires |p.slots| > 0 && |p.ports| > 0
    requires RowsEntries(p, rows).Some?
    ensures forall k :: 0 <= k < |RowsEntries(p, rows).value| ==> Tagged(RowsEntries(p, rows).value[k])
  {
    if |rows| > 0 {
      RowTagged(p, rows[0]);
      RowsTagged(p, rows[1..]);
      var es := RowEntries(p, rows[0]).value;
      var rest := RowsEntries(p, rows[1..]).value;
      assert RowsEntries(p, rows).value == es + rest;
    }
  }

  /** Every reading of a run whose payloads all carry slots and ports (as
      every planned payload does) is tagged with OLT, slot and port. */
  lemma {:induction false} FlattenTagged(payloads: seq<Payload>, responses: seq<Response>)
    requires |responses| == |payloads|
    requires forall i :: 0 <= i < |payloads| ==> |payloads[i].slots| > 0 && |payloads[i].ports| > 0
    requires Flatten(payloads, responses).Loaded?
    ensures forall k :: 0 <= k < |Flatten(payloads, responses).entries| ==> Tagged(Flatten(payloads, responses).entries[k])
  {
    if |payloads| > 0 {
      FlattenTagged(payloads[1..], responses[1..]);
      var resp := responses[0];
      if resp.ok && resp.data.JArr? {
        RowsTagged(payloads[0], resp.data.items);
      }
      var es := ResponseEntries(payloads[0], resp).value;
      var rest := Flatten(payloads[1..], responses[1..]).entries;
      assert Flatten(payloads, responses).entries == es + rest;
    }
  }
}
