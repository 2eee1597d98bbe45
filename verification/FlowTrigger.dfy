/** What a workflow's graph says about its trigger: the node that is armed, the
    registration built from it, and the comparison that decides whether a saved
    graph needs re-arming. */
module FlowTrigger {
  import opened Wrappers

  /** A JSON value as far as the trigger code looks at it. */
  datatype Value = Null | Flag(b: bool) | Num(n: real) | Text(s: string) | List(items: seq<Value>)
  {
    /** Python truthiness. */
    predicate Truthy() {
      match this
      case Null => false
      case Flag(b) => b
      case Num(n) => n != 0.0
      case Text(s) => s != ""
      case List(items) => items != []
    }
  }

  type Data = map<string, Value>

  datatype Node = Node(kind: string, data: Data)
  {
    predicate IsTrigger() { kind in TRIGGER_KINDS }
  }

  type Graph = seq<Node>

  const TRIGGER_KINDS := {"start", "webhookTrigger", "priceAlert", "orderUpdateTrigger"}

  const CONFIG_FIELDS := {
    "scheduleType", "time", "days", "executeAt", "intervalMinutes", "intervalValue",
    "intervalUnit", "marketHoursOnly", "symbol", "exchange", "condition", "price",
    "priceLower", "priceUpper", "percentage", "expiration", "orderId", "status", "trigger"}

  /** What each registry is handed when a trigger is armed; the workflow id and
      the API key are the caller's and are left out. */
  datatype Registration =
    | Job(scheduleType: Value, time: Value, days: Value, executeAt: Value,
          intervalValue: Value, intervalUnit: Value, marketHoursOnly: bool)
    | Alert(symbol: Value, exchange: Value, condition: Value, price: Value, priceLower: Value,
            priceUpper: Value, percentage: Value, trigger: Value, expiration: Value)
    | Watch(orderId: Value, symbol: Value, exchange: Value, status: Value, trigger: Value)

  function Get(data: Data, field: string, default: Value): Value {
    if field in data then data[field] else default
  }

  /** `value or other` */
  function Or(value: Value, other: Value): Value {
    if value.Truthy() then value else other
  }

  /** The first trigger node, the only one that is ever armed. */
  function TriggerNode(g: Graph): Option<Node> {
    if g == [] then None
    else if g[0].IsTrigger() then Some(g[0])
    else TriggerNode(g[1..])
  }

  /** The registration `_register_trigger` makes for one trigger node; webhook
      triggers and manual starts arm nothing. */
  function RegistrationFor(node: Node): Option<Registration> {
    var d := node.data;
    if node.kind == "start" then
      var schedule := Get(d, "scheduleType", Null);
      if schedule.Truthy() && schedule != Text("manual") then
        Some(Job(schedule, Get(d, "time", Text("09:15")), Get(d, "days", Null), Get(d, "executeAt", Null),
                 Get(d, "intervalValue", Null), Get(d, "intervalUnit", Null),
                 Get(d, "marketHoursOnly", Flag(false)).Truthy()))
      else None
    else if node.kind == "priceAlert" then
      Some(Alert(Get(d, "symbol", Text("")), Get(d, "exchange", Text("NSE")),
                 Get(d, "condition", Text("greater_than")), Or(Get(d, "price", Num(0.0)), Num(0.0)),
                 Get(d, "priceLower", Null), Get(d, "priceUpper", Null), Get(d, "percentage", Null),
                 Get(d, "trigger", Text("once")), Get(d, "expiration", Text("none"))))
    else if node.kind == "orderUpdateTrigger" then
      Some(Watch(Or(Get(d, "orderId", Null), Null), Or(Get(d, "symbol", Null), Null),
                 Or(Get(d, "exchange", Null), Null), Get(d, "status", Text("complete")),
                 Get(d, "trigger", Text("once"))))
    else None
  }

  function RegistrationOf(g: Graph): Option<Registration> {
    match TriggerNode(g)
    case None => None
    case Some(node) => RegistrationFor(node)
  }

  function ConfigOf(data: Data): Data {
    map field | field in data && field in CONFIG_FIELDS :: data[field]
  }

  /** `trigger_config`: one entry per trigger kind, later nodes overwriting
      earlier ones of the same kind. */
  function TriggerConfig(g: Graph): map<string, Data> {
    if g == [] then map[]
    else
      var node := g[|g| - 1];
      var rest := TriggerConfig(g[..|g| - 1]);
      if node.IsTrigger() then rest[node.kind := ConfigOf(node.data)] else rest
  }

  /** The condition strict validation puts on a graph, up to a missing trigger. */
  predicate AtMostOneTrigger(g: Graph) {
    forall i, j | 0 <= i < j < |g| :: !(g[i].IsTrigger() && g[j].IsTrigger())
  }

  lemma AtMostOneExact(g: Graph)
    ensures AtMostOneTrigger(g) <==>
      forall i, j | 0 <= i < |g| && 0 <= j < |g| && g[i].IsTrigger() && g[j].IsTrigger() :: i == j
  {}

  /** The trigger node `TriggerConfig` lets win within its kind. */
  function LastTrigger(g: Graph): Option<Node> {
    if g == [] then None
    else if g[|g| - 1].IsTrigger() then Some(g[|g| - 1])
    else LastTrigger(g[..|g| - 1])
  }

  predicate OneKind(g: Graph) {
    forall m, n | m in g && n in g && m.IsTrigger() && n.IsTrigger() :: m.kind == n.kind
  }

  /** The armed node is the first trigger of the graph. */
  lemma {:induction false} TriggerNodeFacts(g: Graph)
    ensures match TriggerNode(g)
      case None => forall n | n in g :: !n.IsTrigger()
      case Some(n) => n in g && n.IsTrigger() && exists i :: FirstTriggerAt(g, i) && g[i] == n
  {
    if g != [] {
      if g[0].IsTrigger() {
        assert FirstTriggerAt(g, 0);
      } else {
        TriggerNodeFacts(g[1..]);
        assert g == [g[0]] + g[1..];
        if TriggerNode(g[1..]).Some? {
          var i :| FirstTriggerAt(g[1..], i) && g[1..][i] == TriggerNode(g[1..]).value;
          assert FirstTriggerAt(g, i + 1);
        }
      }
    }
  }

  predicate FirstTriggerAt(g: Graph, i: int) {
    0 <= i < |g| && g[i].IsTrigger() && forall k | 0 <= k < i :: !g[k].IsTrigger()
  }

  /** Each kind's entry holds the compared fields of the last node of that kind. */
  lemma {:induction false} ConfigEntry(g: Graph, i: nat)
    requires i < |g| && g[i].IsTrigger() && forall k | i < k < |g| :: g[k].kind != g[i].kind
    ensures g[i].kind in TriggerConfig(g)
    ensures forall field :: field in TriggerConfig(g)[g[i].kind] <==> field in g[i].data && field in CONFIG_FIELDS
    ensures forall field | field in TriggerConfig(g)[g[i].kind] :: TriggerConfig(g)[g[i].kind][field] == g[i].data[field]
  {
    if i < |g| - 1 {
      ConfigEntry(g[..|g| - 1], i);
    }
  }

  lemma {:induction false} ConfigShape(g: Graph)
    ensures TriggerConfig(g).Keys == set n | n in g && n.IsTrigger() :: n.kind
    ensures match LastTrigger(g)
      case None => forall n | n in g :: !n.IsTrigger()
      case Some(n) => n in g && n.IsTrigger() && n.kind in TriggerConfig(g) && TriggerConfig(g)[n.kind] == ConfigOf(n.data)
  {
    if g != [] {
      ConfigShape(g[..|g| - 1]);
      assert g == g[..|g| - 1] + [g[|g| - 1]];
    }
  }

  lemma OnlyTriggerIsLast(g: Graph)
    requires AtMostOneTrigger(g)
    ensures OneKind(g) && TriggerNode(g) == LastTrigger(g)
  {
    TriggerNodeFacts(g);
    ConfigShape(g);
    forall m, n | m in g && n in g && m.IsTrigger() && n.IsTrigger() ensures m == n {
      var i :| 0 <= i < |g| && g[i] == m;
      var j :| 0 <= j < |g| && g[j] == n;
    }
  }

  // ---- Which fields a registration depends on -----------------------------

  /** Nothing is armed for a webhook, a manual start or a start without schedule. */
  predicate Idle(n: Node) {
    || n.kind !in {"start", "priceAlert", "orderUpdateTrigger"}
    || (n.kind == "start" &&
        (!Get(n.data, "scheduleType", Null).Truthy() || Get(n.data, "scheduleType", Null) == Text("manual")))
  }

  /** The fields each kind hands to its registry. */
  function FieldsOf(kind: string): seq<string> {
    if kind == "start" then
      ["scheduleType", "time", "days", "executeAt", "intervalValue", "intervalUnit", "marketHoursOnly"]
    else if kind == "priceAlert" then
      ["symbol", "exchange", "condition", "price", "priceLower", "priceUpper", "percentage", "trigger", "expiration"]
    else if kind == "orderUpdateTrigger" then ["orderId", "symbol", "exchange", "status", "trigger"]
    else []
  }

  /** What a field says once its default is filled in. */
  function Effective(n: Node, field: string): Value {
    var order := n.kind == "orderUpdateTrigger";
    if field == "time" then Get(n.data, field, Text("09:15"))
    else if field == "marketHoursOnly" then Flag(Get(n.data, field, Flag(false)).Truthy())
    else if field == "condition" then Get(n.data, field, Text("greater_than"))
    else if field == "price" then Or(Get(n.data, field, Num(0.0)), Num(0.0))
    else if field == "trigger" then Get(n.data, field, Text("once"))
    else if field == "expiration" then Get(n.data, field, Text("none"))
    else if field == "status" then Get(n.data, field, Text("complete"))
    else if order && field in {"orderId", "symbol", "exchange"} then Or(Get(n.data, field, Null), Null)
    else if field == "symbol" then Get(n.data, field, Text(""))
    else if field == "exchange" then Get(n.data, field, Text("NSE"))
    else Get(n.data, field, Null)
  }

  predicate SameArming(m: Node, n: Node) {
    || (Idle(m) && Idle(n))
    || (!Idle(m) && !Idle(n) && m.kind == n.kind
        && forall field | field in FieldsOf(m.kind) :: Effective(m, field) == Effective(n, field))
  }

  /** Two trigger nodes arm the same registration exactly when both arm nothing,
      or they are of one kind and agree on its fields, defaults filled in. */
  lemma RegistrationExact(m: Node, n: Node)
    ensures RegistrationFor(m).None? <==> Idle(m)
    ensures RegistrationFor(m) == RegistrationFor(n) <==> SameArming(m, n)
  {
    hide Idle, RegistrationFor, Effective, FieldsOf, KindOf;
    ArmsItsKind(m);
    ArmsItsKind(n);
    if !Idle(m) && !Idle(n) && m.kind == n.kind {
      SameFieldsSameRegistration(m, n);
    }
  }

  lemma SameFieldsSameRegistration(m: Node, n: Node)
    requires m.kind == n.kind && !Idle(m) && !Idle(n)
    ensures RegistrationFor(m) == RegistrationFor(n)
       <==> forall field | field in FieldsOf(m.kind) :: Effective(m, field) == Effective(n, field)
  {
    hide Idle, RegistrationFor, Effective, FieldsOf, Values, KindOf;
    ArmsItsKind(m);
    ArmsItsKind(n);
    var fields, q, r := FieldsOf(m.kind), RegistrationFor(m).value, RegistrationFor(n).value;
    ValuesAreEffective(m);
    ValuesAreEffective(n);
    ValuesDetermine(q, r);
    if forall field | field in fields :: Effective(m, field) == Effective(n, field) {
      assert forall i | 0 <= i < |fields| :: Values(q)[i] == Values(r)[i] by {
        assert forall i | 0 <= i < |fields| :: fields[i] in fields;
      }
    } else {
      var field :| field in fields && Effective(m, field) != Effective(n, field);
      var i :| 0 <= i < |fields| && fields[i] == field;
      assert Values(q)[i] != Values(r)[i];
    }
  }

  /** What a registration carries, in the order of its kind's fields. */
  function Values(r: Registration): seq<Value> {
    match r
    case Job(scheduleType, time, days, executeAt, value, unit, marketHours) =>
      [scheduleType, time, days, executeAt, value, unit, Flag(marketHours)]
    case Alert(symbol, exchange, condition, price, lower, upper, percentage, trigger, expiration) =>
      [symbol, exchange, condition, price, lower, upper, percentage, trigger, expiration]
    case Watch(orderId, symbol, exchange, status, trigger) =>
      [orderId, symbol, exchange, status, trigger]
  }

  function KindOf(r: Registration): string {
    match r
    case Job(_, _, _, _, _, _, _) => "start"
    case Alert(_, _, _, _, _, _, _, _, _) => "priceAlert"
    case Watch(_, _, _, _, _) => "orderUpdateTrigger"
  }

  lemma ArmsItsKind(n: Node)
    ensures RegistrationFor(n).None? <==> Idle(n)
    ensures !Idle(n) ==> KindOf(RegistrationFor(n).value) == n.kind
  {}

  /** A registration carries each field of its kind as the node effectively says. */
  predicate CarriesEffective(n: Node) {
    && RegistrationFor(n).Some?
    && var values, fields := Values(RegistrationFor(n).value), FieldsOf(n.kind);
       |values| == |fields| && forall i | 0 <= i < |fields| :: values[i] == Effective(n, fields[i])
  }

  lemma StartCarries(n: Node)
    requires !Idle(n) && n.kind == "start"
    ensures CarriesEffective(n)
  {
    hide Get, Or;
  }

  lemma AlertCarries(n: Node)
    requires !Idle(n) && n.kind == "priceAlert"
    ensures CarriesEffective(n)
  {
    hide Get, Or;
  }

  lemma WatchCarries(n: Node)
    requires !Idle(n) && n.kind == "orderUpdateTrigger"
    ensures CarriesEffective(n)
  {
    hide Get, Or;
  }

  lemma ValuesAreEffective(n: Node)
    requires !Idle(n)
    ensures CarriesEffective(n)
  {
    hide CarriesEffective;
    if n.kind == "start" {
      StartCarries(n);
    } else if n.kind == "priceAlert" {
      AlertCarries(n);
    } else {
      WatchCarries(n);
    }
  }

  lemma ValuesDetermine(q: Registration, r: Registration)
    requires KindOf(q) == KindOf(r)
    ensures q == r <==> Values(q) == Values(r)
  {
    assert Values(q) == Values(r) ==> forall i | 0 <= i < |Values(q)| :: Values(q)[i] == Values(r)[i];
  }

  // ---- What each registration holds ---------------------------------------

  /** What a price alert is handed: the node's own values, and the defaults written
      out where it has none.  A price that is missing or falsy is 0. */
  lemma AlertHolds(n: Node)
    requires n.kind == "priceAlert"
    ensures RegistrationFor(n).Some? && RegistrationFor(n).value.Alert?
    ensures var r, d := RegistrationFor(n).value, n.data;
      && r.price == (if "price" in d && d["price"].Truthy() then d["price"] else Num(0.0))
      && r.symbol == (if "symbol" in d then d["symbol"] else Text(""))
      && r.exchange == (if "exchange" in d then d["exchange"] else Text("NSE"))
      && r.condition == (if "condition" in d then d["condition"] else Text("greater_than"))
      && r.priceLower == (if "priceLower" in d then d["priceLower"] else Null)
      && r.priceUpper == (if "priceUpper" in d then d["priceUpper"] else Null)
      && r.percentage == (if "percentage" in d then d["percentage"] else Null)
      && r.trigger == (if "trigger" in d then d["trigger"] else Text("once"))
      && r.expiration == (if "expiration" in d then d["expiration"] else Text("none"))
  {}

  /** What an order watch is handed: an order, symbol or exchange that is missing or
      falsy means any. */
  lemma WatchHolds(n: Node)
    requires n.kind == "orderUpdateTrigger"
    ensures RegistrationFor(n).Some? && RegistrationFor(n).value.Watch?
    ensures var r, d := RegistrationFor(n).value, n.data;
      && r.orderId == (if "orderId" in d && d["orderId"].Truthy() then d["orderId"] else Null)
      && r.symbol == (if "symbol" in d && d["symbol"].Truthy() then d["symbol"] else Null)
      && r.exchange == (if "exchange" in d && d["exchange"].Truthy() then d["exchange"] else Null)
      && r.status == (if "status" in d then d["status"] else Text("complete"))
      && r.trigger == (if "trigger" in d then d["trigger"] else Text("once"))
  {}

  /** What the scheduler is handed, and when it is handed nothing. */
  lemma JobHolds(n: Node)
    requires n.kind == "start"
    ensures RegistrationFor(n).Some? <==>
      "scheduleType" in n.data && n.data["scheduleType"].Truthy() && n.data["scheduleType"] != Text("manual")
    ensures RegistrationFor(n).Some? ==> RegistrationFor(n).value.Job?
    ensures RegistrationFor(n).Some? ==>
      var r, d := RegistrationFor(n).value, n.data;
      && r.scheduleType == d["scheduleType"]
      && r.time == (if "time" in d then d["time"] else Text("09:15"))
      && r.days == (if "days" in d then d["days"] else Null)
      && r.executeAt == (if "executeAt" in d then d["executeAt"] else Null)
      && r.intervalValue == (if "intervalValue" in d then d["intervalValue"] else Null)
      && r.intervalUnit == (if "intervalUnit" in d then d["intervalUnit"] else Null)
      && (r.marketHoursOnly <==> "marketHoursOnly" in d && d["marketHoursOnly"].Truthy())
  {}

  lemma WebhookHolds(n: Node)
    requires n.kind !in {"start", "priceAlert", "orderUpdateTrigger"}
    ensures RegistrationFor(n) == None
  {}

  /** Truthiness, value by value. */
  lemma TruthyExact(v: Value)
    ensures !v.Truthy() <==> v == Null || v == Flag(false) || v == Num(0.0) || v == Text("") || v == List([])
  {}

  // ---- When the comparison can be trusted ---------------------------------

  /** The first trigger nodes agree, or neither graph arms anything. */
  predicate SameFirst(a: Graph, b: Graph) {
    match (TriggerNode(a), TriggerNode(b))
    case (None, None) => true
    case (None, Some(n)) => Idle(n)
    case (Some(m), None) => Idle(m)
    case (Some(m), Some(n)) => SameArming(m, n)
  }

  /** For any two graphs: calling them equal is right exactly when they differ in
      configuration anyway or their first trigger nodes agree. */
  lemma ComparisonExact(stored: Graph, saved: Graph)
    ensures (TriggerConfig(stored) == TriggerConfig(saved) ==> RegistrationOf(stored) == RegistrationOf(saved))
       <==> (TriggerConfig(stored) != TriggerConfig(saved) || SameFirst(stored, saved))
  {
    hide TriggerConfig, RegistrationFor, SameArming, Idle;
    FirstDecides(stored, saved);
  }

  lemma FirstDecides(a: Graph, b: Graph)
    ensures RegistrationOf(a) == RegistrationOf(b) <==> SameFirst(a, b)
  {
    hide RegistrationFor, SameArming, Idle;
    match (TriggerNode(a), TriggerNode(b)) {
      case (None, None) =>
      case (None, Some(n)) => RegistrationExact(n, n);
      case (Some(m), None) => RegistrationExact(m, m);
      case (Some(m), Some(n)) => RegistrationExact(m, n);
    }
  }

  /** What a graph arms shows in its configuration: it has no trigger, or triggers
      of one kind of which the first arms what the last one would. */
  predicate Unshadowed(g: Graph) {
    || LastTrigger(g).None?
    || (OneKind(g) && RegistrationOf(g) == RegistrationFor(LastTrigger(g).value))
  }

  lemma OneTriggerUnshadowed(g: Graph)
    requires AtMostOneTrigger(g)
    ensures Unshadowed(g)
  {
    OnlyTriggerIsLast(g);
  }

  lemma SameConfigSameNodeRegistration(a: Node, b: Node)
    requires a.kind == b.kind && ConfigOf(a.data) == ConfigOf(b.data)
    ensures RegistrationFor(a) == RegistrationFor(b)
  {
    hide Idle, Effective, SameArming;
    forall field, default | field in CONFIG_FIELDS
      ensures Get(a.data, field, default) == Get(b.data, field, default)
    {
      SameConfigSameFields(a.data, b.data, field, default);
    }
  }

  /** Every field a registration reads is one the comparison looks at. */
  lemma SameConfigSameFields(a: Data, b: Data, field: string, default: Value)
    requires ConfigOf(a) == ConfigOf(b) && field in CONFIG_FIELDS
    ensures Get(a, field, default) == Get(b, field, default)
  {
    assert field in a <==> field in ConfigOf(a);
    assert field in b <==> field in ConfigOf(b);
    if field in a {
      assert ConfigOf(a)[field] == a[field] && ConfigOf(b)[field] == b[field];
    }
  }

  /** Once one of two graphs with equal configuration is unshadowed, they arm the
      same exactly when the other one is too. */
  lemma UnshadowedDecides(a: Graph, b: Graph)
    requires TriggerConfig(a) == TriggerConfig(b) && Unshadowed(a)
    ensures RegistrationOf(a) == RegistrationOf(b) <==> Unshadowed(b)
  {
    hide RegistrationFor, TriggerConfig, ConfigOf;
    ConfigShape(a);
    ConfigShape(b);
    TriggerNodeFacts(a);
    TriggerNodeFacts(b);
    if LastTrigger(a).Some? {
      var m := LastTrigger(a).value;
      assert m.kind in TriggerConfig(b).Keys;
      var n := LastTrigger(b).value;
      SameKinds(a, b);
      assert OneKind(b) && n.kind == m.kind;
      SameConfigSameNodeRegistration(m, n);
    } else {
      assert forall k :: k in TriggerConfig(b).Keys ==> k in TriggerConfig(a).Keys;
    }
  }

  lemma SameKinds(a: Graph, b: Graph)
    requires TriggerConfig(a) == TriggerConfig(b) && OneKind(a)
    ensures OneKind(b)
    ensures forall m, n | m in a && n in b && m.IsTrigger() && n.IsTrigger() :: m.kind == n.kind
  {
    hide TriggerConfig;
    ConfigShape(a);
    ConfigShape(b);
    forall n | n in b && n.IsTrigger() ensures exists m :: m in a && m.IsTrigger() && m.kind == n.kind {
      assert n.kind in TriggerConfig(b).Keys;
      assert n.kind in TriggerConfig(a).Keys;
    }
  }

  /** Two one-trigger graphs the comparison calls equal arm the same registration,
      so a save that leaves it equal needs no re-arming. */
  lemma SameConfigSameRegistration(a: Graph, b: Graph)
    requires AtMostOneTrigger(a) && AtMostOneTrigger(b)
    requires TriggerConfig(a) == TriggerConfig(b)
    ensures RegistrationOf(a) == RegistrationOf(b)
  {
    OneTriggerUnshadowed(a);
    OneTriggerUnshadowed(b);
    UnshadowedDecides(a, b);
  }

  predicate OnlyWebhooks(g: Graph) {
    forall n | n in g && n.IsTrigger() :: n.kind == "webhookTrigger"
  }

  /** Which saved graphs are safe whatever was stored before: those with no
      trigger but webhooks.  In front of any other trigger of a stored graph there
      may be one of its kind that the configuration does not show. */
  lemma SafeForEveryStored(saved: Graph)
    ensures (forall stored | TriggerConfig(stored) == TriggerConfig(saved) :: RegistrationOf(stored) == RegistrationOf(saved))
       <==> OnlyWebhooks(saved)
  {
    hide TriggerConfig, RegistrationFor;
    ConfigShape(saved);
    if OnlyWebhooks(saved) {
      forall stored | TriggerConfig(stored) == TriggerConfig(saved)
        ensures RegistrationOf(stored) == RegistrationOf(saved)
      {
        WebhooksArmNothing(stored, saved);
        WebhooksArmNothing(saved, saved);
      }
    } else {
      var n :| n in saved && n.IsTrigger() && n.kind != "webhookTrigger";
      var x := OtherRegistration(n.kind, RegistrationOf(saved));
      assert n.kind in TriggerConfig(saved).Keys;
      PrependShadowed(x, saved);
      assert RegistrationOf([x] + saved) == RegistrationFor(x);
    }
  }

  lemma WebhooksArmNothing(stored: Graph, saved: Graph)
    requires TriggerConfig(stored) == TriggerConfig(saved) && OnlyWebhooks(saved)
    ensures RegistrationOf(stored) == None
  {
    hide TriggerConfig;
    ConfigShape(stored);
    ConfigShape(saved);
    TriggerNodeFacts(stored);
    if TriggerNode(stored).Some? {
      assert TriggerNode(stored).value.kind in TriggerConfig(saved).Keys;
    }
  }

  /** A node of the given kind that arms something else. */
  lemma OtherRegistration(kind: string, r: Option<Registration>) returns (x: Node)
    requires kind in TRIGGER_KINDS && kind != "webhookTrigger"
    ensures x.IsTrigger() && x.kind == kind && RegistrationFor(x) != r
  {
    var field := if kind == "start" then "scheduleType" else "status";
    var one := Node(kind, map["scheduleType" := Text("daily"), "status" := Text("a"), "symbol" := Text("a")]);
    var two := Node(kind, map["scheduleType" := Text("manual"), "status" := Text("b"), "symbol" := Text("b")]);
    assert Get(one.data, "scheduleType", Null) == Text("daily") && Get(two.data, "scheduleType", Null) == Text("manual");
    if kind == "start" {
      assert RegistrationFor(one).Some? && RegistrationFor(two).None?;
    } else if kind == "priceAlert" {
      assert RegistrationFor(one).value.symbol != RegistrationFor(two).value.symbol;
    } else {
      assert RegistrationFor(one).value.status != RegistrationFor(two).value.status;
    }
    x := if RegistrationFor(one) != r then one else two;
  }

  lemma {:induction false} PrependConfig(x: Node, g: Graph)
    requires x.IsTrigger()
    ensures TriggerConfig([x] + g) == map[x.kind := ConfigOf(x.data)] + TriggerConfig(g)
  {
    hide ConfigOf;
    if g == [] {
      assert [x] + g == [x] && [x][..0] == [];
    } else {
      assert ([x] + g)[..|g|] == [x] + g[..|g| - 1];
      PrependConfig(x, g[..|g| - 1]);
    }
  }

  lemma PrependShadowed(x: Node, g: Graph)
    requires x.IsTrigger() && x.kind in TriggerConfig(g)
    ensures TriggerConfig([x] + g) == TriggerConfig(g)
  {
    PrependConfig(x, g);
  }

  /** A save the comparison misreads: the first start node is manual, the second
      is the daily one already stored. */
  lemma ShadowedTriggerComparesEqual() returns (a: Graph, b: Graph)
    ensures AtMostOneTrigger(a) && TriggerConfig(a) == TriggerConfig(b) && RegistrationOf(a) != RegistrationOf(b)
  {
    var daily := Node("start", map["scheduleType" := Text("daily")]);
    var manual := Node("start", map["scheduleType" := Text("manual")]);
    a, b := [daily], [manual, daily];
    assert a[..0] == [] && b[..1] == [manual] && [manual][..0] == [];
  }

  /** And the other way round: the stored graph hides the daily start that is armed
      behind a manual one, and saving the manual one alone compares equal. */
  lemma StoredShadowComparesEqual() returns (a: Graph, b: Graph)
    ensures AtMostOneTrigger(b) && TriggerConfig(a) == TriggerConfig(b)
    ensures RegistrationOf(a).Some? && RegistrationOf(a).value.Job? && RegistrationOf(b).None?
  {
    var daily := Node("start", map["scheduleType" := Text("daily")]);
    var manual := Node("start", map["scheduleType" := Text("manual")]);
    a, b := [daily, manual], [manual];
    assert b[..0] == [] && a[..1] == [daily] && [daily][..0] == [];
  }
}
