/** From a configuration to a running sentinel: what is checked at start-up, and what a sentinel that was
    started can rely on. */
module Startup {
  import opened Wrappers
  import opened Cel
  import opened Engine
  import Events
  import Payload
  import Metrics
  import Selectors
  import Sentinel

  /** `baseURL` is that of the API client, if one is configured; `topic` that of the broker. */
  datatype Config = Config(
    name: string,
    resourceType: string,
    baseURL: Option<string>,
    topic: Option<string>,
    pollInterval: int,
    selectors: seq<Selectors.LabelSelector>,
    decision: Option<MessageDecisionConfig>,
    messageData: Option<map<string, Payload.Raw>>)

  datatype Fault =
    | NameRequired
    | ResourceTypeRequired
    | InvalidResourceType
    | APIRequired
    | BaseURLRequired
    | IntervalNotPositive
    | DecisionRequired
    | BadDecision(error: ConfigError)
    | MessageDataRequired
    | BadMessageData(path: Payload.Path)
    | BadBuilder(cause: Payload.BuilderError)

  ghost predicate ValidConfig(cfg: Config)
  {
    && cfg.name != "" && cfg.resourceType in {"clusters", "nodepools"}
    && cfg.baseURL.Some? && cfg.baseURL.value != "" && cfg.pollInterval > 0
    && cfg.decision.Some? && WellFormed(cfg.decision.value)
    && cfg.messageData.Some? && Payload.Everywhere(Payload.Object(cfg.messageData.value), Payload.NotBlank)
  }

  /** What each complaint means. */
  ghost predicate Justified(cfg: Config, fault: Fault)
  {
    match fault
    case NameRequired => cfg.name == ""
    case ResourceTypeRequired => cfg.resourceType == ""
    case InvalidResourceType => cfg.resourceType !in {"clusters", "nodepools"}
    case APIRequired => cfg.baseURL.None?
    case BaseURLRequired => cfg.baseURL == Some("")
    case IntervalNotPositive => cfg.pollInterval <= 0
    case DecisionRequired => cfg.decision.None?
    case BadDecision(_) => cfg.decision.Some? && !WellFormed(cfg.decision.value)
    case MessageDataRequired => cfg.messageData.None?
    case BadMessageData(path) =>
      cfg.messageData.Some? && Payload.Breaks(Payload.Object(cfg.messageData.value), path, Payload.NotBlank)
    case BadBuilder(_) => false
  }

  /** The place of a complaint in the order of the checks. */
  function Place(fault: Fault): nat
  {
    match fault
    case NameRequired => 0
    case ResourceTypeRequired => 1
    case InvalidResourceType => 2
    case APIRequired => 3
    case BaseURLRequired => 4
    case IntervalNotPositive => 5
    case DecisionRequired => 6
    case BadDecision(_) => 7
    case MessageDataRequired => 8
    case BadMessageData(_) => 9
    case BadBuilder(_) => 10
  }

  /** The complaint is justified, and none that comes before it is. */
  ghost predicate FirstComplaint(cfg: Config, fault: Fault)
  {
    Justified(cfg, fault) && forall f :: Justified(cfg, f) ==> Place(fault) <= Place(f)
  }

  method Validate(cfg: Config) returns (fault: Option<Fault>)
    ensures fault.None? <==> ValidConfig(cfg)
    ensures fault.Some? ==> FirstComplaint(cfg, fault.value)
  {
    if cfg.name == "" { return Some(NameRequired); }
    if cfg.resourceType == "" { return Some(ResourceTypeRequired); }
    if cfg.resourceType !in ["clusters", "nodepools"] { return Some(InvalidResourceType); }
    if cfg.baseURL.None? { return Some(APIRequired); }
    if cfg.baseURL.value == "" { return Some(BaseURLRequired); }
    if cfg.pollInterval <= 0 { return Some(IntervalNotPositive); }
    if cfg.decision.None? { return Some(DecisionRequired); }
    var bad := Engine.Validate(cfg.decision.value);
    if bad.Some? { return Some(BadDecision(bad.value)); }
    if cfg.messageData.None? { return Some(MessageDataRequired); }
    var leaf := Payload.ValidateMessageDataLeaves(cfg.messageData.value);
    if leaf.Some? { return Some(BadMessageData(leaf.value)); }
    return None;
  }

  /** The setup of a sentinel is that of the config: the compiled decision and the compiled payload. */
  ghost predicate Follows(s: Sentinel.Setup, cfg: Config, compile: string -> Option<Expr>, compiles: string -> bool)
    requires cfg.decision.Some?
  {
    var md := cfg.decision.value;
    && s.resourceType == cfg.resourceType && s.selectors == cfg.selectors
    && s.topic == (if cfg.topic.Some? then cfg.topic.value else "")
    && Some(s.prog.result) == compile(md.result)
    && |s.prog.params| == |md.params|
    && (forall i :: 0 <= i < |md.params| ==>
          s.prog.params[i].name == md.params[i].name && Some(s.prog.params[i].expr) == compile(md.params[i].expr))
    && (match cfg.messageData
        case None => s.payload.None?
        case Some(data) =>
          s.payload.Some? &&
          Payload.Compile(compiles, Payload.Object(data)) == Some(Payload.Children(s.payload.value)))
  }

  /** A sentinel for an engine that was made from the config; refused only if the payload does not compile. */
  method NewSentinel(
    cfg: Config, engine: DecisionEngine, compiles: string -> bool, run: Payload.Runner<Value>,
    metrics: Metrics.Registry, broker: Sentinel.Broker)
    returns (r: Result<Sentinel.Poller, Fault>)
    ensures r.Ok? <==> cfg.messageData.None? || Payload.Compile(compiles, Payload.Object(cfg.messageData.value)).Some?
    ensures r.Err? ==> r.error.BadBuilder? && r.error.cause.Refused?
    ensures r.Ok? ==>
              var p := r.value;
              && fresh(p) && p.Valid() && p.engine == engine && p.metrics == metrics && p.broker == broker
              && p.lastSuccessfulPoll == ZERO_TIME
              && p.setup.prog == engine.Prog() && p.setup.run == run
              && p.setup.resourceType == cfg.resourceType && p.setup.selectors == cfg.selectors
              && p.setup.topic == (if cfg.topic.Some? then cfg.topic.value else "")
              && p.setup.payload.Some? == cfg.messageData.Some?
              && (cfg.messageData.Some? ==>
                    Payload.Compile(compiles, Payload.Object(cfg.messageData.value)) ==
                    Some(Payload.Children(p.setup.payload.value)))
  {
    var payload: Option<map<string, Payload.Node>> := None;
    if cfg.messageData.Some? {
      var builder := Payload.NewBuilder(compiles, Payload.Object(cfg.messageData.value));
      if builder.Err? {
        return Err(BadBuilder(builder.error));
      }
      payload := Some(builder.value);
    }
    var topic := if cfg.topic.Some? then cfg.topic.value else "";
    var setup := Sentinel.Setup(engine.lib, engine.Prog(), run, cfg.resourceType, cfg.selectors, topic, payload);
    var p := new Sentinel.Poller(setup, engine, metrics, broker);
    return Ok(p);
  }

  /** The serve command up to its loop: a sentinel starts exactly when the config is valid and all its
      expressions compile. It starts with nothing sent or counted, follows the config, and its resource type
      is never empty, so no metric update is ever lost. */
  method Assemble(
    cfg: Config, lib: Library, compile: string -> Option<Expr>, compiles: string -> bool, run: Payload.Runner<Value>)
    returns (r: Result<Sentinel.Poller, Fault>)
    ensures r.Ok? <==>
            && ValidConfig(cfg)
            && Compiles(compile, cfg.decision.value)
            && Payload.Compile(compiles, Payload.Object(cfg.messageData.value)).Some?
    ensures !ValidConfig(cfg) ==> r.Err? && FirstComplaint(cfg, r.error)
    ensures ValidConfig(cfg) && r.Err? ==>
              if Compiles(compile, cfg.decision.value) then r.error.BadBuilder? else r.error.BadDecision?
    ensures r.Ok? ==>
              var p := r.value;
              && fresh(p) && fresh(p.engine) && fresh(p.metrics) && fresh(p.broker)
              && p.Valid() && p.Now() == Sentinel.INITIAL
              && p.setup.lib == lib && p.setup.run == run && p.setup.resourceType != ""
              && Follows(p.setup, cfg, compile, compiles)
  {
    var fault := Validate(cfg);
    if fault.Some? {
      return Err(fault.value);
    }
    var engine := NewDecisionEngine(lib, cfg.decision, compile);
    if engine.Err? {
      return Err(BadDecision(engine.error));
    }
    var metrics := new Metrics.Registry();
    var broker := new Sentinel.Broker();
    r := NewSentinel(cfg, engine.value, compiles, run, metrics, broker);
  }

  /** End to end: whatever a sentinel that follows the config has sent after any run, the data of every message
      shows, at every path, what the config describes for the resource of that message. */
  lemma MessagesShowConfig(
    s: Sentinel.Setup, cfg: Config, compile: string -> Option<Expr>, compiles: string -> bool,
    cycles: seq<Sentinel.Cycle>, m: Sentinel.Message, path: Payload.Path) returns (k: nat, i: nat)
    requires cfg.decision.Some? && cfg.messageData.Some? && Follows(s, cfg, compile, compiles)
    requires m in Sentinel.Run(s, Sentinel.INITIAL, cycles).accepted && path != []
    ensures k < |cycles| && cycles[k].Fetched? && i < |cycles[k].items|
    ensures var r := cycles[k].items[i].resource;
            && Decide(s.lib, s.prog, Some(r), cycles[k].now).shouldPublish
            && Payload.ShowsAt(s.run, r, MATCHED, Payload.Object(cfg.messageData.value), path,
                               Payload.TreeAt(Some(Payload.Branch(m.event.data)), path))
  {
    k, i := Events.EveryMessageSaysSo(s, cycles, m);
    var item := cycles[k].items[i];
    Events.DataShowsDefinition(s, item.resource, item.oracle.uuid.value, m, compiles, cfg.messageData.value, path);
  }
}
