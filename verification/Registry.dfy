/** The actor types: modes, commands, argument and outcome declarations. */
module Registry {
  import opened Common
  import opened Values
  import opened Ast

  datatype ActorKind = PgClient | Container | Exec | HttpClient | MqttClient | ArgsActor

  datatype Mode = Disconnected | Connected | Stopped | Running | Ready

  datatype Cmd =
    | Connect | Disconnect | Query
    | Run | Stop
    | HttpGet | HttpPost | HttpPut | HttpDelete
    | Subscribe0 | Subscribe1 | Subscribe2 | Publish0 | Publish1 | Publish2
    | ReceivePublish | ReceiveDisconnect
    | Check

  datatype KeywordDef = KeywordDef(name: string, required: bool)

  datatype OutcomeField = OutcomeField(name: string, ty: ValueType)

  datatype ErrorType = ErrorType(name: string, fields: seq<OutcomeField>)

  function KindByName(name: string): Option<ActorKind> {
    if name == "pg_client" then Some(PgClient)
    else if name == "container" then Some(Container)
    else if name == "exec" then Some(Exec)
    else if name == "http_client" then Some(HttpClient)
    else if name == "mqtt_client" then Some(MqttClient)
    else if name == "args_actor" then Some(ArgsActor)
    else None
  }

  function InitialMode(kind: ActorKind): Mode {
    match kind
    case PgClient => Disconnected
    case Container => Stopped
    case Exec => Stopped
    case HttpClient => Ready
    case MqttClient => Disconnected
    case ArgsActor => Ready
  }

  function CommandByName(kind: ActorKind, name: string): Option<Cmd> {
    match kind
    case PgClient =>
      if name == "connect" then Some(Connect)
      else if name == "query" then Some(Query)
      else if name == "disconnect" then Some(Disconnect)
      else None
    case Container => if name == "run" then Some(Run) else if name == "stop" then Some(Stop) else None
    case Exec => if name == "run" then Some(Run) else None
    case HttpClient =>
      if name == "get" then Some(HttpGet)
      else if name == "post" then Some(HttpPost)
      else if name == "put" then Some(HttpPut)
      else if name == "delete" then Some(HttpDelete)
      else None
    case MqttClient =>
      if name == "connect" then Some(Connect)
      else if name == "disconnect" then Some(Disconnect)
      else if name == "subscribe_0" then Some(Subscribe0)
      else if name == "subscribe_1" then Some(Subscribe1)
      else if name == "subscribe_2" then Some(Subscribe2)
      else if name == "publish_0" then Some(Publish0)
      else if name == "publish_1" then Some(Publish1)
      else if name == "publish_2" then Some(Publish2)
      else if name == "receive_publish" then Some(ReceivePublish)
      else if name == "receive_disconnect" then Some(ReceiveDisconnect)
      else None
    case ArgsActor => if name == "check" then Some(Check) else None
  }

  /** The spelling of a command; the two `receive` commands are written as two words. */
  function CommandName(cmd: Cmd): string {
    match cmd
    case Connect => "connect"
    case Disconnect => "disconnect"
    case Query => "query"
    case Run => "run"
    case Stop => "stop"
    case HttpGet => "get"
    case HttpPost => "post"
    case HttpPut => "put"
    case HttpDelete => "delete"
    case Subscribe0 => "subscribe_0"
    case Subscribe1 => "subscribe_1"
    case Subscribe2 => "subscribe_2"
    case Publish0 => "publish_0"
    case Publish1 => "publish_1"
    case Publish2 => "publish_2"
    case ReceivePublish => "receive_publish"
    case ReceiveDisconnect => "receive_disconnect"
    case Check => "check"
  }

  function KindName(kind: ActorKind): string {
    match kind
    case PgClient => "pg_client"
    case Container => "container"
    case Exec => "exec"
    case HttpClient => "http_client"
    case MqttClient => "mqtt_client"
    case ArgsActor => "args_actor"
  }

  datatype Resolved = Resolved(cmd: Cmd, consumed: nat)

  /** A source spelling to a command. `receive publish` fuses its first positional into the name. */
  function Resolve(kind: ActorKind, name: string, positional: seq<Expr>): (r: Option<Resolved>)
    ensures r.Some? ==> r.value.consumed <= |positional| && Offers(kind, r.value.cmd)
  {
    if kind.MqttClient? && name == "receive" && positional != [] && positional[0].Ident?
       && CommandByName(kind, "receive_" + positional[0].name).Some?
    then Some(Resolved(CommandByName(kind, "receive_" + positional[0].name).value, 1))
    else if CommandByName(kind, name).Some? then Some(Resolved(CommandByName(kind, name).value, 0))
    else None
  }

  lemma KindByNameIff(name: string, kind: ActorKind)
    ensures KindByName(name) == Some(kind) <==> name == KindName(kind)
  {
  }

  lemma NamedCommand(kind: ActorKind, cmd: Cmd)
    requires Offers(kind, cmd)
    ensures CommandByName(kind, CommandName(cmd)) == Some(cmd)
  {
  }

  lemma CommandByNameIff(kind: ActorKind, name: string, cmd: Cmd)
    ensures CommandByName(kind, name) == Some(cmd) <==> Offers(kind, cmd) && name == CommandName(cmd)
  {
    if Offers(kind, cmd) {
      NamedCommand(kind, cmd);
    }
    if CommandByName(kind, name) == Some(cmd) {
      NameOfCommand(kind, name, cmd);
    }
    hide CommandByName, CommandName, Offers;
  }

  lemma NameOfCommand(kind: ActorKind, name: string, cmd: Cmd)
    requires CommandByName(kind, name) == Some(cmd)
    ensures Offers(kind, cmd) && name == CommandName(cmd)
  {
    if kind.MqttClient? {
      NameOfMqttCommand(name, cmd);
    }
  }

  lemma NameOfMqttCommand(name: string, cmd: Cmd)
    requires CommandByName(MqttClient, name) == Some(cmd)
    ensures Offers(MqttClient, cmd) && name == CommandName(cmd)
  {
  }

  lemma OnlyMqttReceives(kind: ActorKind, event: string, cmd: Cmd)
    requires Offers(kind, cmd) && CommandName(cmd) == "receive_" + event
    ensures kind.MqttClient? && (cmd.ReceivePublish? || cmd.ReceiveDisconnect?)
  {
    assert CommandName(cmd)[7] == '_' && CommandName(cmd)[2] == 'c';
  }

  /** A statement calls a command of its actor by its name, or, for the two events of an mqtt_client, by
      `receive` and the event as the first argument, which is then not an argument any more. */
  lemma ResolvesIff(kind: ActorKind, name: string, positional: seq<Expr>, cmd: Cmd, consumed: nat)
    ensures Resolve(kind, name, positional) == Some(Resolved(cmd, consumed)) <==>
              && Offers(kind, cmd)
              && (|| (consumed == 0 && name == CommandName(cmd))
                  || (consumed == 1 && name == "receive" && positional != [] && positional[0].Ident?
                      && CommandName(cmd) == "receive_" + positional[0].name))
  {
    CommandByNameIff(kind, name, cmd);
    assert CommandName(cmd) != "receive";
    if positional != [] && positional[0].Ident? {
      var fused := "receive_" + positional[0].name;
      CommandByNameIff(kind, fused, cmd);
      if Offers(kind, cmd) && CommandName(cmd) == fused {
        OnlyMqttReceives(kind, positional[0].name, cmd);
      }
    }
    hide CommandByName, CommandName, Offers;
  }

  /** The commands an actor type lists. */
  predicate Offers(kind: ActorKind, cmd: Cmd) {
    match kind
    case PgClient => cmd.Connect? || cmd.Query? || cmd.Disconnect?
    case Container => cmd.Run? || cmd.Stop?
    case Exec => cmd.Run?
    case HttpClient => cmd.HttpGet? || cmd.HttpPost? || cmd.HttpPut? || cmd.HttpDelete?
    case MqttClient =>
      || cmd.Connect? || cmd.Disconnect? || cmd.Subscribe0? || cmd.Subscribe1? || cmd.Subscribe2?
      || cmd.Publish0? || cmd.Publish1? || cmd.Publish2? || cmd.ReceivePublish? || cmd.ReceiveDisconnect?
    case ArgsActor => cmd.Check?
  }

  function ValidModes(cmd: Cmd): seq<Mode> {
    match cmd
    case Connect => [Disconnected]
    case Run => [Stopped]
    case Stop => [Running]
    case Check => [Ready]
    case HttpGet => [Ready]
    case HttpPost => [Ready]
    case HttpPut => [Ready]
    case HttpDelete => [Ready]
    case _ => [Connected]
  }

  /** The mode a command leads to when it succeeds, if it changes the mode. */
  function TransitionsTo(cmd: Cmd): Option<Mode> {
    match cmd
    case Connect => Some(Connected)
    case Disconnect => Some(Disconnected)
    case ReceiveDisconnect => Some(Disconnected)
    case Run => Some(Running)
    case Stop => Some(Stopped)
    case _ => None
  }

  function PositionalCount(cmd: Cmd): nat {
    match cmd
    case Query => 1
    case HttpGet => 1
    case HttpPost => 1
    case HttpPut => 1
    case HttpDelete => 1
    case Subscribe0 => 1
    case Subscribe1 => 1
    case Subscribe2 => 1
    case Publish0 => 2
    case Publish1 => 2
    case Publish2 => 2
    case _ => 0
  }

  function Optional(names: seq<string>): seq<KeywordDef> {
    seq(|names|, i requires 0 <= i < |names| => KeywordDef(names[i], false))
  }

  function Keywords(kind: ActorKind, cmd: Cmd): seq<KeywordDef> {
    match cmd
    case Connect =>
      if kind.PgClient? then
        Optional(["host", "port"]) + [KeywordDef("user", true)] + Optional(["password"])
        + [KeywordDef("database", true)] + Optional(["application_name", "timeout"])
      else
        Optional(["host", "port", "username", "password", "client_id", "clean_start", "keep_alive",
                  "user_properties", "timeout"])
    case Disconnect => if kind.PgClient? then [] else Optional(["reason_code", "user_properties"])
    case Query => Optional(["timeout"])
    case Run => if kind.Exec? then Optional(["env"]) else Optional(["external_port", "env", "timeout"])
    case HttpGet => Optional(["headers", "body", "timeout"])
    case HttpPost => Optional(["headers", "body", "timeout"])
    case HttpPut => Optional(["headers", "body", "timeout"])
    case HttpDelete => Optional(["headers", "body", "timeout"])
    case ReceivePublish => Optional(["timeout"])
    case ReceiveDisconnect => Optional(["timeout"])
    case Stop => []
    case Check => []
    case _ => Optional(["user_properties"])
  }

  function ConstructorKeywords(kind: ActorKind): seq<KeywordDef> {
    match kind
    case Container => Optional(["image", "dockerfile", "internal_port"])
    case Exec => [KeywordDef("command", true), KeywordDef("cwd", false)]
    case _ => []
  }

  function OkFields(kind: ActorKind, cmd: Cmd): seq<OutcomeField> {
    match cmd
    case Connect =>
      if kind.PgClient? then []
      else [OutcomeField("session_present", BoolT), OutcomeField("assigned_client_id", StringT),
            OutcomeField("user_properties", DictT)]
    case Query =>
      [OutcomeField("row", DynamicT), OutcomeField("col", DynamicT),
       OutcomeField("row_count", NumberT), OutcomeField("col_count", NumberT)]
    case Run => if kind.Exec? then [OutcomeField("pid", NumberT)] else [OutcomeField("id", StringT)]
    case HttpGet => HTTP_FIELDS
    case HttpPost => HTTP_FIELDS
    case HttpPut => HTTP_FIELDS
    case HttpDelete => HTTP_FIELDS
    case ReceivePublish =>
      [OutcomeField("topic", StringT), OutcomeField("payload", BytesT), OutcomeField("qos", NumberT),
       OutcomeField("user_properties", DictT)]
    case ReceiveDisconnect => [OutcomeField("reason_code", NumberT), OutcomeField("user_properties", DictT)]
    case _ => []
  }

  const HTTP_FIELDS :=
    [OutcomeField("status_code", NumberT), OutcomeField("body", UnknownT), OutcomeField("headers", UnknownT)]

  const NETWORK := ErrorType("network", [OutcomeField("reason", AtomT)])
  const MQTT := ErrorType("mqtt", [OutcomeField("reason", AtomT), OutcomeField("reason_code", NumberT)])
  const CONTAINER := ErrorType("container", [OutcomeField("reason", AtomT)])

  function ErrorTypes(kind: ActorKind, cmd: Cmd): seq<ErrorType> {
    match cmd
    case Connect =>
      if kind.PgClient? then [NETWORK, ErrorType("connect", [OutcomeField("reason", AtomT)])] else [NETWORK, MQTT]
    case Query =>
      [NETWORK, ErrorType("query", [OutcomeField("reason", AtomT), OutcomeField("sqlstate", StringT),
                                    OutcomeField("message", StringT)])]
    case Run => if kind.Exec? then [ErrorType("exec", [OutcomeField("reason", AtomT)])] else [CONTAINER]
    case Stop => [CONTAINER]
    case Subscribe0 => [NETWORK, MQTT]
    case Subscribe1 => [NETWORK, MQTT]
    case Subscribe2 => [NETWORK, MQTT]
    case Publish0 => [MQTT]
    case Publish1 => [NETWORK, MQTT]
    case Publish2 => [NETWORK, MQTT]
    case ReceivePublish => [ErrorType("timeout", []), MQTT]
    case ReceiveDisconnect => [ErrorType("timeout", []), MQTT]
    case _ => []
  }
}
