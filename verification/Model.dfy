/** The values MizuFlow passes around: feature flags, watch messages and the
    scope (environment plus namespaces) one stream connection asks for. */
module Model {

  datatype Option<+T> = None | Some(value: T)

  datatype Result<+T> = Ok(value: T) | Err

  /** The identity of a feature; MySQL has a unique index on exactly these columns. */
  datatype FeatureId = FeatureId(namespace: string, env: string, key: string)

  /** v1.FeatureFlag. Every writer in the repository leaves `revision` at 0 in the
      JSON it stores; only the initial load of the cache stamps it. */
  datatype Flag = Flag(namespace: string, env: string, key: string,
                       value: string, version: nat, revision: int, kind: string)
  {
    function Id(): FeatureId {
      FeatureId(namespace, env, key)
    }

    function Content(): Setting {
      Setting(value, kind, version)
    }
  }

  /** What a reader of a flag can observe of it. */
  datatype Setting = Setting(value: string, kind: string, version: nat)

  /** constraints.Action: 0 deletes, 1 puts; the SDK tolerates any other code. */
  datatype Action = Delete | Put | Unknown(code: int)

  /** v1.Message without its wall-clock field. */
  datatype Message = Message(namespace: string, env: string, key: string,
                             value: string, kind: string, version: nat,
                             revision: int, action: Action)
  {
    function Id(): FeatureId {
      FeatureId(namespace, env, key)
    }

    function Content(): Setting {
      Setting(value, kind, version)
    }

    predicate IsPing() {
      kind == "ping"
    }
  }

  /** The heartbeat message the hub sends to every client. */
  const PING := Message("", "", "", "", "ping", 0, 0, Delete)

  /** The environment and namespaces of one stream connection. */
  datatype Scope = Scope(env: string, namespaces: set<string>)
  {
    /** The filter of the stream handler. */
    predicate Wants(m: Message) {
      m.env == env && m.namespace in namespaces
    }

    /** The hub's choice of receivers: a client with namespace "*" gets everything. */
    predicate Routes(m: Message) {
      "*" in namespaces || Wants(m)
    }
  }

  function Max(a: int, b: int): int {
    if a >= b then a else b
  }
}
