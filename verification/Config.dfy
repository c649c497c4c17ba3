/** The policy part of the agent configuration (internal/config/config.go), as Validate admits it. */
module Config {
  datatype Category = NoCategory | LLM | MCP | Other

  datatype Action = NoAction | Reroute | Passthrough | Block

  /** `matchBody` maps a top-level JSON key to the text its value must print as, "" for presence only. */
  datatype Rule = Rule(
    name: string, hosts: seq<string>, pathPrefixes: seq<string>, pathPatterns: seq<string>,
    methods: seq<string>, matchBody: map<string, string>, category: Category, action: Action)

  datatype InterceptHost = InterceptHost(
    host: string, action: Action, category: Category, paths: seq<string>, methods: seq<string>)
  {
    predicate Scoped() { paths != [] || methods != [] }
  }

  /** App profiles and inject entries matter here by their ids only. */
  datatype App = App(id: string, profile: string)

  datatype InjectEntry = InjectEntry(app: string, settings: string)

  datatype Policy = Policy(apps: seq<App>, hosts: seq<InterceptHost>, rules: seq<Rule>, inject: seq<InjectEntry>)
}
