/** The gateway's openclaw.json, as far as the operator's writers read or change it.
    A list-valued property that is absent or not an array is None, as the scripts treat both alike;
    an object that is absent and one that is empty are the same, except where a script tells them apart. */
module OpenClawConfig {
  import opened Values

  datatype Gateway = Gateway(authToken: Option<string>, remoteToken: Option<string>, http: Option<Json>)

  datatype Agents = Agents(defaultModel: Option<string>, list: Option<seq<Json>>)

  datatype Auth = Auth(profiles: Block, order: map<string, seq<string>>)

  datatype BrowserProxy = BrowserProxy(enabled: Option<Json>, allowProfiles: Option<seq<Json>>)

  datatype Tools = Tools(allow: Option<Json>, alsoAllow: Option<seq<Json>>, webFetch: Json, searchProvider: string)

  datatype Config = Config(
    gateway: Gateway,
    providers: Block,
    agents: Agents,
    auth: Auth,
    hooks: Option<Json>,
    browserProxy: BrowserProxy,
    tools: Tools,
    plugins: Block,
    bindings: Option<seq<Json>>,
    rest: Block)
}
