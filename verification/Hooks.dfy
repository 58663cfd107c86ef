/** spec.hooks: what one reconcile decides about it, and how the decision converges into openclaw.json. */
module Hooks {
  import opened Values
  import opened OpenClawConfig

  const TOKEN_ENV_VAR := "OPENCLAW_HOOKS_TOKEN"
  const DEFAULT_PATH := "/hooks"
  const DEFAULT_TOKEN_KEY := "token"

  datatype HooksSpec = HooksSpec(
    enabled: bool, tokenSecret: string, tokenKey: string, path: string,
    allowedAgentIds: seq<string>, allowRequestSessionKey: bool)

  /** The operator-owned slice of the hooks block, as handed to the script. */
  datatype Render = Render(
    enabled: bool, tokenEnvVar: string, path: string, allowedAgentIds: Option<seq<string>>, allowRequestSessionKey: bool)

  /** The token Secret as the API server answers for it. */
  datatype Lookup = Found(data: map<string, string>) | NotFound | Failing

  datatype Decision = Retry | Decided(render: Option<Render>, secretKey: Option<string>, reason: string)

  function RenderOf(s: HooksSpec): Render {
    Render(s.enabled, TOKEN_ENV_VAR, if s.path == "" then DEFAULT_PATH else s.path,
           if |s.allowedAgentIds| > 0 then Some(s.allowedAgentIds) else None, s.allowRequestSessionKey)
  }

  /** Hooks are rendered enabled exactly when the pod is given the token they refer to; a transient error of the
      API server decides nothing, so it cannot turn hooks off. */
  method ResolveHooks(spec: Option<HooksSpec>, secret: Lookup) returns (d: Decision)
    ensures d.Retry? <==> spec.Some? && spec.value.enabled && spec.value.tokenSecret != "" && secret.Failing?
    ensures d.Decided? ==> (d.render.None? <==> spec.None?)
    ensures d.Decided? && d.render.Some? ==>
              && (d.render.value.enabled <==> d.secretKey.Some?)
              && d.render.value.tokenEnvVar == "OPENCLAW_HOOKS_TOKEN"
              && d.render.value.path == (if spec.value.path == "" then "/hooks" else spec.value.path)
              && d.render.value.allowedAgentIds == (if spec.value.allowedAgentIds == [] then None else Some(spec.value.allowedAgentIds))
              && d.render.value.allowRequestSessionKey == spec.value.allowRequestSessionKey
    ensures d.Decided? && d.secretKey.Some? ==>
              && spec.Some? && spec.value.enabled && spec.value.tokenSecret != ""
              && d.secretKey.value == (if spec.value.tokenKey == "" then "token" else spec.value.tokenKey)
              && secret.Found? && d.secretKey.value in secret.data && secret.data[d.secretKey.value] != ""
    ensures d.Decided? ==>
              d.reason == if spec.None? then "" else if !spec.value.enabled then "Disabled"
                          else if spec.value.tokenSecret == "" then "TokenSecretRefMissing"
                          else if secret.NotFound? then "SecretNotFound"
                          else if d.secretKey.None? then "SecretKeyMissing" else "Enabled"
    ensures spec.Some? && spec.value.enabled && spec.value.tokenSecret != "" && secret.Found? ==>
              var key := if spec.value.tokenKey == "" then "token" else spec.value.tokenKey;
              d.Decided? && (key in secret.data && secret.data[key] != "" ==> d.secretKey.Some?)
  {
    if spec.None? { return Decided(None, None, ""); }
    var s := spec.value;
    var render := RenderOf(s);
    if !s.enabled { return Decided(Some(render), None, "Disabled"); }
    if s.tokenSecret == "" { return Decided(Some(render.(enabled := false)), None, "TokenSecretRefMissing"); }
    var key := if s.tokenKey == "" then DEFAULT_TOKEN_KEY else s.tokenKey;
    match secret {
      case NotFound => d := Decided(Some(render.(enabled := false)), None, "SecretNotFound");
      case Failing => d := Retry;
      case Found(data) =>
        if key !in data || data[key] == "" {
          d := Decided(Some(render.(enabled := false)), None, "SecretKeyMissing");
        } else {
          d := Decided(Some(render), Some(key), "Enabled");
        }
    }
  }

  // ----- the in-pod convergence -----

  const OWNED := {"enabled", "token", "path", "allowedAgentIds", "allowRequestSessionKey"}

  function Ref(r: Render): Json { Str("${" + r.tokenEnvVar + "}") }

  function Current(hooks: Option<Json>): Block {
    if hooks.Some? && hooks.value.Obj? then hooks.value.fields else map[]
  }

  function Strings(ids: seq<string>): Json { Arr(seq(|ids|, i requires 0 <= i < |ids| => Str(ids[i]))) }

  function Enabled(h: Block, r: Render): Block {
    var h' := h["enabled" := Bool(true)]["token" := Ref(r)]["path" := Str(r.path)];
    (if r.allowedAgentIds.Some? then h'["allowedAgentIds" := Strings(r.allowedAgentIds.value)] else h')
      ["allowRequestSessionKey" := Bool(r.allowRequestSessionKey)]
  }

  function Disabled(h: Block, r: Render): Block {
    var h' := if "enabled" in h && Truthy(h["enabled"]) then h["enabled" := Bool(false)] else h;
    if "token" in h' && h'["token"] == Ref(r) then h' - {"token"} else h'
  }

  /** `inEnv`: the pod the script runs in carries the token variable. */
  function ConvergeHooks(hooks: Option<Json>, r: Render, inEnv: bool): Option<Json> {
    if r.enabled && !inEnv then hooks
    else
      var h := if r.enabled then Enabled(Current(hooks), r) else Disabled(Current(hooks), r);
      if hooks.Some? || h != map[] then Some(Obj(h)) else None
  }

  function Converge(c: Config, r: Render, inEnv: bool): Config { c.(hooks := ConvergeHooks(c.hooks, r, inEnv)) }

  lemma HooksSettle(hooks: Option<Json>, r: Render, inEnv: bool)
    ensures ConvergeHooks(ConvergeHooks(hooks, r, inEnv), r, inEnv) == ConvergeHooks(hooks, r, inEnv)
  {
    var h := Current(hooks);
    assert "enabled" != "token";
    if r.enabled {
      assert Enabled(Enabled(h, r), r) == Enabled(h, r);
    } else {
      assert Disabled(Disabled(h, r), r) == Disabled(h, r);
    }
  }

  /** The same decision run in a pod with the token and in one without never leaves the other work it did not have. */
  lemma HooksSettleInAnyPod(hooks: Option<Json>, r: Render, inEnv: bool, other: bool)
    requires ConvergeHooks(hooks, r, inEnv) == hooks
    ensures var after := ConvergeHooks(hooks, r, other); ConvergeHooks(after, r, inEnv) == after
  {
    HooksSettle(hooks, r, other);
  }

  /** Every key the operator does not own survives as it is. */
  lemma OthersKeysSurvive(hooks: Option<Json>, r: Render, inEnv: bool)
    ensures Current(ConvergeHooks(hooks, r, inEnv)) - OWNED == Current(hooks) - OWNED
  {
    var h := Current(hooks);
    assert Enabled(h, r) - OWNED == h - OWNED;
    assert Disabled(h, r) - OWNED == h - OWNED;
  }

  /** Disabling: nothing truthy stays under "enabled", our reference goes, and every other key is as it was. */
  lemma DisabledLeaves(hooks: Option<Json>, r: Render, inEnv: bool)
    requires !r.enabled
    ensures var before, after := Current(hooks), Current(ConvergeHooks(hooks, r, inEnv));
            && !Truthy(Get(Obj(after), "enabled"))
            && Get(Obj(after), "token") == (if Get(Obj(before), "token") == Ref(r) then Null else Get(Obj(before), "token"))
            && after - {"enabled", "token"} == before - {"enabled", "token"}
    ensures ConvergeHooks(hooks, r, inEnv).None? <==> hooks.None?
  {
    assert |"token"| == 5 && |"enabled"| == 7;
  }

  /** Enabling, in a pod that carries the token: the five keys hold what the decision says, the others what they held;
      in one that does not, nothing is touched. */
  lemma EnabledLeaves(hooks: Option<Json>, r: Render, inEnv: bool)
    requires r.enabled
    ensures !inEnv ==> ConvergeHooks(hooks, r, inEnv) == hooks
    ensures inEnv ==>
              var before, after := Obj(Current(hooks)), ConvergeHooks(hooks, r, inEnv).GetOr(Null);
              && after.Obj? && (forall key :: key !in {"enabled", "token", "path", "allowRequestSessionKey", "allowedAgentIds"} ==>
                                 Get(after, key) == Get(before, key))
              && Get(after, "enabled") == Bool(true)
              && Get(after, "token") == Str("${" + r.tokenEnvVar + "}")
              && Get(after, "path") == Str(r.path)
              && Get(after, "allowRequestSessionKey") == Bool(r.allowRequestSessionKey)
              && (r.allowedAgentIds.None? ==> Get(after, "allowedAgentIds") == Get(before, "allowedAgentIds"))
              && (r.allowedAgentIds.Some? ==> Listed(Get(after, "allowedAgentIds"), r.allowedAgentIds.value))
  {
    assert |"token"| == 5 && |"enabled"| == 7 && |"path"| == 4 && |"allowedAgentIds"| == 15 && |"allowRequestSessionKey"| == 22;
    if inEnv {
      var h := Enabled(Current(hooks), r);
      assert "allowRequestSessionKey" in h;
      assert ConvergeHooks(hooks, r, inEnv) == Some(Obj(h));
      assert h["path"] == Str(r.path);
      assert h["enabled"] == Bool(true);
    }
  }

  /** A JSON list of these strings. */
  predicate Listed(j: Json, ids: seq<string>) {
    j.Arr? && |j.items| == |ids| && forall i :: 0 <= i < |ids| ==> j.items[i] == Str(ids[i])
  }

  /** The reference to the token is only ever written where the pod can resolve it, and disabling removes it. */
  lemma ReferenceResolvable(hooks: Option<Json>, r: Render, inEnv: bool)
    ensures var before, after := Current(hooks), Current(ConvergeHooks(hooks, r, inEnv));
            && ("token" in after && after["token"] == Ref(r) ==> inEnv || (r.enabled && hooks == ConvergeHooks(hooks, r, inEnv)))
            && (r.enabled && inEnv ==> "token" in after && after["token"] == Ref(r) && after["enabled"] == Bool(true))
            && (!r.enabled ==> !("token" in after && after["token"] == Ref(r)))
            && (!r.enabled && "token" in before && before["token"] != Ref(r) ==>
                  "token" in after && after["token"] == before["token"])
  {
    assert |"token"| == 5 && |"enabled"| == 7 && |"path"| == 4;
  }
}
