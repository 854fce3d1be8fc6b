/** The IPC-facing service (src/service/tessera.ts): the tree as JSON, ping, and the config
    call. Its `execute` is the command service's own execute, so Service.CommandService.Execute
    models it; `version` and `debug` hand back what the host gives. */
module Tessera {
  import opened Wrappers
  import opened Containers
  import opened Commands
  import opened Strategy
  import opened Config
  import opened Codec
  import opened Tree

  /** What `tree()` answers: null without a root, the root's JSON, or the error toJSON throws. */
  datatype TreeReply = NullTree | Rendered(json: Json) | RenderThrows

  /** tree (tessera.ts:28): `getRoot()?.toJSON() ?? null`. Without a root the answer is null;
      with one it is the root's JSON, which exists exactly when no workspace below the root
      holds a floating entry that cannot render itself. */
  function TreeReplyOf(tree: Tree, root: Option<Ref>): (r: TreeReply)
    reads tree`nodes, tree`children, tree`parent, tree`depth, tree`bound, tree`nextRef
    requires tree.Valid() && (root.Some? ==> root.value in tree.nodes)
    ensures root.None? <==> r == NullTree
    ensures root.Some? ==> (r.Rendered? <==> forall y :: y in tree.PreOrder(root.value) ==> tree.RendersOwn(y))
    ensures r.Rendered? ==> r.json.id == tree.nodes[root.value].id && r.json.kind == tree.nodes[root.value].Kind()
  {
    if root.None? then NullTree
    else
      tree.ToJsonFails(root.value);
      match tree.ToJson(root.value)
      case None => RenderThrows
      case Some(j) => Rendered(j)
  }

  /** The answer to ping when the host has nothing to say. */
  const PingOk: Value := Object(map["ok" := Bool(true)])

  /** ping (tessera.ts:29): `getPing?.() ?? { ok: true }`, where `pinged` is what the host's
      getPing returns (None when there is no getPing). A null or undefined answer falls back
      to `{ ok: true }` as well, so ping never answers null or undefined. */
  function Ping(pinged: Option<Value>): (r: Value)
    ensures r != Null && r != Undefined
    ensures pinged.Some? && pinged.value != Null && pinged.value != Undefined ==> r == pinged.value
    ensures pinged.None? ==> r == PingOk
  {
    match pinged
    case Some(v) => if v.Null? || v.Undefined? then PingOk else v
    case None => PingOk
  }

  /** The copy `{ ...getConfig() }` the config call answers with: every field of the
      settings object, including the two the handlers keep there. */
  datatype ConfigReply = ConfigReply(minTileWidth: int, minTileHeight: int,
                                     alternatingMode: AlternatingMode, gaps: Option<Gaps>)

  function ReplyOf(c: Config): ConfigReply
    reads c
  {
    ConfigReply(c.minTileWidth, c.minTileHeight, c.alternatingMode, c.gaps)
  }

  /** The settings after a config call with `params` on settings `c`: a truthy `params`
      goes through applyConfig, which replaces each size by its normalised update. */
  function Configured(c: ConfigReply, params: Value): ConfigReply {
    if !Truthy(params) then c
    else c.(minTileWidth := Updated(c.minTileWidth, Field(params, "minTileWidth")),
            minTileHeight := Updated(c.minTileHeight, Field(params, "minTileHeight")))
  }

  /** config (tessera.ts:32-37): a truthy `params` is applied to the live settings, and the
      answer is a copy of the settings as they then are. */
  method ConfigCall(config: Config, params: Value) returns (r: ConfigReply)
    modifies config`minTileWidth, config`minTileHeight
    ensures r == ReplyOf(config)
    ensures r == Configured(old(ReplyOf(config)), params)
  {
    if Truthy(params) {
      var applied := config.ApplyConfig(params);
    }
    return ReplyOf(config);
  }

  /** Sending the same `params` twice leaves the settings as sending them once does. */
  lemma ConfiguredIdempotent(c: ConfigReply, params: Value)
    ensures Configured(Configured(c, params), params) == Configured(c, params)
  {
    UpdatedIdempotent(c.minTileWidth, Field(params, "minTileWidth"));
    UpdatedIdempotent(c.minTileHeight, Field(params, "minTileHeight"));
  }

  /** Only an object can change the settings: the call's own truthiness test and
      applyConfig's object test agree on every value that is not an object. */
  lemma ConfiguredNeedsObject(c: ConfigReply, params: Value)
    ensures !params.Object? ==> Configured(c, params) == c
    ensures Configured(c, params).alternatingMode == c.alternatingMode && Configured(c, params).gaps == c.gaps
  {
    if !params.Object? && Truthy(params) {
      NonObjectKeeps(c.minTileWidth, params, "minTileWidth");
      NonObjectKeeps(c.minTileHeight, params, "minTileHeight");
    }
  }
}
