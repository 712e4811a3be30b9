/** Bootstrap at start-up: create the first physical index if it is missing, and point there each alias
    that points nowhere. */
module IndexBootstrap {
  import opened Wrappers
  import opened Codecs
  import opened IndexNames
  import opened Aliases
  import P = Protocol

  const MESSAGES_PHYSICAL_INDEX := PREFIX + "1"

  /** How the call that creates the index ends: well, or with a thrown value, after which the index may
      nevertheless have been created. */
  datatype CreateReply = Created | Refused(error: Json, tookEffect: bool)

  /** What the calls of one bootstrap meet: another instance may create the index first; each call may
      report an error before or after its effect. */
  datatype BootstrapCalls = BootstrapCalls(
    lookupFails: bool, meanwhile: Option<Docs>, create: CreateReply, aliasLookupFails: bool, update: P.Fault)

  /** Object `name` within object `o`, if there is one. */
  function ObjectField(o: JsonObject, name: string): Option<JsonObject> {
    if name in o && o[name].Obj? then Some(o[name].fields) else None
  }

  /** The thrown value says that the index exists already: status 400, and that type of error. */
  predicate IsResourceAlreadyExistsError(error: Json) {
    error.Obj? &&
    var meta := ObjectField(error.fields, "meta");
    meta.Some? &&
    var body := ObjectField(meta.value, "body");
    body.Some? &&
    var bodyError := ObjectField(body.value, "error");
    && bodyError.Some?
    && "statusCode" in meta.value && meta.value["statusCode"] == Num(Whole(400))
    && TextField(bodyError.value, "type") == Some("resource_already_exists_exception")
  }

  /** `error` states that the index exists, in these objects within each other. */
  predicate Nested(error: Json, o: JsonObject, meta: JsonObject, body: JsonObject, inner: JsonObject) {
    && error == Obj(o) && HasField(o, "meta", Obj(meta)) && HasField(meta, "statusCode", Num(Number(400, "")))
    && HasField(meta, "body", Obj(body)) && HasField(body, "error", Obj(inner))
    && HasField(inner, "type", Str("resource_already_exists_exception"))
  }

  lemma NestedReads(error: Json, o: JsonObject, meta: JsonObject, body: JsonObject, inner: JsonObject)
    requires Nested(error, o, meta, body, inner)
    ensures IsResourceAlreadyExistsError(error)
  {
    assert ObjectField(o, "meta") == Some(meta);
    assert ObjectField(meta, "body") == Some(body);
    assert ObjectField(body, "error") == Some(inner);
  }

  /** An error reads as "exists already" exactly when it states that. */
  lemma AlreadyExistsExact(error: Json)
    ensures IsResourceAlreadyExistsError(error) <==> exists o, meta, body, inner :: Nested(error, o, meta, body, inner)
  {
    if IsResourceAlreadyExistsError(error) {
      var meta := error.fields["meta"].fields;
      var body := meta["body"].fields;
      assert Nested(error, error.fields, meta, body, body["error"].fields);
    }
    forall o, meta, body, inner | Nested(error, o, meta, body, inner) ensures IsResourceAlreadyExistsError(error) {
      NestedReads(error, o, meta, body, inner);
    }
  }

  lemma PhysicalIndexName()
    ensures MESSAGES_PHYSICAL_INDEX == "messages-v1" && VersionOf(MESSAGES_PHYSICAL_INDEX) == Some(1)
  {
    assert MESSAGES_PHYSICAL_INDEX[|PREFIX|..] == "1";
    assert Value("1") == 1 by { assert "1"[..0] == ""; }
  }

  /** What the engine can reply on cluster `c`: it creates only what is missing, and says that the index
      exists only if it does, be it through this call's own first try. */
  predicate ValidReply(c: Cluster, reply: CreateReply) {
    match reply
    case Created => MESSAGES_PHYSICAL_INDEX !in c.indices
    case Refused(error, tookEffect) =>
      IsResourceAlreadyExistsError(error) ==> MESSAGES_PHYSICAL_INDEX in c.indices || tookEffect
  }

  predicate Accepts(reply: CreateReply) {
    reply.Created? || IsResourceAlreadyExistsError(reply.error)
  }

  /** The cluster as the call to create the index finds it. */
  function Meanwhile(c: Cluster, calls: BootstrapCalls): Cluster {
    if calls.meanwhile.None? then c
    else c.(indices := c.indices[MESSAGES_PHYSICAL_INDEX := calls.meanwhile.value])
  }

  /** What the replies to one bootstrap on cluster `c` can be. */
  predicate ValidCalls(c: Cluster, calls: BootstrapCalls) {
    MESSAGES_PHYSICAL_INDEX !in c.indices ==> ValidReply(Meanwhile(c, calls), calls.create)
  }

  /** Both aliases point somewhere. */
  predicate Bootstrapped(c: Cluster, d: Cluster) {
    && MESSAGES_PHYSICAL_INDEX in d.indices
    && d.read == (if c.read == {} then {MESSAGES_PHYSICAL_INDEX} else c.read)
    && d.write == (if c.write == {} then {MESSAGES_PHYSICAL_INDEX} else c.write)
  }

  /** All that a bootstrap can do: the physical index may be new, and each alias may be new and is then at
      the physical index. No index is changed or lost, and no alias that points somewhere is moved. */
  predicate BootstrapOutcome(c: Cluster, d: Cluster) {
    && (d.indices == c.indices
        || (MESSAGES_PHYSICAL_INDEX !in c.indices && MESSAGES_PHYSICAL_INDEX in d.indices
            && d.indices == c.indices[MESSAGES_PHYSICAL_INDEX := d.indices[MESSAGES_PHYSICAL_INDEX]]))
    && (d == c.(indices := d.indices) || Bootstrapped(c, d))
  }

  predicate BothSet(c: Cluster) {
    c.read != {} && c.write != {}
  }

  /** No call that a bootstrap makes on cluster `c` reports an error: the index is created only if it is
      missing, and aliases are added only if one points nowhere. */
  predicate Succeeds(c: Cluster, calls: BootstrapCalls) {
    && !calls.lookupFails && !calls.aliasLookupFails
    && (MESSAGES_PHYSICAL_INDEX in c.indices || Accepts(calls.create))
    && (BothSet(c) || calls.update == P.NoFault)
  }

  lemma AddsMean(c: Cluster, actions: seq<AliasAction>)
    requires MESSAGES_PHYSICAL_INDEX in c.indices
    requires actions == (if c.read == {} then [Add(Read, MESSAGES_PHYSICAL_INDEX)] else [])
                        + (if c.write == {} then [Add(Write, MESSAGES_PHYSICAL_INDEX)] else [])
    ensures Bootstrapped(c, UpdateAliases(c, actions)) && UpdateAliases(c, actions).indices == c.indices
  {
    if c.read == {} && c.write == {} {
      var d := ApplyAction(c, Add(Read, MESSAGES_PHYSICAL_INDEX));
      assert actions[1..] == [Add(Write, MESSAGES_PHYSICAL_INDEX)];
      assert UpdateAliases(d, actions[1..]) == ApplyAction(d, Add(Write, MESSAGES_PHYSICAL_INDEX));
    } else if |actions| == 1 {
      assert UpdateAliases(c, actions) == ApplyAction(c, actions[0]);
    }
  }

  class IndexManagerService {
    const cluster: SearchCluster
    const runtime: string

    constructor (cluster: SearchCluster, runtime: string)
      ensures this.cluster == cluster && this.runtime == runtime
    {
      this.cluster := cluster;
      this.runtime := runtime;
    }

    /** Create the index. The engine's answer that it exists already is not an error here; any other
        error is, whether or not the index exists. */
    method CreateMessagesIndex(reply: CreateReply) returns (ok: bool)
      requires ValidReply(cluster.state, reply)
      modifies cluster
      ensures ok <==> reply.Created? || IsResourceAlreadyExistsError(reply.error)
      ensures ok ==> MESSAGES_PHYSICAL_INDEX in cluster.state.indices
      ensures var c := old(cluster.state);
        cluster.state == if MESSAGES_PHYSICAL_INDEX in c.indices || (reply.Refused? && !reply.tookEffect) then c
                         else c.(indices := c.indices[MESSAGES_PHYSICAL_INDEX := map[]])
    {
      if MESSAGES_PHYSICAL_INDEX !in cluster.state.indices && (reply.Created? || reply.tookEffect) {
        cluster.state := cluster.state.(indices := cluster.state.indices[MESSAGES_PHYSICAL_INDEX := map[]]);
      }
      match reply {
        case Created => ok := true;
        case Refused(error, _) => ok := IsResourceAlreadyExistsError(error);
      }
    }

    /** One update adds the aliases that point nowhere, and no others. */
    method EnsureAliases(lookupFails: bool, update: P.Fault) returns (ok: bool)
      requires MESSAGES_PHYSICAL_INDEX in cluster.state.indices
      modifies cluster
      ensures cluster.state.indices == old(cluster.state).indices
      ensures cluster.state == old(cluster.state) || Bootstrapped(old(cluster.state), cluster.state)
      ensures ok ==> Bootstrapped(old(cluster.state), cluster.state)
      ensures ok <==> !lookupFails && (BothSet(old(cluster.state)) || update == P.NoFault)
    {
      if lookupFails { return false; }
      var actions: seq<AliasAction> := [];
      if cluster.state.read == {} { actions := actions + [Add(Read, MESSAGES_PHYSICAL_INDEX)]; }
      if cluster.state.write == {} { actions := actions + [Add(Write, MESSAGES_PHYSICAL_INDEX)]; }
      if |actions| == 0 { return true; }
      AddsMean(cluster.state, actions);
      if update != P.ErrorBefore { cluster.state := UpdateAliases(cluster.state, actions); }
      ok := update == P.NoFault;
    }

    method EnsureMessagesIndex(calls: BootstrapCalls) returns (ok: bool)
      requires ValidCalls(cluster.state, calls)
      modifies cluster
      ensures BootstrapOutcome(old(cluster.state), cluster.state)
      ensures ok ==> Bootstrapped(old(cluster.state), cluster.state)
      ensures ok <==> Succeeds(old(cluster.state), calls)
    {
      if calls.lookupFails { return false; }
      if MESSAGES_PHYSICAL_INDEX !in cluster.state.indices {
        cluster.state := Meanwhile(cluster.state, calls);
        var created := CreateMessagesIndex(calls.create);
        if !created { return false; }
      }
      ok := EnsureAliases(calls.aliasLookupFails, calls.update);
    }

    /** A failed bootstrap stops every program but the API. */
    method OnModuleInit(calls: BootstrapCalls) returns (started: bool)
      requires ValidCalls(cluster.state, calls)
      modifies cluster
      ensures BootstrapOutcome(old(cluster.state), cluster.state)
      ensures started && runtime != "api" ==> Bootstrapped(old(cluster.state), cluster.state)
      ensures started <==> runtime == "api" || Succeeds(old(cluster.state), calls)
    {
      var ok := EnsureMessagesIndex(calls);
      started := ok || runtime == "api";
    }
  }
}
