/** The rotation reconciler as it works on one Secret object, one API server and one Aiven
    service. Every pass is proved to be a run of the machine in RotationProtocol. */
module RotationReconciler {
  import opened Base
  import opened RotationProtocol
  import RotationGuarantees

  const KAFKA := "kafka"
  const SECOND: int := 1_000_000_000

  const SCHEMA_REGISTRY := "schema_registry"

  datatype Component = Component(name: string, host: string, port: string, sasl: bool)

  /** An empty certificate or key is one that is still to come. */
  datatype User = User(username: string, accessCert: string, accessKey: string)

  datatype Service = Service(serviceType: string, components: seq<Component>, users: seq<User>)

  /** What looking the service up gives. */
  datatype Lookup =
    | Operational(service: Service)
    | NotOperational // missing, or in an intermediate state
    | PoweredOff
    | LookupFailed

  datatype Error =
    | NoClient
    | ServicePoweredOff
    | ServiceLookup
    | GettingSecret
    | SavingStatus
    | InvalidPublicationTime
    | NoCaCertificate
    | ComponentNotFound
    | UserNotFound
    | PreconditionNotMet
    | NotControlled
    | SavingPendingRotation
    | ModifyingCredentials
    | RefreshingConnectionDetails

  datatype Status = Status(activeUsername: string, lastRotationAt: int, nextRotationAt: int)

  /** Everything a pass meets that it does not decide itself. */
  datatype Surroundings = Surroundings(
    caCert: Option<string>,
    save: Fate,
    reset: Fate,
    usersAfterReset: seq<User>,
    publish: Fate,
    decidedAt: int,
    stampedAt: int,
    candidate: string)

  /** A Secret with an unreadable publication time makes nothing due. */
  predicate RotationDue(spec: RotationSpec, data: SecretData, now: int) {
    !data.stamp.Unparsable? && Due(spec, data, now)
  }

  function FindComponent(components: seq<Component>, name: string): (found: Option<Component>)
    ensures found.None? <==> forall c | c in components :: c.name != name
    ensures found.Some? ==> found.value in components && found.value.name == name
  {
    if components == [] then None
    else if components[0].name == name then Some(components[0])
    else FindComponent(components[1..], name)
  }

  function FindUser(users: seq<User>, username: string): (found: Option<User>)
    ensures found.None? <==> forall u | u in users :: u.username != username
    ensures found.Some? ==> found.value in users && found.value.username == username
  {
    if users == [] then None
    else if users[0].username == username then Some(users[0])
    else FindUser(users[1..], username)
  }

  /** The API has everything the connection details of this user need. */
  predicate DetailsAvailable(svc: Service, username: string) {
    && (exists c :: c in svc.components && c.name == svc.serviceType)
    && FindUser(svc.users, username).Some?
    && (svc.serviceType == KAFKA ==>
          FindUser(svc.users, username).value.accessCert != "" && FindUser(svc.users, username).value.accessKey != "")
  }

  /** The first user of this name, and the first component of this kind. */
  predicate IsUser(svc: Service, j: nat, username: string) {
    j < |svc.users| && svc.users[j].username == username &&
    forall k | 0 <= k < j :: svc.users[k].username != username
  }

  predicate IsComponent(svc: Service, i: nat) {
    i < |svc.components| && svc.components[i].name == svc.serviceType &&
    forall k | 0 <= k < i :: svc.components[k].name != svc.serviceType
  }

  lemma {:induction false} FoundComponentIsFirst(components: seq<Component>, name: string) returns (i: nat)
    requires FindComponent(components, name).Some?
    ensures i < |components| && FindComponent(components, name) == Some(components[i]) && components[i].name == name
    ensures forall k | 0 <= k < i :: components[k].name != name
    decreases |components|
  {
    if components[0].name == name {
      i := 0;
    } else {
      var rest := FoundComponentIsFirst(components[1..], name);
      i := rest + 1;
      assert forall k | 0 < k < i :: components[k] == components[1..][k - 1];
    }
  }

  lemma {:induction false} FoundUserIsFirst(users: seq<User>, username: string) returns (j: nat)
    requires FindUser(users, username).Some?
    ensures j < |users| && FindUser(users, username) == Some(users[j]) && users[j].username == username
    ensures forall k | 0 <= k < j :: users[k].username != username
    decreases |users|
  {
    if users[0].username == username {
      j := 0;
    } else {
      var rest := FoundUserIsFirst(users[1..], username);
      j := rest + 1;
      assert forall k | 0 < k < j :: users[k] == users[1..][k - 1];
    }
  }

  /** A component of the kind and a user of the name are there, and for Kafka the user's certificate and key. */
  lemma DetailsAvailableExactly(svc: Service, username: string)
    ensures DetailsAvailable(svc, username) <==>
            && (exists i: nat :: IsComponent(svc, i))
            && exists j: nat :: IsUser(svc, j, username) &&
                                (svc.serviceType == "kafka" ==>
                                   svc.users[j].accessCert != "" && svc.users[j].accessKey != "")
  {
    if FindComponent(svc.components, svc.serviceType).Some? {
      var i := FoundComponentIsFirst(svc.components, svc.serviceType);
      assert IsComponent(svc, i);
    }
    if FindUser(svc.users, username).Some? {
      var j := FoundUserIsFirst(svc.users, username);
      assert IsUser(svc, j, username);
      forall k: nat | IsUser(svc, k, username)
        ensures k == j
      {
      }
    }
  }

  predicate Shows(rest: map<string, string>, key: string, value: string) {
    key in rest && rest[key] == value
  }

  /** The Secret holds what the API says about the user that it names. */
  predicate IsDescribed(spec: RotationSpec, details: Details, username: string, svc: Service, caCert: string) {
    && FindComponent(svc.components, svc.serviceType).Some? && FindUser(svc.users, username).Some?
    && ShowsAll(details, FindComponent(svc.components, svc.serviceType).value, FindUser(svc.users, username).value,
                caCert)
    && details.labels == spec.target.labels && details.annotations == spec.target.annotations
  }

  predicate ShowsAll(details: Details, component: Component, user: User, caCert: string) {
    && Shows(details.rest, "HOST", component.host) && Shows(details.rest, "PORT", component.port)
    && Shows(details.rest, "ACCESS_CERT", user.accessCert) && Shows(details.rest, "ACCESS_KEY", user.accessKey)
    && Shows(details.rest, "CA_CERT", caCert)
  }

  lemma ConnectionKeysShow(component: Component, user: User, caCert: string, rest: map<string, string>)
    ensures var after := rest + ConnectionKeys(component, user, caCert);
            && Shows(after, "HOST", component.host) && Shows(after, "PORT", component.port)
            && Shows(after, "ACCESS_CERT", user.accessCert) && Shows(after, "ACCESS_KEY", user.accessKey)
            && Shows(after, "CA_CERT", caCert)
  {
    assert "HOST"[0] != "PORT"[0];
    assert |"HOST"| == |"PORT"| == 4 && |"ACCESS_CERT"| == 11 && |"ACCESS_KEY"| == 10 && |"CA_CERT"| == 7;
  }

  lemma DetailsDescribe(spec: RotationSpec, data: SecretData, svc: Service, caCert: string)
    requires ConnectionDetails(spec, data, svc, caCert).Ok?
    ensures IsDescribed(spec, ConnectionDetails(spec, data, svc, caCert).value, Value(data.username), svc, caCert)
  {
    ConnectionKeysShow(FindComponent(svc.components, svc.serviceType).value,
                       FindUser(svc.users, Value(data.username)).value, caCert, WithEndpoints(data.details.rest, svc));
  }

  predicate FaultFree(s: Surroundings) {
    s.caCert.Some? && s.save.Acknowledged? && s.reset.Acknowledged? && s.publish.Acknowledged?
  }

  function ConnectionKeys(component: Component, user: User, caCert: string): map<string, string> {
    map["HOST" := component.host, "PORT" := component.port, "ACCESS_CERT" := user.accessCert,
        "ACCESS_KEY" := user.accessKey, "CA_CERT" := caCert]
  }

  /** The keys of the optional Kafka endpoints. */
  const ENDPOINT_KEYS := {"SASL_HOST", "SASL_PORT", "SCHEMA_REGISTRY_HOST", "SCHEMA_REGISTRY_PORT"}

  function EndpointOf(c: Component): map<string, string> {
    if c.name == KAFKA && c.sasl then map["SASL_HOST" := c.host, "SASL_PORT" := c.port]
    else if c.name == SCHEMA_REGISTRY then map["SCHEMA_REGISTRY_HOST" := c.host, "SCHEMA_REGISTRY_PORT" := c.port]
    else map[]
  }

  /** Of several components for one endpoint the last one counts. */
  function Endpoints(components: seq<Component>): map<string, string> {
    if components == [] then map[]
    else Endpoints(components[..|components| - 1]) + EndpointOf(components[|components| - 1])
  }

  /** For Kafka the endpoints are those that there are now. */
  function WithEndpoints(rest: map<string, string>, svc: Service): map<string, string> {
    if svc.serviceType == KAFKA then rest - ENDPOINT_KEYS + Endpoints(svc.components) else rest
  }

  lemma EndpointKeysAre(c: Component)
    ensures EndpointOf(c).Keys <= ENDPOINT_KEYS
    ensures "SASL_HOST" in EndpointOf(c) <==> c.name == KAFKA && c.sasl
    ensures "SASL_PORT" in EndpointOf(c) <==> c.name == KAFKA && c.sasl
    ensures "SCHEMA_REGISTRY_HOST" in EndpointOf(c) <==> c.name == SCHEMA_REGISTRY
    ensures "SCHEMA_REGISTRY_PORT" in EndpointOf(c) <==> c.name == SCHEMA_REGISTRY
    ensures "SASL_HOST" in EndpointOf(c) ==>
            EndpointOf(c)["SASL_HOST"] == c.host && EndpointOf(c)["SASL_PORT"] == c.port
    ensures "SCHEMA_REGISTRY_HOST" in EndpointOf(c) ==>
              EndpointOf(c)["SCHEMA_REGISTRY_HOST"] == c.host && EndpointOf(c)["SCHEMA_REGISTRY_PORT"] == c.port
  {
    assert KAFKA[0] != SCHEMA_REGISTRY[0] && |"SASL_HOST"| != |"SCHEMA_REGISTRY_HOST"|;
    assert "SASL_HOST"[5] != "SASL_PORT"[5] && "SCHEMA_REGISTRY_HOST"[16] != "SCHEMA_REGISTRY_PORT"[16];
  }

  /** An endpoint is there exactly if a component offers it. */
  lemma {:induction false} EndpointsMeaning(components: seq<Component>)
    ensures Endpoints(components).Keys <= ENDPOINT_KEYS
    ensures "SASL_HOST" in Endpoints(components) <==> exists c | c in components :: c.name == KAFKA && c.sasl
    ensures "SASL_PORT" in Endpoints(components) <==> exists c | c in components :: c.name == KAFKA && c.sasl
    ensures "SCHEMA_REGISTRY_HOST" in Endpoints(components) <==>
            exists c | c in components :: c.name == SCHEMA_REGISTRY
    ensures "SCHEMA_REGISTRY_PORT" in Endpoints(components) <==>
            exists c | c in components :: c.name == SCHEMA_REGISTRY
    decreases |components|
  {
    if components != [] {
      var front, last := components[..|components| - 1], components[|components| - 1];
      assert components == front + [last];
      EndpointsMeaning(front);
      EndpointKeysAre(last);
    }
  }

  /** Of the components that offer an endpoint the last one is shown. */
  lemma {:induction false} LastEndpointIsShown(components: seq<Component>, i: nat)
    requires i < |components|
    ensures components[i].name == "kafka" && components[i].sasl &&
            (forall k | i < k < |components| :: !(components[k].name == "kafka" && components[k].sasl)) ==>
              && Shows(Endpoints(components), "SASL_HOST", components[i].host)
              && Shows(Endpoints(components), "SASL_PORT", components[i].port)
    ensures components[i].name == "schema_registry" &&
            (forall k | i < k < |components| :: components[k].name != "schema_registry") ==>
              && Shows(Endpoints(components), "SCHEMA_REGISTRY_HOST", components[i].host)
              && Shows(Endpoints(components), "SCHEMA_REGISTRY_PORT", components[i].port)
    decreases |components|
  {
    var front, last := components[..|components| - 1], components[|components| - 1];
    EndpointKeysAre(last);
    if i < |front| {
      assert forall k | 0 <= k < |front| :: front[k] == components[k];
      LastEndpointIsShown(front, i);
    }
  }

  /** So after a refresh of a Kafka Secret no endpoint is left that the service does not have any more. */
  lemma NoEndpointIsStale(rest: map<string, string>, svc: Service, component: Component, user: User, caCert: string)
    requires svc.serviceType == KAFKA
    ensures var after := WithEndpoints(rest, svc) + ConnectionKeys(component, user, caCert);
            && ("SASL_HOST" in after <==> exists c | c in svc.components :: c.name == KAFKA && c.sasl)
            && ("SCHEMA_REGISTRY_HOST" in after <==> exists c | c in svc.components :: c.name == SCHEMA_REGISTRY)
            && forall key | key !in ENDPOINT_KEYS && key !in ConnectionKeys(component, user, caCert) ::
                 (key in after <==> key in rest) && (key in after ==> after[key] == rest[key])
  {
    EndpointsMeaning(svc.components);
    assert "SASL_HOST" in ENDPOINT_KEYS && "SCHEMA_REGISTRY_HOST" in ENDPOINT_KEYS;
    assert |"SASL_HOST"| == 9 && |"SCHEMA_REGISTRY_HOST"| == 20;
    assert forall key | key in ConnectionKeys(component, user, caCert) :: |key| != 9 && |key| != 20;
  }

  method AddKafkaEndpointDetails(components: seq<Component>) returns (details: map<string, string>)
    ensures details == Endpoints(components)
  {
    details := map[];
    for i := 0 to |components|
      invariant details == Endpoints(components[..i])
    {
      var c := components[i];
      assert components[..i + 1][..i] == components[..i];
      EndpointKeysAre(c);
      if c.name == KAFKA {
        if c.sasl {
          details := details + map["SASL_HOST" := c.host, "SASL_PORT" := c.port];
        }
      } else if c.name == SCHEMA_REGISTRY {
        details := details + map["SCHEMA_REGISTRY_HOST" := c.host, "SCHEMA_REGISTRY_PORT" := c.port];
      }
    }
    assert components[..|components|] == components;
  }

  /** The connection details for the published username, or why they are not available. */
  function ConnectionDetails(spec: RotationSpec, data: SecretData, svc: Service, caCert: string)
    : Result<Details, Error>
  {
    match FindComponent(svc.components, svc.serviceType)
    case None => Err(ComponentNotFound)
    case Some(component) =>
      match FindUser(svc.users, Value(data.username))
      case None => Err(UserNotFound)
      case Some(user) =>
        if svc.serviceType == KAFKA && (user.accessCert == "" || user.accessKey == "") then Err(PreconditionNotMet)
        else Ok(Details(WithEndpoints(data.details.rest, svc) + ConnectionKeys(component, user, caCert),
                        spec.target.labels, spec.target.annotations))
  }

  /** The Secret in the hands of a pass: it is changed key by key before it is written. */
  class SecretObject {
    var version: nat
    var data: SecretData

    constructor (version: nat, data: SecretData)
      ensures this.version == version && this.data == data
    {
      this.version, this.data := version, data;
    }
  }

  /** Takes over what the API says about the user that the object names. It is all or nothing. */
  method RefreshRotationSecret(spec: RotationSpec, secret: SecretObject, svc: Service, caCert: string)
    returns (error: Option<Error>)
    modifies secret`data
    ensures match ConnectionDetails(spec, old(secret.data), svc, caCert)
            case Ok(details) => error.None? && secret.data == Refreshed(old(secret.data), details)
            case Err(e) => error == Some(e) && secret.data == old(secret.data)
    ensures error.None? <==> DetailsAvailable(svc, Value(old(secret.data).username))
    ensures error.None? ==> IsDescribed(spec, secret.data.details, Value(secret.data.username), svc, caCert)
  {
    ghost var read := secret.data;
    var component := FindComponent(svc.components, svc.serviceType);
    if component.None? {
      return Some(ComponentNotFound);
    }
    var user := FindUser(svc.users, Value(secret.data.username));
    if user.None? {
      return Some(UserNotFound);
    }
    if svc.serviceType == KAFKA && (user.value.accessCert == "" || user.value.accessKey == "") {
      return Some(PreconditionNotMet);
    }
    if svc.serviceType == KAFKA {
      var endpoints := AddKafkaEndpointDetails(svc.components);
      secret.data := secret.data.(details := secret.data.details.(
        rest := secret.data.details.rest - ENDPOINT_KEYS + endpoints));
    }
    secret.data := secret.data.(username := Some(user.value.username));
    secret.data := secret.data.(details := secret.data.details.(
      rest := secret.data.details.rest + ConnectionKeys(component.value, user.value, caCert)));
    secret.data := secret.data.(details := secret.data.details.(
      labels := spec.target.labels, annotations := spec.target.annotations));
    DetailsDescribe(spec, read, svc, caCert);
    return None;
  }

  /** A rotation leaves something to write. */
  lemma RotatedDiffers(spec: RotationSpec, orig: SecretData, now: int, at: int)
    requires ValidSpec(spec) && !orig.stamp.Unparsable? && Due(spec, orig, now) && 0 < now <= at
    ensures forall data: SecretData | data.stamp == StampedAt(at) :: orig != WithoutPending(data)
  {
  }

  lemma TimePasses(spec: RotationSpec, w: World, at: int, actions: seq<Action>)
    requires |spec.usernames| > 0 && w.clock <= at
    ensures Run(spec, w, [Tick(at)] + actions) == Run(spec, w.(clock := at), actions)
  {
    assert ([Tick(at)] + actions)[1..] == actions;
  }

  lemma StampingIsRun(spec: RotationSpec, w: World, at: int, details: Details)
    requires |spec.usernames| > 0 && w.worker.PasswordSet? && w.clock <= at
    ensures Run(spec, w, [Tick(at)] + [RotationProtocol.Stamp(details)]) ==
            Some(w.(clock := at, worker := Stamped(w.worker.version, Promoted(w.worker.data, details, at))))
  {
    var later := w.(clock := at);
    RunOneMore(spec, w, [], w, Tick(at), later);
    RunOneMore(spec, w, [Tick(at)], later, RotationProtocol.Stamp(details),
               later.(worker := Stamped(w.worker.version, Promoted(w.worker.data, details, at))));
  }

  /** What a pass that succeeds has done, from the Secret that it read: it has published a pair that was pending, or a
      new one for the other user if nothing was published yet or the interval had passed, and nothing otherwise. */
  ghost predicate Succeeds(spec: RotationSpec, read: SecretData, s: Surroundings,
                           before: seq<Publication>, after: seq<Publication>, status: Status)
    requires |spec.usernames| == 2
  {
    var pending := && read.pendingUser.Some? && read.pendingUser.value in spec.usernames
                   && read.pendingPassword.Some? && read.pendingPassword.value != "";
    var rotates := || pending || read.stamp == NeverStamped || read.stamp == StampedAt(0)
                   || (read.stamp.StampedAt? && read.stamp.time + spec.interval <= s.decidedAt);
    var pair := if pending then Credential(read.pendingUser.value, read.pendingPassword.value)
                else if read.username == Some(spec.usernames[0]) then Credential(spec.usernames[1], s.candidate)
                else Credential(spec.usernames[0], s.candidate);
    && after == before + (if rotates then [Publication(pair, s.stampedAt)] else [])
    && status == if rotates then Status(pair.username, s.stampedAt, s.stampedAt + spec.interval)
                 else Status(Value(read.username), TimeOf(read.stamp), TimeOf(read.stamp) + spec.interval)
  }

  lemma SuccessWrittenOut(spec: RotationSpec, read: SecretData, s: Surroundings,
                          before: seq<Publication>, after: seq<Publication>, data: SecretData)
    requires ValidSpec(spec) && !read.stamp.Unparsable?
    requires Due(spec, read, s.decidedAt) ==>
               && after == before + [Publication(Pending(WithPending(spec, read, s.candidate)), s.stampedAt)]
               && data.stamp == StampedAt(s.stampedAt)
               && Value(data.username) == Pending(WithPending(spec, read, s.candidate)).username
    requires !Due(spec, read, s.decidedAt) ==>
               after == before && data.stamp == read.stamp && Value(data.username) == Value(read.username)
    ensures var at := TimeOf(data.stamp);
            Succeeds(spec, read, s, before, after, Status(Value(data.username), at, at + spec.interval))
  {
    RotationGuarantees.RotationWrittenOut(spec, read, s.decidedAt, s.candidate);
  }

  /** Nothing stands in the way of a pass that reads this Secret. */
  ghost predicate Unhindered(spec: RotationSpec, read: SecretData, svc: Service, s: Surroundings)
    requires |spec.usernames| > 0
  {
    && FaultFree(s) && !read.stamp.Unparsable?
    && (Published(read) ==> DetailsAvailable(svc, Value(read.username)))
    && (RotationDue(spec, read, s.decidedAt) ==>
          DetailsAvailable(svc.(users := s.usersAfterReset), Pending(WithPending(spec, read, s.candidate)).username))
  }

  /** The API server, Aiven and the clock as the reconciler sees them. */
  class Cluster {
    var versions: seq<SecretData>
    var accepted: map<string, string>
    var clock: int
    ghost var sent: seq<Credential>
    ghost var publications: seq<Publication>

    ghost function Snapshot(worker: Worker): World
      reads this
    {
      World(versions, accepted, clock, worker, sent, publications)
    }

    /** What the API server makes of a write: it refuses a stale resource version. */
    function Judge(version: nat, fate: Fate): Fate
      reads this
    {
      if version == |versions| then fate else Rejected
    }

    /** Create when the object was never stored, Update with its resource version otherwise. */
    method WriteSecret(secret: SecretObject, fate: Fate) returns (ok: bool)
      modifies this`versions, secret`version
      ensures ok <==> old(Judge(secret.version, fate)).Acknowledged?
      ensures versions == if old(Judge(secret.version, fate)).Applied()
                          then Append(old(versions), secret.data) else old(versions)
      ensures secret.version == if ok then |versions| else old(secret.version)
    {
      var judged := Judge(secret.version, fate);
      if judged.Applied() {
        versions := Append(versions, secret.data);
      }
      ok := judged.Acknowledged?;
      if ok {
        secret.version := |versions|;
      }
    }

    /** Reads the Secret through the cache; None is a read that fails, version 0 a Secret that does not exist. */
    method EnsureSecret(spec: RotationSpec, observed: Option<nat>, controlled: bool)
      returns (result: Result<SecretObject, Error>)
      requires observed.Some? ==> observed.value <= |versions|
      ensures result.Err? <==> observed.None? || (observed.value > 0 && !controlled)
      ensures result.Err? ==> !result.error.PreconditionNotMet?
      ensures result.Ok? ==> fresh(result.value) && result.value.version == observed.value
                             && result.value.data == ReadVersion(spec, versions, observed.value)
    {
      if observed.None? {
        return Err(GettingSecret);
      }
      if observed.value == 0 {
        var template := new SecretObject(0, Template(spec.target));
        return Ok(template);
      }
      if !controlled {
        return Err(NotControlled);
      }
      var secret := new SecretObject(observed.value, versions[observed.value - 1]);
      return Ok(secret);
    }

    /** Saves the pending pair, which the object carries, and sends its password to Aiven. */
    method SaveAndReset(spec: RotationSpec, secret: SecretObject, s: Surroundings)
      returns (error: Option<Error>, ghost actions: seq<Action>)
      requires |spec.usernames| > 0
      requires secret.version <= |versions|
      modifies `versions, `accepted, `sent, secret`version
      ensures Run(spec, old(Snapshot(Rotating(secret.version, secret.data))), actions)
              == Some(Snapshot(if error.None? then PasswordSet(secret.version, secret.data) else Idle))
      ensures secret.version <= |versions|
      ensures sent == old(sent) || sent == old(sent) + [Pending(secret.data)]
      ensures error.None? ==> secret.version == |versions| && versions != []
      ensures s.save.Acknowledged? && s.reset.Acknowledged? && old(secret.version == |versions|) ==> error.None?
    {
      ghost var start := Snapshot(Rotating(secret.version, secret.data));
      ghost var judged := Judge(secret.version, s.save);
      var saved := WriteSecret(secret, s.save);
      actions := [Save(judged)];
      ghost var here := Snapshot(if saved then Saved(secret.version, secret.data) else Idle);
      RunOneMore(spec, start, [], start, Save(judged), here);
      if !saved {
        return Some(SavingPendingRotation), actions;
      }
      var pair := Pending(secret.data);
      sent := sent + [pair];
      if s.reset.Applied() {
        accepted := accepted[pair.username := pair.password];
      }
      ghost var next := Snapshot(if s.reset.Acknowledged? then PasswordSet(secret.version, secret.data) else Idle);
      RunOneMore(spec, start, actions, here, Modify(s.reset), next);
      actions := actions + [Modify(s.reset)];
      if !s.reset.Acknowledged? {
        return Some(ModifyingCredentials), actions;
      }
      return None, actions;
    }

    /** Puts the pair whose password is set into the public keys and stamps the publication. */
    method TakeOver(spec: RotationSpec, secret: SecretObject, svc: Service, caCert: string, at: int)
      returns (error: Option<Error>)
      modifies `clock, secret`data
      ensures clock == if error.None? then at else old(clock)
      ensures error.None? ==>
                && WithoutPending(secret.data) == Promoted(old(secret.data), secret.data.details, at)
                && secret.data.stamp == StampedAt(at)
                && Credential(Value(secret.data.username), Value(secret.data.password)) == Pending(old(secret.data))
                && IsDescribed(spec, secret.data.details, Value(secret.data.username), svc, caCert)
      ensures error.None? <==> DetailsAvailable(svc, Value(old(secret.data).pendingUser))
    {
      secret.data := secret.data.(username := secret.data.pendingUser);
      secret.data := secret.data.(password := secret.data.pendingPassword);
      error := RefreshDetails(spec, secret, svc, caCert);
      if error.None? {
        clock := at;
        secret.data := secret.data.(stamp := StampedAt(clock));
      }
    }

    method RefreshDetails(spec: RotationSpec, secret: SecretObject, svc: Service, caCert: string)
      returns (error: Option<Error>)
      modifies secret`data
      ensures secret.data == if error.None? then Refreshed(old(secret.data), secret.data.details) else old(secret.data)
      ensures error.None? <==> DetailsAvailable(svc, Value(old(secret.data).username))
      ensures error.None? ==>
                IsDescribed(spec, secret.data.details, Value(secret.data.username), svc, caCert)
    {
      error := RefreshRotationSecret(spec, secret, svc, caCert);
    }

    method Promote(spec: RotationSpec, secret: SecretObject, svc: Service, caCert: string, at: int)
      returns (error: Option<Error>, ghost actions: seq<Action>)
      requires |spec.usernames| > 0
      requires clock <= at
      modifies `clock, secret`data
      ensures Run(spec, old(Snapshot(PasswordSet(secret.version, secret.data))), actions)
              == Some(Snapshot(if error.None? then Stamped(secret.version, WithoutPending(secret.data)) else Idle))
      ensures error.None? ==>
                && clock == at
                && secret.data.stamp == StampedAt(clock)
                && Credential(Value(secret.data.username), Value(secret.data.password)) == Pending(old(secret.data))
                && IsDescribed(spec, secret.data.details, Value(secret.data.username), svc, caCert)
      ensures error.None? <==> DetailsAvailable(svc, Value(old(secret.data).pendingUser))
    {
      ghost var start := Snapshot(PasswordSet(secret.version, secret.data));
      error := TakeOver(spec, secret, svc, caCert, at);
      if error.Some? {
        RunOneMore(spec, start, [], start, Die, Snapshot(Idle));
        actions := [Die];
        return;
      }
      actions := [Tick(clock)] + [RotationProtocol.Stamp(secret.data.details)];
      StampingIsRun(spec, start, clock, secret.data.details);
    }

    /** The steps of a due rotation up to the last write. */
    method Rotate(spec: RotationSpec, secret: SecretObject, svc: Service, caCert: string, s: Surroundings)
      returns (error: Option<Error>, ghost actions: seq<Action>)
      requires |spec.usernames| > 0
      requires clock <= s.stampedAt && secret.version <= |versions|
      modifies `versions, `accepted, `sent, `clock, secret
      ensures Run(spec, old(Snapshot(Rotating(secret.version, secret.data))), actions)
              == Some(Snapshot(if error.None? then Stamped(secret.version, WithoutPending(secret.data)) else Idle))
      ensures sent == old(sent) || sent == old(sent + [Pending(secret.data)])
      ensures error.None? ==>
                && clock == s.stampedAt
                && secret.data.stamp == StampedAt(clock)
                && Credential(Value(secret.data.username), Value(secret.data.password)) == Pending(old(secret.data))
                && secret.version == |versions|
                && IsDescribed(spec, secret.data.details, Value(secret.data.username),
                   svc.(users := s.usersAfterReset), caCert)
      ensures (FaultFree(s) && old(secret.version == |versions|) &&
               DetailsAvailable(svc.(users := s.usersAfterReset), Value(old(secret.data).pendingUser))) ==>
                error.None?
    {
      ghost var start := Snapshot(Rotating(secret.version, secret.data));
      error, actions := SaveAndReset(spec, secret, s);
      if error.Some? {
        return;
      }
      ghost var more;
      error, more := Promote(spec, secret, svc.(users := s.usersAfterReset), caCert, s.stampedAt);
      RunAppend(spec, start, actions, more);
      actions := actions + more;
    }

    /** Clears the pending pair and writes the Secret back when the pass has changed it. */
    method WriteBack(spec: RotationSpec, secret: SecretObject, orig: SecretData, rotated: bool, fate: Fate)
      returns (ok: bool, ghost actions: seq<Action>)
      requires |spec.usernames| > 0
      requires rotated ==> orig != WithoutPending(secret.data)
      modifies `versions, `publications, secret
      ensures secret.data == WithoutPending(old(secret.data))
      ensures Run(spec, old(Snapshot(if rotated then Stamped(secret.version, WithoutPending(secret.data))
                                     else Refreshing(secret.version, WithoutPending(secret.data)))), actions)
              == Some(Snapshot(Idle))
      ensures ok ==> secret.data == orig || (versions != [] && versions[|versions| - 1] == secret.data)
      ensures !rotated ==> publications == old(publications)
      ensures ok && rotated ==> publications == old(publications) + [PublicationOf(secret.data)]
      ensures fate.Acknowledged? && old(secret.version == |versions|) ==> ok
    {
      secret.data := secret.data.(pendingUser := None);
      secret.data := secret.data.(pendingPassword := None);
      ghost var start := Snapshot(if rotated then Stamped(secret.version, secret.data)
                                  else Refreshing(secret.version, secret.data));
      ghost var last := Die;
      ok := true;
      if orig != secret.data {
        ghost var judged := Judge(secret.version, fate);
        ok := WriteSecret(secret, fate);
        last := if rotated then Publish(judged) else Refresh(judged);
        if rotated && judged.Applied() {
          publications := publications + [PublicationOf(secret.data)];
        }
      }
      RunOneMore(spec, start, [], start, last, Snapshot(Idle));
      actions := [last];
    }

    /** What a pass needs before it decides anything. The details are refreshed only for a published username. */
    method PrepareDetails(spec: RotationSpec, secret: SecretObject, svc: Service, caCert: Option<string>)
      returns (error: Option<Error>)
      modifies secret`data
      ensures error.None? ==>
                && !old(secret.data).stamp.Unparsable? && caCert.Some?
                && secret.data == if Published(old(secret.data)) then Refreshed(old(secret.data), secret.data.details)
                                  else old(secret.data)
      ensures error.None? && Published(old(secret.data)) ==>
              IsDescribed(spec, secret.data.details, Value(secret.data.username), svc, caCert.value)
      ensures error.None? <==>
                && !old(secret.data).stamp.Unparsable? && caCert.Some?
                && (Published(old(secret.data)) ==> DetailsAvailable(svc, Value(old(secret.data).username)))
    {
      if secret.data.stamp.Unparsable? {
        return Some(InvalidPublicationTime);
      }
      if caCert.None? {
        return Some(NoCaCertificate);
      }
      if Published(secret.data) {
        error := RefreshDetails(spec, secret, svc, caCert.value);
      } else {
        error := None;
      }
    }

    /** Puts a new pair into the object, unless there is one, when a rotation is due. */
    method StartRotation(spec: RotationSpec, secret: SecretObject, ghost orig: SecretData, rotate: bool,
        hasPending: bool,
                         candidate: string)
      returns (ghost decide: Action)
      requires ValidSpec(spec) && |candidate| > 0 && !orig.stamp.Unparsable?
      requires secret.data == if Published(orig) then Refreshed(orig, secret.data.details) else orig
      requires rotate == Due(spec, orig, clock) && hasPending == HasPending(spec, orig)
      modifies secret`data
      ensures Next(spec, Snapshot(Holding(secret.version, orig)), decide) ==
              Some(Snapshot(if rotate then Rotating(secret.version, secret.data)
                            else Refreshing(secret.version, WithoutPending(secret.data))))
      ensures rotate ==> Pending(secret.data) == Pending(WithPending(spec, orig, candidate))
      ensures !rotate ==> secret.data == old(secret.data)
    {
      decide := Decide(candidate, secret.data.details);
      if rotate && !hasPending {
        var index := IndexOf(spec.usernames, Value(secret.data.username));
        secret.data := secret.data.(pendingUser := Some(spec.usernames[(index + 1) % |spec.usernames|]));
        secret.data := secret.data.(pendingPassword := Some(candidate));
      }
    }

    /** The decision, and the rotation if one is due. */
    method RotateIfDue(spec: RotationSpec, secret: SecretObject, orig: SecretData, rotate: bool, hasPending: bool,
                       svc: Service, caCert: string, s: Surroundings)
      returns (error: Option<Error>, ghost actions: seq<Action>)
      requires ValidSpec(spec) && |s.candidate| > 0 && !orig.stamp.Unparsable?
      requires secret.data == if Published(orig) then Refreshed(orig, secret.data.details) else orig
      requires rotate == Due(spec, orig, clock) && hasPending == HasPending(spec, orig)
      requires 0 < clock <= s.stampedAt && secret.version <= |versions|
      requires Published(orig) ==>
                 IsDescribed(spec, secret.data.details, Value(secret.data.username), svc, caCert)
      modifies `versions, `accepted, `sent, `clock, secret
      ensures Run(spec, old(Snapshot(Holding(secret.version, orig))), actions) ==
              Some(Snapshot(if error.Some? then Idle
                            else if rotate then Stamped(secret.version, WithoutPending(secret.data))
                            else Refreshing(secret.version, WithoutPending(secret.data))))
      ensures !rotate ==> error.None? && sent == old(sent) && accepted == old(accepted) &&
                          versions == old(versions) && secret.data == old(secret.data) &&
                          secret.version == old(secret.version)
      ensures sent == old(sent) || sent == old(sent) + [Pending(WithPending(spec, orig, s.candidate))]
      ensures error.None? && rotate ==>
                && secret.data.stamp == StampedAt(s.stampedAt) && clock == s.stampedAt
                && Credential(Value(secret.data.username), Value(secret.data.password)) ==
                   Pending(WithPending(spec, orig, s.candidate))
                && secret.version == |versions| && orig != WithoutPending(secret.data)
                && IsDescribed(spec, secret.data.details, Value(secret.data.username),
                               svc.(users := s.usersAfterReset), caCert)
      ensures !rotate ==>
                && secret.data.stamp == orig.stamp && secret.data.password == orig.password
                && Value(secret.data.username) == Value(orig.username)
                && IsDescribed(spec, secret.data.details, Value(secret.data.username), svc, caCert)
      ensures FaultFree(s) && old(secret.version == |versions|) &&
              (rotate ==> DetailsAvailable(svc.(users := s.usersAfterReset),
                                           Pending(WithPending(spec, orig, s.candidate)).username)) ==>
                error.None?
    {
      ghost var start, version := Snapshot(Holding(secret.version, orig)), secret.version;
      ghost var decide := StartRotation(spec, secret, orig, rotate, hasPending, s.candidate);
      ghost var decided := Snapshot(if rotate then Rotating(version, secret.data)
                                    else Refreshing(version, WithoutPending(secret.data)));
      RunOneMore(spec, start, [], start, decide, decided);
      actions := [decide];
      error := None;
      if rotate {
        ghost var more;
        RotatedDiffers(spec, orig, clock, s.stampedAt);
        error, more := Rotate(spec, secret, svc, caCert, s);
        RunAppend(spec, start, actions, more);
        actions := actions + more;
      }
    }

    /** The pass from the decision on. */
    method RotateAndWriteBack(spec: RotationSpec, secret: SecretObject, orig: SecretData, rotate: bool,
                              hasPending: bool, svc: Service, caCert: string, s: Surroundings)
      returns (error: Option<Error>, ghost actions: seq<Action>)
      requires ValidSpec(spec) && |s.candidate| > 0 && !orig.stamp.Unparsable?
      requires secret.data == if Published(orig) then Refreshed(orig, secret.data.details) else orig
      requires rotate == Due(spec, orig, clock) && hasPending == HasPending(spec, orig)
      requires 0 < clock <= s.stampedAt && secret.version <= |versions|
      requires Published(orig) ==> IsDescribed(spec, secret.data.details, Value(secret.data.username), svc, caCert)
      modifies this, secret
      ensures Run(spec, old(Snapshot(Holding(secret.version, orig))), actions) == Some(Snapshot(Idle))
      ensures !rotate ==> sent == old(sent) && accepted == old(accepted) && publications == old(publications)
      ensures sent == old(sent) || sent == old(sent) + [Pending(WithPending(spec, orig, s.candidate))]
      ensures error.None? ==>
                && secret.data.pendingUser.None? && secret.data.pendingPassword.None?
                && (secret.data == orig || (versions != [] && versions[|versions| - 1] == secret.data))
                && IsDescribed(spec, secret.data.details, Value(secret.data.username), if rotate then
                   svc.(users := s.usersAfterReset) else svc, caCert)
      ensures error.None? && rotate ==>
                && publications == old(publications) +
                   [Publication(Pending(WithPending(spec, orig, s.candidate)), s.stampedAt)]
                && secret.data.stamp == StampedAt(s.stampedAt)
                && Credential(Value(secret.data.username), Value(secret.data.password)) ==
                   Pending(WithPending(spec, orig, s.candidate))
      ensures error.None? && !rotate ==>
                && secret.data.stamp == orig.stamp && secret.data.password == orig.password
                && Value(secret.data.username) == Value(orig.username)
      ensures FaultFree(s) && old(secret.version == |versions|) &&
              (rotate ==> DetailsAvailable(svc.(users := s.usersAfterReset),
                                           Pending(WithPending(spec, orig, s.candidate)).username)) ==>
                error.None?
    {
      ghost var start, more := Snapshot(Holding(secret.version, orig)), [];
      error, actions := RotateIfDue(spec, secret, orig, rotate, hasPending, svc, caCert, s);
      ghost var decided := Snapshot(if error.Some? then Idle
                                    else if rotate then Stamped(secret.version, WithoutPending(secret.data))
                                    else Refreshing(secret.version, WithoutPending(secret.data)));
      if error.Some? {
        return;
      }
      var ok;
      ok, more := WriteBack(spec, secret, orig, rotate, s.publish);
      assert Run(spec, start, actions + more) == Some(Snapshot(Idle)) by {
        RunAppend(spec, start, actions, more);
      }
      actions := actions + more;
      error := if ok then None else Some(RefreshingConnectionDetails);
    }

    /** The pass from the moment at which it has decided whether to rotate. */
    method RefreshAndRotate(spec: RotationSpec, secret: SecretObject, rotate: bool, hasPending: bool, svc: Service,
                            s: Surroundings)
      returns (error: Option<Error>, ghost actions: seq<Action>)
      requires ValidSpec(spec) && |s.candidate| > 0
      requires hasPending == HasPending(spec, secret.data)
      requires !secret.data.stamp.Unparsable? ==> rotate == Due(spec, secret.data, clock)
      requires 0 < clock <= s.stampedAt && secret.version <= |versions|
      modifies this, secret
      ensures Run(spec, old(Snapshot(Holding(secret.version, secret.data))), actions) == Some(Snapshot(Idle))
      ensures !rotate || old(secret.data).stamp.Unparsable? ==>
                sent == old(sent) && accepted == old(accepted) && publications == old(publications)
      ensures sent == old(sent) || sent == old(sent + [Pending(WithPending(spec, secret.data, s.candidate))])
      ensures error.None? ==>
                && !old(secret.data).stamp.Unparsable? && s.caCert.Some?
                && secret.data.pendingUser.None? && secret.data.pendingPassword.None?
                && (secret.data == old(secret.data) || (versions != [] && versions[|versions| - 1] == secret.data))
                && IsDescribed(spec, secret.data.details, Value(secret.data.username),
                               if rotate then svc.(users := s.usersAfterReset) else svc, s.caCert.value)
      ensures error.None? && rotate ==>
                && publications == old(publications +
                   [Publication(Pending(WithPending(spec, secret.data, s.candidate)), s.stampedAt)])
                && secret.data.stamp == StampedAt(s.stampedAt)
                && Credential(Value(secret.data.username), Value(secret.data.password)) ==
                   Pending(WithPending(spec, old(secret.data), s.candidate))
      ensures error.None? && !rotate ==>
                && secret.data.stamp == old(secret.data).stamp && secret.data.password == old(secret.data).password
                && Value(secret.data.username) == Value(old(secret.data).username)
      ensures FaultFree(s) && old(secret.version == |versions| && !secret.data.stamp.Unparsable?) &&
              (old(Published(secret.data)) ==> DetailsAvailable(svc, Value(old(secret.data).username))) &&
              (rotate ==> DetailsAvailable(svc.(users := s.usersAfterReset),
                                           Pending(WithPending(spec, old(secret.data), s.candidate)).username)) ==>
                error.None?
    {
      var orig := secret.data;
      ghost var start := Snapshot(Holding(secret.version, secret.data));
      error := PrepareDetails(spec, secret, svc, s.caCert);
      if error.Some? {
        RunOneMore(spec, start, [], start, Die, Snapshot(Idle));
        return error, [Die];
      }
      error, actions := RotateAndWriteBack(spec, secret, orig, rotate, hasPending, svc, s.caCert.value, s);
    }

    /** The part of a pass that works on a Secret it holds. */
    method ReconcileCredentials(spec: RotationSpec, secret: SecretObject, svc: Service, s: Surroundings)
      returns (result: Result<Status, Error>, ghost actions: seq<Action>)
      requires ValidSpec(spec) && |s.candidate| > 0
      requires 0 < clock <= s.decidedAt <= s.stampedAt
      requires secret.version <= |versions| && secret.data == ReadVersion(spec, versions, secret.version)
      modifies this, secret
      // The pass is a run of the protocol.
      ensures Run(spec, old(Snapshot(Holding(secret.version, secret.data))), actions) == Some(Snapshot(Idle))
      // Nothing is sent or published unless the Secret that was read makes a rotation due.
      ensures !old(RotationDue(spec, secret.data, s.decidedAt)) ==>
                sent == old(sent) && accepted == old(accepted) && publications == old(publications)
      // At most one pair is sent: the one the Secret carries, or a new one for the next user.
      ensures sent == old(sent) || sent == old(sent + [Pending(WithPending(spec, secret.data, s.candidate))])
      // A pass that succeeds has cleared the pending pair and reports what the Secret says.
      ensures result.Ok? ==>
                && secret.data.pendingUser.None? && secret.data.pendingPassword.None?
                && (secret.data == old(secret.data) || (versions != [] && versions[|versions| - 1] == secret.data))
                && result.value == Status(Value(secret.data.username), TimeOf(secret.data.stamp),
                                          TimeOf(secret.data.stamp) + spec.interval)
      // It has published if and only if a rotation was due; the Secret shows the details of the user that it names.
      ensures result.Ok? ==>
                && Succeeds(spec, old(secret.data), s, old(publications), publications, result.value)
                && s.caCert.Some?
                && IsDescribed(spec, secret.data.details, Value(secret.data.username),
                               if publications == old(publications) then svc else svc.(users := s.usersAfterReset),
                               s.caCert.value)
      // A pass that meets no fault succeeds.
      ensures old(secret.version == |versions|) && old(Unhindered(spec, secret.data, svc, s)) ==> result.Ok?
    {
      ghost var start := Snapshot(Holding(secret.version, secret.data));
      clock := s.decidedAt;
      var published := Published(secret.data);
      var hasPending := HasPending(spec, secret.data);
      var rotate := hasPending || !published || TimeOf(secret.data.stamp) + spec.interval <= clock;
      ghost var read := secret.data;
      var error;
      error, actions := RefreshAndRotate(spec, secret, rotate, hasPending, svc, s);
      TimePasses(spec, start, s.decidedAt, actions);
      actions := [Tick(s.decidedAt)] + actions;
      if error.Some? {
        return Err(error.value), actions;
      }
      SuccessWrittenOut(spec, read, s, old(publications), publications, secret.data);
      var at := TimeOf(secret.data.stamp);
      return Ok(Status(Value(secret.data.username), at, at + spec.interval)), actions;
    }

    /** Client, service, Secret, credentials: the first that fails ends the pass before anything is sent. */
    method ReconcileSecret(spec: RotationSpec, client: bool, lookup: Lookup, observed: Option<nat>, controlled: bool,
                           s: Surroundings)
      returns (result: Result<Status, Error>, ghost actions: seq<Action>)
      requires ValidSpec(spec) && |s.candidate| > 0
      requires 0 < clock <= s.decidedAt <= s.stampedAt
      requires observed.Some? ==> observed.value <= |versions|
      modifies this
      ensures Run(spec, old(Snapshot(Idle)), actions) == Some(Snapshot(Idle))
      ensures !client || !lookup.Operational? || observed.None? ==>
                result.Err? && actions == [] && Snapshot(Idle) == old(Snapshot(Idle))
      ensures client && lookup.NotOperational? ==> result == Err(PreconditionNotMet)
      ensures !client || lookup.PoweredOff? || lookup.LookupFailed? ==> !result.error.PreconditionNotMet?
      ensures result.Ok? ==>
                && client && lookup.Operational? && observed.Some? && (observed.value > 0 ==> controlled)
                && Succeeds(spec, ReadVersion(spec, old(versions), observed.value), s,
                            old(publications), publications, result.value)
      ensures client && lookup.Operational? && observed ==
              Some(old(|versions|)) && (observed.value > 0 ==> controlled) &&
              Unhindered(spec, ReadVersion(spec, old(versions), observed.value), lookup.service, s) ==>
                result.Ok?
    {
      actions := [];
      if !client {
        return Err(NoClient), actions;
      }
      match lookup {
        case NotOperational =>
          return Err(PreconditionNotMet), actions;
        case PoweredOff =>
          return Err(ServicePoweredOff), actions;
        case LookupFailed =>
          return Err(ServiceLookup), actions;
        case Operational(svc) =>
          var ensured := EnsureSecret(spec, observed, controlled);
          if ensured.Err? {
            return Err(ensured.error), actions;
          }
          ghost var start := Snapshot(Idle);
          RunOneMore(spec, start, [], start, Read(observed.value),
                     Snapshot(Holding(observed.value, ensured.value.data)));
          ghost var more;
          result, more := ReconcileCredentials(spec, ensured.value, svc, s);
          RunAppend(spec, start, [Read(observed.value)], more);
          actions := [Read(observed.value)] + more;
      }
    }

    /** The write at the end of every pass, left out when nothing is new. */
    method PersistStatus(resource: RotationResource, orig: Status, origFailed: bool, fate: Fate) returns (ok: bool)
      modifies resource
      ensures resource.status == Normalized(old(resource.status)) && resource.failed == old(resource.failed)
      ensures var changed := resource.status != orig || resource.failed != origFailed;
              && ok == (!changed || fate.Acknowledged?)
              && resource.stored == if changed && fate.Applied() then (resource.status, resource.failed)
                 else old(resource.stored)
    {
      resource.status := Normalized(resource.status);
      if resource.status == orig && resource.failed == origFailed {
        return true;
      }
      if fate.Applied() {
        resource.stored := (resource.status, resource.failed);
      }
      ok := fate.Acknowledged?;
    }

    /** One pass of the reconciler. Whatever it comes to, the status is saved at its end, and a status that cannot be
        saved makes the pass fail. */
    method Reconcile(spec: RotationSpec, resource: RotationResource, client: bool, lookup: Lookup,
                     observed: Option<nat>, controlled: bool, s: Surroundings, saveStatus: Fate, poll: int, now: int)
      returns (result: Result<Status, Error>, outcome: Outcome, ghost actions: seq<Action>)
      requires ValidSpec(spec) && |s.candidate| > 0 && poll > 0
      requires 0 < clock <= s.decidedAt <= s.stampedAt
      requires observed.Some? ==> observed.value <= |versions|
      modifies this, resource
      ensures Run(spec, old(Snapshot(Idle)), actions) == Some(Snapshot(Idle))
      // When it succeeds, and what it has done then.
      ensures result.Ok? ==>
                && observed.Some?
                && Succeeds(spec, ReadVersion(spec, old(versions), observed.value), s,
                            old(publications), publications, result.value)
      ensures client && lookup.Operational? && observed ==
              Some(old(|versions|)) && (observed.value > 0 ==> controlled) &&
              Unhindered(spec, ReadVersion(spec, old(versions), observed.value), lookup.service, s) ==>
                result.Ok?
      // What the pass reports.
      ensures result.Ok? ==> resource.status == Normalized(result.value) && !resource.failed
      ensures result.Err? ==>
                && resource.status == Normalized(old(resource.status))
                && resource.failed == (old(resource.failed) || !result.error.PreconditionNotMet?)
      // What is stored of it, and what follows.
      ensures var changed := resource.status != old(resource.status) || resource.failed != old(resource.failed);
              && resource.stored ==
                 (if changed && saveStatus.Applied() then (resource.status, resource.failed) else old(resource.stored))
              && outcome == if changed && !saveStatus.Acknowledged? then Failed(SavingStatus)
                            else if result.Ok? then Requeued(RequeueAfter(poll, result.value.nextRotationAt, now))
                            else if result.error.PreconditionNotMet? then Requeued(REQUEUE_TIMEOUT)
                            else Failed(result.error)
    {
      var orig, origFailed := resource.status, resource.failed;
      result, actions := ReconcileSecret(spec, client, lookup, observed, controlled, s);
      match result {
        case Ok(status) =>
          resource.status := status;
          resource.failed := false;
          outcome := Requeued(RequeueAfter(poll, status.nextRotationAt, now));
        case Err(e) =>
          if e.PreconditionNotMet? {
            outcome := Requeued(REQUEUE_TIMEOUT);
          } else {
            resource.failed := true;
            outcome := Failed(e);
          }
      }
      var saved := PersistStatus(resource, orig, origFailed, saveStatus);
      if !saved {
        outcome := Failed(SavingStatus);
      }
    }
  }

  const REQUEUE_TIMEOUT: int := 10 * SECOND

  datatype Outcome = Requeued(after: int) | Failed(error: Error)

  /** The resource in the hands of a pass, and what the API server stores of its status. */
  class RotationResource {
    var status: Status
    var failed: bool // the Error condition is present
    var stored: (Status, bool)
  }

  function RequeueAfter(jitteredPoll: int, nextRotationAt: int, now: int): (after: int)
    ensures jitteredPoll > 0 ==> after > 0
    // A poll never postpones the rotation: the pass runs by the deadline, or at once when it has passed.
    ensures now < nextRotationAt ==> now + after <= nextRotationAt
    ensures nextRotationAt <= now ==> after <= 1
    ensures after <= jitteredPoll
    // Nor is there a pass before either of them.
    ensures after >= jitteredPoll || now + after >= nextRotationAt
  {
    var untilDeadline := if nextRotationAt - now < 1 then 1 else nextRotationAt - now;
    if jitteredPoll < untilDeadline then jitteredPoll else untilDeadline
  }

  function Truncated(time: int): int {
    time - time % SECOND
  }

  /** The form of a status that survives being stored. */
  function Normalized(status: Status): Status {
    status.(lastRotationAt := Truncated(status.lastRotationAt), nextRotationAt := Truncated(status.nextRotationAt))
  }

  /** A status is stored in whole seconds, and one that was saved once compares equal when the next pass computes it
      again. */
  lemma NormalizedIsStable(status: Status)
    ensures Normalized(Normalized(status)) == Normalized(status)
    ensures Normalized(status).activeUsername == status.activeUsername
    ensures var at := Normalized(status).lastRotationAt;
            at % 1_000_000_000 == 0 && at <= status.lastRotationAt < at + 1_000_000_000
    ensures var at := Normalized(status).nextRotationAt;
            at % 1_000_000_000 == 0 && at <= status.nextRotationAt < at + 1_000_000_000
  {
    var t, n := status.lastRotationAt, status.nextRotationAt;
    assert t == SECOND * (t / SECOND) + t % SECOND;
    assert n == SECOND * (n / SECOND) + n % SECOND;
    assert (SECOND * (t / SECOND)) % SECOND == 0;
    assert (SECOND * (n / SECOND)) % SECOND == 0;
  }
}
