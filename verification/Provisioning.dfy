/**
 Provisioning of an app's realm and of its OIDC variables, against a Keycloak and a Vault
 where any call may fail (backend/services/keycloak_service.py provision,
 backend/keycloak/client.py, backend/vault/client.py).

 `External` is the outside world. Every request draws its fate from `faults`: it works, it is
 refused before having any effect, or it takes effect and its reply is lost.
 */
module Provisioning {
  import opened Options

  datatype Fault = Fine | Refused | ReplyLost

  datatype Client = Client(isPublic: bool, secret: string, directAccessGrants: bool, mappers: set<string>, redirectUris: seq<string>)

  datatype Realm = Realm(id: string, owner: Option<string>, clients: map<string, Client>, settings: string)

  type Realms = map<string, Realm>

  type Vault = map<string, map<string, string>>

  datatype Outside = Outside(realms: Realms, vault: Vault)

  /** The app and environment being provisioned, with the connection it resolved to. */
  datatype Target = Target(
    slug: string, env: string, appId: string, isPublic: bool,
    publicUrl: string, vaultPath: string, redirectUris: seq<string>)

  const ADMIN_CLI := "admin-cli"
  const AUDIENCE := "audience"
  const ISSUER_URL := "OIDC_ISSUER_URL"
  const CLIENT_ID := "OIDC_CLIENT_ID"
  const CLIENT_SECRET := "OIDC_CLIENT_SECRET"
  const MANAGED_KEYS: set<string> := {ISSUER_URL, CLIENT_ID, CLIENT_SECRET}

  function RealmName(t: Target): string {
    t.slug + "-" + t.env
  }

  function RealmId(t: Target): string {
    "cnp-" + t.appId + "-" + t.env
  }

  predicate OwnedBy(realm: Realm, t: Target) {
    realm.id == RealmId(t) && realm.owner == Some(t.appId)
  }

  predicate IdUsed(realms: Realms, id: string) {
    exists name :: name in realms && realms[name].id == id
  }

  // ----- what each request does on the server -----

  /** A realm as Keycloak creates it, with its built-in admin-cli client. */
  function NewRealm(t: Target): Realm {
    Realm(RealmId(t), Some(t.appId), map[ADMIN_CLI := Client(true, "", true, {}, [])], "cnp-baseline")
  }

  /** POST /admin/realms: a 409 (name or id taken) leaves everything as it was. */
  function RealmCreated(realms: Realms, t: Target): Realms {
    if RealmName(t) in realms || IdUsed(realms, RealmId(t)) then realms else realms[RealmName(t) := NewRealm(t)]
  }

  function GrantDisabled(realm: Realm): Realm {
    if ADMIN_CLI in realm.clients
    then realm.(clients := realm.clients[ADMIN_CLI := realm.clients[ADMIN_CLI].(directAccessGrants := false)])
    else realm
  }

  /** POST .../clients: an existing client of that name is kept as it is. */
  function ClientCreated(realm: Realm, t: Target, secret: string): Realm {
    if t.slug in realm.clients then realm
    else realm.(clients := realm.clients[t.slug := Client(t.isPublic, secret, false, {}, t.redirectUris)])
  }

  function MapperAdded(realm: Realm, slug: string): Realm {
    if slug in realm.clients
    then realm.(clients := realm.clients[slug := realm.clients[slug].(mappers := realm.clients[slug].mappers + {AUDIENCE})])
    else realm
  }

  function OidcVars(t: Target, secret: string): map<string, string> {
    map[ISSUER_URL := t.publicUrl + "/realms/" + RealmName(t), CLIENT_ID := t.slug]
    + if t.isPublic then map[] else map[CLIENT_SECRET := secret]
  }

  /** patch_secret: merge into the path, creating it if needed. */
  function Patched(vault: Vault, path: string, vars: map<string, string>): Vault {
    vault[path := Lookup(vault, path).GetOr(map[]) + vars]
  }

  // ----- what provisioning is for -----

  /** The full setup: owned realm, no password grant, the app's client with its mapper, the OIDC variables. */
  predicate Setup(o: Outside, t: Target) {
    && RealmReady(o, t)
    && var realm := o.realms[RealmName(t)];
    && t.vaultPath in o.vault
    && forall k :: k in OidcVars(t, realm.clients[t.slug].secret) ==>
         k in o.vault[t.vaultPath] && o.vault[t.vaultPath][k] == OidcVars(t, realm.clients[t.slug].secret)[k]
  }

  /** The part of the setup that lives in the realm. */
  predicate RealmReady(o: Outside, t: Target) {
    && RealmName(t) in o.realms
    && var realm := o.realms[RealmName(t)];
    && OwnedBy(realm, t)
    && (ADMIN_CLI in realm.clients ==> !realm.clients[ADMIN_CLI].directAccessGrants)
    && t.slug in realm.clients && AUDIENCE in realm.clients[t.slug].mappers
  }

  /** What a caller can check beforehand: the name is ours, or free with our id unused. */
  predicate CanProvision(realms: Realms, t: Target) {
    if RealmName(t) in realms then OwnedBy(realms[RealmName(t)], t) else !IdUsed(realms, RealmId(t))
  }

  /** A realm of the app may gain its client as specified, the mapper and the closed password grant; nothing else in it changes. */
  ghost predicate RealmKept(before: Realm, after: Realm, t: Target) {
    && after.id == before.id && after.owner == before.owner && after.settings == before.settings
    && (forall c :: c !in {t.slug, ADMIN_CLI} ==> Lookup(after.clients, c) == Lookup(before.clients, c))
    && (forall c :: c in before.clients ==> c in after.clients && ClientKept(before.clients[c], after.clients[c]))
    && (forall c :: c in after.clients && c !in before.clients ==> c == t.slug && FreshClient(after.clients[c], t))
  }

  /** The app's client as it is created, with or without its mapper yet. */
  predicate FreshClient(c: Client, t: Target) {
    c.isPublic == t.isPublic && c.redirectUris == t.redirectUris && !c.directAccessGrants && c.mappers <= {AUDIENCE}
  }

  predicate ClientKept(before: Client, after: Client) {
    && after.isPublic == before.isPublic && after.secret == before.secret && after.redirectUris == before.redirectUris
    && before.mappers <= after.mappers <= before.mappers + {AUDIENCE}
    && (after.directAccessGrants ==> before.directAccessGrants)
  }

  /** Nothing but the app's own realm and its own managed variables changes; a realm that appears is the app's baseline realm. */
  ghost predicate Untouched(before: Outside, after: Outside, t: Target) {
    && (forall n :: n != RealmName(t) ==> Lookup(after.realms, n) == Lookup(before.realms, n))
    && (RealmName(t) in before.realms ==>
          && RealmName(t) in after.realms
          && (if OwnedBy(before.realms[RealmName(t)], t)
              then RealmKept(before.realms[RealmName(t)], after.realms[RealmName(t)], t)
              else after.realms[RealmName(t)] == before.realms[RealmName(t)]))
    && (RealmName(t) !in before.realms && RealmName(t) in after.realms ==>
          !IdUsed(before.realms, RealmId(t)) && RealmKept(NewRealm(t), after.realms[RealmName(t)], t))
    && (forall p :: p != t.vaultPath ==> Lookup(after.vault, p) == Lookup(before.vault, p))
    && (forall k :: k !in MANAGED_KEYS ==> Value(after.vault, t.vaultPath, k) == Value(before.vault, t.vaultPath, k))
    && (t.isPublic ==> Value(after.vault, t.vaultPath, CLIENT_SECRET) == Value(before.vault, t.vaultPath, CLIENT_SECRET))
  }

  function Value(vault: Vault, path: string, key: string): Option<string> {
    Lookup(Lookup(vault, path).GetOr(map[]), key)
  }

  /** Other actors create realms between the first read and the creation. */
  function Raced(o: Outside, race: Realms): Outside {
    o.(realms := race + o.realms)
  }

  /** One attempt: from the state the race left, with or without faults. Vault is not written before the realm is ready. */
  ghost predicate Attempt(before: Outside, after: Outside, t: Target, faultFree: bool, ok: bool) {
    && Untouched(before, after, t)
    && (ok ==> Setup(after, t))
    && (after.vault != before.vault ==> Setup(after, t))
    && (faultFree ==> (ok <==> CanProvision(before.realms, t)))
    && (faultFree && Setup(before, t) ==> after == before)
    && (CanProvision(before.realms, t) ==> CanProvision(after.realms, t))
  }

  // ----- the stages of one attempt; each keeps Untouched and what later stages rely on -----

  /** Where an attempt stands once it holds the realm: everything else is untouched and the realm is the app's. */
  ghost predicate Holding(start: Outside, now: Outside, t: Target) {
    && Untouched(start, now, t)
    && RealmName(t) in now.realms && OwnedBy(now.realms[RealmName(t)], t)
    && CanProvision(start.realms, t)
    && (Setup(start, t) ==> now == start)
  }

  lemma RealmStage(start: Outside, now: Outside, t: Target)
    requires now.vault == start.vault
    requires now.realms == start.realms || now.realms == RealmCreated(start.realms, t)
    ensures Untouched(start, now, t)
    ensures RealmName(t) in now.realms && OwnedBy(now.realms[RealmName(t)], t) ==> Holding(start, now, t)
    ensures CanProvision(start.realms, t) ==> CanProvision(now.realms, t)
    ensures Setup(start, t) ==> now == start
  {
  }

  lemma KeptTwice(a: Realm, b: Realm, c: Realm, t: Target)
    requires RealmKept(a, b, t) && RealmKept(b, c, t)
    ensures RealmKept(a, c, t)
  {
  }

  /** The app's realm is replaced by a kept version of itself. */
  lemma RealmReplaced(start: Outside, now: Outside, realm: Realm, t: Target)
    requires Holding(start, now, t)
    requires RealmKept(now.realms[RealmName(t)], realm, t)
    requires Setup(start, t) ==> realm == now.realms[RealmName(t)]
    ensures Holding(start, now.(realms := now.realms[RealmName(t) := realm]), t)
  {
    var name := RealmName(t);
    KeptTwice(if name in start.realms then start.realms[name] else NewRealm(t), now.realms[name], realm, t);
    if Setup(start, t) {
      assert now.realms[name := realm] == now.realms;
    }
  }

  lemma GrantStage(start: Outside, before: Outside, now: Outside, t: Target)
    requires Holding(start, before, t) && now.vault == before.vault
    requires || now.realms == before.realms[RealmName(t) := GrantDisabled(before.realms[RealmName(t)])]
             || now.realms == before.realms
    ensures Holding(start, now, t)
  {
    var realm := before.realms[RealmName(t)];
    if Setup(start, t) {
      assert GrantDisabled(realm).clients == realm.clients;
    }
    if now.realms != before.realms {
      RealmReplaced(start, before, GrantDisabled(realm), t);
    }
  }

  lemma ClientIsKept(realm: Realm, t: Target, secret: string)
    ensures RealmKept(realm, ClientCreated(realm, t, secret), t)
    ensures RealmKept(realm, MapperAdded(ClientCreated(realm, t, secret), t.slug), t)
  {
  }

  lemma ClientStage(start: Outside, before: Outside, now: Outside, t: Target, secret: string)
    requires Holding(start, before, t) && now.vault == before.vault
    requires var realm := before.realms[RealmName(t)];
      var created := ClientCreated(realm, t, secret);
      || now.realms == before.realms[RealmName(t) := MapperAdded(created, t.slug)]
      || now.realms == before.realms[RealmName(t) := created]
      || now.realms == before.realms
    ensures Holding(start, now, t)
  {
    var realm := before.realms[RealmName(t)];
    var created := ClientCreated(realm, t, secret);
    ClientIsKept(realm, t, secret);
    if Setup(start, t) {
      assert realm.clients[t.slug].mappers + {AUDIENCE} == realm.clients[t.slug].mappers;
      assert MapperAdded(realm, t.slug).clients == realm.clients;
    }
    if now.realms == before.realms[RealmName(t) := MapperAdded(created, t.slug)] {
      RealmReplaced(start, before, MapperAdded(created, t.slug), t);
    } else if now.realms == before.realms[RealmName(t) := created] {
      RealmReplaced(start, before, created, t);
    }
  }

  lemma VaultStage(start: Outside, before: Outside, now: Outside, t: Target, secret: string)
    requires Holding(start, before, t) && now.realms == before.realms
    requires now.vault == Patched(before.vault, t.vaultPath, OidcVars(t, secret)) || now.vault == before.vault
    requires t.slug in before.realms[RealmName(t)].clients
    requires !t.isPublic ==> secret == before.realms[RealmName(t)].clients[t.slug].secret
    ensures Holding(start, now, t)
    ensures now.vault != before.vault ==> forall k :: k in OidcVars(t, secret) ==> Value(now.vault, t.vaultPath, k) == Some(OidcVars(t, secret)[k])
  {
    forall k | k !in MANAGED_KEYS ensures Value(now.vault, t.vaultPath, k) == Value(start.vault, t.vaultPath, k) {
      assert Value(before.vault, t.vaultPath, k) == Value(start.vault, t.vaultPath, k);
      assert k !in OidcVars(t, secret);
    }
    assert t.isPublic ==> CLIENT_SECRET !in OidcVars(t, secret);
    if Setup(start, t) {
      var stored := before.vault[t.vaultPath];
      assert stored + OidcVars(t, secret) == stored;
      assert before.vault[t.vaultPath := stored] == before.vault;
    }
  }

  class External {
    var realms: Realms
    var vault: Vault
    var calls: nat
    const faults: nat -> Fault

    constructor (realms: Realms, vault: Vault, faults: nat -> Fault)
      ensures this.realms == realms && this.vault == vault && this.faults == faults
    {
      this.realms, this.vault, this.calls, this.faults := realms, vault, 0, faults;
    }

    ghost function State(): Outside
      reads this
    {
      Outside(realms, vault)
    }

    ghost predicate FaultFree() {
      forall n: nat :: faults(n) == Fine
    }

    /** The fate of the next request. */
    method Send() returns (fate: Fault)
      modifies this`calls
      ensures FaultFree() ==> fate == Fine
    {
      fate := faults(calls);
      calls := calls + 1;
    }

    method GetRealm(name: string) returns (ok: bool, realm: Option<Realm>)
      modifies this`calls
      ensures FaultFree() ==> ok
      ensures ok ==> realm == Lookup(realms, name)
    {
      var fate := Send();
      ok, realm := fate == Fine, Lookup(realms, name);
    }

    method CreateRealm(t: Target) returns (ok: bool)
      modifies this`calls, this`realms
      ensures FaultFree() ==> ok
      ensures realms == RealmCreated(old(realms), t) || (!ok && realms == old(realms))
    {
      var fate := Send();
      if fate != Refused { realms := RealmCreated(realms, t); }
      ok := fate == Fine;
    }

    /** disable_admin_cli_password_grant: a missing admin-cli client is nothing to turn off. */
    method DisablePasswordGrant(name: string) returns (ok: bool)
      modifies this`calls, this`realms
      ensures name in old(realms) && FaultFree() ==> ok
      ensures ok ==> name in old(realms)
      ensures || (name in old(realms) && realms == old(realms)[name := GrantDisabled(old(realms)[name])])
              || (!ok && realms == old(realms))
    {
      var read := Send();
      if read != Fine || name !in realms { return false; }
      var realm := realms[name];
      if ADMIN_CLI !in realm.clients || !realm.clients[ADMIN_CLI].directAccessGrants {
        assert GrantDisabled(realm).clients == realm.clients;
        assert realms[name := realm] == realms;
        return true;
      }
      var write := Send();
      if write != Refused { realms := realms[name := GrantDisabled(realm)]; }
      ok := write == Fine;
    }

    method CreateClient(t: Target, secret: string) returns (ok: bool)
      modifies this`calls, this`realms
      ensures RealmName(t) in old(realms) && FaultFree() ==> ok
      ensures ok ==> RealmName(t) in old(realms)
      ensures RealmName(t) !in old(realms) ==> realms == old(realms)
      ensures RealmName(t) in old(realms) ==>
        var realm := old(realms)[RealmName(t)];
        var created := ClientCreated(realm, t, secret);
        || realms == old(realms)[RealmName(t) := MapperAdded(created, t.slug)]
        || (!ok && (realms == old(realms) || realms == old(realms)[RealmName(t) := created]))
    {
      var name := RealmName(t);
      var post := Send();
      if name !in realms { return false; }
      ghost var before := realms;
      if post != Refused { realms := realms[name := ClientCreated(realms[name], t, secret)]; }
      if post != Fine { return false; }
      var readId := Send();
      if readId != Fine || t.slug !in realms[name].clients { return false; }
      ok := EnsureAudienceMapper(name, t.slug);
    }

    method EnsureAudienceMapper(name: string, slug: string) returns (ok: bool)
      requires name in realms && slug in realms[name].clients
      modifies this`calls, this`realms
      ensures FaultFree() ==> ok
      ensures realms == old(realms)[name := MapperAdded(old(realms)[name], slug)] || (!ok && realms == old(realms))
    {
      var read := Send();
      if read != Fine { return false; }
      var realm := realms[name];
      if AUDIENCE in realm.clients[slug].mappers {
        assert realm.clients[slug].mappers + {AUDIENCE} == realm.clients[slug].mappers;
        assert MapperAdded(realm, slug).clients == realm.clients;
        assert realms[name := realm] == realms;
        return true;
      }
      var write := Send();
      if write != Refused { realms := realms[name := MapperAdded(realm, slug)]; }
      ok := write == Fine;
    }

    method GetClientSecret(name: string, slug: string) returns (ok: bool, secret: string)
      modifies this`calls
      ensures name in realms && slug in realms[name].clients && FaultFree() ==> ok
      ensures ok ==> name in realms && slug in realms[name].clients && secret == realms[name].clients[slug].secret
    {
      var fate := Send();
      if fate != Fine || name !in realms || slug !in realms[name].clients { return false, ""; }
      return true, realms[name].clients[slug].secret;
    }

    /** patch_secret: a path without data is created by a second request. */
    method PatchSecret(path: string, vars: map<string, string>) returns (ok: bool)
      modifies this`calls, this`vault
      ensures FaultFree() ==> ok
      ensures vault == Patched(old(vault), path, vars) || (!ok && vault == old(vault))
    {
      var fate := Send();
      if fate == Fine && path !in vault {
        fate := Send();
        if fate != Refused { vault := vault[path := vars]; }
        assert map[] + vars == vars;
      } else if fate != Refused && path in vault {
        vault := vault[path := vault[path] + vars];
      }
      ok := fate == Fine;
    }

    /** _get_owned_realm: Err for a failed read or a foreign realm, else whether the realm exists. */
    method OwnedRealmExists(t: Target) returns (ok: bool, exists_: bool)
      modifies this`calls
      ensures ok ==> exists_ == (RealmName(t) in realms)
      ensures ok && exists_ ==> OwnedBy(realms[RealmName(t)], t)
      ensures FaultFree() ==> (ok <==> RealmName(t) in realms ==> OwnedBy(realms[RealmName(t)], t))
    {
      var realm;
      ok, realm := GetRealm(RealmName(t));
      exists_ := ok && realm.Some?;
      ok := ok && (realm.Some? ==> OwnedBy(realm.value, t));
    }

    /** The part of provision up to and including the ownership check. */
    method EnsureOwnedRealm(t: Target, race: Realms) returns (ok: bool)
      modifies this`calls, this`realms
      ensures var raced := race + old(realms);
        && (realms == raced || realms == RealmCreated(raced, t))
        && (ok ==> RealmName(t) in realms && OwnedBy(realms[RealmName(t)], t))
        && (FaultFree() ==> (ok <==> CanProvision(raced, t)))
        && (RealmName(t) in raced ==> realms == raced)
    {
      var there;
      ok, there := OwnedRealmExists(t);
      ghost var seen := realms;
      realms := race + realms;
      if !ok || there { return; }
      ok := CreateRealm(t);
      if !ok { return; }
      ok, there := OwnedRealmExists(t);
      ok := ok && there;
    }

    /** The requests of provision inside the realm: password grant, client, mapper. */
    method ConfigureRealm(t: Target, secret: string, ghost start: Outside) returns (ok: bool)
      requires Holding(start, State(), t)
      modifies this`calls, this`realms
      ensures Holding(start, State(), t)
      ensures ok ==> RealmReady(State(), t)
      ensures FaultFree() ==> ok
    {
      ghost var owned := State();
      ok := DisablePasswordGrant(RealmName(t));
      GrantStage(start, owned, State(), t);
      if !ok { return; }
      ghost var closed := State();
      ok := CreateClient(t, secret);
      ClientStage(start, closed, State(), t, secret);
    }

    /** The OIDC variables go to Vault, then a last read settles the outcome. */
    method WriteVariables(t: Target, ghost start: Outside) returns (ok: bool)
      requires Holding(start, State(), t) && RealmReady(State(), t)
      modifies this`calls, this`vault
      ensures Holding(start, State(), t)
      ensures ok || vault != old(vault) ==> Setup(State(), t)
      ensures FaultFree() ==> ok
    {
      var name := RealmName(t);
      var clientSecret := "";
      ok := true;
      if !t.isPublic {
        ok, clientSecret := GetClientSecret(name, t.slug);
        if !ok { return; }
      }
      ghost var ready := State();
      ok := PatchSecret(t.vaultPath, OidcVars(t, clientSecret));
      VaultStage(start, ready, State(), t, clientSecret);
      if !ok { return; }
      // An unreadable realm is not a failure here; a missing or foreign one is.
      var read, realm := GetRealm(name);
      ok := !read || (realm.Some? && OwnedBy(realm.value, t));
    }

    /** provision. `secret` is what Keycloak would generate for a new client. */
    method Provision(t: Target, race: Realms, secret: string) returns (ok: bool)
      modifies this`calls, this`realms, this`vault
      ensures Attempt(Raced(old(State()), race), State(), t, FaultFree(), ok)
    {
      ghost var start := Raced(State(), race);
      ok := EnsureOwnedRealm(t, race);
      RealmStage(start, State(), t);
      if !ok { return; }
      ok := ConfigureRealm(t, secret, start);
      if !ok { return; }
      ok := WriteVariables(t, start);
    }
  }
}
