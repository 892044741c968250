/** Whole histories of provisioning attempts, whatever fails and whoever else creates realms meanwhile. */
module ProvisioningLaws {
  import opened Options
  import opened Provisioning

  /** One call of provision: what others created meanwhile, whether every request worked, and its outcome. */
  datatype Try = Try(race: Realms, faultFree: bool, ok: bool)

  ghost predicate IsHistory(states: seq<Outside>, tries: seq<Try>, t: Target) {
    && |states| == |tries| + 1
    && forall i :: 0 <= i < |tries| ==>
         Attempt(Raced(states[i], tries[i].race), states[i + 1], t, tries[i].faultFree, tries[i].ok)
  }

  /** Someone else takes the app's realm name, or its realm id under another name. */
  predicate Intrudes(race: Realms, t: Target) {
    exists n :: n in race && (if n == RealmName(t) then !OwnedBy(race[n], t) else race[n].id == RealmId(t))
  }

  lemma RaceSparesTarget(o: Outside, race: Realms, t: Target)
    requires CanProvision(o.realms, t) && !Intrudes(race, t)
    ensures CanProvision(Raced(o, race).realms, t)
  {
  }

  /** While nobody intrudes, no failed attempt makes the app impossible to provision. */
  lemma {:induction false} StaysProvisionable(states: seq<Outside>, tries: seq<Try>, t: Target, i: nat)
    requires IsHistory(states, tries, t) && i <= |tries|
    requires CanProvision(states[0].realms, t)
    requires forall k :: 0 <= k < |tries| ==> !Intrudes(tries[k].race, t)
    ensures CanProvision(states[i].realms, t)
  {
    if i > 0 {
      StaysProvisionable(states, tries, t, i - 1);
      RaceSparesTarget(states[i - 1], tries[i - 1].race, t);
    }
  }

  /**
   Fault tolerance: after any number of attempts that failed anywhere, the first attempt without
   faults succeeds and leaves the full setup.
   */
  lemma RetryCompletesSetup(states: seq<Outside>, tries: seq<Try>, t: Target, i: nat)
    requires IsHistory(states, tries, t) && i < |tries|
    requires CanProvision(states[0].realms, t)
    requires forall k :: 0 <= k < |tries| ==> !Intrudes(tries[k].race, t)
    requires tries[i].faultFree
    ensures tries[i].ok && Setup(states[i + 1], t)
  {
    StaysProvisionable(states, tries, t, i);
    RaceSparesTarget(states[i], tries[i].race, t);
    assert Attempt(Raced(states[i], tries[i].race), states[i + 1], t, tries[i].faultFree, tries[i].ok);
  }

  /** Provisioning an app that has the full setup changes nothing. */
  lemma RepeatChangesNothing(before: Outside, after: Outside, t: Target, ok: bool)
    requires Setup(before, t)
    requires Attempt(Raced(before, map[]), after, t, true, ok)
    ensures ok && after == before
  {
    assert Raced(before, map[]).realms == before.realms;
  }

  /** A fault-free attempt succeeds exactly when the name is the app's, or is free and its id unused. */
  lemma FaultFreeOutcome(before: Outside, after: Outside, t: Target, race: Realms, ok: bool)
    requires Attempt(Raced(before, race), after, t, true, ok)
    ensures ok <==> CanProvision(race + before.realms, t)
    ensures ok ==> Setup(after, t)
  {
  }

  /** Over every history, no realm of someone else and no variable of someone else ever changes. */
  lemma {:induction false} OthersNeverChange(states: seq<Outside>, tries: seq<Try>, t: Target, i: nat)
    requires IsHistory(states, tries, t) && i <= |tries|
    ensures forall n :: n in states[0].realms && !(n == RealmName(t) && OwnedBy(states[0].realms[n], t)) ==>
      n in states[i].realms && states[i].realms[n] == states[0].realms[n]
    ensures forall p, k :: p != t.vaultPath || k !in MANAGED_KEYS ==> Value(states[i].vault, p, k) == Value(states[0].vault, p, k)
  {
    if i > 0 {
      OthersNeverChange(states, tries, t, i - 1);
      var before, after := Raced(states[i - 1], tries[i - 1].race), states[i];
      assert Untouched(before, after, t);
      forall n | n in states[0].realms && !(n == RealmName(t) && OwnedBy(states[0].realms[n], t))
        ensures n in after.realms && after.realms[n] == states[0].realms[n]
      {
        assert before.realms[n] == states[0].realms[n];
        if n != RealmName(t) { assert Lookup(after.realms, n) == Lookup(before.realms, n); }
      }
      forall p, k | p != t.vaultPath || k !in MANAGED_KEYS
        ensures Value(after.vault, p, k) == Value(states[0].vault, p, k)
      {
        if p != t.vaultPath { assert Lookup(after.vault, p) == Lookup(before.vault, p); }
      }
    }
  }

  // ----- what an app can log in with -----

  /** Realm `name` and client `id` are what the app's variables name: the app's own realm, closed to password logins. */
  predicate LogsIn(o: Outside, t: Target, name: string, id: string) {
    && name in o.realms && id in o.realms[name].clients
    && o.realms[name].id == "cnp-" + t.appId + "-" + t.env && o.realms[name].owner == Some(t.appId)
    && "audience" in o.realms[name].clients[id].mappers
    && ("admin-cli" in o.realms[name].clients ==> !o.realms[name].clients["admin-cli"].directAccessGrants)
    && Value(o.vault, t.vaultPath, "OIDC_ISSUER_URL") == Some(t.publicUrl + "/realms/" + name)
    && Value(o.vault, t.vaultPath, "OIDC_CLIENT_ID") == Some(id)
    && (!t.isPublic ==> Value(o.vault, t.vaultPath, "OIDC_CLIENT_SECRET") == Some(o.realms[name].clients[id].secret))
  }

  /** The setup is one the app can log in with: realm `<slug>-<env>`, client `<slug>`, and variables that name them. */
  lemma SetupMeaning(o: Outside, t: Target)
    requires Setup(o, t)
    ensures LogsIn(o, t, t.slug + "-" + t.env, t.slug)
  {
    var vars := OidcVars(t, o.realms[RealmName(t)].clients[t.slug].secret);
    assert ISSUER_URL in vars && CLIENT_ID in vars;
    assert !t.isPublic ==> CLIENT_SECRET in vars;
  }

  /** The names alone decide: an attempt that succeeds leaves a login; a public client's secret variable is never touched. */
  lemma SuccessLogsIn(before: Outside, after: Outside, t: Target, faultFree: bool, ok: bool)
    requires Attempt(before, after, t, faultFree, ok)
    ensures ok || after.vault != before.vault ==> LogsIn(after, t, t.slug + "-" + t.env, t.slug)
    ensures t.isPublic ==> Value(after.vault, t.vaultPath, "OIDC_CLIENT_SECRET") == Value(before.vault, t.vaultPath, "OIDC_CLIENT_SECRET")
  {
    if ok || after.vault != before.vault { SetupMeaning(after, t); }
  }

  /** A realm of that name with another owner or another id is never used: the attempt fails and changes neither it nor Vault. */
  lemma ForeignRealmIsRefused(before: Outside, after: Outside, t: Target, faultFree: bool, ok: bool, name: string)
    requires Attempt(before, after, t, faultFree, ok)
    requires name == t.slug + "-" + t.env && name in before.realms
    requires before.realms[name].id != "cnp-" + t.appId + "-" + t.env || before.realms[name].owner != Some(t.appId)
    ensures !ok && after.vault == before.vault && name in after.realms && after.realms[name] == before.realms[name]
  {
    if ok || after.vault != before.vault { SetupMeaning(after, t); }
  }

  /** A realm that an attempt created and finished: the baseline, and a client of the requested kind that opens no password login. */
  lemma NewRealmMeaning(before: Outside, after: Outside, t: Target, faultFree: bool, name: string)
    requires Attempt(before, after, t, faultFree, true)
    requires name == t.slug + "-" + t.env && name !in before.realms && t.slug != "admin-cli"
    ensures name in after.realms && after.realms[name].settings == "cnp-baseline"
    ensures after.realms[name].clients.Keys == {"admin-cli", t.slug}
    ensures var c := after.realms[name].clients[t.slug];
      c.isPublic == t.isPublic && c.redirectUris == t.redirectUris && !c.directAccessGrants && c.mappers == {"audience"}
  {
    SetupMeaning(after, t);
    assert RealmKept(NewRealm(t), after.realms[name], t);
    assert ADMIN_CLI in NewRealm(t).clients && ADMIN_CLI in after.realms[name].clients;
  }

  /** A client that was there keeps its kind, secret and redirects, whatever the attempt does; and every other client stays as it was. */
  lemma ExistingClientsStay(before: Outside, after: Outside, t: Target, faultFree: bool, ok: bool, name: string, c: string)
    requires Attempt(before, after, t, faultFree, ok)
    requires name in before.realms && c in before.realms[name].clients
    ensures name in after.realms && c in after.realms[name].clients
    ensures var was, now := before.realms[name].clients[c], after.realms[name].clients[c];
      now.isPublic == was.isPublic && now.secret == was.secret && now.redirectUris == was.redirectUris
    ensures c != t.slug && c != "admin-cli" ==> after.realms[name].clients[c] == before.realms[name].clients[c]
  {
    if name != RealmName(t) {
      assert Lookup(after.realms, name) == Lookup(before.realms, name);
    } else if c != t.slug && c != "admin-cli" && OwnedBy(before.realms[name], t) {
      assert Lookup(after.realms[name].clients, c) == Lookup(before.realms[name].clients, c);
    }
  }
}
