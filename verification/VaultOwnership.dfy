/** Who owns which vault secret: the transactions of api/oauth.go, api/credentials.go and
    api/agent_connectors.go that create, replace and delete rows holding secret ids. `Apply` is the
    effect of a transaction that commits; the class below runs its statements one by one and rolls
    back at the first that fails. */
module VaultOwnership {

  import opened Options

  type SecretId = nat

  /** `tag` is the label a user gives a stored credential. */
  datatype Credential = Credential(user: string, service: string, tag: Option<string>, secret: SecretId)
  datatype Connection = Connection(user: string, provider: string, access: SecretId, refresh: Option<SecretId>)

  /** One enabled connector of an agent; an agent may have several instances of a connector. */
  datatype Instance = Instance(agent: nat, approver: string, connector: string, instance: string)

  /** `enabled` maps each enabled instance to its bound credential, if any. `next` is an id the vault
      has never handed out. */
  datatype Tables = Tables(
    vault: map<SecretId, string>,
    credentials: map<string, Credential>,
    connections: map<string, Connection>,
    enabled: map<Instance, Option<string>>,
    next: SecretId)

  datatype Op =
    | StoreOAuth(user: string, provider: string, connID: string, accessToken: string, refreshToken: string, replaceID: string)
    | DeleteOAuth(user: string, connID: string)
    | StoreCredential(user: string, service: string, tag: Option<string>, credID: string, payload: string)
    | UpdateCredential(user: string, credID: string, newPayload: Option<string>, newTag: Option<Option<string>>)
    | DeleteCredential(user: string, credID: string)
    | DisableConnector(user: string, agent: nat, connector: string, deleteCredentials: bool, vaultConfigured: bool)

  // ---- Committed transactions -----------------------------------------------------------------

  function CreateSecret(t: Tables, content: string): Tables {
    t.(vault := t.vault[t.next := content], next := t.next + 1)
  }

  function DeleteSecret(t: Tables, id: SecretId): Tables {
    t.(vault := t.vault - {id})
  }

  predicate TagTaken(t: Tables, except: string, user: string, service: string, tag: Option<string>) {
    exists c :: c in t.credentials && c != except && t.credentials[c].user == user &&
      t.credentials[c].service == service && t.credentials[c].tag == tag
  }

  /** The connection a reconnect replaces: only one of the same user and provider. */
  predicate Replaces(t: Tables, op: Op)
    requires op.StoreOAuth?
  {
    && op.replaceID != "" && op.replaceID in t.connections
    && t.connections[op.replaceID].user == op.user && t.connections[op.replaceID].provider == op.provider
  }

  /** Removes the replaced row and its secrets, keeping the refresh secret when the new token brings none. */
  function DropReplaced(t: Tables, op: Op): (Tables, Option<SecretId>)
    requires op.StoreOAuth?
  {
    if !Replaces(t, op) then (t, None)
    else
      var row := t.connections[op.replaceID];
      var dropped := DeleteSecret(t.(connections := t.connections - {op.replaceID}), row.access);
      if row.refresh.Some? && op.refreshToken != "" then (DeleteSecret(dropped, row.refresh.value), None)
      else (dropped, row.refresh)
  }

  function ApplyStoreOAuth(t: Tables, op: Op): Option<Tables>
    requires op.StoreOAuth?
  {
    var (dropped, kept) := DropReplaced(t, op);
    var withAccess := CreateSecret(dropped, op.accessToken);
    var (stored, refresh) :=
      if op.refreshToken != "" then (CreateSecret(withAccess, op.refreshToken), Some(withAccess.next))
      else (withAccess, kept);
    if op.connID in stored.connections then None
    else
      Some(stored.(connections := stored.connections[op.connID := Connection(op.user, op.provider, dropped.next, refresh)]))
  }

  function ApplyDeleteOAuth(t: Tables, op: Op): Option<Tables>
    requires op.DeleteOAuth?
  {
    if op.connID !in t.connections || t.connections[op.connID].user != op.user then None
    else
      var row := t.connections[op.connID];
      var dropped := DeleteSecret(t.(connections := t.connections - {op.connID}), row.access);
      Some(if row.refresh.Some? then DeleteSecret(dropped, row.refresh.value) else dropped)
  }

  function ApplyStoreCredential(t: Tables, op: Op): Option<Tables>
    requires op.StoreCredential?
  {
    if op.credID in t.credentials || TagTaken(t, op.credID, op.user, op.service, op.tag) then None
    else
      Some(CreateSecret(t, op.payload).(credentials := t.credentials[op.credID := Credential(op.user, op.service, op.tag, t.next)]))
  }

  function ApplyUpdateCredential(t: Tables, op: Op): Option<Tables>
    requires op.UpdateCredential?
  {
    if op.newPayload.None? && op.newTag.None? then None
    else if op.credID !in t.credentials || t.credentials[op.credID].user != op.user then None
    else
      var row := t.credentials[op.credID];
      if op.newPayload.Some? && row.secret !in t.vault then None
      else
        var t1 := if op.newPayload.Some? then t.(vault := t.vault[row.secret := op.newPayload.value]) else t;
        if op.newTag.None? then Some(t1)
        else if TagTaken(t1, op.credID, op.user, row.service, op.newTag.value) then None
        else Some(t1.(credentials := t1.credentials[op.credID := row.(tag := op.newTag.value)]))
  }

  function ApplyDeleteCredential(t: Tables, op: Op): Option<Tables>
    requires op.DeleteCredential?
  {
    if op.credID !in t.credentials || t.credentials[op.credID].user != op.user then None
    else Some(DeleteSecret(t.(credentials := t.credentials - {op.credID}), t.credentials[op.credID].secret))
  }

  function Instances(t: Tables, op: Op): set<Instance>
    requires op.DisableConnector?
  {
    set i | i in t.enabled && i.agent == op.agent && i.approver == op.user && i.connector == op.connector
  }

  /** The credentials a disable deletes: bound to one of its instances and owned by the user. */
  function Doomed(t: Tables, op: Op): set<string>
    requires op.DisableConnector?
  {
    if !op.deleteCredentials then {}
    else set c | c in t.credentials && t.credentials[c].user == op.user && IsBound(t, op, c)
  }

  predicate IsBound(t: Tables, op: Op, credID: string)
    requires op.DisableConnector?
  {
    exists i :: i in Instances(t, op) && t.enabled[i] == Some(credID)
  }

  function SecretsOf(t: Tables, creds: set<string>): set<SecretId> {
    set c | c in creds && c in t.credentials :: t.credentials[c].secret
  }

  function ApplyDisableConnector(t: Tables, op: Op): Option<Tables>
    requires op.DisableConnector?
  {
    if Instances(t, op) == {} then None
    else
      var doomed := Doomed(t, op);
      var secrets := if op.vaultConfigured then SecretsOf(t, doomed) else {};
      Some(t.(enabled := t.enabled - Instances(t, op), credentials := t.credentials - doomed, vault := t.vault - secrets))
  }

  /** The tables after the transaction commits; nothing when the handler turns the request down. */
  function Apply(t: Tables, op: Op): Option<Tables> {
    match op
    case StoreOAuth(_, _, _, _, _, _) => ApplyStoreOAuth(t, op)
    case DeleteOAuth(_, _) => ApplyDeleteOAuth(t, op)
    case StoreCredential(_, _, _, _, _) => ApplyStoreCredential(t, op)
    case UpdateCredential(_, _, _, _) => ApplyUpdateCredential(t, op)
    case DeleteCredential(_, _) => ApplyDeleteCredential(t, op)
    case DisableConnector(_, _, _, _, _) => ApplyDisableConnector(t, op)
  }

  // ---- Ownership --------------------------------------------------------------------------------

  /** A place in a row that holds a secret id. */
  datatype Slot = CredentialSecret(credID: string) | AccessToken(connID: string) | RefreshToken(connID: string)

  function SlotId(t: Tables, slot: Slot): Option<SecretId> {
    match slot
    case CredentialSecret(c) => if c in t.credentials then Some(t.credentials[c].secret) else None
    case AccessToken(c) => if c in t.connections then Some(t.connections[c].access) else None
    case RefreshToken(c) => if c in t.connections then t.connections[c].refresh else None
  }

  predicate Holds(t: Tables, slot: Slot, id: SecretId) {
    SlotId(t, slot) == Some(id)
  }

  ghost predicate Held(t: Tables, id: SecretId) {
    exists slot :: Holds(t, slot, id)
  }

  /** No row dangles and no secret has two owners: every place that holds an id owns a secret of the
      vault alone. `others` are the secrets other parts of the system own. */
  ghost predicate Sound(t: Tables, others: set<SecretId>) {
    && (forall id :: id in t.vault ==> id < t.next)
    && (forall slot, id :: Holds(t, slot, id) ==> id in t.vault && id !in others)
    && (forall s1, s2, id :: Holds(t, s1, id) && Holds(t, s2, id) ==> s1 == s2)
    && others <= t.vault.Keys
  }

  /** Secrets nobody owns. */
  ghost function Orphans(t: Tables, others: set<SecretId>): set<SecretId> {
    set id | id in t.vault && id !in others && !Held(t, id)
  }

  /** The secrets a transaction abandons: a disable that deletes bound credentials while no vault is
      configured removes the rows only. */
  function Abandons(t: Tables, op: Op): set<SecretId> {
    if op.DisableConnector? && !op.vaultConfigured then SecretsOf(t, Doomed(t, op)) else {}
  }

  /** What one committed transaction must achieve: rows and vault stay in step, and the secrets without
      an owner grow by exactly what the transaction abandons. */
  ghost predicate Settles(t: Tables, t': Tables, op: Op, others: set<SecretId>) {
    Sound(t', others) && Orphans(t', others) == Orphans(t, others) + Abandons(t, op)
  }

  lemma HeldMoves(t: Tables, t': Tables, others: set<SecretId>, removed: set<SecretId>, added: set<SecretId>)
    requires Sound(t, others)
    requires t'.vault.Keys == t.vault.Keys - removed + added
    requires forall id :: id in added ==> id !in t.vault && Held(t', id)
    requires forall id :: id in removed ==> Held(t, id)
    requires forall id :: id in t.vault && id !in removed ==> (Held(t, id) <==> Held(t', id))
    ensures Orphans(t', others) == Orphans(t, others)
  {
    assert forall id :: id in added ==> id in t'.vault;
  }

  lemma StoreCredentialSettles(t: Tables, op: Op, others: set<SecretId>)
    requires op.StoreCredential? && Sound(t, others) && ApplyStoreCredential(t, op).Some?
    ensures Settles(t, ApplyStoreCredential(t, op).value, op, others)
  {
    var t' := ApplyStoreCredential(t, op).value;
    assert Holds(t', CredentialSecret(op.credID), t.next);
    forall slot, id ensures Holds(t', slot, id) <==> Holds(t, slot, id) || (slot == CredentialSecret(op.credID) && id == t.next) {
    }
    HeldMoves(t, t', others, {}, {t.next});
  }

  lemma DeleteCredentialSettles(t: Tables, op: Op, others: set<SecretId>)
    requires op.DeleteCredential? && Sound(t, others) && ApplyDeleteCredential(t, op).Some?
    ensures Settles(t, ApplyDeleteCredential(t, op).value, op, others)
  {
    var t' := ApplyDeleteCredential(t, op).value;
    var gone := CredentialSecret(op.credID);
    var secret := t.credentials[op.credID].secret;
    assert Holds(t, gone, secret);
    forall slot, id ensures Holds(t', slot, id) <==> Holds(t, slot, id) && slot != gone {
    }
    HeldMoves(t, t', others, {secret}, {});
  }

  lemma UpdateCredentialSettles(t: Tables, op: Op, others: set<SecretId>)
    requires op.UpdateCredential? && Sound(t, others) && ApplyUpdateCredential(t, op).Some?
    ensures Settles(t, ApplyUpdateCredential(t, op).value, op, others)
  {
    var t' := ApplyUpdateCredential(t, op).value;
    assert t'.vault.Keys == t.vault.Keys;
    forall slot, id ensures Holds(t', slot, id) <==> Holds(t, slot, id) {
    }
    HeldMoves(t, t', others, {}, {});
  }

  lemma DeleteOAuthSettles(t: Tables, op: Op, others: set<SecretId>)
    requires op.DeleteOAuth? && Sound(t, others) && ApplyDeleteOAuth(t, op).Some?
    ensures Settles(t, ApplyDeleteOAuth(t, op).value, op, others)
  {
    var t' := ApplyDeleteOAuth(t, op).value;
    var row := t.connections[op.connID];
    var removed := {row.access} + if row.refresh.Some? then {row.refresh.value} else {};
    assert Holds(t, AccessToken(op.connID), row.access);
    assert row.refresh.Some? ==> Holds(t, RefreshToken(op.connID), row.refresh.value);
    forall slot, id ensures Holds(t', slot, id) <==> Holds(t, slot, id) && slot != AccessToken(op.connID) && slot != RefreshToken(op.connID) {
    }
    HeldMoves(t, t', others, removed, {});
  }

  function Kept(kept: Option<SecretId>): set<SecretId> {
    if kept.Some? then {kept.value} else {}
  }

  /** While the replaced row is gone, its kept refresh secret belongs to the running transaction. */
  lemma DropReplacedSettles(t: Tables, op: Op, others: set<SecretId>)
    requires op.StoreOAuth? && Sound(t, others)
    ensures var (dropped, kept) := DropReplaced(t, op);
      && Sound(dropped, others + Kept(kept)) && Kept(kept) !! others && dropped.next == t.next
      && Orphans(dropped, others + Kept(kept)) == Orphans(t, others)
  {
    var (dropped, kept) := DropReplaced(t, op);
    if Replaces(t, op) {
      var row := t.connections[op.replaceID];
      assert Holds(t, AccessToken(op.replaceID), row.access);
      assert row.refresh.Some? ==> Holds(t, RefreshToken(op.replaceID), row.refresh.value);
      forall slot, id ensures Holds(dropped, slot, id) <==>
          Holds(t, slot, id) && slot != AccessToken(op.replaceID) && slot != RefreshToken(op.replaceID) {
      }
      forall id | id in dropped.vault && id !in Kept(kept) ensures Held(dropped, id) <==> Held(t, id) {
        if Held(t, id) {
          var slot :| Holds(t, slot, id);
          assert Holds(dropped, slot, id);
        }
      }
    }
  }

  /** Inserting the row hands the new secrets, and a kept one, to the row. */
  lemma InsertConnectionSettles(d: Tables, t': Tables, connID: string, row: Connection, others: set<SecretId>, kept: Option<SecretId>, added: set<SecretId>)
    requires Sound(d, others + Kept(kept)) && Kept(kept) !! others && connID !in d.connections
    requires t'.connections == d.connections[connID := row] && t'.credentials == d.credentials
    requires t'.vault.Keys == d.vault.Keys + added && added !! d.vault.Keys
    requires forall id :: id in t'.vault ==> id < t'.next
    requires {row.access} + Kept(row.refresh) == added + Kept(kept)
    requires row.refresh != Some(row.access)
    ensures Sound(t', others)
    ensures Orphans(t', others) == Orphans(d, others + Kept(kept))
  {
    var newAccess, newRefresh := AccessToken(connID), RefreshToken(connID);
    forall slot, id ensures Holds(t', slot, id) <==>
        (slot == newAccess && id == row.access) || (slot == newRefresh && row.refresh == Some(id)) || Holds(d, slot, id) {
    }
    assert Holds(t', newAccess, row.access);
    assert row.refresh.Some? ==> Holds(t', newRefresh, row.refresh.value);
    forall id | id in d.vault && id !in Kept(kept) ensures Held(d, id) <==> Held(t', id) {
      if Held(d, id) {
        var slot :| Holds(d, slot, id);
        assert Holds(t', slot, id);
      }
    }
  }

  lemma StoreOAuthSettles(t: Tables, op: Op, others: set<SecretId>)
    requires op.StoreOAuth? && Sound(t, others) && ApplyStoreOAuth(t, op).Some?
    ensures Settles(t, ApplyStoreOAuth(t, op).value, op, others)
  {
    hide Sound, Orphans, DropReplaced;
    DropReplacedSettles(t, op, others);
    var (d, kept) := DropReplaced(t, op);
    var t' := ApplyStoreOAuth(t, op).value;
    var row := t'.connections[op.connID];
    var added := {d.next} + if op.refreshToken != "" then {d.next + 1} else {};
    assert kept.Some? ==> op.refreshToken == "" by { KeptOnlyWithoutRefresh(t, op); }
    IdsBelowNext(d, others + Kept(kept));
    InsertConnectionSettles(d, t', op.connID, row, others, kept, added);
  }

  lemma KeptOnlyWithoutRefresh(t: Tables, op: Op)
    requires op.StoreOAuth?
    ensures DropReplaced(t, op).1.Some? ==> op.refreshToken == ""
  {
  }

  lemma IdsBelowNext(t: Tables, others: set<SecretId>)
    requires Sound(t, others)
    ensures forall id :: id in t.vault ==> id < t.next
    ensures forall id :: id in others ==> id < t.next
  {
  }

  lemma DisableConnectorSettles(t: Tables, op: Op, others: set<SecretId>)
    requires op.DisableConnector? && Sound(t, others) && ApplyDisableConnector(t, op).Some?
    ensures Settles(t, ApplyDisableConnector(t, op).value, op, others)
  {
    var t' := ApplyDisableConnector(t, op).value;
    var doomed := Doomed(t, op);
    var secrets := SecretsOf(t, doomed);
    forall slot, id ensures Holds(t', slot, id) <==> Holds(t, slot, id) && !(slot.CredentialSecret? && slot.credID in doomed) {
    }
    forall id | id in secrets ensures Held(t, id) && id in t.vault && id !in others && !Held(t', id) {
      var c :| c in doomed && t.credentials[c].secret == id;
      assert Holds(t, CredentialSecret(c), id);
    }
    forall id | id in t.vault && id !in secrets ensures Held(t, id) <==> Held(t', id) {
      if Held(t, id) {
        var slot :| Holds(t, slot, id);
        assert Holds(t', slot, id);
      }
    }
    if op.vaultConfigured {
      HeldMoves(t, t', others, secrets, {});
    } else {
      assert Abandons(t, op) == secrets;
    }
  }

  /** Conservation: after any committed transaction the vault is again the disjoint union of what the
      rows own, what the rest of the system owns, and the orphans, which grow by `Abandons` alone. */
  lemma TransactionSettles(t: Tables, op: Op, others: set<SecretId>)
    requires Sound(t, others) && Apply(t, op).Some?
    ensures Settles(t, Apply(t, op).value, op, others)
  {
    match op
    case StoreOAuth(_, _, _, _, _, _) => StoreOAuthSettles(t, op, others);
    case DeleteOAuth(_, _) => DeleteOAuthSettles(t, op, others);
    case StoreCredential(_, _, _, _, _) => StoreCredentialSettles(t, op, others);
    case UpdateCredential(_, _, _, _) => UpdateCredentialSettles(t, op, others);
    case DeleteCredential(_, _) => DeleteCredentialSettles(t, op, others);
    case DisableConnector(_, _, _, _, _) => DisableConnectorSettles(t, op, others);
  }

  // ---- Whole runs -------------------------------------------------------------------------------

  /** A transaction that was started, and whether it committed; one that is refused or aborts at any
      statement leaves the tables as they were. */
  datatype Attempt = Attempt(op: Op, commits: bool)

  function After(t: Tables, a: Attempt): Tables {
    if a.commits && Apply(t, a.op).Some? then Apply(t, a.op).value else t
  }

  function Run(t: Tables, run: seq<Attempt>): Tables
    decreases run
  {
    if run == [] then t else Run(After(t, run[0]), run[1..])
  }

  /** Everything the committed transactions of a run abandon. */
  function AbandonedBy(t: Tables, run: seq<Attempt>): set<SecretId>
    decreases run
  {
    if run == [] then {}
    else
      (if run[0].commits && Apply(t, run[0].op).Some? then Abandons(t, run[0].op) else {}) +
      AbandonedBy(After(t, run[0]), run[1..])
  }

  /** Conservation over every run: no row ever dangles, no secret is shared or taken from another
      part of the system, and the secrets lost are exactly those abandoned on the way. */
  lemma {:induction false} RunsConserveSecrets(t: Tables, run: seq<Attempt>, others: set<SecretId>)
    requires Sound(t, others)
    ensures Sound(Run(t, run), others)
    ensures Orphans(Run(t, run), others) == Orphans(t, others) + AbandonedBy(t, run)
    decreases run
  {
    hide Sound, Orphans, Apply, Abandons;
    if run != [] {
      if run[0].commits && Apply(t, run[0].op).Some? {
        TransactionSettles(t, run[0].op, others);
      }
      RunsConserveSecrets(After(t, run[0]), run[1..], others);
    }
  }

  /** The vault of a sound state is the disjoint union of the owners' secrets and the orphans. */
  lemma VaultIsPartitioned(t: Tables, others: set<SecretId>, held: set<SecretId>)
    requires Sound(t, others) && forall id :: id in held <==> Held(t, id)
    ensures t.vault.Keys == held + others + Orphans(t, others)
    ensures held !! others && held !! Orphans(t, others) && others !! Orphans(t, others)
  {
    forall id | id in held ensures id in t.vault && id !in others {
      var slot :| Holds(t, slot, id);
    }
  }

  /** Every disable of the run finds the vault configured, or every one finds it missing. */
  predicate Deployed(run: seq<Attempt>, vaultConfigured: bool) {
    forall i :: 0 <= i < |run| && run[i].op.DisableConnector? ==> run[i].op.vaultConfigured == vaultConfigured
  }

  /** With the vault configured nothing is ever lost: from tables without orphans, every run ends
      without orphans. */
  lemma ConfiguredRunsLoseNothing(t: Tables, run: seq<Attempt>, others: set<SecretId>)
    requires Sound(t, others) && Orphans(t, others) == {} && Deployed(run, true)
    ensures Orphans(Run(t, run), others) == {}
  {
    RunsConserveSecrets(t, run, others);
    NothingAbandoned(t, run);
  }

  lemma {:induction false} NothingAbandoned(t: Tables, run: seq<Attempt>)
    requires Deployed(run, true)
    ensures AbandonedBy(t, run) == {}
    decreases run
  {
    hide Apply;
    if run != [] {
      assert run[0].op.DisableConnector? ==> run[0].op.vaultConfigured;
      assert forall i :: 0 <= i < |run[1..]| ==> run[1..][i] == run[i + 1];
      NothingAbandoned(After(t, run[0]), run[1..]);
    }
  }

  ghost predicate LosesNothing(vaultConfigured: bool) {
    forall t: Tables, run: seq<Attempt>, others: set<SecretId> ::
      Sound(t, others) && Orphans(t, others) == {} && Deployed(run, vaultConfigured) ==> Orphans(Run(t, run), others) == {}
  }

  /** No run of a deployment ever leaves an orphan exactly when the deployment has a vault configured. */
  lemma LosesNothingExactly(vaultConfigured: bool)
    ensures LosesNothing(vaultConfigured) <==> vaultConfigured
  {
    if vaultConfigured {
      forall t: Tables, run: seq<Attempt>, others: set<SecretId>
        | Sound(t, others) && Orphans(t, others) == {} && Deployed(run, true)
        ensures Orphans(Run(t, run), others) == {}
      {
        ConfiguredRunsLoseNothing(t, run, others);
      }
    } else {
      hide Sound, Orphans, Apply;
      DisableWithoutVaultLosesASecret();
      var t: Tables, op: Op :| Sound(t, {}) && Orphans(t, {}) == {} && op.DisableConnector? && !op.vaultConfigured &&
        Apply(t, op).Some? && Orphans(Apply(t, op).value, {}) == {0};
      var run := [Attempt(op, true)];
      assert run[1..] == [];
      assert Run(t, run) == Run(Apply(t, op).value, []) == Apply(t, op).value;
      assert Deployed(run, false);
      assert 0 in Orphans(Run(t, run), {});
    }
  }

  // ---- What a transaction leaves alone, and what it makes readable --------------------------------

  ghost predicate SameRowsOf(t: Tables, t': Tables, user: string) {
    && (forall c :: c in t.credentials && t.credentials[c].user == user ==>
          c in t'.credentials && t'.credentials[c] == t.credentials[c])
    && (forall c :: c in t.connections && t.connections[c].user == user ==>
          c in t'.connections && t'.connections[c] == t.connections[c])
    && (forall c :: c in t'.credentials && t'.credentials[c].user == user ==> c in t.credentials)
    && (forall c :: c in t'.connections && t'.connections[c].user == user ==> c in t.connections)
    && (forall i :: i in t.enabled && i.approver == user ==> i in t'.enabled && t'.enabled[i] == t.enabled[i])
  }

  predicate SlotOf(t: Tables, slot: Slot, user: string) {
    match slot
    case CredentialSecret(c) => c in t.credentials && t.credentials[c].user == user
    case AccessToken(c) => c in t.connections && t.connections[c].user == user
    case RefreshToken(c) => c in t.connections && t.connections[c].user == user
  }

  predicate SameContent(t: Tables, t': Tables, id: SecretId) {
    id in t.vault && id in t'.vault && t'.vault[id] == t.vault[id]
  }

  ghost predicate SameSecretsOf(t: Tables, t': Tables, others: set<SecretId>, user: string) {
    && (forall slot, id :: Holds(t, slot, id) && SlotOf(t, slot, user) ==> SameContent(t, t', id))
    && (forall id :: id in others ==> SameContent(t, t', id))
  }

  /** No transaction of one user changes another user's rows or secrets, or a secret of the rest of the
      system, whatever ids the request names. */
  lemma OthersAreUntouched(t: Tables, op: Op, others: set<SecretId>, user: string)
    requires Sound(t, others) && Apply(t, op).Some? && user != op.user
    ensures SameRowsOf(t, Apply(t, op).value, user)
    ensures SameSecretsOf(t, Apply(t, op).value, others, user)
  {
    RowsUntouched(t, op, user);
    var t' := Apply(t, op).value;
    forall id | id in t.vault && id !in Touched(t, op) ensures SameContent(t, t', id) {
      UntouchedContent(t, op, id);
    }
    forall id | id in Touched(t, op) && id in t.vault ensures exists slot :: Holds(t, slot, id) && SlotOf(t, slot, op.user) {
      TouchedIsOwn(t, op, id);
    }
  }

  lemma RowsUntouched(t: Tables, op: Op, user: string)
    requires Apply(t, op).Some? && user != op.user
    ensures SameRowsOf(t, Apply(t, op).value, user)
  {
    hide Apply;
    CredentialsUntouched(t, op, user);
    ConnectionsUntouched(t, op, user);
    InstancesUntouched(t, op, user);
  }

  lemma CredentialsUntouched(t: Tables, op: Op, user: string)
    requires Apply(t, op).Some? && user != op.user
    ensures var t' := Apply(t, op).value;
      && (forall c :: c in t.credentials && t.credentials[c].user == user ==>
            c in t'.credentials && t'.credentials[c] == t.credentials[c])
      && (forall c :: c in t'.credentials && t'.credentials[c].user == user ==> c in t.credentials)
  {
    hide TagTaken, Instances, IsBound;
  }

  lemma ConnectionsUntouched(t: Tables, op: Op, user: string)
    requires Apply(t, op).Some? && user != op.user
    ensures var t' := Apply(t, op).value;
      && (forall c :: c in t.connections && t.connections[c].user == user ==>
            c in t'.connections && t'.connections[c] == t.connections[c])
      && (forall c :: c in t'.connections && t'.connections[c].user == user ==> c in t.connections)
  {
    hide TagTaken, Instances, IsBound, Doomed;
  }

  lemma InstancesUntouched(t: Tables, op: Op, user: string)
    requires Apply(t, op).Some? && user != op.user
    ensures forall i :: i in t.enabled && i.approver == user ==>
      i in Apply(t, op).value.enabled && Apply(t, op).value.enabled[i] == t.enabled[i]
  {
    hide TagTaken, IsBound, Doomed;
  }

  /** The secrets a transaction may delete or overwrite. */
  function Touched(t: Tables, op: Op): set<SecretId> {
    match op
    case StoreOAuth(_, _, _, _, _, replaceID) =>
      if Replaces(t, op) then {t.connections[replaceID].access} + Kept(t.connections[replaceID].refresh) else {}
    case DeleteOAuth(user, connID) =>
      if connID in t.connections && t.connections[connID].user == user
      then {t.connections[connID].access} + Kept(t.connections[connID].refresh) else {}
    case StoreCredential(_, _, _, _, _) => {}
    case UpdateCredential(user, credID, _, _) =>
      if credID in t.credentials && t.credentials[credID].user == user then {t.credentials[credID].secret} else {}
    case DeleteCredential(user, credID) =>
      if credID in t.credentials && t.credentials[credID].user == user then {t.credentials[credID].secret} else {}
    case DisableConnector(_, _, _, _, _) => SecretsOf(t, Doomed(t, op))
  }

  lemma UntouchedContent(t: Tables, op: Op, id: SecretId)
    requires Apply(t, op).Some? && id in t.vault && id < t.next && id !in Touched(t, op)
    ensures SameContent(t, Apply(t, op).value, id)
  {
  }

  lemma TouchedIsOwn(t: Tables, op: Op, id: SecretId)
    requires id in Touched(t, op)
    ensures exists slot :: Holds(t, slot, id) && SlotOf(t, slot, op.user)
  {
    match op
    case StoreOAuth(_, _, _, _, _, c) => OwnToken(t, c, id, op.user);
    case DeleteOAuth(_, c) => OwnToken(t, c, id, op.user);
    case StoreCredential(_, _, _, _, _) =>
    case UpdateCredential(_, c, _, _) => assert Holds(t, CredentialSecret(c), id);
    case DeleteCredential(_, c) => assert Holds(t, CredentialSecret(c), id);
    case DisableConnector(_, _, _, _, _) =>
      var c :| c in Doomed(t, op) && t.credentials[c].secret == id;
      assert Holds(t, CredentialSecret(c), id);
  }

  lemma OwnToken(t: Tables, c: string, id: SecretId, user: string)
    requires c in t.connections && t.connections[c].user == user
    requires id == t.connections[c].access || Some(id) == t.connections[c].refresh
    ensures exists slot :: Holds(t, slot, id) && SlotOf(t, slot, user)
  {
    if id == t.connections[c].access {
      assert Holds(t, AccessToken(c), id);
    } else {
      assert Holds(t, RefreshToken(c), id);
    }
  }

  function Content(t: Tables, id: Option<SecretId>): Option<string> {
    if id.Some? && id.value in t.vault then Some(t.vault[id.value]) else None
  }

  /** Storing tokens is refused exactly when the new id is taken by a connection it does not replace; what it
      replaces is one of the same user and provider. */
  lemma StoreOAuthAccepted(t: Tables, op: Op)
    requires op.StoreOAuth?
    ensures Apply(t, op).Some? <==>
      || op.connID !in t.connections
      || (op.connID == op.replaceID && op.replaceID != "" &&
          t.connections[op.replaceID].user == op.user && t.connections[op.replaceID].provider == op.provider)
  {
  }

  /** It adds one row with the user and provider of the request, drops the row it replaces, and touches no
      other. */
  lemma StoreOAuthExactly(t: Tables, op: Op)
    requires op.StoreOAuth? && Apply(t, op).Some?
    ensures var replaced := op.replaceID != "" && op.replaceID in t.connections &&
        t.connections[op.replaceID].user == op.user && t.connections[op.replaceID].provider == op.provider;
      var t' := Apply(t, op).value;
      && op.connID in t'.connections
      && t'.connections[op.connID].user == op.user && t'.connections[op.connID].provider == op.provider
      && t'.connections - {op.connID} == t.connections - {op.connID} - (if replaced then {op.replaceID} else {})
      && t'.credentials == t.credentials && t'.enabled == t.enabled
  {
    hide TagTaken, Instances, Doomed;
  }

  /** Disconnecting is accepted exactly for an own connection; it removes that row and its secrets alone. */
  lemma DeleteOAuthExactly(t: Tables, op: Op)
    requires op.DeleteOAuth?
    ensures Apply(t, op).Some? <==> op.connID in t.connections && t.connections[op.connID].user == op.user
    ensures Apply(t, op).Some? ==>
      var t', row := Apply(t, op).value, t.connections[op.connID];
      && t'.connections == t.connections - {op.connID}
      && t'.vault == t.vault - (set id | id in t.vault && (id == row.access || Some(id) == row.refresh))
      && t'.credentials == t.credentials && t'.enabled == t.enabled
  {
    if Apply(t, op).Some? {
      var t', row := Apply(t, op).value, t.connections[op.connID];
      forall id ensures id in t'.vault <==> id in t.vault && id != row.access && Some(id) != row.refresh {
      }
    }
  }

  /** A credential is stored exactly when its id is new and its user has none of that service and label. */
  lemma StoreCredentialExactly(t: Tables, op: Op)
    requires op.StoreCredential?
    ensures Apply(t, op).Some? <==>
      && op.credID !in t.credentials
      && forall c :: c in t.credentials ==>
           !(t.credentials[c].user == op.user && t.credentials[c].service == op.service && t.credentials[c].tag == op.tag)
    ensures Apply(t, op).Some? ==>
      var t' := Apply(t, op).value;
      && t'.credentials == t.credentials[op.credID := Credential(op.user, op.service, op.tag, t.next)]
      && t'.vault == t.vault[t.next := op.payload]
      && t'.connections == t.connections && t'.enabled == t.enabled
  {
  }

  /** An update is accepted exactly when it changes something of an own credential, can read the secret it
      is to change, and gives no label that another credential of the user has for the service. */
  lemma UpdateCredentialExactly(t: Tables, op: Op)
    requires op.UpdateCredential?
    ensures Apply(t, op).Some? <==>
      && (op.newPayload.Some? || op.newTag.Some?)
      && op.credID in t.credentials && t.credentials[op.credID].user == op.user
      && (op.newPayload.Some? ==> t.credentials[op.credID].secret in t.vault)
      && (op.newTag.Some? ==>
            forall c :: c in t.credentials && c != op.credID ==>
              !(t.credentials[c].user == op.user && t.credentials[c].service == t.credentials[op.credID].service &&
                t.credentials[c].tag == op.newTag.value))
    ensures Apply(t, op).Some? ==>
      var t', row := Apply(t, op).value, t.credentials[op.credID];
      && t'.credentials == t.credentials[op.credID :=
           Credential(row.user, row.service, if op.newTag.Some? then op.newTag.value else row.tag, row.secret)]
      && t'.vault == (if op.newPayload.Some? then t.vault[row.secret := op.newPayload.value] else t.vault)
      && t'.connections == t.connections && t'.enabled == t.enabled
  {
  }

  /** Deleting is accepted exactly for an own credential; it removes that row and its secret alone. */
  lemma DeleteCredentialExactly(t: Tables, op: Op)
    requires op.DeleteCredential?
    ensures Apply(t, op).Some? <==> op.credID in t.credentials && t.credentials[op.credID].user == op.user
    ensures Apply(t, op).Some? ==>
      var t' := Apply(t, op).value;
      && t'.credentials == t.credentials - {op.credID} && t'.vault == t.vault - {t.credentials[op.credID].secret}
      && t'.connections == t.connections && t'.enabled == t.enabled
  {
  }

  /** Disabling is accepted exactly when the user has the connector enabled for the agent; it removes those
      instances, and on request the user's credentials bound to them, and nothing else. */
  lemma DisableConnectorExactly(t: Tables, op: Op)
    requires op.DisableConnector?
    ensures Apply(t, op).Some? <==>
      exists i :: i in t.enabled && i.agent == op.agent && i.approver == op.user && i.connector == op.connector
    ensures Apply(t, op).Some? ==>
      var t' := Apply(t, op).value;
      && (forall i :: i in t'.enabled <==>
            i in t.enabled && !(i.agent == op.agent && i.approver == op.user && i.connector == op.connector))
      && (forall i :: i in t'.enabled ==> t'.enabled[i] == t.enabled[i])
      && (forall c :: c in t'.credentials <==> c in t.credentials && !Condemned(t, t', op, c))
      && (forall c :: c in t'.credentials ==> t'.credentials[c] == t.credentials[c])
      && (forall id :: id in t'.vault <==>
            id in t.vault && !(op.vaultConfigured && exists c :: c in t.credentials && Condemned(t, t', op, c) && t.credentials[c].secret == id))
      && (forall id :: id in t'.vault ==> t'.vault[id] == t.vault[id])
      && t'.connections == t.connections
  {
    assert Instances(t, op) == {} <==>
      !exists i :: i in t.enabled && i.agent == op.agent && i.approver == op.user && i.connector == op.connector by {
      if i :| i in t.enabled && i.agent == op.agent && i.approver == op.user && i.connector == op.connector {
        assert i in Instances(t, op);
      }
    }
    if Apply(t, op).Some? {
      var t' := Apply(t, op).value;
      forall c | c in t.credentials ensures c in Doomed(t, op) <==> Condemned(t, t', op, c) {
        CondemnedExactly(t, op, c);
      }
    }
  }

  /** An own credential bound to an instance that goes, when credentials are to go too. */
  ghost predicate Condemned(t: Tables, t': Tables, op: Op, c: string)
    requires op.DisableConnector?
  {
    && op.deleteCredentials && c in t.credentials && t.credentials[c].user == op.user
    && exists i :: i in t.enabled && i !in t'.enabled && t.enabled[i] == Some(c)
  }

  lemma CondemnedExactly(t: Tables, op: Op, c: string)
    requires op.DisableConnector? && Apply(t, op).Some? && c in t.credentials
    ensures c in Doomed(t, op) <==> Condemned(t, Apply(t, op).value, op, c)
  {
    var t' := Apply(t, op).value;
    if i :| i in t.enabled && i !in t'.enabled && t.enabled[i] == Some(c) {
      assert i in Instances(t, op);
    }
    if i :| i in Instances(t, op) && t.enabled[i] == Some(c) {
      assert i in t.enabled && i !in t'.enabled;
    }
  }

  /** After a reconnect the new row reads back the new access token, and the new refresh token or, when
      the provider sent none, the refresh token of the connection it replaced; the replaced id is gone. */
  lemma StoredTokensReadBack(t: Tables, op: Op, others: set<SecretId>)
    requires op.StoreOAuth? && Sound(t, others) && Apply(t, op).Some?
    ensures var t' := Apply(t, op).value;
      && op.connID in t'.connections && t'.connections[op.connID].user == op.user
      && Content(t', Some(t'.connections[op.connID].access)) == Some(op.accessToken)
      && (op.refreshToken != "" ==> Content(t', t'.connections[op.connID].refresh) == Some(op.refreshToken))
      && (op.refreshToken == "" && Replaces(t, op) ==>
            Content(t', t'.connections[op.connID].refresh) == Content(t, t.connections[op.replaceID].refresh))
      && (op.refreshToken == "" && !Replaces(t, op) ==> t'.connections[op.connID].refresh == None)
      && (Replaces(t, op) && op.connID != op.replaceID ==> op.replaceID !in t'.connections)
  {
    if Replaces(t, op) {
      var row := t.connections[op.replaceID];
      assert Holds(t, AccessToken(op.replaceID), row.access);
      assert row.refresh.Some? ==> Holds(t, RefreshToken(op.replaceID), row.refresh.value);
    }
  }

  /** A new or updated payload reads back through its credential, and an update that names none keeps
      the old one. */
  lemma StoredPayloadReadsBack(t: Tables, op: Op, others: set<SecretId>)
    requires Sound(t, others) && (op.StoreCredential? || op.UpdateCredential?) && Apply(t, op).Some?
    ensures var t' := Apply(t, op).value;
      && op.credID in t'.credentials && t'.credentials[op.credID].user == op.user
      && Content(t', Some(t'.credentials[op.credID].secret)) ==
           (if op.StoreCredential? then Some(op.payload)
            else if op.newPayload.Some? then op.newPayload
            else Content(t, Some(t.credentials[op.credID].secret)))
  {
  }

  /** A deleted row is gone together with its secrets; a disabled connector is gone with all its
      instances and, on request, the user's credentials bound to them. */
  lemma DeletedIsGone(t: Tables, op: Op)
    requires Apply(t, op).Some?
    ensures var t' := Apply(t, op).value;
      match op
      case DeleteOAuth(_, c) =>
        c !in t'.connections && ({t.connections[c].access} + Kept(t.connections[c].refresh)) !! t'.vault.Keys
      case DeleteCredential(_, c) => c !in t'.credentials && t.credentials[c].secret !in t'.vault
      case DisableConnector(user, agent, connector, deleteCredentials, vaultConfigured) =>
        && (forall i :: i in t'.enabled <==>
              i in t.enabled && !(i.agent == agent && i.approver == user && i.connector == connector))
        && (deleteCredentials ==>
              forall i, c ::
                (i in t.enabled && i !in t'.enabled && t.enabled[i] == Some(c) && c in t.credentials && t.credentials[c].user == user) ==>
                  (c !in t'.credentials && (vaultConfigured ==> t.credentials[c].secret !in t'.vault)))
      case _ => true
  {
    if op.DisableConnector? {
      var t' := Apply(t, op).value;
      forall i, c | i in t.enabled && i !in t'.enabled && t.enabled[i] == Some(c) && op.deleteCredentials &&
        c in t.credentials && t.credentials[c].user == op.user
        ensures c in Doomed(t, op) && t.credentials[c].secret in SecretsOf(t, Doomed(t, op))
      {
        assert i in Instances(t, op);
        assert IsBound(t, op, c);
      }
    }
  }

  /** Without a vault configured, one disable is enough to lose a secret for good. */
  lemma DisableWithoutVaultLosesASecret()
    ensures exists t: Tables, op: Op ::
      && Sound(t, {}) && Orphans(t, {}) == {} && op.DisableConnector? && !op.vaultConfigured
      && Apply(t, op).Some? && Orphans(Apply(t, op).value, {}) == {0}
  {
    var instance := Instance(1, "u", "mail", "");
    var t := Tables(map[0 := "s"], map["c" := Credential("u", "mail", None, 0)], map[], map[instance := Some("c")], 1);
    var op := DisableConnector("u", 1, "mail", true, false);
    assert Holds(t, CredentialSecret("c"), 0);
    assert forall slot, id :: Holds(t, slot, id) ==> slot == CredentialSecret("c");
    assert instance in Instances(t, op);
    assert IsBound(t, op, "c");
    assert Doomed(t, op) == {"c"};
    assert "c" in Doomed(t, op) && t.credentials["c"].secret == 0;
    assert Abandons(t, op) == {0};
    TransactionSettles(t, op, {});
  }

  // ---- The handlers -----------------------------------------------------------------------------

  /** The database behind the handlers. Each handler runs its statements in order inside one
      transaction; `faults` names the statements that fail, and a failure rolls everything back. */
  class Database {
    var vault: map<SecretId, string>
    var credentials: map<string, Credential>
    var connections: map<string, Connection>
    var enabled: map<Instance, Option<string>>
    var next: SecretId

    function View(): Tables
      reads this
    {
      Tables(vault, credentials, connections, enabled, next)
    }

    constructor (t: Tables)
      ensures View() == t
    {
      vault, credentials, connections, enabled, next := t.vault, t.credentials, t.connections, t.enabled, t.next;
    }

    method Rollback(snapshot: Tables)
      modifies this
      ensures View() == snapshot
    {
      vault, credentials, connections := snapshot.vault, snapshot.credentials, snapshot.connections;
      enabled, next := snapshot.enabled, snapshot.next;
    }

    method CreateSecretRow(content: string) returns (id: SecretId)
      modifies this
      ensures id == old(next) && View() == CreateSecret(old(View()), content)
    {
      id := next;
      vault := vault[id := content];
      next := next + 1;
    }

    method DeleteSecretRow(id: SecretId)
      modifies this
      ensures View() == DeleteSecret(old(View()), id)
    {
      vault := vault - {id};
    }

    /** Deletes the connection a reconnect replaces, and the secrets that go with it. */
    method DeleteReplaced(op: Op, faults: set<nat>) returns (ok: bool, kept: Option<SecretId>)
      requires op.StoreOAuth?
      modifies this
      ensures faults == {} ==> ok
      ensures ok ==> (View(), kept) == DropReplaced(old(View()), op)
    {
      kept := None;
      if op.replaceID == "" { return true, None; }
      if 0 in faults { return false, None; }
      if op.replaceID in connections && connections[op.replaceID].user == op.user && connections[op.replaceID].provider == op.provider {
        if 1 in faults { return false, None; }
        var existing := connections[op.replaceID];
        connections := connections - {op.replaceID};
        kept := existing.refresh;
        if 2 in faults { return false, None; }
        DeleteSecretRow(existing.access);
        if existing.refresh.Some? && op.refreshToken != "" {
          if 3 in faults { return false, None; }
          DeleteSecretRow(existing.refresh.value);
          kept := None;
        }
      }
      ok := true;
    }

    method StoreOAuthTokens(op: Op, faults: set<nat>) returns (committed: bool)
      requires op.StoreOAuth?
      modifies this
      ensures committed ==> Some(View()) == Apply(old(View()), op)
      ensures !committed ==> View() == old(View())
      ensures faults == {} ==>
        (committed <==>
          || op.connID !in old(connections)
          || (op.connID == op.replaceID && op.replaceID != "" &&
              old(connections)[op.replaceID].user == op.user && old(connections)[op.replaceID].provider == op.provider))
    {
      StoreOAuthAccepted(View(), op);
      hide ApplyDeleteOAuth, ApplyStoreCredential, ApplyUpdateCredential, ApplyDeleteCredential, ApplyDisableConnector, DropReplaced;
      var snapshot := View();
      var dropped, kept := DeleteReplaced(op, faults);
      if !dropped || 4 in faults { Rollback(snapshot); return false; }
      var access := CreateSecretRow(op.accessToken);
      var refresh := kept;
      if op.refreshToken != "" {
        if 5 in faults { Rollback(snapshot); return false; }
        var id := CreateSecretRow(op.refreshToken);
        refresh := Some(id);
      }
      if op.connID in connections || 6 in faults { Rollback(snapshot); return false; }
      connections := connections[op.connID := Connection(op.user, op.provider, access, refresh)];
      if 7 in faults { Rollback(snapshot); return false; }
      return true;
    }

    method DeleteOAuthConnection(op: Op, faults: set<nat>) returns (committed: bool)
      requires op.DeleteOAuth?
      modifies this
      ensures committed ==> Some(View()) == Apply(old(View()), op)
      ensures !committed ==> View() == old(View())
      ensures faults == {} ==>
        (committed <==> op.connID in old(connections) && old(connections)[op.connID].user == op.user)
    {
      DeleteOAuthExactly(View(), op);
      if 0 in faults || op.connID !in connections || connections[op.connID].user != op.user { return false; }
      var snapshot := View();
      if 1 in faults { return false; }
      var result := connections[op.connID];
      connections := connections - {op.connID};
      if 2 in faults { Rollback(snapshot); return false; }
      DeleteSecretRow(result.access);
      if result.refresh.Some? {
        if 3 in faults { Rollback(snapshot); return false; }
        DeleteSecretRow(result.refresh.value);
      }
      if 4 in faults { Rollback(snapshot); return false; }
      return true;
    }

    method StoreNewCredential(op: Op, faults: set<nat>) returns (committed: bool)
      requires op.StoreCredential?
      modifies this
      ensures committed ==> Some(View()) == Apply(old(View()), op)
      ensures !committed ==> View() == old(View())
      ensures faults == {} ==>
        (committed <==>
          && op.credID !in old(credentials)
          && forall c :: c in old(credentials) ==>
               !(old(credentials)[c].user == op.user && old(credentials)[c].service == op.service && old(credentials)[c].tag == op.tag))
    {
      StoreCredentialExactly(View(), op);
      var snapshot := View();
      if 0 in faults { return false; }
      var secret := CreateSecretRow(op.payload);
      if 1 in faults || op.credID in credentials || TagTaken(View(), op.credID, op.user, op.service, op.tag) {
        Rollback(snapshot);
        return false;
      }
      credentials := credentials[op.credID := Credential(op.user, op.service, op.tag, secret)];
      if 2 in faults { Rollback(snapshot); return false; }
      return true;
    }

    method UpdateOwnedCredential(op: Op, faults: set<nat>) returns (committed: bool)
      requires op.UpdateCredential?
      modifies this
      ensures committed ==> Some(View()) == Apply(old(View()), op)
      ensures !committed ==> View() == old(View())
      ensures faults == {} ==>
        (committed <==>
          && (op.newPayload.Some? || op.newTag.Some?)
          && op.credID in old(credentials) && old(credentials)[op.credID].user == op.user
          && (op.newPayload.Some? ==> old(credentials)[op.credID].secret in old(vault))
          && (op.newTag.Some? ==>
                forall c :: c in old(credentials) && c != op.credID ==>
                  !(old(credentials)[c].user == op.user && old(credentials)[c].service == old(credentials)[op.credID].service &&
                    old(credentials)[c].tag == op.newTag.value)))
    {
      UpdateCredentialExactly(View(), op);
      if op.newPayload.None? && op.newTag.None? { return false; }
      var snapshot := View();
      if 0 in faults || op.credID !in credentials || credentials[op.credID].user != op.user { return false; }
      var row := credentials[op.credID];
      if op.newPayload.Some? {
        if 1 in faults || row.secret !in vault { return false; }
        if 2 in faults { return false; }
        vault := vault[row.secret := op.newPayload.value];
      }
      if op.newTag.Some? {
        if 3 in faults || TagTaken(View(), op.credID, op.user, row.service, op.newTag.value) { Rollback(snapshot); return false; }
        credentials := credentials[op.credID := row.(tag := op.newTag.value)];
      }
      if 4 in faults { Rollback(snapshot); return false; }
      return true;
    }

    method DeleteOwnedCredential(op: Op, faults: set<nat>) returns (committed: bool)
      requires op.DeleteCredential?
      modifies this
      ensures committed ==> Some(View()) == Apply(old(View()), op)
      ensures !committed ==> View() == old(View())
      ensures faults == {} ==>
        (committed <==> op.credID in old(credentials) && old(credentials)[op.credID].user == op.user)
    {
      DeleteCredentialExactly(View(), op);
      var snapshot := View();
      if 0 in faults || op.credID !in credentials || credentials[op.credID].user != op.user { return false; }
      var secret := credentials[op.credID].secret;
      credentials := credentials - {op.credID};
      if 1 in faults { Rollback(snapshot); return false; }
      DeleteSecretRow(secret);
      if 2 in faults { Rollback(snapshot); return false; }
      return true;
    }

    /** Deletes the credential and, when a vault is configured, its secret; a credential that is gone
        or not the user's is skipped. */
    method DeleteCredentialAndVault(credID: string, user: string, vaultConfigured: bool)
      modifies this`credentials, this`vault
      ensures var own := credID in old(credentials) && old(credentials)[credID].user == user;
        && credentials == (if own then old(credentials) - {credID} else old(credentials))
        && vault == (if own && vaultConfigured then old(vault) - {old(credentials)[credID].secret} else old(vault))
    {
      if credID !in credentials || credentials[credID].user != user { return; }
      var secret := credentials[credID].secret;
      credentials := credentials - {credID};
      if vaultConfigured {
        vault := vault - {secret};
      }
    }

    /** Deletes the credentials of these bindings one by one, in any order, until a deletion fails. A
        credential bound twice is gone the second time. */
    method DeleteBoundCredentials(op: Op, ghost before: Tables, bindings: map<Instance, Option<string>>, faults: set<nat>)
      returns (ok: bool, statement: nat)
      requires op.DisableConnector? && credentials == before.credentials && vault == before.vault
      modifies this`credentials, this`vault
      ensures faults == {} ==> ok
      ensures ok ==> (credentials, vault) == AfterDeleting(before, OwnAmong(before, op.user, bindings), op.vaultConfigured)
    {
      hide OwnAmong, AfterDeleting;
      var todo := bindings.Keys;
      ghost var done := OwnAmong(before, op.user, bindings - todo);
      NothingDeletedYet(before, op.user, bindings, op.vaultConfigured);
      statement := 2;
      while todo != {}
        invariant todo <= bindings.Keys
        invariant done == OwnAmong(before, op.user, bindings - todo)
        invariant (credentials, vault) == AfterDeleting(before, done, op.vaultConfigured)
        decreases |todo|
      {
        var b :| b in todo;
        OwnAmongMore(before, op.user, bindings, todo, b);
        todo := todo - {b};
        if bindings[b].Some? {
          if statement in faults { return false, statement; }
          var credID := bindings[b].value;
          OneMoreDeleted(before, done, credID, op.vaultConfigured);
          if credID in before.credentials && before.credentials[credID].user == op.user {
            done := done + {credID};
          }
          DeleteCredentialAndVault(credID, op.user, op.vaultConfigured);
          statement := statement + 1;
        }
      }
      assert bindings - todo == bindings;
      ok := true;
    }

    /** The bindings are read before the instances go; a failing deletion aborts the whole transaction. */
    method DisableAgentConnector(op: Op, faults: set<nat>) returns (committed: bool)
      requires op.DisableConnector?
      modifies this
      ensures committed ==> Some(View()) == Apply(old(View()), op)
      ensures !committed ==> View() == old(View())
      ensures faults == {} ==>
        (committed <==>
          exists i :: i in old(enabled) && i.agent == op.agent && i.approver == op.user && i.connector == op.connector)
    {
      DisableConnectorExactly(View(), op);
      var snapshot := View();
      var bindings := if op.deleteCredentials then map i | i in Instances(snapshot, op) :: snapshot.enabled[i] else map[];
      if 0 in faults || 1 in faults || Instances(snapshot, op) == {} { return false; }
      enabled := enabled - Instances(snapshot, op);
      DoomedAreOwn(snapshot, op, bindings);
      var ok, statement := DeleteBoundCredentials(op, snapshot, bindings, faults);
      if !ok || statement in faults { Rollback(snapshot); return false; }
      return true;
    }
  }

  /** The user's credentials among those bound. */
  function OwnAmong(t: Tables, user: string, bindings: map<Instance, Option<string>>): set<string> {
    set c | c in t.credentials && t.credentials[c].user == user && Some(c) in bindings.Values
  }

  lemma OwnAmongMore(t: Tables, user: string, bindings: map<Instance, Option<string>>, todo: set<Instance>, b: Instance)
    requires b in todo && todo <= bindings.Keys
    ensures var own := OwnAmong(t, user, bindings - todo);
      OwnAmong(t, user, bindings - (todo - {b})) ==
        if bindings[b].Some? && bindings[b].value in t.credentials && t.credentials[bindings[b].value].user == user
        then own + {bindings[b].value} else own
  {
    var less, more := bindings - todo, bindings - (todo - {b});
    assert more == less[b := bindings[b]];
    assert b in more && b !in less;
    forall v ensures v in more.Values <==> v in less.Values || v == bindings[b] {
      if v in less.Values {
        var i :| i in less && less[i] == v;
        assert i in more && more[i] == v;
      }
    }
  }

  lemma DoomedAreOwn(t: Tables, op: Op, bindings: map<Instance, Option<string>>)
    requires op.DisableConnector?
    requires bindings == if op.deleteCredentials then map i | i in Instances(t, op) :: t.enabled[i] else map[]
    ensures Doomed(t, op) == OwnAmong(t, op.user, bindings)
  {
    forall c ensures c in Doomed(t, op) <==> c in OwnAmong(t, op.user, bindings) {
      if c in Doomed(t, op) {
        var i :| i in Instances(t, op) && t.enabled[i] == Some(c);
        assert i in bindings && bindings[i] == Some(c);
      }
    }
  }

  /** The credentials and the vault once these credentials are deleted. */
  ghost function AfterDeleting(t: Tables, creds: set<string>, vaultConfigured: bool): (map<string, Credential>, map<SecretId, string>) {
    (t.credentials - creds, t.vault - (if vaultConfigured then SecretsOf(t, creds) else {}))
  }

  lemma NothingDeletedYet(t: Tables, user: string, bindings: map<Instance, Option<string>>, vaultConfigured: bool)
    ensures AfterDeleting(t, OwnAmong(t, user, bindings - bindings.Keys), vaultConfigured) == (t.credentials, t.vault)
  {
    assert bindings - bindings.Keys == map[];
    assert OwnAmong(t, user, map[]) == {};
    assert SecretsOf(t, {}) == {};
    assert t.credentials - {} == t.credentials && t.vault - {} == t.vault;
  }

  /** Deleting one more; a credential already deleted is no longer found. */
  lemma OneMoreDeleted(t: Tables, creds: set<string>, c: string, vaultConfigured: bool)
    ensures var (left, vault) := AfterDeleting(t, creds, vaultConfigured);
      && (c in left <==> c in t.credentials && c !in creds)
      && (c in left ==> left[c] == t.credentials[c])
      && (c in left ==>
            var rest := if vaultConfigured then vault - {t.credentials[c].secret} else vault;
            AfterDeleting(t, creds + {c}, vaultConfigured) == (left - {c}, rest))
      && (c in creds ==> creds + {c} == creds)
  {
    if c in t.credentials {
      assert c in creds + {c};
      assert SecretsOf(t, creds + {c}) == SecretsOf(t, creds) + {t.credentials[c].secret};
      assert t.credentials - (creds + {c}) == t.credentials - creds - {c};
      assert vaultConfigured ==>
        t.vault - (SecretsOf(t, creds) + {t.credentials[c].secret}) == t.vault - SecretsOf(t, creds) - {t.credentials[c].secret};
    }
  }
}
