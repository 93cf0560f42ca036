/** Provider configurations, draft selections, publication and secret references (InMemoryStore in store.ts). */
module ProviderSafety {
  import opened Wrappers

  /** A catalogue entry; of its manifest only the number of declared secret fields matters here. */
  datatype Installation = Installation(id: string, kind: string, displayName: string, secretFields: nat)

  /** Names are in the trimmed, lower-cased form they are compared by. */
  datatype Config = Config(
    ownerId: string, installationId: string, name: string, enabled: bool, archived: bool,
    secretRefs: seq<string>, revision: nat, etag: string)

  /**
   * A value of the selection record of an assistant or of a published snapshot. Seeds select an installation by
   * `providerId` and bring the settings along (`inlined`); updates select by `configId`; publishing fills both.
   */
  datatype Selection = Selection(
    disabled: bool, providerId: Option<string>, inlined: bool, configId: Option<string>, secretRefs: seq<string>)

  const OFF := Selection(true, None, false, None, [])

  function ByConfig(id: string): Selection {
    Selection(false, None, false, Some(id), [])
  }

  /** One property of a record, whose properties keep their order. */
  datatype Entry = Entry(kind: string, value: Selection)

  datatype Assistant = Assistant(
    ownerId: string, selections: seq<Entry>, roleComplete: bool, draftRevision: nat, publishedRevision: Option<nat>,
    etag: string)

  datatype Publication = Publication(assistantId: string, revision: nat, providers: seq<Entry>)

  datatype Secret = Secret(ownerId: string, available: bool, etag: string)

  /** `history` holds, for each config, every secret reference it was ever bound to. */
  datatype Store = Store(
    configs: map<string, Config>, history: map<string, set<string>>, assistants: map<string, Assistant>,
    publication: Option<Publication>, secrets: map<string, Secret>)

  datatype Problem =
    | NotInstalled | ConfigInvalid | NameConflict | SecretInvalid | NotFound | RevisionConflict
    | ResourceInUse | NotPublishable

  datatype Outcome = Done | Failed(problem: Problem)

  /** The first installation with this id. */
  function Find(catalog: seq<Installation>, id: string): Option<Installation> {
    if catalog == [] then None
    else if catalog[0].id == id then Some(catalog[0])
    else Find(catalog[1..], id)
  }

  // ------------------------------------------------------------------- the checks

  predicate Distinct(refs: seq<string>) {
    forall i, j :: 0 <= i < j < |refs| ==> refs[i] != refs[j]
  }

  /** What validateSecretBindings lets through. */
  predicate BindingsFit(fields: nat, refs: seq<string>, requireComplete: bool) {
    Distinct(refs) && (if requireComplete then |refs| == fields else |refs| <= fields)
  }

  predicate Usable(secrets: map<string, Secret>, owner: string, ref: string) {
    ref in secrets && secrets[ref].ownerId == owner && secrets[ref].available
  }

  predicate NameTaken(configs: map<string, Config>, owner: string, name: string, except: Option<string>) {
    exists id :: id in configs && Some(id) != except && configs[id].ownerId == owner && !configs[id].archived
                 && configs[id].name == name
  }

  predicate Mentions(entries: seq<Entry>, id: string) {
    exists i :: 0 <= i < |entries| && (entries[i].value.configId == Some(id) || entries[i].value.providerId == Some(id))
  }

  /** One assistant of the loop in providerConfigInUse. */
  predicate UsedBy(s: Store, assistantId: string, id: string)
    requires assistantId in s.assistants
  {
    var a := s.assistants[assistantId];
    || Mentions(a.selections, id)
    || (a.publishedRevision.Some? && s.publication.Some? && s.publication.value.assistantId == assistantId
        && Mentions(s.publication.value.providers, id))
  }

  predicate InUse(s: Store, owner: string, id: string) {
    exists a :: a in s.assistants && s.assistants[a].ownerId == owner && UsedBy(s, a, id)
  }

  predicate Bound(s: Store, owner: string, ref: string) {
    exists c :: c in s.configs && s.configs[c].ownerId == owner && c in s.history && ref in s.history[c]
  }

  // --------------------------------------------------------------- configurations

  /** The request's settings pass the installation's schema exactly when `fits`. */
  function CheckSettings(s: Store, owner: string, inst: Installation, name: Option<string>, except: Option<string>,
                         refs: seq<string>, fits: bool): Outcome
  {
    if !fits then Failed(ConfigInvalid)
    else if name == Some("") then Failed(ConfigInvalid)
    else if name.Some? && NameTaken(s.configs, owner, name.value, except) then Failed(NameConflict)
    else if !BindingsFit(inst.secretFields, refs, false) then Failed(SecretInvalid)
    else if exists i :: 0 <= i < |refs| && !Usable(s.secrets, owner, refs[i]) then Failed(SecretInvalid)
    else Done
  }

  function CreateConfig(catalog: seq<Installation>, s: Store, owner: string, newId: string, installationId: string,
                        name: string, fits: bool, refs: seq<string>, etag: string): (Store, Outcome)
  {
    match Find(catalog, installationId)
    case None => (s, Failed(NotInstalled))
    case Some(inst) =>
      var checked := CheckSettings(s, owner, inst, Some(name), None, refs, fits);
      if checked.Failed? then (s, checked)
      else
        (s.(configs := s.configs[newId := Config(owner, installationId, name, true, false, refs, 1, etag)],
            history := s.history[newId := set r | r in refs]), Done)
  }

  /** The guards every change of an existing config starts with. */
  function CheckCurrent(s: Store, owner: string, id: string, ifMatch: string): Outcome {
    if id !in s.configs || s.configs[id].ownerId != owner || s.configs[id].archived then Failed(NotFound)
    else if s.configs[id].etag != ifMatch then Failed(RevisionConflict)
    else Done
  }

  function UpdateConfig(catalog: seq<Installation>, s: Store, owner: string, id: string, name: Option<string>,
                        fits: bool, newRefs: Option<seq<string>>, ifMatch: string, etag: string): (Store, Outcome)
  {
    var current := CheckCurrent(s, owner, id, ifMatch);
    if current.Failed? then (s, current)
    else
      match Find(catalog, s.configs[id].installationId)
      case None => (s, Failed(NotInstalled))
      case Some(inst) =>
        var c := s.configs[id];
        var refs := if newRefs.Some? then newRefs.value else c.secretRefs;
        var checked := CheckSettings(s, owner, inst, name, Some(id), refs, fits);
        if checked.Failed? then (s, checked)
        else
          var next := c.(name := if name.Some? then name.value else c.name, secretRefs := refs,
                         revision := c.revision + 1, etag := etag);
          (s.(configs := s.configs[id := next],
              history := s.history[id := (if id in s.history then s.history[id] else {}) + set r | r in refs]), Done)
  }

  function SetEnabled(s: Store, owner: string, id: string, enabled: bool, ifMatch: string, etag: string)
    : (Store, Outcome)
  {
    var current := CheckCurrent(s, owner, id, ifMatch);
    if current.Failed? then (s, current)
    else if !enabled && InUse(s, owner, id) then (s, Failed(ResourceInUse))
    else (s.(configs := s.configs[id := s.configs[id].(enabled := enabled, etag := etag)]), Done)
  }

  /** Deleting a config archives it. */
  function DeleteConfig(s: Store, owner: string, id: string, ifMatch: string): (Store, Outcome) {
    var current := CheckCurrent(s, owner, id, ifMatch);
    if current.Failed? then (s, current)
    else if InUse(s, owner, id) then (s, Failed(ResourceInUse))
    else (s.(configs := s.configs[id := s.configs[id].(archived := true)]), Done)
  }

  // -------------------------------------------------------------------- assistants

  function CreateAssistant(s: Store, owner: string, newId: string, etag: string): (Store, Outcome) {
    (s.(assistants := s.assistants[newId := Assistant(owner, [], false, 1, None, etag)]), Done)
  }

  function CheckAssistant(s: Store, owner: string, id: string, ifMatch: Option<string>): Outcome {
    if id !in s.assistants || s.assistants[id].ownerId != owner then Failed(NotFound)
    else if ifMatch.Some? && Some(s.assistants[id].etag) != ifMatch then Failed(RevisionConflict)
    else Done
  }

  /** `complete` says that the new role has a locale and a base prompt. */
  function UpdateRole(s: Store, owner: string, id: string, complete: bool, ifMatch: string, etag: string)
    : (Store, Outcome)
  {
    var current := CheckAssistant(s, owner, id, Some(ifMatch));
    if current.Failed? then (s, current)
    else
      var a := s.assistants[id];
      (s.(assistants := s.assistants[id :=
            a.(roleComplete := complete, draftRevision := a.draftRevision + 1, etag := etag)]), Done)
  }

  /** `{ ...record, [kind]: value }`: an existing property keeps its place. */
  function Put(entries: seq<Entry>, kind: string, value: Selection): seq<Entry> {
    if entries == [] then [Entry(kind, value)]
    else if entries[0].kind == kind then [Entry(kind, value)] + entries[1..]
    else [entries[0]] + Put(entries[1..], kind, value)
  }

  /** `choice` is the requested config, or None to disable the kind; `shaped` that the request is well-formed. */
  function CheckChoice(catalog: seq<Installation>, s: Store, owner: string, kind: string,
                       choice: Option<string>): Outcome {
    if choice.None? then Done
    else if choice.value !in s.configs || s.configs[choice.value].ownerId != owner then Failed(ConfigInvalid)
    else
      match Find(catalog, s.configs[choice.value].installationId)
      case None => Failed(ConfigInvalid)
      case Some(inst) => if inst.kind != kind || !s.configs[choice.value].enabled then Failed(ConfigInvalid) else Done
  }

  function Chosen(choice: Option<string>): Selection {
    if choice.Some? then ByConfig(choice.value) else OFF
  }

  function Select(catalog: seq<Installation>, s: Store, owner: string, id: string, kind: string, shaped: bool,
                  choice: Option<string>, ifMatch: string, etag: string): (Store, Outcome)
  {
    var current := CheckAssistant(s, owner, id, Some(ifMatch));
    if current.Failed? then (s, current)
    else if !shaped then (s, Failed(ConfigInvalid))
    else
      var checked := CheckChoice(catalog, s, owner, kind, choice);
      if checked.Failed? then (s, checked)
      else
        var a := s.assistants[id];
        (s.(assistants := s.assistants[id :=
              a.(selections := Put(a.selections, kind, Chosen(choice)), draftRevision := a.draftRevision + 1,
                 etag := etag)]), Done)
  }

  datatype Resolution = Resolved(value: Selection) | Unresolved(problem: Problem)

  /** What publishing makes of one draft selection. */
  function Resolve(catalog: seq<Installation>, configs: map<string, Config>, v: Selection): Resolution {
    if v.disabled then Resolved(OFF)
    else if v.providerId.Some? && v.inlined then
      match Find(catalog, v.providerId.value)
      case None => Unresolved(NotPublishable)
      case Some(inst) =>
        if BindingsFit(inst.secretFields, v.secretRefs, true) then Resolved(v) else Unresolved(SecretInvalid)
    else if v.configId.None? || v.configId.value !in configs then Unresolved(NotPublishable)
    else
      var c := configs[v.configId.value];
      match Find(catalog, c.installationId)
      case None => Unresolved(NotPublishable)
      case Some(inst) =>
        if BindingsFit(inst.secretFields, c.secretRefs, true)
        then Resolved(Selection(false, Some(inst.id), true, v.configId, c.secretRefs))
        else Unresolved(SecretInvalid)
  }

  datatype Snapshot = Whole(providers: seq<Entry>) | Broken(problem: Problem)

  /** All the selections in their order, or the first one's problem. */
  function ResolveAll(catalog: seq<Installation>, configs: map<string, Config>, entries: seq<Entry>): Snapshot {
    if entries == [] then Whole([])
    else
      match Resolve(catalog, configs, entries[0].value)
      case Unresolved(p) => Broken(p)
      case Resolved(v) =>
        match ResolveAll(catalog, configs, entries[1..])
        case Broken(p) => Broken(p)
        case Whole(rest) => Whole([Entry(entries[0].kind, v)] + rest)
  }

  function Publish(catalog: seq<Installation>, s: Store, owner: string, id: string, ifMatch: Option<string>)
    : (Store, Outcome)
  {
    var current := CheckAssistant(s, owner, id, if ifMatch == Some("") then None else ifMatch);
    if current.Failed? then (s, current)
    else if !s.assistants[id].roleComplete then (s, Failed(NotPublishable))
    else
      var a := s.assistants[id];
      match ResolveAll(catalog, s.configs, a.selections)
      case Broken(p) => (s, Failed(p))
      case Whole(providers) =>
        (s.(assistants := s.assistants[id := a.(publishedRevision := Some(a.draftRevision))],
            publication := Some(Publication(id, a.draftRevision, providers))), Done)
  }

  function SetRuntime(s: Store, publication: Publication): (Store, Outcome) {
    (s.(publication := Some(publication)), Done)
  }

  // ------------------------------------------------------------- secret references

  function CreateSecret(s: Store, owner: string, id: string, available: bool, etag: string): (Store, Outcome) {
    (s.(secrets := s.secrets[id := Secret(owner, available, etag)]), Done)
  }

  function CheckSecret(s: Store, owner: string, id: string, ifMatch: string): Outcome {
    if id !in s.secrets || s.secrets[id].ownerId != owner then Failed(NotFound)
    else if s.secrets[id].etag != ifMatch then Failed(RevisionConflict)
    else Done
  }

  function UpdateSecret(s: Store, owner: string, id: string, status: Option<bool>, ifMatch: string,
                        etag: string): (Store, Outcome) {
    var current := CheckSecret(s, owner, id, ifMatch);
    if current.Failed? then (s, current)
    else
      var k := s.secrets[id];
      (s.(secrets := s.secrets[id :=
            k.(available := if status.Some? then status.value else k.available, etag := etag)]), Done)
  }

  function DeleteSecret(s: Store, owner: string, id: string, ifMatch: string): (Store, Outcome) {
    var current := CheckSecret(s, owner, id, ifMatch);
    if current.Failed? then (s, current)
    else if Bound(s, owner, id) then (s, Failed(ResourceInUse))
    else (s.(secrets := s.secrets - {id}), Done)
  }

  // -------------------------------------------------------------------------- runs

  /** Every call that changes this part of the store; `etag` is the digest the call computes. */
  datatype Op =
    | CreatesConfig(owner: string, newId: string, installationId: string, name: string, fits: bool, refs: seq<string>,
                    etag: string)
    | UpdatesConfig(owner: string, id: string, newName: Option<string>, fits: bool, newRefs: Option<seq<string>>,
                    ifMatch: string, etag: string)
    | SetsEnabled(owner: string, id: string, enabled: bool, ifMatch: string, etag: string)
    | DeletesConfig(owner: string, id: string, ifMatch: string)
    | CreatesAssistant(owner: string, newId: string, etag: string)
    | UpdatesRole(owner: string, id: string, complete: bool, ifMatch: string, etag: string)
    | Selects(owner: string, id: string, kind: string, shaped: bool, choice: Option<string>, ifMatch: string,
              etag: string)
    | Publishes(owner: string, id: string, published: Option<string>)
    | SetsRuntime(publication: Publication)
    | CreatesSecret(owner: string, newId: string, available: bool, etag: string)
    | UpdatesSecret(owner: string, id: string, status: Option<bool>, ifMatch: string, etag: string)
    | DeletesSecret(owner: string, id: string, ifMatch: string)

  function Step(catalog: seq<Installation>, s: Store, op: Op): (Store, Outcome) {
    match op
    case CreatesConfig(o, n, i, name, fits, refs, etag) => CreateConfig(catalog, s, o, n, i, name, fits, refs, etag)
    case UpdatesConfig(o, id, name, fits, refs, m, etag) => UpdateConfig(catalog, s, o, id, name, fits, refs, m, etag)
    case SetsEnabled(o, id, enabled, m, etag) => SetEnabled(s, o, id, enabled, m, etag)
    case DeletesConfig(o, id, m) => DeleteConfig(s, o, id, m)
    case CreatesAssistant(o, n, etag) => CreateAssistant(s, o, n, etag)
    case UpdatesRole(o, id, complete, m, etag) => UpdateRole(s, o, id, complete, m, etag)
    case Selects(o, id, kind, shaped, choice, m, etag) => Select(catalog, s, o, id, kind, shaped, choice, m, etag)
    case Publishes(o, id, m) => Publish(catalog, s, o, id, m)
    case SetsRuntime(p) => SetRuntime(s, p)
    case CreatesSecret(o, n, available, etag) => CreateSecret(s, o, n, available, etag)
    case UpdatesSecret(o, id, status, m, etag) => UpdateSecret(s, o, id, status, m, etag)
    case DeletesSecret(o, id, m) => DeleteSecret(s, o, id, m)
  }

  /** New ids are random and do not repeat. */
  predicate FreshFor(s: Store, op: Op) {
    match op
    case CreatesConfig(_, n, _, _, _, _, _) => n !in s.configs && n !in s.history
    case CreatesAssistant(_, n, _) => n !in s.assistants
    case CreatesSecret(_, n, _, _) => n !in s.secrets
    case _ => true
  }

  predicate IsRun(catalog: seq<Installation>, s: Store, ops: seq<Op>)
    decreases ops
  {
    ops == [] || (FreshFor(s, ops[0]) && IsRun(catalog, Step(catalog, s, ops[0]).0, ops[1..]))
  }

  function Final(catalog: seq<Installation>, s: Store, ops: seq<Op>): Store
    decreases ops
  {
    if ops == [] then s else Final(catalog, Step(catalog, s, ops[0]).0, ops[1..])
  }

  // ---------------------------------------------------------------------- the seed

  /** The initial snapshot a store may be started from. */
  datatype Initial = Initial(
    assistantId: string, revision: nat, roleComplete: bool, providers: seq<Entry>, etag: string)

  const LOCAL_OWNER := "local-owner"

  /** The configs made of the snapshot's providers, a later one replacing an earlier one with the same id. */
  function SeedConfigs(catalog: seq<Installation>, entries: seq<Entry>): map<string, Config> {
    if entries == [] then map[]
    else
      var before, v := SeedConfigs(catalog, entries[..|entries| - 1]), entries[|entries| - 1].value;
      if v.disabled || v.providerId.None? || !v.inlined then before
      else
        match Find(catalog, v.providerId.value)
        case None => before
        case Some(inst) =>
          before[v.providerId.value :=
            Config(LOCAL_OWNER, v.providerId.value, inst.displayName, true, false, [], 1, "")]
  }

  function Seed(catalog: seq<Installation>, initial: Option<Initial>): Store {
    match initial
    case None => Store(map[], map[], map[], None, map[])
    case Some(snap) =>
      var configs := SeedConfigs(catalog, snap.providers);
      Store(
        configs, map id | id in configs :: {},
        map[snap.assistantId :=
              Assistant(LOCAL_OWNER, snap.providers, snap.roleComplete, snap.revision, Some(snap.revision), snap.etag)],
        Some(Publication(snap.assistantId, snap.revision, snap.providers)), map[])
  }

  // ------------------------------------------------------------------ the invariants

  /** The config exists, is `owner`'s, is enabled and its installation has this kind. */
  predicate Serves(catalog: seq<Installation>, configs: map<string, Config>, owner: string, kind: string, id: string) {
    && id in configs && configs[id].ownerId == owner && configs[id].enabled
    && var inst := Find(catalog, configs[id].installationId); inst.Some? && inst.value.kind == kind
  }

  predicate EntriesServed(catalog: seq<Installation>, configs: map<string, Config>, owner: string,
                          entries: seq<Entry>) {
    forall i :: 0 <= i < |entries| && !entries[i].value.disabled && entries[i].value.configId.Some? ==>
      Serves(catalog, configs, owner, entries[i].kind, entries[i].value.configId.value)
  }

  /** Every draft selection by config is served. */
  predicate DraftsSound(catalog: seq<Installation>, s: Store) {
    forall a :: a in s.assistants ==>
      EntriesServed(catalog, s.configs, s.assistants[a].ownerId, s.assistants[a].selections)
  }

  /** So is every selection of the published snapshot, for the owner of its assistant. */
  predicate PublishedSound(catalog: seq<Installation>, s: Store) {
    s.publication.Some? ==>
      var a := s.publication.value.assistantId;
      && a in s.assistants && s.assistants[a].publishedRevision.Some?
      && EntriesServed(catalog, s.configs, s.assistants[a].ownerId, s.publication.value.providers)
  }

  /** Every reference a config is or ever was bound to exists and is its owner's. */
  predicate SecretsSound(s: Store) {
    && s.configs.Keys == s.history.Keys
    && (forall c, i :: c in s.configs && 0 <= i < |s.configs[c].secretRefs| ==>
          s.configs[c].secretRefs[i] in s.history[c])
    && (forall c, r :: c in s.history && r in s.history[c] ==>
          r in s.secrets && s.secrets[r].ownerId == s.configs[c].ownerId)
  }

  /** One owner's live configs have different names. */
  predicate NamesSound(s: Store) {
    forall c, d ::
      (c in s.configs && d in s.configs && c != d && !s.configs[c].archived && !s.configs[d].archived
       && s.configs[c].ownerId == s.configs[d].ownerId) ==> s.configs[c].name != s.configs[d].name
  }

  /** No draft selects a deleted config. */
  predicate DraftsLive(s: Store) {
    forall a, i :: a in s.assistants && 0 <= i < |s.assistants[a].selections| ==>
      !SelectsDeleted(s.configs, s.assistants[a].selections[i].value)
  }

  predicate SelectsDeleted(configs: map<string, Config>, v: Selection) {
    !v.disabled && v.configId.Some? && v.configId.value in configs && configs[v.configId.value].archived
  }

  // ------------------------------------------------------- what keeps a config served

  /** Nothing that happens to a config while it is enabled stops it from serving. */
  predicate StillServing(before: map<string, Config>, after: map<string, Config>, id: string) {
    id in before ==>
      && id in after && after[id].ownerId == before[id].ownerId
      && after[id].installationId == before[id].installationId && (before[id].enabled ==> after[id].enabled)
  }

  /** A step keeps every config that somebody of its owner's uses. */
  lemma StepKeepsUsedConfigs(catalog: seq<Installation>, s: Store, op: Op, id: string)
    requires FreshFor(s, op)
    requires id in s.configs && InUse(s, s.configs[id].ownerId, id)
    ensures StillServing(s.configs, Step(catalog, s, op).0.configs, id)
  {
  }

  lemma {:induction false} PutEntries(entries: seq<Entry>, kind: string, value: Selection, i: nat)
    requires i < |Put(entries, kind, value)|
    ensures var e := Put(entries, kind, value)[i]; e == Entry(kind, value) || (i < |entries| && e == entries[i])
  {
    if entries != [] && entries[0].kind != kind && i > 0 {
      PutEntries(entries[1..], kind, value, i - 1);
    }
  }

  lemma EntriesStayServed(catalog: seq<Installation>, s: Store, op: Op, a: string, entries: seq<Entry>)
    requires FreshFor(s, op) && a in s.assistants
    requires EntriesServed(catalog, s.configs, s.assistants[a].ownerId, entries)
    requires forall id :: Mentions(entries, id) ==> UsedBy(s, a, id)
    ensures EntriesServed(catalog, Step(catalog, s, op).0.configs, s.assistants[a].ownerId, entries)
  {
    forall i | 0 <= i < |entries| && !entries[i].value.disabled && entries[i].value.configId.Some?
      ensures Serves(catalog, Step(catalog, s, op).0.configs, s.assistants[a].ownerId, entries[i].kind,
                     entries[i].value.configId.value)
    {
      var id := entries[i].value.configId.value;
      assert Mentions(entries, id);
      StepKeepsUsedConfigs(catalog, s, op, id);
    }
  }

  /** A selection that passes the checks is served at once. */
  lemma SelectedEntriesServed(catalog: seq<Installation>, s: Store, owner: string, entries: seq<Entry>, kind: string,
                              choice: Option<string>)
    requires EntriesServed(catalog, s.configs, owner, entries)
    requires CheckChoice(catalog, s, owner, kind, choice) == Done
    ensures EntriesServed(catalog, s.configs, owner, Put(entries, kind, Chosen(choice)))
  {
    forall i | 0 <= i < |Put(entries, kind, Chosen(choice))|
      ensures var e := Put(entries, kind, Chosen(choice))[i];
        !e.value.disabled && e.value.configId.Some? ==>
          Serves(catalog, s.configs, owner, e.kind, e.value.configId.value)
    {
      PutEntries(entries, kind, Chosen(choice), i);
    }
  }

  lemma StepKeepsDrafts(catalog: seq<Installation>, s: Store, op: Op)
    requires DraftsSound(catalog, s) && FreshFor(s, op)
    ensures DraftsSound(catalog, Step(catalog, s, op).0)
  {
    var t := Step(catalog, s, op).0;
    forall a | a in t.assistants
      ensures EntriesServed(catalog, t.configs, t.assistants[a].ownerId, t.assistants[a].selections)
    {
      if a in s.assistants {
        EntriesStayServed(catalog, s, op, a, s.assistants[a].selections);
        if op.Selects? && t.assistants[a].selections != s.assistants[a].selections {
          SelectedEntriesServed(catalog, s, op.owner, s.assistants[a].selections, op.kind, op.choice);
        }
      }
    }
  }

  /** Publishing resolves each selection in place, or reports the first that does not resolve. */
  lemma {:induction false} ResolveAllSpec(catalog: seq<Installation>, configs: map<string, Config>, entries: seq<Entry>)
    ensures var r := ResolveAll(catalog, configs, entries);
      match r
      case Whole(providers) =>
        && |providers| == |entries|
        && forall i :: 0 <= i < |entries| ==>
             && providers[i].kind == entries[i].kind
             && Resolve(catalog, configs, entries[i].value) == Resolved(providers[i].value)
      case Broken(p) =>
        exists k :: 0 <= k < |entries| && Resolve(catalog, configs, entries[k].value) == Unresolved(p)
          && forall i :: 0 <= i < k ==> Resolve(catalog, configs, entries[i].value).Resolved?
  {
    if entries != [] && Resolve(catalog, configs, entries[0].value).Resolved? {
      var rest := entries[1..];
      ResolveAllSpec(catalog, configs, rest);
      var r := ResolveAll(catalog, configs, rest);
      if r.Broken? {
        var k :| 0 <= k < |rest| && Resolve(catalog, configs, rest[k].value) == Unresolved(r.problem)
          && forall i :: 0 <= i < k ==> Resolve(catalog, configs, rest[i].value).Resolved?;
        forall i | 0 <= i < k + 1
          ensures Resolve(catalog, configs, entries[i].value).Resolved?
        {
          if i > 0 {
            assert entries[i] == rest[i - 1];
          }
        }
        assert entries[k + 1] == rest[k];
      }
    }
  }

  lemma PublishedEntriesServed(catalog: seq<Installation>, configs: map<string, Config>, owner: string,
                               entries: seq<Entry>)
    requires EntriesServed(catalog, configs, owner, entries) && ResolveAll(catalog, configs, entries).Whole?
    ensures EntriesServed(catalog, configs, owner, ResolveAll(catalog, configs, entries).providers)
  {
    ResolveAllSpec(catalog, configs, entries);
    var providers := ResolveAll(catalog, configs, entries).providers;
    forall i | 0 <= i < |providers| && !providers[i].value.disabled && providers[i].value.configId.Some?
      ensures Serves(catalog, configs, owner, providers[i].kind, providers[i].value.configId.value)
    {
      assert Resolve(catalog, configs, entries[i].value) == Resolved(providers[i].value);
    }
  }

  /** As long as nobody installs a snapshot from outside, the published selections stay served as well. */
  lemma StepKeepsPublished(catalog: seq<Installation>, s: Store, op: Op)
    requires DraftsSound(catalog, s) && PublishedSound(catalog, s) && FreshFor(s, op) && !op.SetsRuntime?
    ensures PublishedSound(catalog, Step(catalog, s, op).0)
  {
    var t := Step(catalog, s, op).0;
    if t.publication == s.publication {
      if s.publication.Some? {
        var p := s.publication.value;
        EntriesStayServed(catalog, s, op, p.assistantId, p.providers);
      }
    } else {
      PublishedEntriesServed(catalog, s.configs, op.owner, s.assistants[op.id].selections);
    }
  }

  lemma UpdateConfigKeepsSecrets(catalog: seq<Installation>, s: Store, op: Op)
    requires SecretsSound(s) && op.UpdatesConfig?
    ensures SecretsSound(Step(catalog, s, op).0)
  {
  }

  lemma StepKeepsSecrets(catalog: seq<Installation>, s: Store, op: Op)
    requires SecretsSound(s) && FreshFor(s, op)
    ensures SecretsSound(Step(catalog, s, op).0)
  {
    if op.UpdatesConfig? {
      UpdateConfigKeepsSecrets(catalog, s, op);
    }
  }

  lemma StepKeepsNames(catalog: seq<Installation>, s: Store, op: Op)
    requires NamesSound(s) && FreshFor(s, op)
    ensures NamesSound(Step(catalog, s, op).0)
  {
  }

  // ----------------------------------------------------------------- the seed is sound

  /** The constructor makes a config with this id out of the snapshot's providers. */
  predicate Seeds(catalog: seq<Installation>, entries: seq<Entry>, id: string) {
    && Find(catalog, id).Some?
    && exists j :: 0 <= j < |entries| && SeedsOne(entries[j].value, id)
  }

  predicate SeedsOne(v: Selection, id: string) {
    !v.disabled && v.inlined && v.providerId == Some(id)
  }

  /** Every enabled provider that names a config names one the snapshot itself seeds, of its own kind. */
  predicate NamesOnlySeeded(catalog: seq<Installation>, entries: seq<Entry>) {
    forall i :: 0 <= i < |entries| && !entries[i].value.disabled && entries[i].value.configId.Some? ==>
      var id := entries[i].value.configId.value;
      Seeds(catalog, entries, id) && Find(catalog, id).value.kind == entries[i].kind
  }

  predicate DistinctDisplayNames(catalog: seq<Installation>) {
    forall i, j :: 0 <= i < j < |catalog| && catalog[i].id != catalog[j].id ==>
      catalog[i].displayName != catalog[j].displayName
  }

  lemma {:induction false} FindFinds(catalog: seq<Installation>, id: string)
    ensures var r := Find(catalog, id); r.Some? ==> r.value.id == id && r.value in catalog
  {
    if catalog != [] && catalog[0].id != id {
      FindFinds(catalog[1..], id);
    }
  }

  lemma {:induction false} SeedConfigsSpec(catalog: seq<Installation>, entries: seq<Entry>, id: string)
    ensures id in SeedConfigs(catalog, entries) <==> Seeds(catalog, entries, id)
    ensures Seeds(catalog, entries, id) ==>
      SeedConfigs(catalog, entries)[id] ==
        Config(LOCAL_OWNER, id, Find(catalog, id).value.displayName, true, false, [], 1, "")
  {
    if entries != [] {
      var n := |entries| - 1;
      SeedConfigsSpec(catalog, entries[..n], id);
      if Seeds(catalog, entries[..n], id) {
        var j :| 0 <= j < n && SeedsOne(entries[..n][j].value, id);
        assert SeedsOne(entries[j].value, id);
      }
      if Seeds(catalog, entries, id) {
        var j :| 0 <= j < |entries| && SeedsOne(entries[j].value, id);
        assert j < n ==> SeedsOne(entries[..n][j].value, id);
      }
    }
  }

  /**
   * A store started without a snapshot is sound. Started from a snapshot its selections by config are sound exactly
   * when each names a config that the snapshot itself seeds, of its own kind, as a published seeded config does.
   */
  lemma SeedIsSound(catalog: seq<Installation>, initial: Option<Initial>)
    ensures DraftsSound(catalog, Seed(catalog, initial)) <==>
      initial.Some? ==> NamesOnlySeeded(catalog, initial.value.providers)
    ensures PublishedSound(catalog, Seed(catalog, initial)) <==>
      initial.Some? ==> NamesOnlySeeded(catalog, initial.value.providers)
    ensures SecretsSound(Seed(catalog, initial)) && DraftsLive(Seed(catalog, initial))
    ensures DistinctDisplayNames(catalog) ==> NamesSound(Seed(catalog, initial))
  {
    if initial.Some? {
      var snap := initial.value;
      var s := Seed(catalog, initial);
      forall id
        ensures id in s.configs <==> Seeds(catalog, snap.providers, id)
        ensures id in s.configs ==>
          s.configs[id] == Config(LOCAL_OWNER, id, Find(catalog, id).value.displayName, true, false, [], 1, "")
      {
        SeedConfigsSpec(catalog, snap.providers, id);
      }
      assert s.assistants[snap.assistantId].selections == snap.providers;
      SeedServes(catalog, snap.providers, s.configs);
      if DistinctDisplayNames(catalog) {
        forall c, d | c in s.configs && d in s.configs && c != d
          ensures s.configs[c].name != s.configs[d].name
        {
          FindFinds(catalog, c);
          FindFinds(catalog, d);
        }
      }
    }
  }

  lemma SeedServes(catalog: seq<Installation>, entries: seq<Entry>, configs: map<string, Config>)
    requires configs == SeedConfigs(catalog, entries)
    ensures EntriesServed(catalog, configs, LOCAL_OWNER, entries) <==> NamesOnlySeeded(catalog, entries)
  {
    forall i | 0 <= i < |entries| && !entries[i].value.disabled && entries[i].value.configId.Some?
      ensures var id := entries[i].value.configId.value;
        Serves(catalog, configs, LOCAL_OWNER, entries[i].kind, id) <==>
          Seeds(catalog, entries, id) && Find(catalog, id).value.kind == entries[i].kind
    {
      SeedConfigsSpec(catalog, entries, entries[i].value.configId.value);
    }
  }

  // -------------------------------------------------------------------------- all runs

  lemma {:induction false} RunKeepsDrafts(catalog: seq<Installation>, s: Store, ops: seq<Op>)
    requires DraftsSound(catalog, s) && IsRun(catalog, s, ops)
    ensures DraftsSound(catalog, Final(catalog, s, ops))
    decreases ops
  {
    if ops != [] {
      StepKeepsDrafts(catalog, s, ops[0]);
      RunKeepsDrafts(catalog, Step(catalog, s, ops[0]).0, ops[1..]);
    }
  }

  lemma {:induction false} RunKeepsSecrets(catalog: seq<Installation>, s: Store, ops: seq<Op>)
    requires SecretsSound(s) && IsRun(catalog, s, ops)
    ensures SecretsSound(Final(catalog, s, ops))
    decreases ops
  {
    if ops != [] {
      StepKeepsSecrets(catalog, s, ops[0]);
      RunKeepsSecrets(catalog, Step(catalog, s, ops[0]).0, ops[1..]);
    }
  }

  lemma {:induction false} RunKeepsNames(catalog: seq<Installation>, s: Store, ops: seq<Op>)
    requires NamesSound(s) && IsRun(catalog, s, ops)
    ensures NamesSound(Final(catalog, s, ops))
    decreases ops
  {
    if ops != [] {
      StepKeepsNames(catalog, s, ops[0]);
      RunKeepsNames(catalog, Step(catalog, s, ops[0]).0, ops[1..]);
    }
  }

  lemma {:induction false} RunKeepsPublished(catalog: seq<Installation>, s: Store, ops: seq<Op>)
    requires DraftsSound(catalog, s) && PublishedSound(catalog, s) && IsRun(catalog, s, ops)
    requires forall i :: 0 <= i < |ops| ==> !ops[i].SetsRuntime?
    ensures PublishedSound(catalog, Final(catalog, s, ops))
    decreases ops
  {
    if ops != [] {
      StepKeepsDrafts(catalog, s, ops[0]);
      StepKeepsPublished(catalog, s, ops[0]);
      RunKeepsPublished(catalog, Step(catalog, s, ops[0]).0, ops[1..]);
    }
  }

  lemma HistoryGrows(catalog: seq<Installation>, s: Store, op: Op, c: string)
    requires FreshFor(s, op) && SecretsSound(s) && c in s.configs
    ensures var t := Step(catalog, s, op).0;
      c in t.configs && t.configs[c].ownerId == s.configs[c].ownerId && c in t.history && s.history[c] <= t.history[c]
  {
  }

  /** A secret reference some config is bound to now still exists after any run, for the config's owner. */
  lemma {:induction false} BoundSecretSurvives(catalog: seq<Installation>, s: Store, ops: seq<Op>, c: string,
                                               ref: string)
    requires SecretsSound(s) && IsRun(catalog, s, ops) && c in s.configs && ref in s.history[c]
    ensures var t := Final(catalog, s, ops);
      && c in t.configs && t.configs[c].ownerId == s.configs[c].ownerId
      && ref in t.secrets && t.secrets[ref].ownerId == s.configs[c].ownerId
    decreases ops
  {
    if ops != [] {
      StepKeepsSecrets(catalog, s, ops[0]);
      HistoryGrows(catalog, s, ops[0], c);
      BoundSecretSurvives(catalog, Step(catalog, s, ops[0]).0, ops[1..], c, ref);
    }
  }

  /**
   * From a fresh start that names no config but the seeded ones, after any sequence of calls: every draft selection
   * by config is served, and every reference a config is or was bound to exists.
   */
  lemma EveryRunIsSafe(catalog: seq<Installation>, initial: Option<Initial>, ops: seq<Op>)
    requires initial.Some? ==> NamesOnlySeeded(catalog, initial.value.providers)
    requires IsRun(catalog, Seed(catalog, initial), ops)
    ensures DraftsSound(catalog, Final(catalog, Seed(catalog, initial), ops))
    ensures SecretsSound(Final(catalog, Seed(catalog, initial), ops))
  {
    SeedIsSound(catalog, initial);
    RunKeepsDrafts(catalog, Seed(catalog, initial), ops);
    RunKeepsSecrets(catalog, Seed(catalog, initial), ops);
  }

  // ---------------------------------------------------- exactly when each call succeeds

  /** Of the installations with this id the first counts. */
  ghost predicate IsFirst(catalog: seq<Installation>, id: string, inst: Installation) {
    exists i :: 0 <= i < |catalog| && catalog[i] == inst && inst.id == id
                && forall j :: 0 <= j < i ==> catalog[j].id != id
  }

  lemma {:induction false} FindIsFirst(catalog: seq<Installation>, id: string)
    ensures Find(catalog, id).Some? ==> IsFirst(catalog, id, Find(catalog, id).value)
    ensures Find(catalog, id) == None <==> forall i :: 0 <= i < |catalog| ==> catalog[i].id != id
  {
    if catalog != [] && catalog[0].id != id {
      FindIsFirst(catalog[1..], id);
      assert forall i :: 1 <= i < |catalog| ==> catalog[i] == catalog[1..][i - 1];
      if Find(catalog, id).Some? {
        var i :| 0 <= i < |catalog| - 1 && catalog[1..][i] == Find(catalog, id).value
                 && forall j :: 0 <= j < i ==> catalog[1..][j].id != id;
        assert forall j :: 0 <= j < i + 1 ==> catalog[j].id != id;
      }
    }
  }

  /** No more references than there are fields, none twice, all of them the owner's and with a secret behind them. */
  ghost predicate CanBind(s: Store, owner: string, fields: nat, refs: seq<string>) {
    && |refs| <= fields
    && (forall i, j :: 0 <= i < j < |refs| ==> refs[i] != refs[j])
    && forall r :: r in refs ==> r in s.secrets && s.secrets[r].ownerId == owner && s.secrets[r].available
  }

  ghost predicate NameIsFree(s: Store, owner: string, name: string, but: Option<string>) {
    forall id :: id in s.configs && s.configs[id].ownerId == owner && s.configs[id].name == name && but != Some(id) ==>
      s.configs[id].archived
  }

  /** The settings of a request, in the order in which they are found wanting. */
  lemma SettingsExactly(s: Store, owner: string, inst: Installation, name: Option<string>, but: Option<string>,
                        refs: seq<string>, fits: bool)
    ensures CheckSettings(s, owner, inst, name, but, refs, fits) ==
      if !fits || name == Some("") then Failed(ConfigInvalid)
      else if name.Some? && !NameIsFree(s, owner, name.value, but) then Failed(NameConflict)
      else if !CanBind(s, owner, inst.secretFields, refs) then Failed(SecretInvalid)
      else Done
  {
  }

  /** What a new config is, and why there may be none. */
  lemma CreatesExactly(catalog: seq<Installation>, s: Store, owner: string, newId: string, installationId: string,
                       name: string, fits: bool, refs: seq<string>, etag: string)
    ensures var (t, outcome) := CreateConfig(catalog, s, owner, newId, installationId, name, fits, refs, etag);
      && (outcome != Done ==> t == s)
      && (outcome == Failed(NotInstalled) <==> forall i :: 0 <= i < |catalog| ==> catalog[i].id != installationId)
      && (outcome == Done <==>
            && fits && name != "" && NameIsFree(s, owner, name, None)
            && exists inst :: IsFirst(catalog, installationId, inst) && CanBind(s, owner, inst.secretFields, refs))
      && (outcome == Done ==>
            && t.configs == s.configs[newId := Config(owner, installationId, name, true, false, refs, 1, etag)]
            && newId in t.history && (forall r :: r in t.history[newId] <==> r in refs)
            && t == s.(configs := t.configs, history := s.history[newId := t.history[newId]]))
  {
    FindIsFirst(catalog, installationId);
    match Find(catalog, installationId)
    case None =>
    case Some(inst) => SettingsExactly(s, owner, inst, Some(name), None, refs, fits);
  }

  /** The owner's config, not deleted, in the version the caller has seen. */
  predicate SeenConfig(s: Store, owner: string, id: string, ifMatch: string) {
    id in s.configs && s.configs[id].ownerId == owner && !s.configs[id].archived && s.configs[id].etag == ifMatch
  }

  /** When an update may change a config. */
  lemma UpdatesExactly(catalog: seq<Installation>, s: Store, owner: string, id: string, name: Option<string>,
                       fits: bool, newRefs: Option<seq<string>>, ifMatch: string, etag: string)
    ensures var (t, outcome) := UpdateConfig(catalog, s, owner, id, name, fits, newRefs, ifMatch, etag);
      && (outcome != Done ==> t == s)
      && (outcome == Done <==>
            && SeenConfig(s, owner, id, ifMatch)
            && fits && name != Some("") && (name.Some? ==> NameIsFree(s, owner, name.value, Some(id)))
            && var c := s.configs[id]; var refs := if newRefs.Some? then newRefs.value else c.secretRefs;
               exists inst :: IsFirst(catalog, c.installationId, inst) && CanBind(s, owner, inst.secretFields, refs))
  {
    if id in s.configs {
      var c := s.configs[id];
      var refs := if newRefs.Some? then newRefs.value else c.secretRefs;
      FindIsFirst(catalog, c.installationId);
      match Find(catalog, c.installationId)
      case None =>
      case Some(inst) => SettingsExactly(s, owner, inst, name, Some(id), refs, fits);
    }
  }

  /** And what it changes. */
  lemma UpdateChanges(catalog: seq<Installation>, s: Store, owner: string, id: string, name: Option<string>,
                      fits: bool, newRefs: Option<seq<string>>, ifMatch: string, etag: string)
    requires UpdateConfig(catalog, s, owner, id, name, fits, newRefs, ifMatch, etag).1 == Done
    ensures var t := UpdateConfig(catalog, s, owner, id, name, fits, newRefs, ifMatch, etag).0;
      && id in s.configs && id in t.history
      && var c := s.configs[id]; var refs := if newRefs.Some? then newRefs.value else c.secretRefs;
      && t.configs == s.configs[id := Config(owner, c.installationId, if name.Some? then name.value else c.name,
                                             c.enabled, false, refs, c.revision + 1, etag)]
      && (forall r :: r in t.history[id] <==> r in refs || (id in s.history && r in s.history[id]))
      && t == s.(configs := t.configs, history := s.history[id := t.history[id]])
  {
  }

  ghost predicate Names(entries: seq<Entry>, id: string) {
    exists e :: e in entries && Some(id) in {e.value.configId, e.value.providerId}
  }

  /** A draft of the owner's names the id, or the snapshot published last does and its assistant is published. */
  ghost predicate SelectedByOwner(s: Store, owner: string, id: string) {
    exists a :: a in s.assistants && s.assistants[a].ownerId == owner
      && (|| Names(s.assistants[a].selections, id)
          || (s.assistants[a].publishedRevision.Some? && s.publication.Some? && s.publication.value.assistantId == a
              && Names(s.publication.value.providers, id)))
  }

  lemma MentionsExactly(entries: seq<Entry>, id: string)
    ensures Mentions(entries, id) <==> Names(entries, id)
  {
  }

  lemma InUseExactly(s: Store, owner: string, id: string)
    ensures InUse(s, owner, id) <==> SelectedByOwner(s, owner, id)
  {
    forall a | a in s.assistants
      ensures Mentions(s.assistants[a].selections, id) <==> Names(s.assistants[a].selections, id)
    {
      MentionsExactly(s.assistants[a].selections, id);
    }
    if s.publication.Some? {
      MentionsExactly(s.publication.value.providers, id);
    }
    if InUse(s, owner, id) {
      var a :| a in s.assistants && s.assistants[a].ownerId == owner && UsedBy(s, a, id);
    }
    if SelectedByOwner(s, owner, id) {
      var a :| a in s.assistants && s.assistants[a].ownerId == owner
        && (|| Names(s.assistants[a].selections, id)
            || (s.assistants[a].publishedRevision.Some? && s.publication.Some?
                && s.publication.value.assistantId == a && Names(s.publication.value.providers, id)));
      assert UsedBy(s, a, id);
    }
  }

  /** A config is disabled or deleted exactly when its owner, having seen it, does not use it; enabling is free. */
  lemma WithdrawsExactly(s: Store, owner: string, id: string, enabled: bool, ifMatch: string, etag: string)
    ensures var (t, outcome) := SetEnabled(s, owner, id, enabled, ifMatch, etag);
      && (outcome == Done <==> SeenConfig(s, owner, id, ifMatch) && (enabled || !SelectedByOwner(s, owner, id)))
      && t == if outcome == Done then s.(configs := s.configs[id := s.configs[id].(enabled := enabled, etag := etag)])
              else s
    ensures var (t, outcome) := DeleteConfig(s, owner, id, ifMatch);
      && (outcome == Done <==> SeenConfig(s, owner, id, ifMatch) && !SelectedByOwner(s, owner, id))
      && t == if outcome == Done then s.(configs := s.configs[id := s.configs[id].(archived := true)]) else s
  {
    InUseExactly(s, owner, id);
  }

  /** What a draft may select: nothing, or an enabled config of the owner's whose installation is of that kind. */
  lemma SelectsExactly(catalog: seq<Installation>, s: Store, owner: string, id: string, kind: string, shaped: bool,
                       choice: Option<string>, ifMatch: string, etag: string)
    ensures var (t, outcome) := Select(catalog, s, owner, id, kind, shaped, choice, ifMatch, etag);
      && (outcome != Done ==> t == s)
      && (outcome == Done <==>
            && shaped && id in s.assistants && s.assistants[id].ownerId == owner && s.assistants[id].etag == ifMatch
            && (choice.Some? ==>
                  var c := choice.value;
                  && c in s.configs && s.configs[c].ownerId == owner && s.configs[c].enabled
                  && exists inst :: IsFirst(catalog, s.configs[c].installationId, inst) && inst.kind == kind))
      && (outcome == Done ==>
            var draft := Put(s.assistants[id].selections, kind, if choice.Some? then ByConfig(choice.value) else OFF);
            t == s.(assistants := s.assistants[id := s.assistants[id].(selections := draft,
                 draftRevision := s.assistants[id].draftRevision + 1, etag := etag)]))
  {
    if choice.Some? && choice.value in s.configs {
      FindIsFirst(catalog, s.configs[choice.value].installationId);
    }
  }

  ghost predicate BoundFully(catalog: seq<Installation>, installationId: string, refs: seq<string>) {
    && (forall i, j :: 0 <= i < j < |refs| ==> refs[i] != refs[j])
    && exists inst :: IsFirst(catalog, installationId, inst) && |refs| == inst.secretFields
  }

  predicate BringsSettings(v: Selection) {
    v.providerId.Some? && v.inlined
  }

  /**
   * When publishing can resolve a selection, and to what: one that is off stays off, one that brings its settings
   * stays as it is, and a config is looked up and its installation and references filled in.
   */
  lemma ResolvesExactly(catalog: seq<Installation>, configs: map<string, Config>, v: Selection)
    ensures Resolve(catalog, configs, v).Resolved? <==>
      || v.disabled
      || (BringsSettings(v) && BoundFully(catalog, v.providerId.value, v.secretRefs))
      || (!BringsSettings(v) && v.configId.Some? && v.configId.value in configs
          && var c := configs[v.configId.value]; BoundFully(catalog, c.installationId, c.secretRefs))
    ensures Resolve(catalog, configs, v).Resolved? ==>
      var w := Resolve(catalog, configs, v).value;
      if v.disabled then w == OFF
      else if BringsSettings(v) then w == v
      else
        var c := configs[v.configId.value];
        w == Selection(false, Some(c.installationId), true, v.configId, c.secretRefs)
  {
    if BringsSettings(v) {
      FindIsFirst(catalog, v.providerId.value);
    } else if v.configId.Some? && v.configId.value in configs {
      FindIsFirst(catalog, configs[v.configId.value].installationId);
    }
  }

  /** When an assistant can be published, and what that changes. */
  lemma PublishesExactly(catalog: seq<Installation>, s: Store, owner: string, id: string, ifMatch: Option<string>)
    ensures var (t, outcome) := Publish(catalog, s, owner, id, ifMatch);
      && (outcome == Done <==>
            && id in s.assistants && s.assistants[id].ownerId == owner && s.assistants[id].roleComplete
            && ifMatch in {None, Some(""), Some(s.assistants[id].etag)}
            && forall i :: 0 <= i < |s.assistants[id].selections| ==>
                 Resolve(catalog, s.configs, s.assistants[id].selections[i].value).Resolved?)
      && (outcome != Done ==> t == s)
      && (outcome == Done ==>
            var a := s.assistants[id];
            && t.publication.Some? && t == s.(publication := t.publication,
                 assistants := s.assistants[id := a.(publishedRevision := Some(a.draftRevision))])
            && t.publication.value.assistantId == id && t.publication.value.revision == a.draftRevision
            && Whole(t.publication.value.providers) == ResolveAll(catalog, s.configs, a.selections))
  {
    if id in s.assistants {
      ResolveAllSpec(catalog, s.configs, s.assistants[id].selections);
    }
  }

  /** A draft starts at revision 1 and goes up by one with every edit of it that succeeds, and only then. */
  lemma DraftRevisionsCount(catalog: seq<Installation>, s: Store, op: Op, a: string)
    requires FreshFor(s, op) && a in Step(catalog, s, op).0.assistants
    ensures var (t, outcome) := Step(catalog, s, op);
      if a !in s.assistants then t.assistants[a].draftRevision == 1
      else
        t.assistants[a].draftRevision - s.assistants[a].draftRevision ==
        if outcome == Done && (op.UpdatesRole? || op.Selects?) && op.id == a then 1 else 0
  {
  }

  /** A run goes on one call at a time. */
  lemma {:induction false} RunGoesOn(catalog: seq<Installation>, s: Store, ops: seq<Op>, op: Op)
    ensures Final(catalog, s, []) == s
    ensures Final(catalog, s, ops + [op]) == Step(catalog, Final(catalog, s, ops), op).0
    decreases ops
  {
    if ops == [] {
      assert [op][1..] == [];
    } else {
      assert (ops + [op])[1..] == ops[1..] + [op];
      RunGoesOn(catalog, Step(catalog, s, ops[0]).0, ops[1..], op);
    }
  }

  /** A reference goes exactly when its owner, having seen it, has never bound it to any of the owner's configs. */
  lemma DropsExactly(s: Store, owner: string, id: string, ifMatch: string)
    ensures var (t, outcome) := DeleteSecret(s, owner, id, ifMatch);
      && (outcome == Done <==>
            && id in s.secrets && s.secrets[id].ownerId == owner && s.secrets[id].etag == ifMatch
            && forall c :: c in s.configs && s.configs[c].ownerId == owner && c in s.history ==> id !in s.history[c])
      && t == if outcome == Done then s.(secrets := s.secrets - {id}) else s
  {
  }

  // ---------------------------------------------------------------------- consequences

  /** The selected config is bound to as many secrets as its installation declares. */
  predicate FullyBound(catalog: seq<Installation>, configs: map<string, Config>, v: Selection) {
    && v.configId.Some? && v.configId.value in configs
    && var c := configs[v.configId.value];
       var inst := Find(catalog, c.installationId);
       inst.Some? && BindingsFit(inst.value.secretFields, c.secretRefs, true)
  }

  /** What selecting and disabling write. */
  predicate IsChoice(v: Selection) {
    v == OFF || (v.configId.Some? && v == ByConfig(v.configId.value))
  }

  /**
   * With only config selections in a sound draft, publishing a complete role can fail for one reason: a selected
   * config that is not bound to all the secrets its installation declares.
   */
  lemma PublishNeverDangles(catalog: seq<Installation>, s: Store, owner: string, id: string)
    requires DraftsSound(catalog, s) && CheckAssistant(s, owner, id, None) == Done && s.assistants[id].roleComplete
    requires forall i :: 0 <= i < |s.assistants[id].selections| ==> IsChoice(s.assistants[id].selections[i].value)
    ensures Publish(catalog, s, owner, id, None).1 in {Done, Failed(SecretInvalid)}
    ensures Publish(catalog, s, owner, id, None).1 == Done <==>
      forall i :: 0 <= i < |s.assistants[id].selections| && s.assistants[id].selections[i].value != OFF ==>
        FullyBound(catalog, s.configs, s.assistants[id].selections[i].value)
  {
    var entries := s.assistants[id].selections;
    ResolveAllSpec(catalog, s.configs, entries);
    assert EntriesServed(catalog, s.configs, owner, entries);
    var r := ResolveAll(catalog, s.configs, entries);
    if r.Whole? {
      forall i | 0 <= i < |entries| && entries[i].value != OFF
        ensures FullyBound(catalog, s.configs, entries[i].value)
      {
        assert Resolve(catalog, s.configs, entries[i].value) == Resolved(r.providers[i].value);
      }
    }
  }

  /**
   * Selecting does not ask whether a config was deleted: a deleted config that was enabled can still be selected,
   * and from then on nobody can change, disable or delete it.
   */
  lemma DeletedConfigCanBeSelected(catalog: seq<Installation>, s: Store, owner: string, c: string, a: string,
                                   kind: string, etag: string)
    requires Serves(catalog, s.configs, owner, kind, c) && CheckAssistant(s, owner, a, None) == Done
    requires DeleteConfig(s, owner, c, s.configs[c].etag).1 == Done
    ensures var deleted := DeleteConfig(s, owner, c, s.configs[c].etag).0;
      var (after, outcome) := Select(catalog, deleted, owner, a, kind, true, Some(c), s.assistants[a].etag, etag);
      && outcome == Done && after.configs[c].archived && Mentions(after.assistants[a].selections, c)
      && forall ifMatch :: CheckCurrent(after, owner, c, ifMatch) == Failed(NotFound)
  {
    PutHolds(s.assistants[a].selections, kind, ByConfig(c));
  }

  /** The call passes every check and selects a config that was deleted. */
  predicate ChoosesDeleted(catalog: seq<Installation>, s: Store, op: Op) {
    && op.Selects? && op.shaped && op.choice.Some? && CheckAssistant(s, op.owner, op.id, Some(op.ifMatch)) == Done
    && CheckChoice(catalog, s, op.owner, op.kind, op.choice) == Done && s.configs[op.choice.value].archived
  }

  /** A call that selects nothing deleted leaves no deleted config in a draft: what is in use is not deleted. */
  lemma StepKeepsLive(catalog: seq<Installation>, s: Store, op: Op)
    requires DraftsSound(catalog, s) && DraftsLive(s) && FreshFor(s, op) && !ChoosesDeleted(catalog, s, op)
    ensures DraftsLive(Step(catalog, s, op).0)
  {
    var t := Step(catalog, s, op).0;
    forall a, i | a in t.assistants && 0 <= i < |t.assistants[a].selections|
      ensures !SelectsDeleted(t.configs, t.assistants[a].selections[i].value)
    {
      var entries, e := t.assistants[a].selections, t.assistants[a].selections[i];
      if op.Selects? && a == op.id && entries != s.assistants[a].selections {
        PutEntries(s.assistants[a].selections, op.kind, Chosen(op.choice), i);
      } else if a in s.assistants {
        DeletedIsUnused(catalog, s, op, a, i);
      }
    }
  }

  /** A config that a draft selects is not deleted by any call. */
  lemma DeletedIsUnused(catalog: seq<Installation>, s: Store, op: Op, a: string, i: nat)
    requires DraftsSound(catalog, s) && FreshFor(s, op) && a in s.assistants && i < |s.assistants[a].selections|
    requires !SelectsDeleted(s.configs, s.assistants[a].selections[i].value)
    ensures !SelectsDeleted(Step(catalog, s, op).0.configs, s.assistants[a].selections[i].value)
  {
    var v := s.assistants[a].selections[i].value;
    if !v.disabled && v.configId.Some? {
      var id := v.configId.value;
      assert EntriesServed(catalog, s.configs, s.assistants[a].ownerId, s.assistants[a].selections);
      assert Serves(catalog, s.configs, s.assistants[a].ownerId, s.assistants[a].selections[i].kind, id);
      assert Mentions(s.assistants[a].selections, id);
      assert UsedBy(s, a, id) && InUse(s, s.configs[id].ownerId, id);
    }
  }

  /** Selecting a deleted config does put it into the draft. */
  lemma ChoosingDeletedBreaksLive(catalog: seq<Installation>, s: Store, op: Op)
    requires ChoosesDeleted(catalog, s, op)
    ensures !DraftsLive(Step(catalog, s, op).0)
  {
    var entries := s.assistants[op.id].selections;
    PutHolds(entries, op.kind, ByConfig(op.choice.value));
    var t := Step(catalog, s, op).0;
    var i :| 0 <= i < |t.assistants[op.id].selections|
      && t.assistants[op.id].selections[i] == Entry(op.kind, ByConfig(op.choice.value));
    assert SelectsDeleted(t.configs, t.assistants[op.id].selections[i].value);
  }

  /** No state of the run has a deleted config in a draft. */
  predicate AlwaysLive(catalog: seq<Installation>, s: Store, ops: seq<Op>)
    decreases ops
  {
    DraftsLive(s) && (ops == [] || AlwaysLive(catalog, Step(catalog, s, ops[0]).0, ops[1..]))
  }

  predicate NeverChoosesDeleted(catalog: seq<Installation>, s: Store, ops: seq<Op>)
    decreases ops
  {
    ops == [] ||
    (!ChoosesDeleted(catalog, s, ops[0]) && NeverChoosesDeleted(catalog, Step(catalog, s, ops[0]).0, ops[1..]))
  }

  /** Drafts keep to configs that were not deleted exactly as long as no call selects a deleted one. */
  lemma {:induction false} LiveUnlessDeletedIsChosen(catalog: seq<Installation>, s: Store, ops: seq<Op>)
    requires DraftsSound(catalog, s) && DraftsLive(s) && IsRun(catalog, s, ops)
    ensures AlwaysLive(catalog, s, ops) <==> NeverChoosesDeleted(catalog, s, ops)
    decreases ops
  {
    if ops != [] {
      var next := Step(catalog, s, ops[0]).0;
      if ChoosesDeleted(catalog, s, ops[0]) {
        ChoosingDeletedBreaksLive(catalog, s, ops[0]);
      } else {
        StepKeepsLive(catalog, s, ops[0]);
        StepKeepsDrafts(catalog, s, ops[0]);
        LiveUnlessDeletedIsChosen(catalog, next, ops[1..]);
      }
    }
  }

  /** A deleted config stays exactly as it is, over any run: nobody can change, disable or restore it. */
  lemma {:induction false} DeletedIsFrozen(catalog: seq<Installation>, s: Store, ops: seq<Op>, c: string)
    requires IsRun(catalog, s, ops) && c in s.configs && s.configs[c].archived && c in s.history
    ensures c in Final(catalog, s, ops).configs && Final(catalog, s, ops).configs[c] == s.configs[c]
    decreases ops
  {
    if ops != [] {
      DeletedStaysOneStep(catalog, s, ops[0], c);
      DeletedIsFrozen(catalog, Step(catalog, s, ops[0]).0, ops[1..], c);
    }
  }

  lemma DeletedStaysOneStep(catalog: seq<Installation>, s: Store, op: Op, c: string)
    requires FreshFor(s, op) && c in s.configs && s.configs[c].archived && c in s.history
    ensures var t := Step(catalog, s, op).0; c in t.configs && t.configs[c] == s.configs[c] && c in t.history
  {
  }

  lemma {:induction false} PutHolds(entries: seq<Entry>, kind: string, value: Selection)
    ensures exists i :: 0 <= i < |Put(entries, kind, value)| && Put(entries, kind, value)[i] == Entry(kind, value)
  {
    if entries != [] && entries[0].kind != kind {
      PutHolds(entries[1..], kind, value);
      var i :| 0 <= i < |Put(entries[1..], kind, value)| && Put(entries[1..], kind, value)[i] == Entry(kind, value);
      assert Put(entries, kind, value)[i + 1] == Entry(kind, value);
    } else {
      assert Put(entries, kind, value)[0] == Entry(kind, value);
    }
  }

  /** The selection of a kind, if there is one. */
  function Selected(entries: seq<Entry>, kind: string): Option<Selection> {
    if entries == [] then None
    else if entries[0].kind == kind then Some(entries[0].value)
    else Selected(entries[1..], kind)
  }

  /** Choosing for one kind sets that kind's selection and leaves every other as it was. */
  lemma {:induction false} PutSelects(entries: seq<Entry>, kind: string, value: Selection, other: string)
    ensures Selected(Put(entries, kind, value), other) ==
      if other == kind then Some(value) else Selected(entries, other)
  {
    if entries != [] {
      if entries[0].kind == kind {
        assert Put(entries, kind, value)[1..] == entries[1..];
      } else {
        PutSelects(entries[1..], kind, value, other);
        assert Put(entries, kind, value)[1..] == Put(entries[1..], kind, value);
      }
    }
  }

  ghost predicate OnlyKindChanged(before: seq<Entry>, after: seq<Entry>, kind: string, value: Selection) {
    forall k :: Selected(after, k) == if k == kind then Some(value) else Selected(before, k)
  }

  lemma PutChangesOnlyKind(entries: seq<Entry>, kind: string, value: Selection)
    ensures OnlyKindChanged(entries, Put(entries, kind, value), kind, value)
  {
    forall k
      ensures Selected(Put(entries, kind, value), k) == if k == kind then Some(value) else Selected(entries, k)
    {
      PutSelects(entries, kind, value, k);
    }
  }

  /** What every call keeps, and what it therefore owes to whoever calls it. */
  predicate Keeps(catalog: seq<Installation>, s: Store, t: Store) {
    && (DraftsSound(catalog, s) ==> DraftsSound(catalog, t))
    && (SecretsSound(s) ==> SecretsSound(t))
    && (NamesSound(s) ==> NamesSound(t))
  }

  lemma StepKeeps(catalog: seq<Installation>, s: Store, op: Op)
    ensures FreshFor(s, op) ==> Keeps(catalog, s, Step(catalog, s, op).0)
  {
    if FreshFor(s, op) {
      if DraftsSound(catalog, s) { StepKeepsDrafts(catalog, s, op); }
      if SecretsSound(s) { StepKeepsSecrets(catalog, s, op); }
      if NamesSound(s) { StepKeepsNames(catalog, s, op); }
    }
  }

  // --------------------------------------------------------------------------- the code

  class ProviderStore {
    const catalog: seq<Installation>
    var configs: map<string, Config>
    var history: map<string, set<string>>
    var assistants: map<string, Assistant>
    var publication: Option<Publication>
    var secrets: map<string, Secret>

    ghost function Model(): Store
      reads this
    {
      Store(configs, history, assistants, publication, secrets)
    }

    constructor (catalog: seq<Installation>, initial: Option<Initial>)
      ensures this.catalog == catalog && Model() == Seed(catalog, initial)
    {
      this.catalog := catalog;
      configs, history, assistants, publication, secrets := map[], map[], map[], None, map[];
      new;
      if initial.Some? {
        var snap := initial.value;
        assistants := map[snap.assistantId :=
          Assistant(LOCAL_OWNER, snap.providers, snap.roleComplete, snap.revision, Some(snap.revision), snap.etag)];
        publication := Some(Publication(snap.assistantId, snap.revision, snap.providers));
        SeedFrom(snap.providers);
      }
    }

    /** The constructor's loop over the snapshot's providers. */
    method SeedFrom(entries: seq<Entry>)
      requires configs == map[] && history == map[]
      modifies this`configs, this`history
      ensures configs == SeedConfigs(catalog, entries) && history == map id | id in configs :: {}
    {
      for k := 0 to |entries|
        invariant configs == SeedConfigs(catalog, entries[..k])
        invariant history == map id | id in configs :: {}
      {
        assert entries[..k + 1][..k] == entries[..k];
        var v := entries[k].value;
        if v.disabled || v.providerId.None? || !v.inlined {
          continue;
        }
        var id, inst := v.providerId.value, Find(catalog, v.providerId.value);
        if inst.None? {
          continue;
        }
        configs := configs[id := Config(LOCAL_OWNER, id, inst.value.displayName, true, false, [], 1, "")];
        history := history[id := {}];
      }
      assert entries[..|entries|] == entries;
    }

    method CreateProviderConfig(owner: string, newId: string, installationId: string, name: string, fits: bool,
                                refs: seq<string>, etag: string) returns (outcome: Outcome)
      modifies this`configs, this`history
      ensures (Model(), outcome) ==
        CreateConfig(catalog, old(Model()), owner, newId, installationId, name, fits, refs, etag)
      ensures newId !in old(configs) && newId !in old(history) ==> Keeps(catalog, old(Model()), Model())
    {
      StepKeeps(catalog, Model(), CreatesConfig(owner, newId, installationId, name, fits, refs, etag));
      var inst := Find(catalog, installationId);
      if inst.None? {
        return Failed(NotInstalled);
      }
      outcome := CheckRequest(owner, inst.value, Some(name), None, refs, fits);
      if outcome == Done {
        configs := configs[newId := Config(owner, installationId, name, true, false, refs, 1, etag)];
        history := history[newId := set r | r in refs];
      }
    }

    /** The checks createProviderConfig and updateProviderConfig share, in their order. */
    method CheckRequest(owner: string, inst: Installation, name: Option<string>, except: Option<string>,
                        refs: seq<string>, fits: bool) returns (outcome: Outcome)
      ensures outcome == CheckSettings(Model(), owner, inst, name, except, refs, fits)
    {
      if !fits || name == Some("") {
        return Failed(ConfigInvalid);
      }
      if name.Some? && NameTaken(configs, owner, name.value, except) {
        return Failed(NameConflict);
      }
      if !BindingsFit(inst.secretFields, refs, false) {
        return Failed(SecretInvalid);
      }
      for k := 0 to |refs|
        invariant forall i :: 0 <= i < k ==> Usable(secrets, owner, refs[i])
      {
        if !Usable(secrets, owner, refs[k]) {
          return Failed(SecretInvalid);
        }
      }
      return Done;
    }

    method UpdateProviderConfig(owner: string, id: string, name: Option<string>, fits: bool,
                                newRefs: Option<seq<string>>, ifMatch: string, etag: string) returns (outcome: Outcome)
      modifies this`configs, this`history
      ensures (Model(), outcome) == UpdateConfig(catalog, old(Model()), owner, id, name, fits, newRefs, ifMatch, etag)
      ensures Keeps(catalog, old(Model()), Model())
    {
      StepKeeps(catalog, Model(), UpdatesConfig(owner, id, name, fits, newRefs, ifMatch, etag));
      outcome := CheckConfig(owner, id, ifMatch);
      if outcome != Done {
        return;
      }
      var current := configs[id];
      var inst := Find(catalog, current.installationId);
      if inst.None? {
        return Failed(NotInstalled);
      }
      var refs := if newRefs.Some? then newRefs.value else current.secretRefs;
      outcome := CheckRequest(owner, inst.value, name, Some(id), refs, fits);
      if outcome == Done {
        SaveConfig(id, current.(name := if name.Some? then name.value else current.name, secretRefs := refs,
                                revision := current.revision + 1, etag := etag));
      }
    }

    /** Stores the next revision and adds its references to the historical ones. */
    method SaveConfig(id: string, next: Config)
      modifies this`configs, this`history
      ensures configs == old(configs)[id := next]
      ensures history ==
        old(history)[id := (if id in old(history) then old(history)[id] else {}) + set r | r in next.secretRefs]
    {
      configs := configs[id := next];
      var all := Remember(if id in history then history[id] else {}, next.secretRefs);
      history := history[id := all];
    }

    method CheckConfig(owner: string, id: string, ifMatch: string) returns (outcome: Outcome)
      ensures outcome == CheckCurrent(Model(), owner, id, ifMatch)
    {
      if id !in configs || configs[id].ownerId != owner || configs[id].archived {
        return Failed(NotFound);
      }
      return if configs[id].etag != ifMatch then Failed(RevisionConflict) else Done;
    }

    /** The loop that adds the references to the set of historical ones. */
    static method Remember(past: set<string>, refs: seq<string>) returns (all: set<string>)
      ensures all == past + set r | r in refs
    {
      all := past;
      for k := 0 to |refs|
        invariant all == past + set r | r in refs[..k]
      {
        all := all + {refs[k]};
      }
      assert refs[..|refs|] == refs;
    }

    method SetProviderConfigEnabled(owner: string, id: string, enabled: bool, ifMatch: string, etag: string)
      returns (outcome: Outcome)
      modifies this`configs
      ensures (Model(), outcome) == SetEnabled(old(Model()), owner, id, enabled, ifMatch, etag)
      ensures Keeps(catalog, old(Model()), Model())
    {
      StepKeeps(catalog, Model(), SetsEnabled(owner, id, enabled, ifMatch, etag));
      outcome := CheckConfig(owner, id, ifMatch);
      if outcome != Done {
        return;
      }
      if !enabled {
        var used := ProviderConfigInUse(owner, id);
        if used {
          return Failed(ResourceInUse);
        }
      }
      configs := configs[id := configs[id].(enabled := enabled, etag := etag)];
    }

    method DeleteProviderConfig(owner: string, id: string, ifMatch: string) returns (outcome: Outcome)
      modifies this`configs
      ensures (Model(), outcome) == DeleteConfig(old(Model()), owner, id, ifMatch)
      ensures Keeps(catalog, old(Model()), Model())
    {
      StepKeeps(catalog, Model(), DeletesConfig(owner, id, ifMatch));
      outcome := CheckConfig(owner, id, ifMatch);
      if outcome != Done {
        return;
      }
      var used := ProviderConfigInUse(owner, id);
      if used {
        return Failed(ResourceInUse);
      }
      configs := configs[id := configs[id].(archived := true)];
    }

    method ProviderConfigInUse(owner: string, id: string) returns (used: bool)
      ensures used == InUse(Model(), owner, id)
    {
      var todo := assistants.Keys;
      while todo != {}
        invariant todo <= assistants.Keys
        invariant forall a :: a in assistants && a !in todo && assistants[a].ownerId == owner ==>
          !UsedBy(Model(), a, id)
        decreases todo
      {
        var a :| a in todo;
        todo := todo - {a};
        var assistant := assistants[a];
        if assistant.ownerId != owner {
          continue;
        }
        if Mentions(assistant.selections, id) {
          return true;
        }
        if assistant.publishedRevision.Some? && publication.Some? && publication.value.assistantId == a
           && Mentions(publication.value.providers, id) {
          return true;
        }
      }
      return false;
    }

    method UpdateProviderSelection(owner: string, id: string, kind: string, shaped: bool, choice: Option<string>,
                                   ifMatch: string, etag: string) returns (outcome: Outcome)
      modifies this`assistants
      ensures (Model(), outcome) == Select(catalog, old(Model()), owner, id, kind, shaped, choice, ifMatch, etag)
      ensures Keeps(catalog, old(Model()), Model())
      ensures outcome == Done ==>
        id in old(assistants) && id in assistants
        && OnlyKindChanged(old(assistants)[id].selections, assistants[id].selections, kind, Chosen(choice))
      ensures outcome == Done && choice.Some? ==> Serves(catalog, configs, owner, kind, choice.value)
    {
      StepKeeps(catalog, Model(), Selects(owner, id, kind, shaped, choice, ifMatch, etag));
      if id !in assistants || assistants[id].ownerId != owner {
        return Failed(NotFound);
      }
      var current := assistants[id];
      if current.etag != ifMatch {
        return Failed(RevisionConflict);
      }
      if !shaped {
        return Failed(ConfigInvalid);
      }
      if choice.Some? {
        if choice.value !in configs {
          return Failed(ConfigInvalid);
        }
        var selected := configs[choice.value];
        var inst := Find(catalog, selected.installationId);
        if selected.ownerId != owner || inst.None? || inst.value.kind != kind || !selected.enabled {
          return Failed(ConfigInvalid);
        }
      }
      PutChangesOnlyKind(current.selections, kind, Chosen(choice));
      assistants := assistants[id :=
        current.(selections := Put(current.selections, kind, Chosen(choice)),
                 draftRevision := current.draftRevision + 1,
                 etag := etag)];
      return Done;
    }

    /** An empty If-Match counts as none. */
    method PublishAssistant(owner: string, id: string, ifMatch: Option<string>) returns (outcome: Outcome)
      modifies this`assistants, this`publication
      ensures (Model(), outcome) == Publish(catalog, old(Model()), owner, id, ifMatch)
      ensures Keeps(catalog, old(Model()), Model())
    {
      StepKeeps(catalog, Model(), Publishes(owner, id, ifMatch));
      if id !in assistants || assistants[id].ownerId != owner {
        return Failed(NotFound);
      }
      var current := assistants[id];
      if ifMatch.Some? && ifMatch.value != "" && current.etag != ifMatch.value {
        return Failed(RevisionConflict);
      }
      if !current.roleComplete {
        return Failed(NotPublishable);
      }
      var resolved := ResolveProviders(current.selections);
      if resolved.Broken? {
        return Failed(resolved.problem);
      }
      assistants := assistants[id := current.(publishedRevision := Some(current.draftRevision))];
      publication := Some(Publication(id, current.draftRevision, resolved.providers));
      return Done;
    }

    /** The loop that builds the published providers. */
    method ResolveProviders(entries: seq<Entry>) returns (resolved: Snapshot)
      ensures resolved == ResolveAll(catalog, configs, entries)
    {
      var providers := [];
      for k := 0 to |entries|
        invariant ResolveAll(catalog, configs, entries) ==
          Prepend(providers, ResolveAll(catalog, configs, entries[k..]))
      {
        var r := Resolve(catalog, configs, entries[k].value);
        PrependOne(catalog, configs, providers, entries[k..]);
        assert entries[k..][1..] == entries[k + 1..];
        if r.Unresolved? {
          return Broken(r.problem);
        }
        providers := providers + [Entry(entries[k].kind, r.value)];
      }
      assert entries[|entries|..] == [];
      return Whole(providers);
    }

    method CreateAssistantRecord(owner: string, newId: string, etag: string)
      modifies this`assistants
      ensures (Model(), Done) == CreateAssistant(old(Model()), owner, newId, etag)
      ensures newId !in old(assistants) ==> Keeps(catalog, old(Model()), Model())
    {
      StepKeeps(catalog, Model(), CreatesAssistant(owner, newId, etag));
      assistants := assistants[newId := Assistant(owner, [], false, 1, None, etag)];
    }

    method UpdateAssistantRole(owner: string, id: string, complete: bool, ifMatch: string, etag: string)
      returns (outcome: Outcome)
      modifies this`assistants
      ensures (Model(), outcome) == UpdateRole(old(Model()), owner, id, complete, ifMatch, etag)
      ensures Keeps(catalog, old(Model()), Model())
    {
      StepKeeps(catalog, Model(), UpdatesRole(owner, id, complete, ifMatch, etag));
      if id !in assistants || assistants[id].ownerId != owner {
        return Failed(NotFound);
      }
      var current := assistants[id];
      if current.etag != ifMatch {
        return Failed(RevisionConflict);
      }
      assistants := assistants[id :=
        current.(roleComplete := complete, draftRevision := current.draftRevision + 1, etag := etag)];
      return Done;
    }

    method InstallRuntime(snapshot: Publication)
      modifies this`publication
      ensures (Model(), Done) == SetRuntime(old(Model()), snapshot)
      ensures Keeps(catalog, old(Model()), Model())
    {
      StepKeeps(catalog, Model(), SetsRuntime(snapshot));
      publication := Some(snapshot);
    }

    method CreateSecretReference(owner: string, newId: string, available: bool, etag: string)
      modifies this`secrets
      ensures (Model(), Done) == CreateSecret(old(Model()), owner, newId, available, etag)
      ensures newId !in old(secrets) ==> Keeps(catalog, old(Model()), Model())
    {
      StepKeeps(catalog, Model(), CreatesSecret(owner, newId, available, etag));
      secrets := secrets[newId := Secret(owner, available, etag)];
    }

    method UpdateSecretReference(owner: string, id: string, status: Option<bool>, ifMatch: string, etag: string)
      returns (outcome: Outcome)
      modifies this`secrets
      ensures (Model(), outcome) == UpdateSecret(old(Model()), owner, id, status, ifMatch, etag)
      ensures Keeps(catalog, old(Model()), Model())
    {
      StepKeeps(catalog, Model(), UpdatesSecret(owner, id, status, ifMatch, etag));
      if id !in secrets || secrets[id].ownerId != owner {
        return Failed(NotFound);
      }
      var current := secrets[id];
      if current.etag != ifMatch {
        return Failed(RevisionConflict);
      }
      secrets := secrets[id :=
        current.(available := if status.Some? then status.value else current.available, etag := etag)];
      return Done;
    }

    method DeleteSecretReference(owner: string, id: string, ifMatch: string) returns (outcome: Outcome)
      modifies this`secrets
      ensures (Model(), outcome) == DeleteSecret(old(Model()), owner, id, ifMatch)
      ensures Keeps(catalog, old(Model()), Model())
      ensures outcome == Done && SecretsSound(old(Model())) ==>
        id !in secrets && forall c :: c in history ==> id !in history[c]
      ensures forall r :: r != id ==> (r in secrets <==> r in old(secrets))
    {
      StepKeeps(catalog, Model(), DeletesSecret(owner, id, ifMatch));
      if id !in secrets || secrets[id].ownerId != owner {
        return Failed(NotFound);
      }
      if secrets[id].etag != ifMatch {
        return Failed(RevisionConflict);
      }
      if exists c :: c in configs && configs[c].ownerId == owner && c in history && id in history[c] {
        return Failed(ResourceInUse);
      }
      secrets := secrets - {id};
      return Done;
    }
  }

  function Prepend(done: seq<Entry>, rest: Snapshot): Snapshot {
    if rest.Broken? then rest else Whole(done + rest.providers)
  }

  lemma PrependOne(catalog: seq<Installation>, configs: map<string, Config>, done: seq<Entry>, rest: seq<Entry>)
    requires rest != []
    ensures var r := Resolve(catalog, configs, rest[0].value);
      Prepend(done, ResolveAll(catalog, configs, rest)) ==
        if r.Unresolved? then Broken(r.problem)
        else Prepend(done + [Entry(rest[0].kind, r.value)], ResolveAll(catalog, configs, rest[1..]))
  {
    var r, tail := Resolve(catalog, configs, rest[0].value), ResolveAll(catalog, configs, rest[1..]);
    if r.Resolved? && tail.Whole? {
      var e := Entry(rest[0].kind, r.value);
      assert done + ([e] + tail.providers) == done + [e] + tail.providers;
    }
  }
}
