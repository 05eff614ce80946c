/** Per-organisation AI settings: a stored row with an optional sealed key, updates
    that leave, clear or set each field, and the configuration one call gets. */
module AiSettings {
  import opened Wrappers
  import opened JsText

  /** A field of a write: absent, null or a value. */
  datatype Update<T> = Leave | Clear | Set(value: T)

  type Cipher = int
  type Nonce = int

  /** Opening what the vault sealed for this organisation; it may fail. */
  type Vault = (Cipher, Nonce) -> Option<string>

  /** Opening a sealed key gives it back. */
  predicate Seals(vault: Vault, sealed: (Cipher, Nonce), key: string) {
    vault(sealed.0, sealed.1) == Some(key)
  }

  datatype Row = Row(enabled: bool, model: Option<string>, ciphertext: Option<Cipher>, nonce: Option<Nonce>, keySetAt: Option<nat>)
  datatype Write = Write(enabled: bool, model: Update<string>, apiKey: Update<string>)
  datatype Deployment = Deployment(apiKey: Option<string>, baseUrl: Option<string>, assistantModel: string, enrichModel: string)
  datatype Purpose = AssistantCall | Enrich

  datatype Settings = Settings(enabled: bool, model: Option<string>, hasKey: bool)
  datatype Source = Org | Shared
  datatype Reason = SwitchedOff | Unreadable | NotConfigured
  datatype Outcome = Resolved(apiKey: string, baseUrl: Option<string>, model: string, source: Source) | Unavailable(reason: Reason)

  function Usable(key: Option<string>): bool {
    key.Some? && key.value != ""
  }

  function GetOr<T>(o: Option<T>, default: T): T {
    match o
    case None => default
    case Some(v) => v
  }

  /** Which key, endpoint and model a call uses, as a function of the row. */
  function ResolveAi(row: Option<Settings>, orgKey: Option<string>, deployment: Deployment, purpose: Purpose): Outcome {
    if row.Some? && !row.value.enabled then Unavailable(SwitchedOff)
    else
      var default := if purpose == AssistantCall then deployment.assistantModel else deployment.enrichModel;
      var model := if row.Some? then GetOr(row.value.model, default) else default;
      if Usable(orgKey) then Resolved(orgKey.value, None, model, Org)
      else if !Usable(deployment.apiKey) then
        Unavailable(if row.Some? && row.value.hasKey then Unreadable else NotConfigured)
      else Resolved(deployment.apiKey.value, deployment.baseUrl, model, Shared)
  }

  function Decrypt(vault: Vault, row: Option<Row>): Option<string> {
    if row.None? || row.value.ciphertext.None? || row.value.nonce.None? then None
    else vault(row.value.ciphertext.value, row.value.nonce.value)
  }

  function AsSettings(row: Option<Row>): Option<Settings> {
    match row
    case None => None
    case Some(r) => Some(Settings(r.enabled, r.model, r.ciphertext.Some?))
  }

  function ResolveConfig(vault: Vault, row: Option<Row>, deployment: Deployment, purpose: Purpose): Outcome {
    ResolveAi(AsSettings(row), Decrypt(vault, row), deployment, purpose)
  }

  function StoredModel(row: Option<Row>): Option<string> {
    if row.Some? then row.value.model else None
  }

  function Updated<T>(stored: Option<T>, update: Update<T>): Option<T> {
    match update
    case Leave => stored
    case Clear => None
    case Set(v) => Some(v)
  }

  /** What a write would make effective, without writing. */
  function PreviewConfig(vault: Vault, row: Option<Row>, write: Write, deployment: Deployment, purpose: Purpose): Outcome {
    var key := Updated(Decrypt(vault, row), write.apiKey);
    var merged := Settings(write.enabled, Updated(StoredModel(row), write.model), key.Some?);
    ResolveAi(Some(merged), key, deployment, purpose)
  }

  /** The row a write leaves behind; `sealed` is what the vault made of a new key. */
  function Saved(row: Option<Row>, write: Write, sealed: (Cipher, Nonce), now: nat): Row {
    var (ciphertext, nonce, keySetAt) :=
      match write.apiKey
      case Clear => (None, None, None)
      case Set(_) => (Some(sealed.0), Some(sealed.1), Some(now))
      case Leave => if row.Some? then (row.value.ciphertext, row.value.nonce, row.value.keySetAt) else (None, None, None);
    Row(write.enabled, Updated(StoredModel(row), write.model), ciphertext, nonce, keySetAt)
  }

  /** The settings table, one row an organisation. */
  class Table {
    var rows: map<string, Row>

    constructor ()
      ensures rows == map[]
    {
      rows := map[];
    }

    function Read(org: string): Option<Row>
      reads this
    {
      if org in rows then Some(rows[org]) else None
    }

    /** Upsert one organisation's row and no other. */
    method WriteSettings(org: string, write: Write, sealed: (Cipher, Nonce), now: nat)
      modifies this
      ensures rows == old(rows)[org := Saved(old(Read(org)), write, sealed, now)]
    {
      var existing := Read(org);
      var ciphertext := if existing.Some? then existing.value.ciphertext else None;
      var nonce := if existing.Some? then existing.value.nonce else None;
      var keySetAt := if existing.Some? then existing.value.keySetAt else None;
      if write.apiKey.Clear? {
        ciphertext, nonce, keySetAt := None, None, None;
      } else if write.apiKey.Set? {
        ciphertext, nonce, keySetAt := Some(sealed.0), Some(sealed.1), Some(now);
      }
      var model := if existing.Some? then existing.value.model else None;
      if write.model.Clear? {
        model := None;
      } else if write.model.Set? {
        model := Some(write.model.value);
      }
      rows := rows[org := Row(write.enabled, model, ciphertext, nonce, keySetAt)];
    }
  }

  // ---- the preview predicts the write --------------------------------------------------

  /** A key is kept that cannot be opened. */
  predicate KeepsUnreadable(vault: Vault, row: Option<Row>, write: Write) {
    write.apiKey.Leave? && row.Some? && row.value.ciphertext.Some? && Decrypt(vault, row).None?
  }

  /** The preview is what the write makes effective, in every field, exactly unless
      AI stays on without a deployment key over a kept key that cannot be opened;
      then both fail and only the reason differs. */
  lemma PreviewPredicts(vault: Vault, row: Option<Row>, write: Write, sealed: (Cipher, Nonce), now: nat, deployment: Deployment, purpose: Purpose)
    requires write.apiKey.Set? ==> Seals(vault, sealed, write.apiKey.value)
    ensures var preview := PreviewConfig(vault, row, write, deployment, purpose);
      var effective := ResolveConfig(vault, Some(Saved(row, write, sealed, now)), deployment, purpose);
      && (preview == effective <==> !(write.enabled && !Usable(deployment.apiKey) && KeepsUnreadable(vault, row, write)))
      && (preview != effective ==> preview == Unavailable(NotConfigured) && effective == Unavailable(Unreadable))
  {
  }

  // ---- what a history of form saves leaves ------------------------------------------------

  datatype Form = Form(enabled: bool, model: string, apiKey: string, clearKey: bool)

  /** The body of a save: typing a key wins over clearing it; an empty box leaves it. */
  function Body(form: Form): Write {
    var model, apiKey := Trim(form.model), Trim(form.apiKey);
    Write(
      form.enabled,
      if model == "" then Clear else Set(model),
      if apiKey != "" then Set(apiKey) else if form.clearKey then Clear else Leave)
  }

  /** One save: the form, what the vault made of its key, and when. */
  datatype Save = Save(form: Form, sealed: (Cipher, Nonce), now: nat)

  predicate Honest(vault: Vault, save: Save) {
    Trim(save.form.apiKey) != "" ==> Seals(vault, save.sealed, Trim(save.form.apiKey))
  }

  function Stored(saves: seq<Save>): Option<Row> {
    if saves == [] then None else
      var save := saves[|saves| - 1];
      Some(Saved(Stored(saves[..|saves| - 1]), Body(save.form), save.sealed, save.now))
  }

  /** The last key typed and not cleared since. */
  function LastKey(forms: seq<Save>): Option<string> {
    if forms == [] then None else
      var form := forms[|forms| - 1].form;
      if Trim(form.apiKey) != "" then Some(Trim(form.apiKey))
      else if form.clearKey then None
      else LastKey(forms[..|forms| - 1])
  }

  /** When that key was typed. */
  function LastKeyTime(saves: seq<Save>): (r: Option<nat>)
    ensures r.Some? == LastKey(saves).Some?
  {
    if saves == [] then None else
      var save := saves[|saves| - 1];
      if Trim(save.form.apiKey) != "" then Some(save.now)
      else if save.form.clearKey then None
      else LastKeyTime(saves[..|saves| - 1])
  }

  /** Whatever else is saved, the stored key opens to the last key typed and not
      cleared; its three columns are present together or not at all. */
  lemma {:induction false} HistoryKeepsKey(vault: Vault, saves: seq<Save>)
    requires forall i :: 0 <= i < |saves| ==> Honest(vault, saves[i])
    ensures Decrypt(vault, Stored(saves)) == LastKey(saves)
    ensures Stored(saves).Some? ==>
      var row := Stored(saves).value;
      row.ciphertext.Some? == row.nonce.Some? == LastKey(saves).Some? && row.keySetAt == LastKeyTime(saves)
  {
    if saves != [] {
      HistoryKeepsKey(vault, saves[..|saves| - 1]);
      assert Honest(vault, saves[|saves| - 1]);
    }
  }

  /** The settings view: the state in force, the absent row already resolved. */
  function ViewEnabled(row: Option<Row>, deployment: Deployment): bool {
    if row.Some? then row.value.enabled else Usable(deployment.apiKey)
  }

  /** A call succeeds exactly when the view says enabled and a usable key exists:
      the organisation's own, which then pays, or the deployment's. */
  lemma SucceedsIff(vault: Vault, row: Option<Row>, deployment: Deployment, purpose: Purpose)
    ensures var r := ResolveConfig(vault, row, deployment, purpose);
      && (r.Resolved? <==> ViewEnabled(row, deployment) && (Usable(Decrypt(vault, row)) || Usable(deployment.apiKey)))
      && (r.Resolved? ==> (r.source == Org <==> Usable(Decrypt(vault, row))))
      && (r.Resolved? && r.source == Org ==> Decrypt(vault, row) == Some(r.apiKey) && r.baseUrl == None)
      && (r == Unavailable(SwitchedOff) <==> row.Some? && !row.value.enabled)
      && (row.None? ==> (r.Resolved? <==> ViewEnabled(row, deployment)))
  {
  }

  /** What a call then uses: the stored model, or the default of its purpose when none is
      stored; the organisation's key at the public endpoint, or exactly the deployment's
      key and endpoint. And why it fails otherwise. */
  lemma ResolvedExactly(vault: Vault, row: Option<Row>, deployment: Deployment, purpose: Purpose)
    ensures var r := ResolveConfig(vault, row, deployment, purpose);
      && (r.Resolved? && row.Some? && row.value.model.Some? ==> r.model == row.value.model.value)
      && (r.Resolved? && (row.None? || row.value.model.None?) && purpose == AssistantCall ==> r.model == deployment.assistantModel)
      && (r.Resolved? && (row.None? || row.value.model.None?) && purpose == Enrich ==> r.model == deployment.enrichModel)
      && (r.Resolved? && r.source == Org ==> Decrypt(vault, row) == Some(r.apiKey) && r.baseUrl == None)
      && (r.Resolved? && r.source == Shared ==> deployment.apiKey == Some(r.apiKey) && r.baseUrl == deployment.baseUrl)
      && (r == Unavailable(Unreadable) <==>
        row.Some? && row.value.enabled && row.value.ciphertext.Some? && (Decrypt(vault, row).None? || Decrypt(vault, row) == Some("")) && (deployment.apiKey.None? || deployment.apiKey == Some("")))
      && (r == Unavailable(NotConfigured) <==>
        (row.None? || (row.value.enabled && row.value.ciphertext.None?)) && (deployment.apiKey.None? || deployment.apiKey == Some("")))
  {
  }

  /** Over every run of saves the model in use is the one last saved, trimmed, or the
      purpose's default when that box was blank. */
  lemma HistoryModel(vault: Vault, saves: seq<Save>, deployment: Deployment, purpose: Purpose)
    requires saves != []
    ensures var r, box := ResolveConfig(vault, Stored(saves), deployment, purpose), Trim(saves[|saves| - 1].form.model);
      r.Resolved? ==> r.model == if box != "" then box else if purpose == AssistantCall then deployment.assistantModel else deployment.enrichModel
  {
    ResolvedExactly(vault, Stored(saves), deployment, purpose);
  }

  /** Over a history of saves: on, and with a key typed or shared. */
  lemma HistorySucceedsIff(vault: Vault, saves: seq<Save>, deployment: Deployment, purpose: Purpose)
    requires saves != [] && forall i :: 0 <= i < |saves| ==> Honest(vault, saves[i])
    ensures var r := ResolveConfig(vault, Stored(saves), deployment, purpose);
      && (r.Resolved? <==> saves[|saves| - 1].form.enabled && (LastKey(saves).Some? || Usable(deployment.apiKey)))
      && (r.Resolved? && LastKey(saves).Some? ==> r.apiKey == LastKey(saves).value && r.source == Org)
  {
    HistoryKeepsKey(vault, saves);
    LastKeyTyped(saves);
    SucceedsIff(vault, Stored(saves), deployment, purpose);
  }

  lemma {:induction false} LastKeyTyped(saves: seq<Save>)
    ensures LastKey(saves).Some? ==> LastKey(saves).value != ""
  {
    if saves != [] {
      LastKeyTyped(saves[..|saves| - 1]);
    }
  }
}
