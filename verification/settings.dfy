/**
 * The settings store and the handlers that read and write it: start-up defaults, the server
 * type switch, the configuration form, the "Display as Status" toggle, reset, and the guard in
 * front of the Discord connection. The store is a JSON object; a write merges its keys in.
 */
module Settings {
  import opened Wrappers
  import opened Js

  type Db = map<string, JsValue>

  /** `db.data()[key]`: a missing key reads as undefined */
  function Get(db: Db, key: string): JsValue {
    if key in db then db[key] else Undefined
  }

  /** Effects on the running application other than writes to the store */
  datatype Effect =
    | ClearActivity                       // rpc.clearActivity()
    | StopInterval                        // clearInterval(statusUpdate): the 15 s interval only
    | ConnectDiscord(serverType: JsValue) // a new Discord client logs in with clientIds[serverType]

  /**
   * `connectRPC`: a connection is attempted only when the app is configured and displaying is
   * enabled; the client id is chosen by the stored server type.
   */
  function ConnectRpc(db: Db): (c: Option<JsValue>)
    ensures c.Some? <==> Truthy(Get(db, "isConfigured")) && Truthy(Get(db, "doDisplayStatus"))
    ensures c.Some? ==> c.value == Get(db, "serverType")
  {
    if Truthy(Get(db, "isConfigured")) && Truthy(Get(db, "doDisplayStatus")) then Some(Get(db, "serverType"))
    else None
  }

  function ConnectEffects(db: Db): seq<Effect> {
    match ConnectRpc(db)
    case Some(t) => [ConnectDiscord(t)]
    case None => []
  }

  /**
   * Once display is on and turned off, the guard refuses: the reconnect that the `close` handler
   * runs through `connectRPC` does nothing.
   */
  lemma DisplayOffRefusesConnect(db: Db)
    requires Truthy(Get(db, "doDisplayStatus"))
    ensures ConnectRpc(ToggleDisplay(db).0).None?
  {
  }

  /** Switching the server type never opens or closes the guard; it only changes the client id used */
  lemma ThemeChangeKeepsGuard(db: Db, data: JsValue)
    ensures ConnectRpc(ThemeChange(db, data)).Some? == ConnectRpc(db).Some?
  {
  }

  /** A saved form always passes the guard, with the server type stored after the save */
  lemma SavedFormConnects(db: Db, entries: seq<(string, JsValue)>)
    ensures ConnectRpc(SaveForm(db, entries)) == Some(Get(SaveForm(db, entries), "serverType"))
  {
  }

  /** The `theme-change` message: only "emby" and "jellyfin" are ever written as the server type */
  function ThemeChange(db: Db, data: JsValue): (r: Db)
    ensures Get(r, "serverType") in {Get(db, "serverType"), Str("emby"), Str("jellyfin")}
    ensures data in {Str("emby"), Str("jellyfin")} ==> Get(r, "serverType") == data
    ensures data !in {Str("emby"), Str("jellyfin")} ==> r == db
    ensures forall k :: k != "serverType" ==> Get(r, k) == Get(db, k)
  {
    match data
    case Str(s) =>
      if s == "jellyfin" then db["serverType" := Str("jellyfin")]
      else if s == "emby" then db["serverType" := Str("emby")]
      else db
    case _ => db
  }

  /** A stored server type that is one of the two known ones stays one of them */
  lemma ThemeChangeKeepsKnownServerType(db: Db, data: JsValue)
    requires Get(db, "serverType") in {Str("emby"), Str("jellyfin")}
    ensures Get(ThemeChange(db, data), "serverType") in {Str("emby"), Str("jellyfin")}
  {
  }

  /**
   * `toggleDisplay`: turning display off writes false, clears the presence and stops the 15 s
   * interval (a pending refresh timeout is not cancelled); turning it on writes true and goes
   * once through the connection guard.
   */
  function ToggleDisplay(db: Db): (r: (Db, seq<Effect>))
    ensures Truthy(Get(r.0, "doDisplayStatus")) == !Truthy(Get(db, "doDisplayStatus"))
    ensures forall k :: k != "doDisplayStatus" ==> Get(r.0, k) == Get(db, k)
    ensures Truthy(Get(db, "doDisplayStatus")) ==> r.1 == [ClearActivity, StopInterval]
    ensures !Truthy(Get(db, "doDisplayStatus")) ==>
              (r.1 != [] <==> Truthy(Get(db, "isConfigured")))
              && forall e :: e in r.1 ==> e == ConnectDiscord(Get(db, "serverType"))
    ensures !Truthy(Get(db, "doDisplayStatus")) ==>
              r.1 == (if Truthy(Get(db, "isConfigured")) then [ConnectDiscord(Get(db, "serverType"))] else [])
  {
    if Truthy(Get(db, "doDisplayStatus")) then
      (db["doDisplayStatus" := Bool(false)], [ClearActivity, StopInterval])
    else
      var db' := db["doDisplayStatus" := Bool(true)];
      (db', ConnectEffects(db'))
  }

  /** Toggling twice restores the flag, normalised to a boolean */
  lemma ToggleTwice(db: Db)
    ensures ToggleDisplay(ToggleDisplay(db).0).0
            == db["doDisplayStatus" := Bool(Truthy(Get(db, "doDisplayStatus")))]
  {
  }

  /**
   * `Object.entries(data).filter(f => !f[1]).map(f => f[0])`: the keys whose values are falsy,
   * in entry order.
   */
  function EmptyFields(entries: seq<(string, JsValue)>): (r: seq<string>)
    ensures |r| <= |entries|
    ensures forall k :: k in r <==> exists i :: 0 <= i < |entries| && entries[i].0 == k && !Truthy(entries[i].1)
  {
    if |entries| == 0 then []
    else
      var rest := EmptyFields(entries[1..]);
      assert forall i :: 0 < i < |entries| ==> entries[i] == entries[1..][i - 1];
      assert forall j :: 0 <= j < |entries| - 1 ==> entries[1..][j] == entries[j + 1];
      if Truthy(entries[0].1) then rest else [entries[0].0] + rest
  }

  /** The field list is built entry by entry: it distributes over concatenation, which fixes its order */
  lemma {:induction false} EmptyFieldsAppend(a: seq<(string, JsValue)>, b: seq<(string, JsValue)>)
    ensures EmptyFields(a + b) == EmptyFields(a) + EmptyFields(b)
  {
    if |a| > 0 {
      assert (a + b)[1..] == a[1..] + b;
      EmptyFieldsAppend(a[1..], b);
    } else {
      assert a + b == b;
    }
  }

  /** No empty field reported exactly when every value is truthy */
  lemma EmptyFieldsNoneIffAllTruthy(entries: seq<(string, JsValue)>)
    ensures EmptyFields(entries) == [] <==> forall i :: 0 <= i < |entries| ==> Truthy(entries[i].1)
  {
  }

  /** `{...data}`: the object the entries came from; a later entry wins for a repeated key */
  function ObjectOf<V>(entries: seq<(string, V)>): (m: map<string, V>)
    ensures m.Keys == KeysOf(entries)
    ensures forall i :: 0 <= i < |entries| && IsLastWithKey(entries, i) ==> m[entries[i].0] == entries[i].1
  {
    if |entries| == 0 then map[]
    else
      var init := entries[..|entries| - 1];
      var last := entries[|entries| - 1];
      assert entries == init + [last];
      KeysOfSnoc(init, last);
      var prev := ObjectOf(init);
      var r := prev[last.0 := last.1];
      forall i | 0 <= i < |entries| && IsLastWithKey(entries, i)
        ensures r[entries[i].0] == entries[i].1
      {
        if i < |init| {
          assert init[i] == entries[i];
          assert IsLastWithKey(init, i);
          assert init[i].0 in KeysOf(init);
        }
      }
      r
  }

  /** The keys appearing in a list of entries */
  function KeysOf<V>(entries: seq<(string, V)>): set<string> {
    set i | 0 <= i < |entries| :: entries[i].0
  }

  lemma KeysOfSnoc<V>(init: seq<(string, V)>, last: (string, V))
    ensures KeysOf(init + [last]) == KeysOf(init) + {last.0}
  {
    var e := init + [last];
    assert forall i :: 0 <= i < |init| ==> e[i] == init[i];
    assert e[|init|] == last;
  }

  /** No later entry has the same key as entry i */
  predicate IsLastWithKey<V>(entries: seq<(string, V)>, i: int)
    requires 0 <= i < |entries|
  {
    forall j :: i < j < |entries| ==> entries[j].0 != entries[i].0
  }

  /** Outcome of the `config-save` message */
  datatype SaveOutcome =
    | ValidationError(fields: seq<string>)  // the form is sent back with the empty fields; nothing else happens
    | LoginFailed                           // getToken rejected; an error box is shown, nothing is stored
    | Saved(db: Db, token: string, effects: seq<Effect>)

  /**
   * `db.write({ ...data, isConfigured: true, doDisplayStatus: true })`: every form field is stored,
   * the two flags are set last and win, and no other key changes.
   */
  function SaveForm(db: Db, entries: seq<(string, JsValue)>): (r: Db)
    ensures Get(r, "isConfigured") == Bool(true) && Get(r, "doDisplayStatus") == Bool(true)
    ensures forall i :: 0 <= i < |entries| && IsLastWithKey(entries, i)
                        && entries[i].0 != "isConfigured" && entries[i].0 != "doDisplayStatus"
                        ==> Get(r, entries[i].0) == entries[i].1
    ensures forall k :: k !in KeysOf(entries) && k != "isConfigured" && k != "doDisplayStatus" ==> Get(r, k) == Get(db, k)
  {
    var form := ObjectOf(entries);
    var r := db + form + map["isConfigured" := Bool(true), "doDisplayStatus" := Bool(true)];
    assert forall i :: 0 <= i < |entries| ==> entries[i].0 in KeysOf(entries);
    r
  }

  /**
   * `config-save`: validation first; only a fully filled form reaches the login, whose settled
   * result is the parameter `login`; on success the form is stored with `isConfigured` and
   * `doDisplayStatus` set to true and the Discord connection is started.
   */
  function ConfigSave(db: Db, entries: seq<(string, JsValue)>, login: Result<string, string>): (o: SaveOutcome)
    ensures o.ValidationError? <==> exists i :: 0 <= i < |entries| && !Truthy(entries[i].1)
    ensures o.ValidationError? ==> o.fields == EmptyFields(entries) && |o.fields| > 0
    ensures o.LoginFailed? <==> EmptyFields(entries) == [] && login.Failure?
    ensures o.Saved? ==>
              && login.Success? && o.token == login.value
              && o.db == SaveForm(db, entries)
              && o.effects == [ConnectDiscord(Get(o.db, "serverType"))]
  {
    var empty := EmptyFields(entries);
    EmptyFieldsNoneIffAllTruthy(entries);
    if |empty| > 0 then ValidationError(empty)
    else
      match login
      case Failure(_) => LoginFailed
      case Success(token) =>
        var db' := SaveForm(db, entries);
        Saved(db', token, ConnectEffects(db'))
  }

  /** A form with an empty field is rejected before any login: the login's outcome cannot matter */
  lemma ValidationPrecedesLogin(db: Db, entries: seq<(string, JsValue)>, l1: Result<string, string>, l2: Result<string, string>)
    requires exists i :: 0 <= i < |entries| && !Truthy(entries[i].1)
    ensures ConfigSave(db, entries, l1) == ConfigSave(db, entries, l2)
  {
  }

  /** Outcome of `resetApp` */
  datatype ResetOutcome = ResetOutcome(db: Db, token: Option<string>, effects: seq<Effect>)

  /**
   * `resetApp`: marks the app unconfigured, forgets the token, stops the timer if one is running
   * and clears the presence if a client exists. Afterwards the connection guard refuses.
   */
  function Reset(db: Db, hasTimer: bool, hasClient: bool): (o: ResetOutcome)
    ensures Get(o.db, "isConfigured") == Bool(false) && ConnectRpc(o.db).None?
    ensures o.token.None?
    ensures forall k :: k != "isConfigured" ==> Get(o.db, k) == Get(db, k)
    ensures (StopInterval in o.effects <==> hasTimer) && (ClearActivity in o.effects <==> hasClient)
    ensures forall e :: e in o.effects ==> !e.ConnectDiscord?
  {
    ResetOutcome(db["isConfigured" := Bool(false)], None,
                 (if hasTimer then [StopInterval] else []) + (if hasClient then [ClearActivity] else []))
  }

  /** Outcome of `startApp` as far as the store and the connection are concerned */
  datatype StartOutcome = StartOutcome(db: Db, trayed: bool, effects: seq<Effect>)

  /**
   * `startApp`: a configured installation (isConfigured exactly true) gets doDisplayStatus
   * defaulted to true when missing, moves to the tray and tries to connect; otherwise the
   * server type defaults to "emby" when it is falsy and the configuration page is shown.
   */
  function Startup(db: Db): (o: StartOutcome)
    ensures o.trayed <==> Get(db, "isConfigured") == Bool(true)
    ensures o.trayed ==>
              && (Get(db, "doDisplayStatus") == Undefined ==> Get(o.db, "doDisplayStatus") == Bool(true))
              && (|o.effects| == 1 <==> Get(db, "doDisplayStatus") == Undefined || Truthy(Get(db, "doDisplayStatus")))
    ensures o.trayed && Get(db, "doDisplayStatus") != Undefined ==> o.db == db
    ensures (o.trayed && (Get(db, "doDisplayStatus") == Undefined || Truthy(Get(db, "doDisplayStatus"))))
            ==> o.effects == [ConnectDiscord(Get(db, "serverType"))]
    ensures (o.trayed && !(Get(db, "doDisplayStatus") == Undefined || Truthy(Get(db, "doDisplayStatus"))))
            ==> o.effects == []
    ensures o.trayed ==> Get(o.db, "serverType") == Get(db, "serverType")
    ensures !o.trayed ==> o.effects == [] && Truthy(Get(o.db, "serverType"))
                          && (Truthy(Get(db, "serverType")) ==> o.db == db)
                          && (!Truthy(Get(db, "serverType")) ==> o.db == db["serverType" := Str("emby")])
    ensures forall k :: k != "doDisplayStatus" && k != "serverType" ==> Get(o.db, k) == Get(db, k)
  {
    if Get(db, "isConfigured") == Bool(true) then
      var db' := if Get(db, "doDisplayStatus") == Undefined then db["doDisplayStatus" := Bool(true)] else db;
      StartOutcome(db', true, ConnectEffects(db'))
    else
      var db' := if !Truthy(Get(db, "serverType")) then db["serverType" := Str("emby")] else db;
      StartOutcome(db', false, [])
  }
}
