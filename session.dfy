/**
 * The page's module-level state and the handlers that change it: API configuration
 * (`saveConfig`, `loadConfig`, the credentials file), activity import (`handleFileUpload`
 * and the add-activity button), activity selection, group creation and the addition of
 * participants. Each HTTP exchange is a parameter: the response the provider gave, or
 * the exception `fetch` threw. Handlers return the request they would send.
 */
module App {
  import opened Wrappers
  import Text
  import Phone
  import opened Csv

  /** The two localStorage entries the configuration is kept under, `naizen_api_url` and `naizen_api_key`. */
  datatype StorageKey = UrlKey | KeyKey

  /** The sixteen bullets the key field shows in place of a saved token. */
  const Mask: string := "\U{2022}\U{2022}\U{2022}\U{2022}\U{2022}\U{2022}\U{2022}\U{2022}\U{2022}\U{2022}\U{2022}\U{2022}\U{2022}\U{2022}\U{2022}\U{2022}"

  datatype Config = Config(url: string, key: string)

  /** What `loadConfig` finds in storage: both entries, both non-empty, or nothing usable. */
  function StoredConfig(storage: map<StorageKey, string>): (r: Option<Config>)
    ensures r.Some? ==> r.value.url != "" && r.value.key != ""
    ensures r.Some? ==> UrlKey in storage && storage[UrlKey] == r.value.url
                        && KeyKey in storage && storage[KeyKey] == r.value.key
    ensures r.None? ==> UrlKey !in storage || storage[UrlKey] == "" || KeyKey !in storage || storage[KeyKey] == ""
  {
    if UrlKey in storage && storage[UrlKey] != "" && KeyKey in storage && storage[KeyKey] != ""
    then Some(Config(storage[UrlKey], storage[KeyKey]))
    else None
  }

  /** The rule `saveConfig` applies to its two trimmed fields. */
  predicate AcceptsConfig(url: string, key: string)
  {
    url != "" && key != "" && key != Mask
  }

  /** What `saveConfig` accepts, `loadConfig` reads back, whatever else storage holds. */
  lemma SaveLoadRoundTrip(storage: map<StorageKey, string>, url: string, key: string)
    requires AcceptsConfig(url, key)
    ensures StoredConfig(storage[UrlKey := url][KeyKey := key]) == Some(Config(url, key))
  {
  }

  /** The selection handler's lookup `selected ? (activities[selected] || []) : []`. */
  function Lookup(activities: map<string, seq<Participant>>, selected: string): (r: seq<Participant>)
    ensures selected == "" || selected !in activities ==> r == []
    ensures selected != "" && selected in activities ==> r == activities[selected]
  {
    if selected != "" && selected in activities then activities[selected] else []
  }

  /** Every record was imported (contact and status as parsed) and stamped with `name`. */
  predicate AllStamped(ps: seq<Participant>, name: string)
  {
    forall i :: 0 <= i < |ps| ==> HasContact(ps[i]) && ImportStatus(ps[i]) && ps[i].actividad == name
  }

  /** A list as the registry keeps it: non-empty, every record imported under `name`. */
  predicate StoredList(ps: seq<Participant>, name: string)
  {
    |ps| > 0 && AllStamped(ps, name)
  }

  /** Every record has a name and a normalised phone. */
  predicate AllHaveContact(ps: seq<Participant>)
  {
    forall i :: 0 <= i < |ps| ==> HasContact(ps[i])
  }

  /** A stored list may be shown: its records all have a contact. */
  lemma StampedHaveContact(ps: seq<Participant>, name: string)
    requires AllStamped(ps, name)
    ensures AllHaveContact(ps)
  {
  }

  /** The records with `name` as their activity; nothing else about them changes. */
  function Stamp(ps: seq<Participant>, name: string): (r: seq<Participant>)
    ensures |r| == |ps|
    ensures forall i :: 0 <= i < |ps| ==> r[i].actividad == name && r[i].(actividad := ps[i].actividad) == ps[i]
  {
    seq(|ps|, i requires 0 <= i < |ps| => ps[i].(actividad := name))
  }

  /** `participants.forEach(p => p.actividad = activityName)` on the fresh parse result. */
  method StampActivity(ps: seq<Participant>, name: string) returns (r: seq<Participant>)
    ensures r == Stamp(ps, name)
  {
    r := ps;
    var i := 0;
    while i < |r|
      invariant 0 <= i <= |r| == |ps|
      invariant forall k :: 0 <= k < i ==> r[k] == ps[k].(actividad := name)
      invariant forall k :: i <= k < |r| ==> r[k] == ps[k]
    {
      r := r[i := r[i].(actividad := name)];
      i := i + 1;
    }
  }

  /** Stamping the parse result of a non-empty import gives a list the registry may keep. */
  lemma StampedIsStored(ps: seq<Participant>, name: string)
    requires |ps| > 0 && AllFresh(ps)
    ensures StoredList(Stamp(ps, name), name)
  {
  }

  /** `data?.failed?.includes(tel)`: absent body or absent list means nothing failed. */
  predicate Failed(failed: Option<seq<string>>, tel: string)
  {
    failed.Some? && tel in failed.value
  }

  /** The filter of the add-participants handler: a valid phone that is not the admin's. */
  predicate ToAdd(p: Participant, adminPhone: string)
  {
    Phone.IsValid(p.telefono) && Phone.Normalize(p.telefono) != adminPhone
  }

  /**
   * The phones the add-participants request carries: the normalised phones of the
   * valid, non-admin participants, in participant order, each in canonical `34` form.
   */
  function Requested(ps: seq<Participant>, adminPhone: string): (r: seq<string>)
    ensures |r| <= |ps|
    ensures forall t :: t in r ==> Phone.IsPrefixed(t) && Phone.IsValid(t) && t != adminPhone
  {
    if ps == [] then []
    else
      var rest := Requested(ps[1..], adminPhone);
      if ToAdd(ps[0], adminPhone) then
        Phone.NormalizeValid(ps[0].telefono);
        [Phone.Normalize(ps[0].telefono)] + rest
      else rest
  }

  /** The request list follows participant order: it distributes over concatenation. */
  lemma {:induction false} RequestedAppend(a: seq<Participant>, b: seq<Participant>, adminPhone: string)
    ensures Requested(a + b, adminPhone) == Requested(a, adminPhone) + Requested(b, adminPhone)
  {
    if a == [] {
      assert a + b == b;
    } else {
      assert (a + b)[0] == a[0] && (a + b)[1..] == a[1..] + b;
      RequestedAppend(a[1..], b, adminPhone);
    }
  }

  /** The request list depends on the participants' phones only, not on names, activity or status. */
  lemma {:induction false} RequestedByPhone(a: seq<Participant>, b: seq<Participant>, adminPhone: string)
    requires |a| == |b| && forall i :: 0 <= i < |a| ==> a[i].telefono == b[i].telefono
    ensures Requested(a, adminPhone) == Requested(b, adminPhone)
  {
    if a != [] {
      RequestedByPhone(a[1..], b[1..], adminPhone);
    }
  }

  /** A phone is requested exactly when some valid, non-admin participant normalises to it. */
  lemma {:induction false} RequestedMembers(ps: seq<Participant>, adminPhone: string, t: string)
    ensures t in Requested(ps, adminPhone) <==>
            exists i :: 0 <= i < |ps| && ToAdd(ps[i], adminPhone) && Phone.Normalize(ps[i].telefono) == t
  {
    if ps != [] {
      var rest := ps[1..];
      RequestedMembers(rest, adminPhone, t);
      assert forall j :: 0 <= j < |rest| ==> rest[j] == ps[j + 1];
      if exists i :: 0 <= i < |ps| && ToAdd(ps[i], adminPhone) && Phone.Normalize(ps[i].telefono) == t {
        var i :| 0 <= i < |ps| && ToAdd(ps[i], adminPhone) && Phone.Normalize(ps[i].telefono) == t;
        if i > 0 {
          assert rest[i - 1] == ps[i];
        }
      }
    }
  }

  /** The status the response gives one participant. */
  function NewStatus(p: Participant, adminPhone: string, failed: Option<seq<string>>): (s: Status)
    ensures s != Pending
    ensures s == Error <==>
            !Phone.IsValid(p.telefono) || (ToAdd(p, adminPhone) && Failed(failed, Phone.Normalize(p.telefono)))
  {
    var tel := Phone.Normalize(p.telefono);
    if !Phone.IsValid(p.telefono) then Error
    else if tel == adminPhone then Success
    else if Failed(failed, tel) then Error
    else Success
  }

  /** `currentParticipants.map(p => ({ ...p, status }))`: copies with the new status. */
  function WithStatuses(ps: seq<Participant>, adminPhone: string, failed: Option<seq<string>>): (r: seq<Participant>)
    ensures |r| == |ps|
    ensures forall i :: 0 <= i < |ps| ==> r[i].(status := ps[i].status) == ps[i]
  {
    seq(|ps|, i requires 0 <= i < |ps| => ps[i].(status := NewStatus(ps[i], adminPhone, failed)))
  }

  /**
   * After a response, each participant's status says what became of its phone: an
   * invalid phone is an error; the admin's phone is a success; a requested phone is an
   * error exactly when the provider listed it as failed.
   */
  lemma StatusesAfterResponse(ps: seq<Participant>, adminPhone: string, failed: Option<seq<string>>, i: int)
    requires 0 <= i < |ps|
    ensures !Phone.IsValid(ps[i].telefono) ==> WithStatuses(ps, adminPhone, failed)[i].status == Error
    ensures Phone.IsValid(ps[i].telefono) && Phone.Normalize(ps[i].telefono) == adminPhone
            ==> WithStatuses(ps, adminPhone, failed)[i].status == Success
    ensures Phone.Normalize(ps[i].telefono) in Requested(ps, adminPhone) && ToAdd(ps[i], adminPhone)
            ==> (WithStatuses(ps, adminPhone, failed)[i].status == Error
                 <==> Failed(failed, Phone.Normalize(ps[i].telefono)))
    ensures ToAdd(ps[i], adminPhone) ==> Phone.Normalize(ps[i].telefono) in Requested(ps, adminPhone)
  {
    RequestedMembers(ps, adminPhone, Phone.Normalize(ps[i].telefono));
  }

  /**
   * The registry after importing `rows` under `name`: unchanged when nothing was parsed;
   * otherwise `name` holds the parsed records stamped with `name`, in row order, and
   * every other entry is as it was.
   */
  ghost predicate Registered(before: map<string, seq<Participant>>, after: map<string, seq<Participant>>,
                             rows: seq<seq<string>>, name: string)
  {
    var ps := ParseCsv(rows);
    after == if ps == [] then before else before[name := Stamp(ps, name)]
  }

  /**
   * The group id after a create-group exchange: the response's id when the response is
   * ok and carries a non-empty id, no group on any other response, and the id as it was
   * when `fetch` threw.
   */
  function GroupIdAfter(before: Option<string>, response: CreateResponse): (after: Option<string>)
    ensures response.CreateThrew? ==> after == before
    ensures response.CreateReplied? ==>
              (after.Some? <==> response.ok && response.id.Some? && response.id.value != "")
              && (after.Some? ==> after == response.id)
  {
    match response
    case CreateThrew => before
    case CreateReplied(ok, id) => if ok && id.Some? && id.value != "" then id else None
  }

  /** The outcomes the import handlers report. */
  datatype ImportOutcome = NoActivityName | NoFile | NoParticipants | Imported(count: nat)

  /** The outcomes of the create-group handler, one per status message. */
  datatype CreateOutcome = ConfigMissing | NoActivitySelected | CredentialsMissing
                         | GroupCreated | CreateRejected | CreateConnectionError

  /** The outcomes of the add-participants handler, one per status message. */
  datatype AddOutcome = NoGroup | NoParticipantsShown | NothingToAdd
                      | ParticipantsUpdated | AddConnectionError

  /** What `POST {API_URL}/groups` carries. */
  datatype CreateRequest = CreateRequest(url: string, token: string, participants: seq<string>, subject: string)

  /** What `POST {API_URL}/groups/{groupId}/participants` carries. */
  datatype AddRequest = AddRequest(url: string, groupId: string, token: string, participants: seq<string>)

  /**
   * The create-group exchange: `fetch` threw, or a response came with its `ok` flag and
   * the body's `id` (None when the body is not JSON or has no `id`).
   */
  datatype CreateResponse = CreateThrew | CreateReplied(ok: bool, id: Option<string>)

  /**
   * The add-participants exchange: `fetch` threw, or a response came with its `ok` flag
   * and the body's `failed` list (None when the body is not JSON or has no such list).
   */
  datatype AddResponse = AddThrew | AddReplied(ok: bool, failed: Option<seq<string>>)

  /**
   * The credentials file: `Unparsable` when it cannot be read, is not JSON, or parses to a
   * value such as `null` whose property reads throw (all take the handler's error path);
   * otherwise `Parsed` with its optional `apiUrl`.
   */
  datatype CredentialsFile = Unparsable | Parsed(apiUrl: Option<string>)

  /** The outcomes of the credentials file handler: no file chosen, or one status message each. */
  datatype CredentialsOutcome = NoCredentialsFile | CredentialsLoaded | CredentialsUnreadable

  class Session {
    var apiUrl: string
    var apiKey: string
    var storage: map<StorageKey, string>
    var activities: map<string, seq<Participant>>
    var selected: string
    var currentParticipants: seq<Participant>
    var groupId: Option<string>

    /**
     * A group id is never empty; every stored activity holds a non-empty list of
     * imported records stamped with its name; every shown record has a contact.
     */
    ghost predicate Valid()
      reads this
    {
      && (groupId.Some? ==> groupId.value != "")
      && (forall name :: name in activities ==> StoredList(activities[name], name))
      && AllHaveContact(currentParticipants)
    }

    /** The page as it loads: nothing configured, imported, selected or created. */
    constructor (storage: map<StorageKey, string>)
      ensures Valid()
      ensures this.storage == storage
      ensures apiUrl == "" && apiKey == ""
      ensures activities == map[] && selected == "" && currentParticipants == [] && groupId == None
    {
      this.storage := storage;
      apiUrl, apiKey := "", "";
      activities := map[];
      selected := "";
      currentParticipants := [];
      groupId := None;
    }

    /** `loadConfig`: adopt the stored URL and token when both are there and non-empty. */
    method LoadConfig() returns (loaded: bool)
      requires Valid()
      modifies this`apiUrl, this`apiKey
      ensures Valid()
      ensures storage == old(storage) && activities == old(activities) && selected == old(selected)
      ensures currentParticipants == old(currentParticipants) && groupId == old(groupId)
      ensures loaded <==> StoredConfig(storage).Some?
      ensures loaded ==> apiUrl == StoredConfig(storage).value.url && apiKey == StoredConfig(storage).value.key
      ensures !loaded ==> apiUrl == old(apiUrl) && apiKey == old(apiKey)
    {
      var config := StoredConfig(storage);
      loaded := config.Some?;
      if loaded {
        apiUrl, apiKey := config.value.url, config.value.key;
      }
    }

    /**
     * `saveConfig`: the trimmed URL and key are adopted and stored unless one is empty
     * or the key is the mask the field shows for a saved token.
     */
    method SaveConfig(urlField: string, keyField: string) returns (saved: bool)
      requires Valid()
      modifies this`apiUrl, this`apiKey, this`storage
      ensures Valid()
      ensures activities == old(activities) && selected == old(selected)
      ensures currentParticipants == old(currentParticipants) && groupId == old(groupId)
      ensures saved <==> AcceptsConfig(Text.Trim(urlField), Text.Trim(keyField))
      ensures saved ==> apiUrl == Text.Trim(urlField) && apiKey == Text.Trim(keyField)
                        && storage == old(storage)[UrlKey := apiUrl][KeyKey := apiKey]
                        && StoredConfig(storage) == Some(Config(apiUrl, apiKey))
      ensures !saved ==> apiUrl == old(apiUrl) && apiKey == old(apiKey) && storage == old(storage)
    {
      var url := Text.Trim(urlField);
      var key := Text.Trim(keyField);
      if !AcceptsConfig(url, key) {
        return false;
      }
      apiUrl, apiKey := url, key;
      storage := storage[UrlKey := apiUrl][KeyKey := apiKey];
      SaveLoadRoundTrip(old(storage), url, key);
      saved := true;
    }

    /**
     * The credentials file handler: with no file chosen it does nothing; a file that cannot
     * be read or parsed is reported; a parsed file's non-empty `apiUrl` replaces `API_URL`.
     */
    method LoadCredentials(upload: Option<CredentialsFile>) returns (outcome: CredentialsOutcome)
      requires Valid()
      modifies this`apiUrl
      ensures Valid()
      ensures apiKey == old(apiKey) && storage == old(storage) && activities == old(activities)
      ensures selected == old(selected) && currentParticipants == old(currentParticipants)
      ensures groupId == old(groupId)
      ensures outcome == match upload
                         case None => NoCredentialsFile
                         case Some(Unparsable) => CredentialsUnreadable
                         case Some(Parsed(_)) => CredentialsLoaded
      ensures apiUrl == match upload
                        case Some(Parsed(Some(url))) => if url != "" then url else old(apiUrl)
                        case _ => old(apiUrl)
    {
      match upload
      case None =>
        outcome := NoCredentialsFile;
      case Some(Unparsable) =>
        outcome := CredentialsUnreadable;
      case Some(Parsed(url)) =>
        if url.Some? && url.value != "" {
          apiUrl := url.value;
        }
        outcome := CredentialsLoaded;
    }

    /**
     * `handleFileUpload`: an import with no participants changes nothing; otherwise the
     * parsed records, stamped with the activity name, replace that name's entry, no other
     * entry changes, and the rebuilt activity list shows no selection.
     */
    method HandleFileUpload(rows: seq<seq<string>>, activityName: string) returns (outcome: ImportOutcome)
      requires Valid()
      modifies this`activities, this`selected
      ensures Valid()
      ensures apiUrl == old(apiUrl) && apiKey == old(apiKey) && storage == old(storage)
      ensures currentParticipants == old(currentParticipants) && groupId == old(groupId)
      ensures outcome == (if ParseCsv(rows) == [] then NoParticipants else Imported(|ParseCsv(rows)|))
      ensures Registered(old(activities), activities, rows, activityName)
      ensures selected == if ParseCsv(rows) == [] then old(selected) else ""
    {
      var participants := ParseCsv(rows);
      if |participants| == 0 {
        return NoParticipants;
      }
      var stamped := StampActivity(participants, activityName);
      StampedIsStored(participants, activityName);
      activities := activities[activityName := stamped];
      selected := "";
      outcome := Imported(|participants|);
    }

    /** The add-activity button: a trimmed name and a chosen file are needed first. */
    method AddActivity(nameField: string, file: Option<seq<seq<string>>>) returns (outcome: ImportOutcome)
      requires Valid()
      modifies this`activities, this`selected
      ensures Valid()
      ensures apiUrl == old(apiUrl) && apiKey == old(apiKey) && storage == old(storage)
      ensures currentParticipants == old(currentParticipants) && groupId == old(groupId)
      ensures Text.Trim(nameField) == "" ==> outcome == NoActivityName
      ensures Text.Trim(nameField) != "" && file.None? ==> outcome == NoFile
      ensures outcome == NoActivityName || outcome == NoFile
              ==> activities == old(activities) && selected == old(selected)
      ensures Text.Trim(nameField) != "" && file.Some? ==>
                && outcome == (if ParseCsv(file.value) == [] then NoParticipants else Imported(|ParseCsv(file.value)|))
                && Registered(old(activities), activities, file.value, Text.Trim(nameField))
                && selected == if ParseCsv(file.value) == [] then old(selected) else ""
    {
      var name := Text.Trim(nameField);
      if name == "" {
        return NoActivityName;
      }
      if file.None? {
        return NoFile;
      }
      outcome := HandleFileUpload(file.value, name);
    }

    /** The activity selector's change handler: show the chosen activity's list. */
    method SelectActivity(value: string)
      requires Valid()
      modifies this`selected, this`currentParticipants
      ensures Valid()
      ensures apiUrl == old(apiUrl) && apiKey == old(apiKey) && storage == old(storage)
      ensures activities == old(activities) && groupId == old(groupId)
      ensures selected == value
      ensures currentParticipants == Lookup(activities, value)
    {
      selected := value;
      if value != "" && value in activities {
        StampedHaveContact(activities[value], value);
      }
      currentParticipants := Lookup(activities, value);
    }

    /**
     * The create-group button. Without configuration, selection, admin phone or key it
     * stops before any request. Otherwise it posts the admin's normalised phone with the
     * activity as subject; the group id is the response's id when the response is ok and
     * has one, is cleared on any other response, and is kept when `fetch` throws.
     */
    method CreateGroup(adminField: string, keyField: string, response: CreateResponse)
      returns (outcome: CreateOutcome, request: Option<CreateRequest>)
      requires Valid()
      modifies this`groupId
      ensures Valid()
      ensures apiUrl == old(apiUrl) && apiKey == old(apiKey) && storage == old(storage)
      ensures activities == old(activities) && selected == old(selected)
      ensures currentParticipants == old(currentParticipants)
      ensures request.None? <==> apiUrl == "" || apiKey == "" || selected == ""
                                 || Text.Trim(adminField) == "" || Text.Trim(keyField) == ""
      ensures request.None? ==>
                && groupId == old(groupId)
                && outcome == if apiUrl == "" || apiKey == "" then ConfigMissing
                              else if selected == "" then NoActivitySelected
                              else CredentialsMissing
      ensures request.Some? ==>
                && request.value == CreateRequest(apiUrl + "/groups", Text.Trim(keyField),
                                                  [Phone.Normalize(Text.Trim(adminField))], selected)
                && groupId == GroupIdAfter(old(groupId), response)
                && outcome == if response.CreateThrew? then CreateConnectionError
                              else if groupId.Some? then GroupCreated
                              else CreateRejected
    {
      if apiUrl == "" || apiKey == "" {
        return ConfigMissing, None;
      }
      if selected == "" {
        return NoActivitySelected, None;
      }
      var adminPhone := Text.Trim(adminField);
      var token := Text.Trim(keyField);
      if adminPhone == "" || token == "" {
        return CredentialsMissing, None;
      }
      request := Some(CreateRequest(apiUrl + "/groups", token, [Phone.Normalize(adminPhone)], selected));
      match response
      case CreateThrew =>
        outcome := CreateConnectionError;
      case CreateReplied(ok, id) =>
        if ok && id.Some? && id.value != "" {
          groupId := id;
          outcome := GroupCreated;
        } else {
          groupId := None;
          outcome := CreateRejected;
        }
    }

    /**
     * The add-participants button. Without a group, with no participants shown, or with
     * no valid non-admin phone it stops before any request. Otherwise it posts the
     * requested phones; unless `fetch` throws, every shown participant gets the status the
     * response gives it, whatever the response's `ok` flag. The registry is not touched.
     */
    method AddParticipants(adminField: string, keyField: string, response: AddResponse)
      returns (outcome: AddOutcome, request: Option<AddRequest>)
      requires Valid()
      modifies this`currentParticipants
      ensures Valid()
      ensures apiUrl == old(apiUrl) && apiKey == old(apiKey) && storage == old(storage)
      ensures activities == old(activities) && selected == old(selected) && groupId == old(groupId)
      ensures groupId.None? ==> outcome == NoGroup
      ensures groupId.Some? && old(currentParticipants) == [] ==> outcome == NoParticipantsShown
      ensures groupId.Some? && old(currentParticipants) != []
              && Requested(old(currentParticipants), Phone.Normalize(Text.Trim(adminField))) == []
              ==> outcome == NothingToAdd
      ensures outcome in {NoGroup, NoParticipantsShown, NothingToAdd} <==> request.None?
      ensures request.None? <==> groupId.None? || old(currentParticipants) == []
                                 || Requested(old(currentParticipants), Phone.Normalize(Text.Trim(adminField))) == []
      ensures request.Some? ==>
                && groupId.Some?
                && request.value ==
                   AddRequest(apiUrl + "/groups/" + groupId.value + "/participants", groupId.value,
                              Text.Trim(keyField),
                              Requested(old(currentParticipants), Phone.Normalize(Text.Trim(adminField))))
                && request.value.participants != []
      ensures request.None? || response.AddThrew? ==> currentParticipants == old(currentParticipants)
      ensures request.Some? && response.AddThrew? ==> outcome == AddConnectionError
      ensures request.Some? && response.AddReplied? ==>
                outcome == ParticipantsUpdated
                && currentParticipants == WithStatuses(old(currentParticipants),
                                                       Phone.Normalize(Text.Trim(adminField)), response.failed)
    {
      if groupId.None? {
        return NoGroup, None;
      }
      if |currentParticipants| == 0 {
        return NoParticipantsShown, None;
      }
      var adminPhone := Phone.Normalize(Text.Trim(adminField));
      var phones := Requested(currentParticipants, adminPhone);
      if |phones| == 0 {
        return NothingToAdd, None;
      }
      request := Some(AddRequest(apiUrl + "/groups/" + groupId.value + "/participants", groupId.value,
                                 Text.Trim(keyField), phones));
      match response
      case AddThrew =>
        outcome := AddConnectionError;
      case AddReplied(_, failed) =>
        var updated := WithStatuses(currentParticipants, adminPhone, failed);
        assert forall i :: 0 <= i < |updated| ==>
                 updated[i].(status := currentParticipants[i].status) == currentParticipants[i];
        currentParticipants := updated;
        outcome := ParticipantsUpdated;
    }
  }
}
