# Participant import and group dispatch, modelled in Dafny

This project models the logic of `app.js`, a browser page that turns a CSV export of
activity participants into groups on a group-messaging service, through its HTTP API.
The model covers:

- phone normalisation (`normalizarTelefono`) and validation (`esTelefonoValido`);
- the row mapping of `parseCSV`, starting from the row matrix the CSV tokeniser produces;
- the activity registry: import with `handleFileUpload` and the add-activity button, then
  selection of an activity;
- the create-group and add-participants handlers, which update `groupId` and
  `currentParticipants`;
- the configuration handlers `loadConfig`, `saveConfig` and the credentials-file handler.

Files:

- `wrappers.dfy` holds `Option`.
- `text.dfy` holds JavaScript `trim` and the removal of commas.
- `phone.dfy` holds the two phone functions and the regular expressions they test.
- `csv.dfy` holds the participant record and `parseCSV`.
- `session.dfy` holds the page's module-level state as the class `App.Session`, with one
  method per handler.
- `scenarios.dfy` holds worked examples and clients that drive a fresh page through a whole
  session using only the handlers' contracts.

Every HTTP exchange is an input value. It is either the exception `fetch` threw, or the
response's `ok` flag with the body's `id` or `failed` field when present. A handler returns
the request it would send (URL, bearer token, phones). The contents of the input fields
are handler parameters: their content at the moment of the click.

Behaviours of the code worth knowing:

- The name column is trimmed *before* its commas are removed (app.js:109). A stored name can
  therefore still end in whitespace: `Ana ,` becomes `Ana `. `Scenarios.SpaceBeforeCommaKept`
  proves this.
- Statuses are rewritten after any add-participants response that did not throw, whatever
  its `ok` flag (app.js:240-254).
- After a successful import the activity list is rebuilt (app.js:140-148). The selector then
  shows its blank option, so `selected` becomes `""`, while `currentParticipants` keeps the
  list it showed before.
- The bearer token of both requests is the key *field*, trimmed (app.js:160, 233). It is not
  the saved `API_KEY`, which only gates the create-group handler (app.js:311-317).

## Model

| member | source | states |
|---|---|---|
| Text.Trim | app.js:109 | the result has no whitespace at either edge, is no longer than the input, and is empty exactly when the input is all ECMAScript whitespace |
| Text.TrimCutsWhitespace | app.js:109 | the trimmed string is a contiguous piece of the input, and everything cut on either side is whitespace |
| Text.TrimIdempotent | app.js:109 | trimming twice is trimming once |
| Text.TrimOfTrimmed | app.js:109 | a string with no whitespace edge is left unchanged |
| Text.RemoveCommas | app.js:109 | the result holds no comma and is no longer than the input |
| Text.RemoveCommasAppend | app.js:109 | comma removal distributes over concatenation, so the kept characters stay in order |
| Text.RemoveCommasJoins | app.js:109 | a comma contributes nothing: the pieces on either side are joined |
| Text.RemoveCommasNoop | app.js:109 | a comma-free string is unchanged |
| Text.RemoveCommasEmptyIff | app.js:109 | the result is empty exactly when the input holds only commas |
| Phone.StripNonDigits | app.js:77 | the result holds only ASCII digits and is no longer than the input |
| Phone.StripAppend | app.js:77 | digit stripping distributes over concatenation |
| Phone.StripOfDigits | app.js:77 | a digit string strips to itself |
| Phone.Normalize | app.js:75-80 | the result is digits only; it is empty exactly when the input has no digit (so `""` maps to `""`); it is `34` + digits when the digits form a bare `[67]`+8 mobile number, and otherwise the digits unchanged |
| Phone.PrependsIff | app.js:78 | `34` is prepended if and only if the stripped digits are a bare mobile number |
| Phone.NormalizedNotMobile | app.js:75-80 | no normalised number is a bare mobile number |
| Phone.NormalizeIdempotent | app.js:75-80 | normalising twice is normalising once |
| Phone.ValidNormalizedIsPrefixed | app.js:77-84 | a normalised number that is valid has 11 digits and starts with `34` |
| Phone.NormalizeValid | app.js:75-84 | a valid number normalises to its `34` form and stays valid |
| Phone.IsValid | app.js:82-84 | a valid number is all digits, of length 9 or 11 |
| Phone.ValidIffPatterns | app.js:82-84 | validity holds if and only if the string matches `^[67]\d{8}$` or `^34[67]\d{8}$`, spelled out class by class |
| Phone.ShapesMatch | app.js:83 | each of the two shapes agrees with its regular expression |
| Csv.ParseRow | app.js:108-115 | a kept row has at least 3 columns; its record has name = column 1 trimmed then comma-free, phone = column 2 normalised, no activity, and status pending exactly when the phone is valid, else error; name and phone are non-empty, the name holds no comma, and the phone is digits only |
| Csv.RowKeptIff | app.js:108-115 | a row is kept if and only if it has 3 columns, its trimmed name holds a character other than a comma, and its phone column holds a digit |
| Csv.ParseRows | app.js:107-116 | the output is no longer than the input, and every record has a comma-free name, a normalised phone, no activity, and status pending exactly when its phone is valid |
| Csv.ParseCsv | app.js:101-117 | with at most one row the result is empty; it has at most rows−1 records; every record has a comma-free name, a normalised phone, no activity, and status pending exactly when its phone is valid |
| Csv.ParseRowsAppend | app.js:107-116 | parsing distributes over concatenation of rows, so records keep row order |
| Csv.ParseRowsMembers | app.js:107-116 | a record is output if and only if some row maps to it |
| Csv.ParseCsvMembers | app.js:107-116 | a record is output if and only if some row other than the first maps to it |
| Csv.HeaderIgnored | app.js:107 | the first row never affects the result |
| Csv.ShortRowDropped | app.js:108 | a data row with fewer than three columns is dropped without effect on the rest |
| App.AcceptsConfig | app.js:27-31 | `saveConfig` accepts its trimmed fields only when both are non-empty and the key is not the 16-bullet mask the field shows for a saved token |
| App.StoredConfig | app.js:10-13 | configuration is found exactly when both entries are present and non-empty, and it is what they hold |
| App.SaveLoadRoundTrip | app.js:9-47 | what `saveConfig` accepts and stores, `loadConfig` reads back |
| App.Lookup | app.js:280 | a blank or unknown selection yields `[]`; a known one yields its stored list |
| App.Stamp | app.js:127 | every record gets the activity name and nothing else about it changes |
| App.StampActivity | app.js:127 | the in-place `forEach` stamping loop computes `Stamp` |
| App.StampedIsStored | app.js:122-128 | stamping a non-empty parse result gives a list that satisfies the registry invariant |
| App.StampedHaveContact | app.js:280 | a stored list may be shown: every record has a name and a normalised phone |
| App.ToAdd | app.js:220-221 | a participant is added only when its phone is valid and its normalised form is not the admin's |
| App.Requested | app.js:220-222 | the request holds no more phones than participants; each is valid, in `34` form and not the admin's |
| App.RequestedAppend | app.js:220-222 | the request list follows participant order |
| App.RequestedByPhone | app.js:220-222 | the request list depends on the participants' phones only |
| App.RequestedMembers | app.js:220-222 | a phone is requested if and only if some valid, non-admin participant normalises to it |
| App.Failed | app.js:252 | a phone counts as failed only when the body carries a `failed` list that contains it; no body or no list means nothing failed |
| App.NewStatus | app.js:245-254 | the new status is never pending; it is error if and only if the phone is invalid, or it was requested and listed as failed |
| App.WithStatuses | app.js:245 | the list keeps its length and order and only `status` changes |
| App.StatusesAfterResponse | app.js:245-254 | invalid phone gives error; the admin's phone gives success; a requested phone is error exactly when listed as failed; every valid non-admin phone was requested |
| App.GroupIdAfter | app.js:188-204 | a throw keeps the group id; a response gives a group id exactly when it is ok with a non-empty id, and that id is the one kept |
| App.Session.constructor | app.js:65-67 | the page loads with no activity, no selection, nothing shown and no group, and with no configuration (`API_URL` and `API_KEY` start empty at app.js:5-6) |
| App.Session.LoadConfig | app.js:9-24 | the stored URL and key are adopted exactly when both are present and non-empty; nothing else changes |
| App.Session.SaveConfig | app.js:27-47 | the trimmed URL and key are adopted and stored if and only if both are non-empty and the key is not the mask; otherwise nothing changes |
| App.Session.LoadCredentials | app.js:320-338 | a parsed file with a non-empty `apiUrl` replaces the URL and is reported loaded; an unparsable file is reported as an error; no file is silent; nothing else changes |
| App.Session.HandleFileUpload | app.js:120-137 | an import with no record changes nothing; otherwise the entry of that name becomes the stamped records, no other entry changes, the selection is cleared, and the shown list, group and configuration are kept |
| App.Session.AddActivity | app.js:269-275 | a blank name or a missing file changes nothing; otherwise it is an import under the trimmed name |
| App.Session.SelectActivity | app.js:278-282 | the shown list becomes the stored list of the selected name, or `[]` for a blank or unknown one; the registry is untouched |
| App.Session.CreateGroup | app.js:151-205 | it sends nothing if configuration, selection, admin phone or key is missing (in that order of messages); otherwise it posts the admin's normalised phone with the activity as subject, and the group id follows `GroupIdAfter` |
| App.Session.AddParticipants | app.js:208-265 | it sends nothing and changes nothing without a group, with nothing shown, or with no requested phone; otherwise it posts `Requested` to the current `API_URL` + `/groups/` + group id + `/participants`; a throw changes nothing; any response, ok or not, rewrites statuses by `WithStatuses`; the registry is never touched |
| Scenarios.SpaceDropped | app.js:77 | a space between two parts of a phone contributes no digit |
| Scenarios.SpacedMobile | app.js:75-84 | a mobile number typed as `612 345 678` normalises to `34612345678`, which is valid |
| Scenarios.CommaInName | app.js:109 | a name like `Doe, Jane` becomes `Doe Jane` |
| Scenarios.SpaceBeforeCommaKept | app.js:109 | a name like `Ana ,` becomes `Ana `: the trim happens before comma removal |
| Scenarios.ImportThenSelect | app.js:120-137 | importing into a fresh page and selecting that activity shows exactly the parsed records stamped with it |
| Scenarios.WholeSession | app.js:151-265 | after save, import, select, a successful create and an add, the request carries exactly the valid non-admin phones of the import when there are any, and each shown record is its parsed record with the activity and its new status |

## Left out

- `modal.js`: it only opens and closes a dialog.
- Tokenising the CSV text (`Papa.parse`, the `text.trim()` before it, `skipEmptyLines`):
  it is a foreign library, so the model starts from its row matrix.
- `fetch`, `res.json()`, `file.text()` and `JSON.parse`: they are I/O. Their outcomes are
  the input values `CreateResponse`, `AddResponse`, `CredentialsFile` and the row matrix.
- localStorage: it is a map from the page's two storage keys to strings. Other keys cannot
  affect the page.
- DOM rendering, status messages, borders, CSS classes and button disabling: they are
  presentation only. A handler that can show more than one message returns a value saying
  which one; the message texts are not modelled.
- `console.log` and `console.error`: they are output only.
- The input fields are parameters, so writes into them are not modelled. Those writes are:
  - the mask that `loadConfig` and `saveConfig` put into the key field;
  - the credentials file's `telefono` and `apiKey` copied into the fields.

  Because of this, the model does not show that a key field still holding the mask is what
  the handlers then send as the token.
- `encodeURIComponent(groupId)` in the add-participants URL: the URL holds the group id
  unencoded.
- `App.GroupIdAfter`: response `id` values that are not strings are not modelled. The model
  takes the id as an optional string, and a non-empty one counts as truthy.
- `App.Session.LoadCredentials`: `apiUrl` values that are not strings are not modelled.
- `App.Failed`: the model assumes `failed` is a list. `data.failed.includes(tel)` on a string
  would be a substring test, which is not modelled. When `failed` is a number, `true` or an
  object, `includes` is not a function and the call throws; the handler then reports a
  connection error and keeps every status, so such a reply is represented by `AddThrew`.
- `App.Lookup`, `App.Session.HandleFileUpload`: keys inherited from the JavaScript object
  prototype are not modelled. The registry is a map, so `activities[selected]` cannot find
  such keys here. An import named `__proto__` replaces the object's prototype in the source,
  so `Object.keys` never lists it and it can never be selected; here it is an ordinary entry.
- The order of `Object.keys(activities)` in the activity selector is not modelled. It only
  affects rendering.
- Asynchrony: a handler is atomic here, so two clicks cannot interleave while a request is
  in flight.
