/**
 * Worked examples of the importer and a client of `App.Session` that drives the
 * page through a whole session, relying only on the handlers' contracts.
 */
module Scenarios {
  import opened Wrappers
  import Text
  import Phone
  import opened Csv
  import opened App

  /** A space between two pieces of a phone number contributes no digit. */
  lemma SpaceDropped(x: string, y: string)
    ensures Phone.StripNonDigits(x + " " + y) == Phone.StripNonDigits(x) + Phone.StripNonDigits(y)
  {
    assert Phone.StripNonDigits(x + " ") == Phone.StripNonDigits(x) by {
      Phone.StripAppend(x, " ");
      Phone.StripOfNonDigits(" ");
    }
    Phone.StripAppend(x + " ", y);
  }

  /**
   * A mobile number typed in three space-separated groups (`612 345 678`) loses the
   * spaces and gains the country code, and the result is valid.
   */
  lemma SpacedMobile(a: string, b: string, c: string)
    requires Phone.AllDigits(a) && Phone.AllDigits(b) && Phone.AllDigits(c)
    requires Phone.IsMobile(a + b + c)
    ensures Phone.Normalize(a + " " + b + " " + c) == "34" + (a + b + c)
    ensures Phone.IsValid(Phone.Normalize(a + " " + b + " " + c))
  {
    assert Phone.StripNonDigits(a + " " + b) == a + b by {
      SpaceDropped(a, b);
      Phone.StripOfDigits(a);
      Phone.StripOfDigits(b);
    }
    assert Phone.StripNonDigits(a + " " + b + " " + c) == a + b + c by {
      SpaceDropped(a + " " + b, c);
      Phone.StripOfDigits(c);
    }
  }

  /** A comma inside a name (`Doe, Jane`) is dropped and the pieces around it are joined. */
  lemma CommaInName(a: string, b: string)
    requires ',' !in a && ',' !in b && Text.Trimmed(a + "," + b)
    ensures Text.RemoveCommas(Text.Trim(a + "," + b)) == a + b
  {
    Text.TrimOfTrimmed(a + "," + b);
    Text.RemoveCommasJoins(a, b);
    Text.RemoveCommasNoop(a);
    Text.RemoveCommasNoop(b);
  }

  /**
   * The name is trimmed before its commas are removed, so the space before a trailing
   * comma (`Ana ,`) stays in the stored name.
   */
  lemma SpaceBeforeCommaKept(s: string)
    requires s != "" && ',' !in s && Text.Trimmed(s)
    ensures Text.RemoveCommas(Text.Trim(s + " ,")) == s + " "
  {
    var t := s + " ";
    assert s + " ," == t + ",";
    assert Text.Trim(t + ",") == t + "," by {
      assert (t + ",")[0] == s[0];
      Text.TrimOfTrimmed(t + ",");
    }
    assert Text.RemoveCommas(t + ",") == t by {
      Text.RemoveTrailingComma(t);
      Text.RemoveCommasNoop(t);
    }
  }

  /**
   * Importing into a fresh page and then selecting the same activity shows exactly the
   * parsed records, each stamped with the activity; an import with no record shows nothing.
   */
  method ImportThenSelect(rows: seq<seq<string>>, name: string) returns (shown: seq<Participant>)
    requires name != ""
    ensures shown == Stamp(ParseCsv(rows), name)
  {
    var page := new Session(map[]);
    var outcome := page.HandleFileUpload(rows, name);
    page.SelectActivity(name);
    shown := page.currentParticipants;
  }

  /** A fresh page, configured, with `rows` imported under `name` and that activity selected. */
  method ConfiguredPageShowing(url: string, key: string, rows: seq<seq<string>>, name: string)
    returns (page: Session)
    requires AcceptsConfig(Text.Trim(url), Text.Trim(key))
    requires Text.Trim(name) != ""
    ensures fresh(page) && page.Valid()
    ensures page.apiUrl == Text.Trim(url) && page.apiKey != ""
    ensures page.selected == Text.Trim(name) && page.groupId == None
    ensures page.currentParticipants == Stamp(ParseCsv(rows), Text.Trim(name))
  {
    page := new Session(map[]);
    var saved := page.SaveConfig(url, key);
    var imported := page.AddActivity(name, Some(rows));
    page.SelectActivity(Text.Trim(name));
  }

  /**
   * On a configured page showing a selected activity, create a group (the provider
   * answers ok with `groupId`) and then add the shown participants (the provider answers
   * with `failed`).
   */
  method CreateThenAdd(page: Session, adminField: string, keyField: string,
                       groupId: string, failed: Option<seq<string>>)
    returns (sent: Option<AddRequest>)
    requires page.Valid() && page.apiUrl != "" && page.apiKey != "" && page.selected != ""
    requires Text.Trim(adminField) != "" && Text.Trim(keyField) != "" && groupId != ""
    modifies page
    ensures sent.Some? <==> Requested(old(page.currentParticipants), Phone.Normalize(Text.Trim(adminField))) != []
    ensures sent.Some? ==>
              sent.value == AddRequest(old(page.apiUrl) + "/groups/" + groupId + "/participants", groupId,
                                       Text.Trim(keyField),
                                       Requested(old(page.currentParticipants), Phone.Normalize(Text.Trim(adminField))))
    ensures page.currentParticipants ==
              if sent.Some?
              then WithStatuses(old(page.currentParticipants), Phone.Normalize(Text.Trim(adminField)), failed)
              else old(page.currentParticipants)
  {
    var created, createRequest := page.CreateGroup(adminField, keyField, CreateReplied(true, Some(groupId)));
    assert page.groupId == Some(groupId);
    var added, addRequest := page.AddParticipants(adminField, keyField, AddReplied(true, failed));
    sent := addRequest;
  }

  /**
   * A whole session on a fresh page: save a configuration, import an activity, select
   * it, create a group (the provider answers ok with `groupId`) and add participants
   * (the provider answers with `failed`). The request carries the valid non-admin phones
   * of the import exactly when there are some; every shown record is the imported one,
   * stamped with the activity and, once the request went out, with its new status.
   */
  method WholeSession(url: string, key: string, rows: seq<seq<string>>, name: string,
                      adminField: string, keyField: string, groupId: string, failed: Option<seq<string>>)
    returns (shown: seq<Participant>, sent: Option<AddRequest>)
    requires AcceptsConfig(Text.Trim(url), Text.Trim(key))
    requires Text.Trim(name) != "" && Text.Trim(adminField) != "" && Text.Trim(keyField) != "" && groupId != ""
    ensures |shown| == |ParseCsv(rows)|
    ensures sent.Some? <==> Requested(ParseCsv(rows), Phone.Normalize(Text.Trim(adminField))) != []
    ensures sent.Some? ==>
              sent.value == AddRequest(Text.Trim(url) + "/groups/" + groupId + "/participants", groupId,
                                       Text.Trim(keyField),
                                       Requested(ParseCsv(rows), Phone.Normalize(Text.Trim(adminField))))
    ensures forall i :: 0 <= i < |shown| ==>
              var p := ParseCsv(rows)[i];
              shown[i] == p.(actividad := Text.Trim(name),
                             status := if sent.Some? then NewStatus(p, Phone.Normalize(Text.Trim(adminField)), failed)
                                       else p.status)
  {
    ghost var ps := ParseCsv(rows);
    ghost var admin := Phone.Normalize(Text.Trim(adminField));
    var page := ConfiguredPageShowing(url, key, rows, name);
    ghost var stamped := page.currentParticipants;
    RequestedByPhone(stamped, ps, admin);
    sent := CreateThenAdd(page, adminField, keyField, groupId, failed);
    shown := page.currentParticipants;
    forall i | 0 <= i < |shown|
      ensures shown[i] == ps[i].(actividad := Text.Trim(name),
                                 status := if sent.Some? then NewStatus(ps[i], admin, failed) else ps[i].status)
    {
      assert stamped[i].telefono == ps[i].telefono;
    }
  }
}
