/**
 * `parseCSV`: from the row matrix the CSV tokeniser produces to participant records.
 * The first row is a header and is skipped; a data row needs at least three columns,
 * column 1 is the name and column 2 the phone.
 */
module Csv {
  import opened Wrappers
  import Text
  import Phone

  /** The participant status values `'pending'`, `'success'` and `'error'`. */
  datatype Status = Pending | Success | Error

  /** A participant record `{ nombre, telefono, actividad, status }`. */
  datatype Participant = Participant(nombre: string, telefono: string, actividad: string, status: Status)

  /** What every record keeps from the moment it is imported: a name and a normalised phone. */
  predicate HasContact(p: Participant)
  {
    && p.nombre != "" && ',' !in p.nombre
    && p.telefono != "" && Phone.AllDigits(p.telefono) && !Phone.IsMobile(p.telefono)
  }

  /** Status as the importer sets it: pending for a valid phone, error otherwise. */
  predicate ImportStatus(p: Participant)
  {
    p.status == (if Phone.IsValid(p.telefono) then Pending else Error)
  }

  /** A record exactly as the parser returns it, before an activity is stamped on it. */
  predicate FreshRecord(p: Participant)
  {
    HasContact(p) && p.actividad == "" && ImportStatus(p)
  }

  /** Every record is as the parser returns it. */
  predicate AllFresh(ps: seq<Participant>)
  {
    forall i :: 0 <= i < |ps| ==> FreshRecord(ps[i])
  }

  /**
   * The mapping applied to one data row: the name column trimmed and cleared of commas,
   * the phone column normalised, the status set by the phone's validity.
   */
  function ParseRow(row: seq<string>): (r: Option<Participant>)
    ensures r.Some? ==> |row| >= 3 && FreshRecord(r.value)
    ensures r.Some? ==> r.value.nombre == Text.RemoveCommas(Text.Trim(row[1]))
                        && r.value.telefono == Phone.Normalize(row[2])
  {
    if |row| < 3 then None
    else
      var nombre := Text.RemoveCommas(Text.Trim(row[1]));
      var telefono := Phone.Normalize(row[2]);
      var valido := Phone.IsValid(telefono);
      if nombre != "" && telefono != "" then
        Some(Participant(nombre, telefono, "", if valido then Pending else Error))
      else
        None
  }

  /**
   * A row is kept exactly when it has three columns, its name column holds something
   * besides whitespace and commas, and its phone column holds at least one digit.
   */
  lemma RowKeptIff(row: seq<string>)
    ensures ParseRow(row).Some? <==>
      && |row| >= 3
      && (exists i :: 0 <= i < |Text.Trim(row[1])| && Text.Trim(row[1])[i] != ',')
      && Phone.StripNonDigits(row[2]) != ""
  {
    if |row| >= 3 {
      Text.RemoveCommasEmptyIff(Text.Trim(row[1]));
    }
  }

  /** `rows.map(...).filter(Boolean)`: the records of the rows that are kept, in row order. */
  function ParseRows(rows: seq<seq<string>>): (r: seq<Participant>)
    ensures |r| <= |rows|
    ensures AllFresh(r)
  {
    if rows == [] then []
    else
      match ParseRow(rows[0])
      case Some(p) => [p] + ParseRows(rows[1..])
      case None => ParseRows(rows[1..])
  }

  /** `parseCSV(text)` on the tokenised text: the header row is dropped, then rows are mapped. */
  function ParseCsv(rows: seq<seq<string>>): (r: seq<Participant>)
    ensures |rows| <= 1 ==> r == []
    ensures |rows| >= 1 ==> |r| <= |rows| - 1
    ensures AllFresh(r)
  {
    if rows == [] then [] else ParseRows(rows[1..])
  }

  /** Parsing distributes over concatenation, so output order follows row order. */
  lemma {:induction false} ParseRowsAppend(a: seq<seq<string>>, b: seq<seq<string>>)
    ensures ParseRows(a + b) == ParseRows(a) + ParseRows(b)
  {
    if a == [] {
      assert a + b == b;
    } else {
      assert (a + b)[0] == a[0] && (a + b)[1..] == a[1..] + b;
      ParseRowsAppend(a[1..], b);
    }
  }

  /** A record is in the output exactly when some data row (not the header) maps to it. */
  lemma {:induction false} ParseRowsMembers(rows: seq<seq<string>>, p: Participant)
    ensures p in ParseRows(rows) <==> exists i :: 0 <= i < |rows| && ParseRow(rows[i]) == Some(p)
  {
    if rows != [] {
      var rest := rows[1..];
      ParseRowsMembers(rest, p);
      assert forall j :: 0 <= j < |rest| ==> rest[j] == rows[j + 1];
      if exists i :: 0 <= i < |rows| && ParseRow(rows[i]) == Some(p) {
        var i :| 0 <= i < |rows| && ParseRow(rows[i]) == Some(p);
        if i > 0 {
          assert rest[i - 1] == rows[i];
        }
      }
    }
  }

  lemma ParseCsvMembers(rows: seq<seq<string>>, p: Participant)
    ensures p in ParseCsv(rows) <==> exists i :: 1 <= i < |rows| && ParseRow(rows[i]) == Some(p)
  {
    if rows != [] {
      ParseRowsMembers(rows[1..], p);
      if exists i :: 1 <= i < |rows| && ParseRow(rows[i]) == Some(p) {
        var i :| 1 <= i < |rows| && ParseRow(rows[i]) == Some(p);
        assert rows[1..][i - 1] == rows[i];
      }
    }
  }

  /** Whatever the first row holds, it never contributes a record. */
  lemma HeaderIgnored(h1: seq<string>, h2: seq<string>, rest: seq<seq<string>>)
    ensures ParseCsv([h1] + rest) == ParseCsv([h2] + rest)
  {
    assert ([h1] + rest)[1..] == rest == ([h2] + rest)[1..];
  }

  /** A data row with fewer than three columns is dropped without a trace. */
  lemma ShortRowDropped(a: seq<seq<string>>, row: seq<string>, b: seq<seq<string>>)
    requires |a| >= 1 && |row| < 3
    ensures ParseCsv(a + [row] + b) == ParseCsv(a + b)
  {
    assert (a + [row] + b)[1..] == a[1..] + [row] + b;
    assert (a + b)[1..] == a[1..] + b;
    ParseRowsAppend(a[1..] + [row], b);
    ParseRowsAppend(a[1..], [row]);
    ParseRowsAppend(a[1..], b);
  }
}
