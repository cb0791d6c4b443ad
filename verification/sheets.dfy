/**
 * `GoogleSheetsManager.write_contacts` and `write_stats`: the rows the bot
 * appends to the contacts sheet and the statistics sheet. The spreadsheet
 * itself is not modelled; a write is the request `SheetWrite` the bot sends.
 */
module Sheets {
  import opened Wrappers
  import opened Telegram

  /** `SHEET_CONTACTS`. */
  const SheetContacts := "Контакты"
  /** `SHEET_STATS`. */
  const SheetStats := "Статистика"

  /** A spreadsheet cell: a number or a text. */
  datatype Cell = Num(n: int) | Text(s: string)

  type Row = seq<Cell>

  /** A request to the spreadsheet: `append_rows` or `append_row` on the named sheet. */
  datatype SheetWrite = AppendRows(sheet: string, rows: seq<Row>) | AppendRow(sheet: string, row: Row)

  /** The statistics record of one run, as `start_parsing` builds it. */
  datatype Stats = Stats(
    groupsParsed: int,
    totalContacts: int,
    withUsername: int,
    withPhone: int,
    durationSec: int,
    errors: int)

  /** Reads a contact back from a row of the contacts sheet, if the row has that layout. */
  function ContactOfRow(row: Row): Option<Contact> {
    if |row| == 10 && row[0].Num? && row[1].Text? && row[2].Text? && row[3].Text? && row[4].Text? && row[5].Text?
    then Some(Contact(row[0].n, row[1].s, row[2].s, row[3].s, row[4].s, row[5].s))
    else None
  }

  /**
   * The row `write_contacts` builds for one contact: ten columns, the contact's six
   * fields first (so the contact can be read back from it), then the fixed
   * `0, '', ''` and the timestamp.
   */
  function ContactRow(ct: Contact, now: string): (r: Row)
    ensures |r| == 10
    ensures ContactOfRow(r) == Some(ct)
    ensures r[6] == Num(0) && r[7] == Text("") && r[8] == Text("") && r[9] == Text(now)
  {
    [Num(ct.id), Text(ct.username), Text(ct.phone), Text(ct.firstName), Text(ct.lastName), Text(ct.group),
     Num(0), Text(""), Text(""), Text(now)]
  }

  /** Reads a statistics record back from a row of the statistics sheet, if the row has that layout. */
  function StatsOfRow(row: Row): Option<Stats> {
    if |row| == 7 && row[1].Num? && row[2].Num? && row[3].Num? && row[4].Num? && row[5].Num? && row[6].Num?
    then Some(Stats(row[1].n, row[2].n, row[3].n, row[4].n, row[5].n, row[6].n))
    else None
  }

  /** The row `write_stats` builds: the timestamp, then the six counters in order. */
  function StatsRow(s: Stats, now: string): (r: Row)
    ensures |r| == 7 && r[0] == Text(now)
    ensures StatsOfRow(r) == Some(s)
  {
    [Text(now), Num(s.groupsParsed), Num(s.totalContacts), Num(s.withUsername), Num(s.withPhone),
     Num(s.durationSec), Num(s.errors)]
  }

  /**
   * `write_contacts`: nothing for an empty list; otherwise one `append_rows` on the
   * contacts sheet with exactly one row per contact, in order.
   */
  method WriteContacts(contacts: seq<Contact>, now: string) returns (writes: seq<SheetWrite>)
    ensures contacts == [] ==> writes == []
    ensures contacts != [] ==>
      && |writes| == 1 && writes[0].AppendRows? && writes[0].sheet == SheetContacts
      && |writes[0].rows| == |contacts|
      && (forall i :: 0 <= i < |contacts| ==> writes[0].rows[i] == ContactRow(contacts[i], now))
  {
    if contacts == [] {
      return [];
    }
    var rows: seq<Row> := [];
    for i := 0 to |contacts|
      invariant |rows| == i
      invariant forall k :: 0 <= k < i ==> rows[k] == ContactRow(contacts[k], now)
    {
      var contact := contacts[i];
      var row := [Num(contact.id), Text(contact.username), Text(contact.phone), Text(contact.firstName),
                  Text(contact.lastName), Text(contact.group), Num(0), Text(""), Text(""), Text(now)];
      rows := rows + [row];
    }
    writes := [AppendRows(SheetContacts, rows)];
  }
}
