/**
 * almanac.py: the daily Barovian Almanac. The day's row is looked up in a spreadsheet by
 * a `7-Jan` style date key, and an embed with a fixed layout of thirteen fields is built
 * from that row and the Barovian year.
 */
module Almanac {
  import opened Wrappers
  import opened Text
  import opened Calendar
  import opened Discord
  import opened Effects

  /** The almanac is posted every day at midnight UTC; the firing is not modelled. */
  const RefreshHour := 0

  // Column names, as in the sheet's header cells.
  const DayOfYear := "Real World Day of year"
  const DateColumn := "Real World\n Date"
  const Special := "Special\n(special note about this day)"
  const BarovianMonth := "Barovian Month"
  const BarovianDay := "Barovian Day"
  const MoonPhase := "Moon Phase"
  const Season := "Season"
  const Temperature := ":thermometer:\nTemperature (High / Low)"
  const Wind := ":wind_blowing_face: Wind"
  const Precipitation := ":droplet: Precipitation"
  const Sunrise := ":sunrise_over_mountains: Sunrise"
  const Sunset := ":sunrise_over_mountains: Sunset "

  /** A sheet row: column name to cell text. */
  type Row = map<string, string>

  const Title := ":calendar_spiral: Barovian Almanac"
  const Description :=
    "Daily forecast for the Town of Vallaki. Higher elevations are cooler and more likely to have snow."
  const Footer :=
    "Remember, DMs can override temperature or date to suit their events.\n" +
    "Based on u/Silphaen and others in r/CurseofStrahd for calendar and weather generators."
  /** A field value Discord accepts but does not render, used for spacing. */
  const NullValue := "** **"

  /** `timestamp.strftime('%d-%b').lstrip('0')`, e.g. `7-Jan`. */
  function DateKey(d: Date): string {
    LStrip(TwoDigits(d.day) + "-" + MonthAbbreviation(d.month), '0')
  }

  /** The key is the unpadded day of the month, a dash and the month abbreviation. */
  lemma DateKeyShape(d: Date)
    ensures DateKey(d) == NatToString(d.day) + "-" + MonthAbbreviation(d.month)
    ensures DateKey(d)[0] != '0'
  {
    var padded := TwoDigits(d.day) + "-" + MonthAbbreviation(d.month);
    if d.day < 10 {
      assert padded == ['0'] + (NatToString(d.day) + "-" + MonthAbbreviation(d.month));
      assert padded[1] != '0';
      assert LStrip(padded, '0') == LStrip(padded[1..], '0');
    } else {
      var n := NatToString(d.day);
      assert n == NatToString(d.day / 10) + [DigitChar(d.day % 10)];
      assert padded == n + "-" + MonthAbbreviation(d.month);
      assert padded[0] != '0';
    }
  }

  /** Where the dash of a key `<digits>-<rest>` is: right after the digits. */
  lemma DashAfterDigits(n: string, rest: string)
    requires forall k :: 0 <= k < |n| ==> IsDigit(n[k])
    ensures Index(n + "-" + rest, "-") == Some(|n|)
  {
    var s := n + "-" + rest;
    assert OccursAt(s, "-", |n|);
    var r := Index(s, "-");
    forall j | 0 <= j < |n| ensures !OccursAt(s, "-", j) {
      assert s[j] == n[j];
    }
  }

  /** Two dates share a key exactly when they share the day of the month and the month. */
  lemma DateKeyInjective(a: Date, b: Date)
    ensures DateKey(a) == DateKey(b) <==> a.month == b.month && a.day == b.day
  {
    DateKeyShape(a);
    DateKeyShape(b);
    if DateKey(a) == DateKey(b) {
      KeyPartsInjective(NatToString(a.day), MonthAbbreviation(a.month),
                        NatToString(b.day), MonthAbbreviation(b.month));
      NatToStringInjective(a.day, b.day);
      MonthAbbreviationInjective(a.month, b.month);
    }
  }

  lemma KeyPartsInjective(na: string, ma: string, nb: string, mb: string)
    requires forall k :: 0 <= k < |na| ==> IsDigit(na[k])
    requires forall k :: 0 <= k < |nb| ==> IsDigit(nb[k])
    requires na + "-" + ma == nb + "-" + mb
    ensures na == nb && ma == mb
  {
    DashAfterDigits(na, ma);
    DashAfterDigits(nb, mb);
    var key := na + "-" + ma;
    assert key[..|na|] == na && key[|na| + 1..] == ma;
  }

  lemma MonthAbbreviationInjective(m: int, n: int)
    requires 1 <= m <= 12 && 1 <= n <= 12
    requires MonthAbbreviation(m) == MonthAbbreviation(n)
    ensures m == n
  {
    var names := ["Jan", "Feb", "Mar", "Apr", "May", "Jun", "Jul", "Aug", "Sep", "Oct", "Nov", "Dec"];
    assert forall i, j :: 0 <= i < 12 && 0 <= j < 12 && i != j ==> names[i] != names[j];
  }

  /**
   * The loop of `_fetch_data` as a specification: the first row whose date cell equals
   * `key`, `None` when there is none, and KeyError when a row met before the match has no
   * date cell.
   */
  function FindEntry(rows: seq<Row>, key: string): (r: Result<Option<Row>, Fault>)
    ensures r.Success? && r.value.Some? ==>
      exists k :: 0 <= k < |rows| && rows[k] == r.value.value && DateColumn in rows[k] &&
        rows[k][DateColumn] == key && Earlier(rows, key, k)
    ensures r == Success(None) <==> Earlier(rows, key, |rows|)
    ensures r.Failure? ==>
      r.error == KeyError(DateColumn) &&
      exists k :: 0 <= k < |rows| && DateColumn !in rows[k] && Earlier(rows, key, k)
  {
    if rows == [] then Success(None)
    else if DateColumn !in rows[0] then Failure(KeyError(DateColumn))
    else if rows[0][DateColumn] == key then Success(Some(rows[0]))
    else
      var r := FindEntry(rows[1..], key);
      EarlierCons(rows, key);
      r
  }

  /** Every row before position `k` has a date cell, and none of them holds `key`. */
  predicate Earlier(rows: seq<Row>, key: string, k: int)
    requires 0 <= k <= |rows|
  {
    forall j :: 0 <= j < k ==> DateColumn in rows[j] && rows[j][DateColumn] != key
  }

  lemma EarlierCons(rows: seq<Row>, key: string)
    requires rows != [] && DateColumn in rows[0] && rows[0][DateColumn] != key
    ensures forall k :: 0 <= k <= |rows| - 1 ==> (Earlier(rows[1..], key, k) <==> Earlier(rows, key, k + 1))
  {
    forall k | 0 <= k <= |rows| - 1
      ensures Earlier(rows[1..], key, k) <==> Earlier(rows, key, k + 1)
    {
      if Earlier(rows[1..], key, k) {
        forall j | 0 <= j < k + 1
          ensures DateColumn in rows[j] && rows[j][DateColumn] != key
        {
          if j > 0 {
            assert rows[j] == rows[1..][j - 1];
          }
        }
      }
    }
  }

  /**
   * `_fetch_data(sheet_id, timestamp)`, given the rows `load_google_sheet` returns: scans
   * the rows in order and returns the first whose date cell equals the timestamp's key.
   */
  method FetchData(rows: seq<Row>, timestamp: Date) returns (r: Result<Option<Row>, Fault>)
    ensures r == FindEntry(rows, DateKey(timestamp))
  {
    var formattedDate := DateKey(timestamp);
    var i := 0;
    while i < |rows|
      invariant 0 <= i <= |rows|
      invariant FindEntry(rows[i..], formattedDate) == FindEntry(rows, formattedDate)
    {
      var datum := rows[i];
      if DateColumn !in datum {
        return Failure(KeyError(DateColumn));
      }
      if datum[DateColumn] == formattedDate {
        return Success(Some(datum));
      }
      assert rows[i..][1..] == rows[i + 1..];
      i := i + 1;
    }
    return Success(None);
  }

  /** `_fetch_data` finds nothing exactly when every row has a date cell and none matches. */
  lemma FetchNoneIff(rows: seq<Row>, timestamp: Date)
    ensures FindEntry(rows, DateKey(timestamp)) == Success(None) <==>
      forall j :: 0 <= j < |rows| ==>
        DateColumn in rows[j] && rows[j][DateColumn] != DateKey(timestamp)
  {
  }

  /** A matching row that comes first is the one returned. */
  lemma FetchFirstMatch(rows: seq<Row>, timestamp: Date, k: nat)
    requires k < |rows| && DateColumn in rows[k] && rows[k][DateColumn] == DateKey(timestamp)
    requires Earlier(rows, DateKey(timestamp), k)
    ensures FindEntry(rows, DateKey(timestamp)) == Success(Some(rows[k]))
  {
    var r := FindEntry(rows, DateKey(timestamp));
    if r.Success? && r.value.Some? {
      var m :| 0 <= m < |rows| && rows[m] == r.value.value && DateColumn in rows[m] &&
        rows[m][DateColumn] == DateKey(timestamp) && Earlier(rows, DateKey(timestamp), m);
      assert !(m < k) && !(k < m);
    }
  }

  /** `f'{timestamp.year - 1286} BC'`: years since Strahd became a vampire. */
  function BarovianYear(year: int): (r: string)
    ensures |r| > 3 && r[|r| - 3..] == " BC"
  {
    IntToString(year - 1286) + " BC"
  }

  /** The Barovian year reads back as the real year minus 1286. */
  lemma BarovianYearValue(year: int)
    ensures var r := BarovianYear(year);
      IsIntText(r[..|r| - 3]) && ParseInt(r[..|r| - 3]) == year - 1286
    ensures BarovianYear(year)[0] == '-' <==> year < 1286
  {
    var r := BarovianYear(year);
    assert r[..|r| - 3] == IntToString(year - 1286);
    ParseIntToString(year - 1286);
  }

  /** The entry cells `generate_embed` reads, in the order it reads them. */
  const AccessOrder: seq<string> :=
    [BarovianDay, BarovianMonth, Sunrise, Sunset, MoonPhase, Temperature, Wind, Precipitation,
     Season, Special]

  /** The first key of `keys` missing from `entry`, which is where the KeyError is raised. */
  function FirstMissing(entry: Row, keys: seq<string>): (r: Option<string>)
    ensures r.None? <==> forall k :: 0 <= k < |keys| ==> keys[k] in entry
    ensures r.Some? ==> exists k :: 0 <= k < |keys| && keys[k] == r.value && r.value !in entry &&
                                    forall j :: 0 <= j < k ==> keys[j] in entry
  {
    if keys == [] then None
    else if keys[0] !in entry then Some(keys[0])
    else
      var r := FirstMissing(entry, keys[1..]);
      assert r.Some? ==> exists k :: 1 <= k < |keys| && keys[k] == r.value && r.value !in entry &&
                                     forall j :: 1 <= j < k ==> keys[j] in entry;
      r
  }

  /** The found row holds every cell `generate_embed` reads. */
  predicate HasCells(entry: Row) {
    BarovianDay in entry && BarovianMonth in entry && Sunrise in entry && Sunset in entry &&
    MoonPhase in entry && Temperature in entry && Wind in entry && Precipitation in entry &&
    Season in entry && Special in entry
  }

  lemma HasCellsIffNoneMissing(entry: Row)
    ensures HasCells(entry) <==> FirstMissing(entry, AccessOrder).None?
  {
    if FirstMissing(entry, AccessOrder).None? {
      assert forall k :: 0 <= k < |AccessOrder| ==> AccessOrder[k] in entry;
      assert AccessOrder[0] in entry && AccessOrder[1] in entry && AccessOrder[2] in entry;
      assert AccessOrder[3] in entry && AccessOrder[4] in entry && AccessOrder[5] in entry;
      assert AccessOrder[6] in entry && AccessOrder[7] in entry && AccessOrder[8] in entry;
      assert AccessOrder[9] in entry;
    }
  }

  /** The name of the last field: the special note under a spacer, or a bare spacer. */
  function SpecialFieldName(special: string): string {
    if special != "" then NullValue + "\n" + special else NullValue
  }

  /** The thirteen `add_field` calls of `generate_embed`, for an entry holding every cell. */
  function Fields(entry: Row, year: int): seq<Field>
    requires HasCells(entry)
  {
    [ Field("Day", entry[BarovianDay], true),
      Field("Month", entry[BarovianMonth], true),
      Field("Year", BarovianYear(year), true),
      Field(NullValue + "\n**__Almanac__**", NullValue, false),
      Field(":sunrise_over_mountains: Sunrise", entry[Sunrise], true),
      Field(":sunrise_over_mountains: Sunset", entry[Sunset], true),
      Field("Moon Phase", entry[MoonPhase], true),
      Field(NullValue + "\n**__Weather__**", NullValue, false),
      Field(":thermometer: Temperature", entry[Temperature], true),
      Field(":wind_blowing_face: Wind Speed", entry[Wind], true),
      Field(":droplet: Precipitation", entry[Precipitation], true),
      Field("Season", entry[Season], true),
      Field(SpecialFieldName(entry[Special]), NullValue, false) ]
  }

  /**
   * `generate_embed(sheet_id, timestamp)`, given the sheet's rows: the embed for the
   * timestamp's row. A failed lookup propagates; no row (`None`) fails with TypeError at
   * the first subscript; a row lacking a cell fails with KeyError at the first such cell.
   */
  function GenerateEmbed(rows: seq<Row>, timestamp: Date): (r: Result<Embed, Fault>)
    ensures FindEntry(rows, DateKey(timestamp)).Failure? ==> r == Failure(KeyError(DateColumn))
    ensures FindEntry(rows, DateKey(timestamp)) == Success(None) ==> r == Failure(TypeError)
    ensures r.Success? <==>
      FindEntry(rows, DateKey(timestamp)).Success? && FindEntry(rows, DateKey(timestamp)).value.Some? &&
      FirstMissing(FindEntry(rows, DateKey(timestamp)).value.value, AccessOrder).None?
    ensures r.Success? ==> r.value.title == Title && r.value.description == Description &&
                           r.value.footer == Footer && |r.value.fields| == 13
  {
    match FindEntry(rows, DateKey(timestamp))
    case Failure(e) => Failure(e)
    case Success(None) => Failure(TypeError)
    case Success(Some(entry)) =>
      match FirstMissing(entry, AccessOrder)
      case Some(key) => Failure(KeyError(key))
      case None =>
        HasCellsIffNoneMissing(entry);
        Success(Embed(Title, Description, Fields(entry, timestamp.year), Footer))
  }

  /** A cell missing from the found row is reported by name, the first in reading order. */
  lemma MissingCellReported(rows: seq<Row>, timestamp: Date)
    requires FindEntry(rows, DateKey(timestamp)).Success? && FindEntry(rows, DateKey(timestamp)).value.Some?
    requires GenerateEmbed(rows, timestamp).Failure?
    ensures var entry := FindEntry(rows, DateKey(timestamp)).value.value;
      var e := GenerateEmbed(rows, timestamp).error;
      e.KeyError? && e.key in AccessOrder && e.key !in entry &&
      exists k :: 0 <= k < |AccessOrder| && AccessOrder[k] == e.key &&
        forall j :: 0 <= j < k ==> AccessOrder[j] in entry
  {
  }

  /** The field names in order, with the spacer rows not inline. */
  const FieldNames: seq<string> :=
    ["Day", "Month", "Year", NullValue + "\n**__Almanac__**",
     ":sunrise_over_mountains: Sunrise", ":sunrise_over_mountains: Sunset", "Moon Phase",
     NullValue + "\n**__Weather__**",
     ":thermometer: Temperature", ":wind_blowing_face: Wind Speed", ":droplet: Precipitation",
     "Season"]

  /** Which sheet column feeds each of the data fields, by field position. */
  const DataColumns: map<int, string> :=
    map[0 := BarovianDay, 1 := BarovianMonth, 4 := Sunrise, 5 := Sunset, 6 := MoonPhase,
        8 := Temperature, 9 := Wind, 10 := Precipitation, 11 := Season]

  /**
   * The fixed layout: thirteen fields in order; each data field shows its cell of the
   * row; the Year field shows the Barovian year; spacers show the blank value and break
   * the inline row; the last field carries the special note when there is one.
   */
  lemma FieldsLayout(entry: Row, year: int)
    requires HasCells(entry)
    ensures var fields := Fields(entry, year);
      |fields| == 13 &&
      (forall k :: 0 <= k < 12 ==> fields[k].name == FieldNames[k]) &&
      (forall k :: k in DataColumns ==>
         (0 <= k < 13 && DataColumns[k] in entry && fields[k].value == entry[DataColumns[k]] &&
          fields[k].inline)) &&
      fields[2].value == BarovianYear(year) && fields[2].inline &&
      fields[3].value == NullValue && !fields[3].inline &&
      fields[7].value == NullValue && !fields[7].inline &&
      fields[12].value == NullValue && !fields[12].inline &&
      (entry[Special] != "" ==> fields[12].name == NullValue + "\n" + entry[Special]) &&
      (entry[Special] == "" ==> fields[12].name == NullValue)
  {
    var fields := Fields(entry, year);
    forall k | k in DataColumns
      ensures 0 <= k < 13 && DataColumns[k] in entry && fields[k].value == entry[DataColumns[k]] &&
              fields[k].inline
    {
      assert k in {0, 1, 4, 5, 6, 8, 9, 10, 11};
    }
  }

  /** The layout of every embed `generate_embed` returns, over the row it found. */
  lemma EmbedLayout(rows: seq<Row>, timestamp: Date)
    requires GenerateEmbed(rows, timestamp).Success?
    ensures var entry := FindEntry(rows, DateKey(timestamp)).value.value;
      HasCells(entry) && GenerateEmbed(rows, timestamp).value.fields == Fields(entry, timestamp.year)
  {
    HasCellsIffNoneMissing(FindEntry(rows, DateKey(timestamp)).value.value);
  }

  /** `post_entry(entry, channel)`: one message carrying only the embed. */
  function PostEntry(entry: Embed, channel: ChannelRef): (r: Effect)
    ensures r.Send? && r.channel == channel && r.message.content.None? && r.message.embed == Some(entry)
  {
    Send(channel, Message(None, Some(entry)))
  }
}
