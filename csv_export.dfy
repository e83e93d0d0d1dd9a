/** The CSV download of the RSA builder (src/components/rsa/ExportControls.tsx).
    Each row of the RSA table becomes a record with the fixed columns, then
    `Headline 1` … `Headline 15`, then `Description 1` … `Description k`; the
    header is the first record's keys and every line is a record's values,
    joined by commas with no quoting. */
module CsvExport {
  import opened Text
  import opened RsaStore
  import opened RsaTable

  /** One key/value entry of an export record, in insertion order. */
  datatype Field = Field(key: string, value: string)

  /** The five leading columns. */
  const FixedKeys: seq<string> := ["Campaign", "Ad Group", "Final URL", "Path 1", "Path 2"]

  /** `values.reduce((acc, v, i) => ({ ...acc, [prefix + (i + 1)]: v }), {})`
      as an ordered list of entries. */
  function Numbered(prefix: string, values: seq<string>): seq<Field>
  {
    seq(|values|, i requires 0 <= i < |values| => Field(prefix + NatToString(i + 1), values[i]))
  }

  /** The record built for one table row. */
  function Record(row: RsaRow): seq<Field>
  {
    [Field(FixedKeys[0], row.campaign), Field(FixedKeys[1], row.adGroup), Field(FixedKeys[2], row.finalUrl),
     Field(FixedKeys[3], row.path1), Field(FixedKeys[4], row.path2)]
    + Numbered("Headline ", row.headlines)
    + Numbered("Description ", row.descriptions)
  }

  /** `Object.keys(record)`. */
  function Keys(record: seq<Field>): seq<string>
  {
    seq(|record|, i requires 0 <= i < |record| => record[i].key)
  }

  /** `Object.values(record)`. */
  function Values(record: seq<Field>): seq<string>
  {
    seq(|record|, i requires 0 <= i < |record| => record[i].value)
  }

  /** The numbered column names `prefix + "1"` … `prefix + n`. */
  function NumberedKeys(prefix: string, n: nat): seq<string>
  {
    seq(n, i requires 0 <= i < n => prefix + NatToString(i + 1))
  }

  /** The column names of a record with `h` headlines and `d` descriptions. */
  function HeaderKeys(h: nat, d: nat): seq<string>
  {
    FixedKeys + NumberedKeys("Headline ", h) + NumberedKeys("Description ", d)
  }

  /** The keys of a row's record are the fixed columns, one `Headline n` per
      headline and one `Description n` per description, in that order. */
  lemma RecordKeys(row: RsaRow)
    ensures Keys(Record(row)) == HeaderKeys(|row.headlines|, |row.descriptions|)
  {
    var r := Record(row);
    var k := HeaderKeys(|row.headlines|, |row.descriptions|);
    assert |Keys(r)| == |k|;
    forall i | 0 <= i < |k| ensures Keys(r)[i] == k[i] {
      if i >= 5 + |row.headlines| {
        assert k[i] == NumberedKeys("Description ", |row.descriptions|)[i - 5 - |row.headlines|];
      } else if i >= 5 {
        assert k[i] == NumberedKeys("Headline ", |row.headlines|)[i - 5];
      }
    }
  }

  /** The values of a row's record are its cells in column order. */
  lemma RecordValues(row: RsaRow)
    ensures Values(Record(row))
            == [row.campaign, row.adGroup, row.finalUrl, row.path1, row.path2] + row.headlines + row.descriptions
  {
    var r := Record(row);
    var v := [row.campaign, row.adGroup, row.finalUrl, row.path1, row.path2] + row.headlines + row.descriptions;
    assert |Values(r)| == |v|;
    forall i | 0 <= i < |v| ensures Values(r)[i] == v[i] {
      if i >= 5 + |row.headlines| {
        assert v[i] == row.descriptions[i - 5 - |row.headlines|];
      } else if i >= 5 {
        assert v[i] == row.headlines[i - 5];
      }
    }
  }

  /** No two entries of `s` are equal. */
  predicate Distinct(s: seq<string>)
  {
    forall i, j :: 0 <= i < j < |s| ==> s[i] != s[j]
  }

  lemma DistinctAppend(a: seq<string>, b: seq<string>)
    requires Distinct(a) && Distinct(b)
    requires forall x :: x in a ==> x !in b
    ensures Distinct(a + b)
  {
    var ab := a + b;
    forall i, j | 0 <= i < j < |ab| ensures ab[i] != ab[j] {
      if j < |a| {
        assert ab[i] == a[i] && ab[j] == a[j];
      } else if i >= |a| {
        assert ab[i] == b[i - |a|] && ab[j] == b[j - |a|];
      } else {
        assert ab[i] == a[i] && a[i] in a;
        assert ab[j] == b[j - |a|] && b[j - |a|] in b;
      }
    }
  }

  /** Numbered column names never repeat. */
  lemma NumberedKeysDistinct(prefix: string, n: nat)
    ensures Distinct(NumberedKeys(prefix, n))
  {
    var ks := NumberedKeys(prefix, n);
    forall i, j | 0 <= i < j < n ensures ks[i] != ks[j] {
      if ks[i] == ks[j] {
        assert ks[i][|prefix|..] == NatToString(i + 1);
        assert ks[j][|prefix|..] == NatToString(j + 1);
        NatToStringInjective(i + 1, j + 1);
      }
    }
  }

  /** Every numbered column name starts with the prefix's first letter. */
  lemma NumberedKeysStart(prefix: string, n: nat, x: string)
    requires prefix != [] && x in NumberedKeys(prefix, n)
    ensures x != [] && x[0] == prefix[0]
  {
    var i :| 0 <= i < n && NumberedKeys(prefix, n)[i] == x;
  }

  /** The column names of a record are pairwise distinct, so none of the
      spreads overwrites an earlier column and the record has exactly
      `5 + h + d` keys. */
  lemma HeaderKeysDistinct(h: nat, d: nat)
    ensures Distinct(HeaderKeys(h, d))
    ensures |HeaderKeys(h, d)| == 5 + h + d
  {
    var hk := NumberedKeys("Headline ", h);
    var dk := NumberedKeys("Description ", d);
    NumberedKeysDistinct("Headline ", h);
    NumberedKeysDistinct("Description ", d);
    forall x | x in FixedKeys ensures x !in hk {
      if x in hk { NumberedKeysStart("Headline ", h, x); }
    }
    DistinctAppend(FixedKeys, hk);
    forall x | x in FixedKeys + hk ensures x !in dk {
      if x in dk {
        NumberedKeysStart("Description ", d, x);
        if x in hk { NumberedKeysStart("Headline ", h, x); }
      }
    }
    DistinctAppend(FixedKeys + hk, dk);
  }

  /** The lines of the file: the header, then one line per record. */
  function CsvLines(records: seq<seq<Field>>): (lines: seq<string>)
    requires records != []
  {
    [Join(Keys(records[0]), ',')]
    + seq(|records|, k requires 0 <= k < |records| => Join(Values(records[k]), ','))
  }

  /** What pressing the export button leads to. Without ad groups the user
      is alerted. With groups but no ad at all (every `adsCount` is 0),
      `rows[0]` is undefined and reading its keys throws. Otherwise the
      file's content. */
  datatype ExportOutcome = NoAdGroups | MissingFirstRow | Csv(content: string)

  /** `handleExport`. */
  function HandleExport(campaign: CampaignConfig, groups: seq<AdGroupConfig>, banks: Banks): ExportOutcome
  {
    if |groups| == 0 then NoAdGroups
    else
      var rows := BuildRsaTable(campaign, groups, banks);
      if |rows| == 0 then MissingFirstRow
      else
        Csv(Join(CsvLines(Records(rows)), '\n'))
  }

  /** The export alerts exactly when there is no group, fails exactly when
      there are groups but no ad, and produces a file exactly when there is
      at least one ad. */
  lemma ExportOutcomes(campaign: CampaignConfig, groups: seq<AdGroupConfig>, banks: Banks)
    ensures HandleExport(campaign, groups, banks).NoAdGroups? <==> groups == []
    ensures HandleExport(campaign, groups, banks).MissingFirstRow? <==> groups != [] && TotalAds(groups) == 0
    ensures HandleExport(campaign, groups, banks).Csv? <==> TotalAds(groups) > 0
  {
    TableLength(campaign, groups, banks);
    if groups == [] {
      assert TotalAds(groups) == 0;
    }
  }

  /** No cell of the row contains `c`. */
  predicate CellsFree(row: RsaRow, c: char)
  {
    && c !in row.campaign && c !in row.adGroup && c !in row.finalUrl
    && c !in row.path1 && c !in row.path2
    && (forall h :: h in row.headlines ==> c !in h)
    && (forall d :: d in row.descriptions ==> c !in d)
  }

  /** A record line has no `c` when its cells have none. */
  lemma LineFree(row: RsaRow, c: char)
    requires c != ',' && CellsFree(row, c)
    ensures c !in Join(Values(Record(row)), ',')
  {
    RecordValues(row);
    var v := Values(Record(row));
    forall x | x in v ensures c !in x {
      var i :| 0 <= i < |v| && v[i] == x;
      if i >= 5 + |row.headlines| {
        assert x == row.descriptions[i - 5 - |row.headlines|];
      } else if i >= 5 {
        assert x == row.headlines[i - 5];
      }
    }
    JoinExcludes(v, ',', c);
  }

  /** No column name contains a newline or a comma. */
  lemma HeaderKeysFree(h: nat, d: nat, c: char)
    requires c == '\n' || c == ','
    ensures forall x :: x in HeaderKeys(h, d) ==> c !in x
  {
    var hk := NumberedKeys("Headline ", h);
    var dk := NumberedKeys("Description ", d);
    FixedKeysFree(c);
    NumberedKeysFree("Headline ", h, c);
    NumberedKeysFree("Description ", d, c);
    assert forall x :: x in HeaderKeys(h, d) ==> x in FixedKeys || x in hk || x in dk;
  }

  lemma FixedKeysFree(c: char)
    requires c == '\n' || c == ','
    ensures forall x :: x in FixedKeys ==> c !in x
  {
    forall i | 0 <= i < |FixedKeys| ensures c !in FixedKeys[i] {
      var x := FixedKeys[i];
      assert forall j :: 0 <= j < |x| ==> x[j] != '\n' && x[j] != ',';
    }
  }

  lemma NumberedKeysFree(prefix: string, n: nat, c: char)
    requires (c == '\n' || c == ',') && c !in prefix
    ensures forall x :: x in NumberedKeys(prefix, n) ==> c !in x
  {
    forall i | 0 <= i < n ensures c !in NumberedKeys(prefix, n)[i] {
      DecimalHasNoPunctuation(i + 1);
    }
  }

  /** The records of a non-empty table, one per row. */
  function Records(rows: seq<RsaRow>): (records: seq<seq<Field>>)
    ensures |records| == |rows|
  {
    seq(|rows|, k requires 0 <= k < |rows| => Record(rows[k]))
  }

  /** When no cell contains a newline, the file splits back into its lines. */
  lemma CsvLinesSplit(rows: seq<RsaRow>)
    requires rows != []
    requires forall r :: r in rows ==> CellsFree(r, '\n')
    ensures Split(Join(CsvLines(Records(rows)), '\n'), '\n') == CsvLines(Records(rows))
  {
    var records := Records(rows);
    var lines := CsvLines(records);
    RecordKeys(rows[0]);
    HeaderKeysFree(|rows[0].headlines|, |rows[0].descriptions|, '\n');
    JoinExcludes(HeaderKeys(|rows[0].headlines|, |rows[0].descriptions|), ',', '\n');
    forall i | 0 <= i < |lines| ensures '\n' !in lines[i] {
      if i > 0 {
        assert rows[i - 1] in rows;
        LineFree(rows[i - 1], '\n');
      }
    }
    SplitJoin(lines, '\n');
  }

  /** When no cell contains a newline, the file has one line per ad plus
      the header line, which names the 15 headline columns and one column
      per campaign description. */
  lemma ExportLines(campaign: CampaignConfig, groups: seq<AdGroupConfig>, banks: Banks)
    requires TotalAds(groups) > 0
    requires forall r :: r in BuildRsaTable(campaign, groups, banks) ==> CellsFree(r, '\n')
    ensures var out := HandleExport(campaign, groups, banks);
      && out.Csv?
      && var lines := Split(out.content, '\n');
      && |lines| == TotalAds(groups) + 1
      && lines[0] == Join(HeaderKeys(MaxHeadlines, |Descriptions(campaign)|), ',')
  {
    var rows := BuildRsaTable(campaign, groups, banks);
    TableLength(campaign, groups, banks);
    CsvLinesSplit(rows);
    TableRowsUniform(campaign, groups, banks, 0);
    RecordKeys(rows[0]);
  }

  /** Every data line carries one field per header column plus one more for
      each comma inside a cell: the values are not quoted, so a comma in a
      headline shifts the columns after it. */
  lemma ExportLineWidth(campaign: CampaignConfig, groups: seq<AdGroupConfig>, banks: Banks, k: nat)
    requires k < |BuildRsaTable(campaign, groups, banks)|
    ensures var row := BuildRsaTable(campaign, groups, banks)[k];
            var values := Values(Record(row));
      && |values| == |HeaderKeys(MaxHeadlines, |Descriptions(campaign)|)|
      && |Split(Join(values, ','), ',')| == |values| + CountAll(values, ',')
  {
    var row := BuildRsaTable(campaign, groups, banks)[k];
    TableRowsUniform(campaign, groups, banks, k);
    RecordValues(row);
    HeaderKeysDistinct(MaxHeadlines, |Descriptions(campaign)|);
    SplitJoinLength(Values(Record(row)), ',');
  }

  /** With no comma in its cells a data line splits back into exactly the
      row's cells, one under each header column. */
  lemma ExportLineCells(row: RsaRow)
    requires CellsFree(row, ',')
    ensures Split(Join(Values(Record(row)), ','), ',')
            == [row.campaign, row.adGroup, row.finalUrl, row.path1, row.path2] + row.headlines + row.descriptions
  {
    RecordValues(row);
    var v := Values(Record(row));
    forall x | x in v ensures ',' !in x {
      var i :| 0 <= i < |v| && v[i] == x;
      if i >= 5 + |row.headlines| {
        assert x == row.descriptions[i - 5 - |row.headlines|];
      } else if i >= 5 {
        assert x == row.headlines[i - 5];
      }
    }
    SplitJoin(v, ',');
  }
}
