/**
 The manifest the backup command writes: its fields, its JSON text and the proof that
 it always fits the reader's bound, so that every backup written is read back.
 */
module BackupManifest {
  import opened Wrappers
  import opened BackupArchive

  const COUNTED_TABLES: seq<string> := [
    "audit_log", "generation_cache", "latency_records", "node_overrides", "node_source_bindings", "node_tags",
    "nodes", "outbox_event", "pool_meta", "probe_runs", "probe_sources", "probe_traffic_totals", "recovery_codes",
    "sessions", "source_items", "source_refresh_jobs", "source_snapshots", "sources", "subscription_short_codes",
    "subscription_temp_links", "subscription_tokens", "subscription_traffic", "subscriptions", "tags",
    "template_versions", "templates", "totp_secrets", "traffic_daily_snapshots", "traffic_totals", "users" ]

  const BACKUP_FORMAT_VERSION := 1

  datatype Manifest = Manifest(
    version: int, schemaVersion: int, createdAt: string, rowCounts: seq<(string, int)>, fingerprint: Option<string>)

  /** What a query for a table's size gives, `None` if it fails. */
  type Sizes = string -> Option<int>

  predicate FitsI64(n: int) {
    -0x8000_0000_0000_0000 <= n < 0x8000_0000_0000_0000
  }

  // ------------------------------------------------------------- row counts

  function Counted(tables: seq<string>, size: Sizes, n: nat): (rows: seq<(string, int)>)
    requires n <= |tables|
    ensures |rows| <= n
  {
    if n == 0 then []
    else
      Counted(tables, size, n - 1)
      + if size(tables[n - 1]).Some? then [(tables[n - 1], size(tables[n - 1]).value)] else []
  }

  /** `collect_row_counts`, in the order of the tables, which is that of the resulting map for an alphabetical list. */
  method CollectRowCounts(tables: seq<string>, size: Sizes) returns (rows: seq<(string, int)>)
    ensures rows == Counted(tables, size, |tables|)
    ensures forall r :: r in rows ==> r.0 in tables && size(r.0) == Some(r.1)
    ensures forall i :: 0 <= i < |tables| && size(tables[i]).Some? ==> (tables[i], size(tables[i]).value) in rows
  {
    rows := [];
    for i := 0 to |tables|
      invariant rows == Counted(tables, size, i)
      invariant forall r :: r in rows ==> r.0 in tables && size(r.0) == Some(r.1)
      invariant forall k :: 0 <= k < i && size(tables[k]).Some? ==> (tables[k], size(tables[k]).value) in rows
    {
      if size(tables[i]).Some? {
        rows := rows + [(tables[i], size(tables[i]).value)];
      }
    }
  }

  lemma {:induction false} CountedFrom(tables: seq<string>, size: Sizes, n: nat, r: (string, int))
    requires n <= |tables| && r in Counted(tables, size, n)
    ensures r.0 in tables && size(r.0) == Some(r.1)
  {
    if r !in Counted(tables, size, n - 1) {
      assert r == (tables[n - 1], size(tables[n - 1]).value);
    } else {
      CountedFrom(tables, size, n - 1, r);
    }
  }

  lemma {:induction false} AgreeingRowsMatch(rows: seq<(string, int)>, actual: map<string, int>, n: nat)
    requires n <= |rows| && forall i :: 0 <= i < |rows| ==> RowCount(actual, rows[i].0) == rows[i].1
    ensures Mismatching(rows, actual, n) == []
  {
    if n > 0 {
      AgreeingRowsMatch(rows, actual, n - 1);
    }
  }

  /** The counts as the map that both the manifest and the verification use. */
  function AsMap(rows: seq<(string, int)>): map<string, int> {
    if rows == [] then map[] else AsMap(rows[..|rows| - 1])[rows[|rows| - 1].0 := rows[|rows| - 1].1]
  }

  lemma {:induction false} AsMapHolds(size: Sizes, rows: seq<(string, int)>, t: string)
    requires forall i :: 0 <= i < |rows| ==> size(rows[i].0) == Some(rows[i].1)
    ensures t in AsMap(rows) ==> size(t) == Some(AsMap(rows)[t])
    ensures (exists i :: 0 <= i < |rows| && rows[i].0 == t) ==> t in AsMap(rows)
  {
    if rows != [] {
      AsMapHolds(size, rows[..|rows| - 1], t);
    }
  }

  /** A restored snapshot, counted the same way, has the counts its own manifest recorded. */
  lemma OwnCountsVerify(tables: seq<string>, size: Sizes, rows: seq<(string, int)>)
    requires rows == Counted(tables, size, |tables|)
    ensures Mismatching(rows, AsMap(rows), |rows|) == []
  {
    forall i | 0 <= i < |rows| ensures size(rows[i].0) == Some(rows[i].1) {
      CountedFrom(tables, size, |tables|, rows[i]);
    }
    forall i | 0 <= i < |rows| ensures RowCount(AsMap(rows), rows[i].0) == rows[i].1 {
      AsMapHolds(size, rows, rows[i].0);
    }
    AgreeingRowsMatch(rows, AsMap(rows), |rows|);
  }

  // -------------------------------------------------------------- JSON text

  function Digit(n: nat): char
    requires n < 16
  {
    "0123456789abcdef"[n]
  }

  function Digits(n: nat): string {
    if n < 10 then [Digit(n)] else Digits(n / 10) + [Digit(n % 10)]
  }

  function Decimal(n: int): string {
    if n < 0 then "-" + Digits(-n) else Digits(n)
  }

  function EscapedChar(c: char): (r: string)
    ensures |r| <= 6
  {
    if c == '\"' then "\\\""
    else if c == '\\' then "\\\\"
    else if c == '\n' then "\\n"
    else if c == '\r' then "\\r"
    else if c == '\t' then "\\t"
    else if c as int == 8 then "\\b"
    else if c as int == 12 then "\\f"
    else if c as int < 32 then "\\u00" + [Digit(c as int / 16), Digit(c as int % 16)]
    else [c]
  }

  function Escaped(s: string): (r: string)
    ensures |r| <= 6 * |s|
  {
    if s == [] then [] else EscapedChar(s[0]) + Escaped(s[1..])
  }

  function Quoted(s: string): string {
    "\"" + Escaped(s) + "\""
  }

  /** The lines of the counts object, without the last line end. */
  function Rows(rows: seq<(string, int)>): string {
    if rows == [] then ""
    else
      var front := rows[..|rows| - 1];
      var last := rows[|rows| - 1];
      Rows(front) + (if front == [] then "" else ",\n") + "    " + Quoted(last.0) + ": " + Decimal(last.1)
  }

  function Object(rows: seq<(string, int)>): string {
    if rows == [] then "{}" else "{\n" + Rows(rows) + "\n  }"
  }

  /** The pretty-printed manifest; an absent fingerprint is left out. */
  function Pretty(m: Manifest): string {
    "{\n  \"version\": " + Decimal(m.version)
    + ",\n  \"schema_version\": " + Decimal(m.schemaVersion)
    + ",\n  \"created_at\": " + Quoted(m.createdAt)
    + ",\n  \"row_counts\": " + Object(m.rowCounts)
    + (if m.fingerprint.Some? then ",\n  \"master_key_fingerprint\": " + Quoted(m.fingerprint.value) else "")
    + "\n}"
  }

  /** One character in UTF-8. */
  function Utf8(c: char): (r: seq<byte>)
    ensures |r| <= 4
  {
    var n := c as int;
    if n < 0x80 then [n as byte]
    else if n < 0x800 then [(0xC0 + n / 64) as byte, (0x80 + n % 64) as byte]
    else if n < 0x1_0000 then [(0xE0 + n / 4096) as byte, (0x80 + n / 64 % 64) as byte, (0x80 + n % 64) as byte]
    else
      [ (0xF0 + n / 262144) as byte, (0x80 + n / 4096 % 64) as byte,
        (0x80 + n / 64 % 64) as byte, (0x80 + n % 64) as byte ]
  }

  function Bytes(s: string): (r: seq<byte>)
    ensures |r| <= 4 * |s|
  {
    if s == [] then [] else Utf8(s[0]) + Bytes(s[1..])
  }

  // ------------------------------------------------------------ its length

  function Pow10(k: nat): nat {
    if k == 0 then 1 else 10 * Pow10(k - 1)
  }

  lemma {:induction false} DigitsBound(n: nat, k: nat)
    requires k > 0 && n < Pow10(k)
    ensures |Digits(n)| <= k
    decreases k
  {
    if n >= 10 {
      DigitsBound(n / 10, k - 1);
    }
  }

  lemma DecimalBound(n: int)
    requires FitsI64(n)
    ensures |Decimal(n)| <= 20
  {
    assert Pow10(10) == 10_000_000_000;
    assert Pow10(15) == 1_000_000_000_000_000;
    assert Pow10(19) == 10_000_000_000_000_000_000;
    DigitsBound(if n < 0 then -n else n, 19);
  }

  lemma {:induction false} RowsBound(rows: seq<(string, int)>)
    requires forall r :: r in rows ==> |r.0| <= 24 && FitsI64(r.1)
    ensures |Rows(rows)| <= 180 * |rows|
  {
    if rows != [] {
      var last := rows[|rows| - 1];
      assert last in rows;
      RowsBound(rows[..|rows| - 1]);
      DecimalBound(last.1);
    }
  }

  lemma TableNamesAreShort(t: string)
    requires t in COUNTED_TABLES
    ensures |t| <= 24
  {
  }

  /** What the backup command puts into a manifest: table sizes and the version are 64-bit numbers,
      the time is in RFC 3339 form or a placeholder, the fingerprint is 32 bytes in hexadecimal. */
  ghost predicate MadeByBackup(m: Manifest, size: Sizes) {
    && m.version == BACKUP_FORMAT_VERSION && FitsI64(m.schemaVersion)
    && |m.createdAt| <= 30
    && m.rowCounts == Counted(COUNTED_TABLES, size, |COUNTED_TABLES|)
    && (forall t :: t in COUNTED_TABLES && size(t).Some? ==> FitsI64(size(t).value))
    && (m.fingerprint.Some? ==> |m.fingerprint.value| == 64)
  }

  lemma PrettyBound(m: Manifest, size: Sizes)
    requires MadeByBackup(m, size)
    ensures |Pretty(m)| <= 7000
  {
    forall r | r in m.rowCounts ensures |r.0| <= 24 && FitsI64(r.1) {
      CountedFrom(COUNTED_TABLES, size, |COUNTED_TABLES|, r);
      TableNamesAreShort(r.0);
    }
    RowsBound(m.rowCounts);
    DecimalBound(m.version);
    DecimalBound(m.schemaVersion);
  }

  /** Whatever the database holds, the manifest is far below the bound of the reader. */
  lemma ManifestFits(m: Manifest, size: Sizes)
    requires MadeByBackup(m, size)
    ensures |Bytes(Pretty(m))| <= MAX_MANIFEST_JSON_BYTES
  {
    PrettyBound(m, size);
  }

  /** Every backup the command writes is read back, if the JSON library reads its own manifest text. */
  lemma EveryBackupReadsBack(m: Manifest, size: Sizes, configJson: seq<byte>, metadataJson: seq<byte>,
                             snapshot: seq<byte>, parse: seq<byte> -> Option<Manifest>)
    requires MadeByBackup(m, size) && parse(Bytes(Pretty(m))) == Some(m)
    ensures Extracted(WriteTar(Bytes(Pretty(m)), configJson, metadataJson, snapshot), parse) == Ok(Backup(m, snapshot))
  {
    ManifestFits(m, size);
    RoundTrip(Bytes(Pretty(m)), configJson, metadataJson, snapshot, parse);
  }
}
