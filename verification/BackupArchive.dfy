/**
 The backup archive: what `write_tar` puts in, and the reader that decides from
 an untrusted sequence of tar entries whether there is a backup to restore.
 */
module BackupArchive {
  import opened Wrappers

  newtype byte = x: int | 0 <= x < 256

  const MAX_MANIFEST_JSON_BYTES := 1024 * 1024

  const MANIFEST := "manifest.json"
  const DATABASE := "database.sqlite"
  const CONFIG := "config.json"
  const METADATA := "metadata.json"

  datatype EntryKind = Regular | Directory | Symlink | Hardlink | Special

  /** What the archive iterator yields: an entry, or an error reading one. */
  datatype Item = Unreadable | Entry(path: string, kind: EntryKind, data: seq<byte>)

  datatype ArchiveError =
    | ReadFailed
    | NotRegular(name: string)
    | DuplicateEntry(name: string)
    | ManifestTooLarge
    | ManifestUnparseable
    | MissingManifest
    | MissingSnapshot

  datatype Backup<M> = Backup(manifest: M, snapshot: seq<byte>)

  // ---------------------------------------------------------------- entries

  /** The text up to the first separator, and what follows it. */
  function FirstComponent(path: string): string {
    if path == "" || path[0] == '/' then "" else [path[0]] + FirstComponent(path[1..])
  }

  predicate HasParentComponent(path: string)
    decreases |path|
  {
    if FirstComponent(path) == ".." then true
    else
      var n := |FirstComponent(path)|;
      ComponentFits(path);
      n < |path| && HasParentComponent(path[n + 1..])
  }

  lemma ComponentFits(path: string)
    ensures |FirstComponent(path)| <= |path|
  {
  }

  predicate UnsafePath(path: string) {
    (path != "" && path[0] == '/') || HasParentComponent(path)
  }

  predicate KnownName(name: string) {
    name == MANIFEST || name == DATABASE || name == CONFIG || name == METADATA
  }

  /** Entries the reader warns about and passes over. */
  predicate Skipped(item: Item) {
    item.Entry? && (UnsafePath(item.path) || !KnownName(item.path))
  }

  lemma KnownNamesAreSafe(name: string)
    requires KnownName(name)
    ensures !UnsafePath(name)
  {
    assert FirstComponent(name) == name by {
      NoSeparator(name);
    }
  }

  lemma {:induction false} NoSeparator(name: string)
    requires '/' !in name
    ensures FirstComponent(name) == name
  {
    if name != "" {
      assert name[0] in name;
      NoSeparator(name[1..]);
      assert name == [name[0]] + name[1..];
    }
  }

  // ------------------------------------------------------------- the reader

  /** The reader's variables: the parsed manifest, the names seen, the directory written. */
  datatype Progress<M> = Progress(manifest: Option<M>, seen: set<string>, dest: map<string, seq<byte>>)

  function Take<M>(p: Progress<M>, item: Item, parse: seq<byte> -> Option<M>): Result<Progress<M>, ArchiveError> {
    if item.Unreadable? then Err(ReadFailed)
    else if Skipped(item) then Ok(p)
    else if !item.kind.Regular? then Err(NotRegular(item.path))
    else if item.path in p.seen then Err(DuplicateEntry(item.path))
    else
      var q := p.(seen := p.seen + {item.path});
      if item.path == MANIFEST then
        if |item.data| > MAX_MANIFEST_JSON_BYTES then Err(ManifestTooLarge)
        else if parse(item.data).None? then Err(ManifestUnparseable)
        else Ok(q.(manifest := parse(item.data)))
      else Ok(q.(dest := p.dest[item.path := item.data]))
  }

  function TakeAll<M>(items: seq<Item>, parse: seq<byte> -> Option<M>): Result<Progress<M>, ArchiveError> {
    if items == [] then Ok(Progress(None, {}, map[]))
    else
      match TakeAll(items[..|items| - 1], parse)
      case Err(e) => Err(e)
      case Ok(p) => Take(p, items[|items| - 1], parse)
  }

  function Extracted<M>(items: seq<Item>, parse: seq<byte> -> Option<M>): Result<Backup<M>, ArchiveError> {
    match TakeAll(items, parse)
    case Err(e) => Err(e)
    case Ok(p) =>
      if p.manifest.None? then Err(MissingManifest)
      else if DATABASE !in p.dest then Err(MissingSnapshot)
      else Ok(Backup(p.manifest.value, p.dest[DATABASE]))
  }

  /** One turn of the loop: the error it stops with, or the variables after the entry. */
  method TakeEntry<M>(manifest: Option<M>, seen: set<string>, dest: map<string, seq<byte>>, item: Item,
                      parse: seq<byte> -> Option<M>)
    returns (stop: Option<ArchiveError>, manifest': Option<M>, seen': set<string>, dest': map<string, seq<byte>>)
    ensures Take(Progress(manifest, seen, dest), item, parse)
         == if stop.Some? then Err(stop.value) else Ok(Progress(manifest', seen', dest'))
  {
    manifest', seen', dest' := manifest, seen, dest;
    if item.Unreadable? {
      return Some(ReadFailed), manifest', seen', dest';
    }
    var name := item.path;
    if UnsafePath(name) {
      return None, manifest', seen', dest';
    }
    if KnownName(name) {
      if !item.kind.Regular? {
        return Some(NotRegular(name)), manifest', seen', dest';
      }
      if name in seen {
        return Some(DuplicateEntry(name)), manifest', seen', dest';
      }
      seen' := seen + {name};
    }
    stop := None;
    if name == MANIFEST {
      if |item.data| > MAX_MANIFEST_JSON_BYTES {
        return Some(ManifestTooLarge), manifest', seen', dest';
      }
      manifest' := parse(item.data);
      if manifest'.None? {
        return Some(ManifestUnparseable), manifest', seen', dest';
      }
    } else if KnownName(name) {
      dest' := dest[name := item.data];
    }
  }

  /** The loop's variables after the first `i` entries, none of which stopped it. */
  ghost predicate ReadUpTo<M>(items: seq<Item>, parse: seq<byte> -> Option<M>, i: nat, p: Progress<M>) {
    i <= |items| && TakeAll(items[..i], parse) == Ok(p)
  }

  lemma ReadOneMore<M>(items: seq<Item>, parse: seq<byte> -> Option<M>, i: nat, p: Progress<M>)
    requires ReadUpTo(items, parse, i, p) && i < |items|
    ensures var r := Take(p, items[i], parse);
      if r.Ok? then ReadUpTo(items, parse, i + 1, r.value) else Extracted(items, parse) == Err(r.error)
  {
    ReadPrefix(items, parse, i);
    FailureStops(items, parse, i + 1);
  }

  lemma ReadPrefix<M>(items: seq<Item>, parse: seq<byte> -> Option<M>, i: nat)
    requires i < |items|
    ensures TakeAll(items[..i + 1], parse)
         == match TakeAll(items[..i], parse) { case Err(e) => Err(e) case Ok(p) => Take(p, items[i], parse) }
  {
    assert items[..i + 1] == items[..i] + [items[i]];
    TakeAllSnoc(items[..i], items[i], parse);
  }

  lemma FailureStops<M>(items: seq<Item>, parse: seq<byte> -> Option<M>, k: nat)
    requires k <= |items|
    ensures TakeAll(items[..k], parse).Err? ==> Extracted(items, parse) == Err(TakeAll(items[..k], parse).error)
  {
    FailureSticks(items, parse, k);
  }

  lemma ReadToTheEnd<M>(items: seq<Item>, parse: seq<byte> -> Option<M>, p: Progress<M>)
    requires ReadUpTo(items, parse, |items|, p)
    ensures TakeAll(items, parse) == Ok(p)
  {
    assert items[..|items|] == items;
  }

  /** The loop over the entries. */
  method TakeEntries<M>(items: seq<Item>, parse: seq<byte> -> Option<M>) returns (r: Result<Backup<M>, ArchiveError>)
    ensures r == Extracted(items, parse)
  {
    var manifest: Option<M> := None;
    var seen: set<string> := {};
    var dest: map<string, seq<byte>> := map[];
    for i := 0 to |items|
      invariant ReadUpTo(items, parse, i, Progress(manifest, seen, dest))
    {
      ReadOneMore(items, parse, i, Progress(manifest, seen, dest));
      var stop;
      stop, manifest, seen, dest := TakeEntry(manifest, seen, dest, items[i], parse);
      if stop.Some? {
        return Err(stop.value);
      }
    }
    ReadToTheEnd(items, parse, Progress(manifest, seen, dest));
    if manifest.None? {
      return Err(MissingManifest);
    }
    if DATABASE !in dest {
      return Err(MissingSnapshot);
    }
    r := Ok(Backup(manifest.value, dest[DATABASE]));
  }

  /** `extract_archive`, with the manifest parser as a parameter. */
  method ExtractArchive<M>(items: seq<Item>, parse: seq<byte> -> Option<M>)
    returns (r: Result<Backup<M>, ArchiveError>)
    ensures r == Extracted(items, parse)
    ensures r.Ok? <==> Acceptable(items, parse)
    ensures r.Ok? ==> exists i, j ::
      && IsEntry(items, i, MANIFEST) && parse(items[i].data) == Some(r.value.manifest)
      && IsEntry(items, j, DATABASE) && items[j].data == r.value.snapshot
  {
    ExtractedExactly(items, parse);
    r := TakeEntries(items, parse);
  }

  /** The first error is the result, whatever follows. */
  lemma {:induction false} FailureSticks<M>(items: seq<Item>, parse: seq<byte> -> Option<M>, k: nat)
    requires k <= |items|
    ensures TakeAll(items[..k], parse).Err? ==> TakeAll(items, parse) == TakeAll(items[..k], parse)
    decreases |items| - k
  {
    if k < |items| {
      assert items[..k + 1][..k] == items[..k];
      FailureSticks(items, parse, k + 1);
    } else {
      assert items[..k] == items;
    }
  }

  // ------------------------------------------------------------- acceptance

  ghost predicate IsEntry(items: seq<Item>, i: int, name: string) {
    0 <= i < |items| && items[i].Entry? && items[i].path == name
  }

  /** The four files of a backup. */
  ghost predicate Listed(name: string) {
    name == "manifest.json" || name == "database.sqlite" || name == "config.json" || name == "metadata.json"
  }

  /** Every entry is readable; each known name is a regular file, appears once, and a manifest is legible. */
  ghost predicate Clean<M>(items: seq<Item>, parse: seq<byte> -> Option<M>) {
    && (forall i :: 0 <= i < |items| ==> items[i].Entry?)
    && (forall i, name :: IsEntry(items, i, name) && Listed(name) ==> items[i].kind.Regular?)
    && (forall i, j, name :: IsEntry(items, i, name) && IsEntry(items, j, name) && Listed(name) ==> i == j)
    && (forall i :: IsEntry(items, i, "manifest.json") ==> |items[i].data| <= 1048576 && parse(items[i].data).Some?)
  }

  ghost predicate Contains(items: seq<Item>, name: string) {
    exists i :: IsEntry(items, i, name)
  }

  /** The entry sequences that are a backup. */
  ghost predicate Acceptable<M>(items: seq<Item>, parse: seq<byte> -> Option<M>) {
    Clean(items, parse) && Contains(items, "manifest.json") && Contains(items, "database.sqlite")
  }

  /** The reader's variables after a clean prefix, read off the entries. */
  ghost predicate Describes<M>(p: Progress<M>, items: seq<Item>, parse: seq<byte> -> Option<M>) {
    && (forall name :: name in p.seen <==> KnownName(name) && Contains(items, name))
    && (forall i :: IsEntry(items, i, MANIFEST) ==> p.manifest == parse(items[i].data))
    && (p.manifest.Some? <==> Contains(items, MANIFEST))
    && (DATABASE in p.dest <==> Contains(items, DATABASE))
    && (forall i :: IsEntry(items, i, DATABASE) ==> DATABASE in p.dest && p.dest[DATABASE] == items[i].data)
  }

  lemma EntriesOfAppend(items: seq<Item>, item: Item, i: int, name: string)
    ensures IsEntry(items + [item], i, name)
       <==> IsEntry(items, i, name) || (i == |items| && item.Entry? && item.path == name)
  {
  }

  lemma ContainsAppend(items: seq<Item>, item: Item, name: string)
    ensures Contains(items + [item], name) <==> Contains(items, name) || (item.Entry? && item.path == name)
  {
    if item.Entry? && item.path == name {
      assert IsEntry(items + [item], |items|, name);
    }
    if i :| IsEntry(items, i, name) {
      assert IsEntry(items + [item], i, name);
    }
    if i :| IsEntry(items + [item], i, name) {
      EntriesOfAppend(items, item, i, name);
    }
  }

  lemma CleanPrefix<M>(items: seq<Item>, item: Item, parse: seq<byte> -> Option<M>)
    requires Clean(items + [item], parse)
    ensures Clean(items, parse) && item.Entry?
    ensures KnownName(item.path) ==> item.kind.Regular? && !Contains(items, item.path)
    ensures item.path == MANIFEST ==> |item.data| <= MAX_MANIFEST_JSON_BYTES && parse(item.data).Some?
  {
    var all := items + [item];
    assert all[|items|] == item;
    forall i | 0 <= i < |items| ensures items[i].Entry? {
      assert all[i] == items[i];
    }
    assert IsEntry(all, |items|, item.path);
    forall i, name | IsEntry(items, i, name) ensures IsEntry(all, i, name) && all[i] == items[i] {
    }
    if KnownName(item.path) {
      forall i | 0 <= i < |items| ensures !IsEntry(items, i, item.path) {
        assert !IsEntry(all, i, item.path);
      }
    }
  }

  lemma CleanExtends<M>(items: seq<Item>, item: Item, parse: seq<byte> -> Option<M>)
    requires Clean(items, parse) && item.Entry?
    requires KnownName(item.path) ==> item.kind.Regular? && !Contains(items, item.path)
    requires item.path == MANIFEST ==> |item.data| <= MAX_MANIFEST_JSON_BYTES && parse(item.data).Some?
    ensures Clean(items + [item], parse)
  {
    var all := items + [item];
    forall i, name | IsEntry(all, i, name)
      ensures i < |items| ==> IsEntry(items, i, name)
      ensures i == |items| ==> name == item.path
    {
    }
  }

  lemma DescribesExtends<M>(p: Progress<M>, items: seq<Item>, item: Item, parse: seq<byte> -> Option<M>)
    requires Clean(items + [item], parse) && Describes(p, items, parse) && Take(p, item, parse).Ok?
    ensures Describes(Take(p, item, parse).value, items + [item], parse)
  {
    var all, q := items + [item], Take(p, item, parse).value;
    CleanPrefix(items, item, parse);
    forall name ensures Contains(all, name) <==> Contains(items, name) || item.path == name {
      ContainsAppend(items, item, name);
    }
    forall i, name ensures IsEntry(all, i, name) <==> IsEntry(items, i, name) || (i == |items| && item.path == name) {
      EntriesOfAppend(items, item, i, name);
    }
    if KnownName(item.path) {
      KnownNamesAreSafe(item.path);
    }
    forall i | IsEntry(all, i, MANIFEST) ensures q.manifest == parse(all[i].data) {
      if i < |items| {
        assert IsEntry(items, i, MANIFEST);
        assert Contains(items, MANIFEST);
      }
    }
    forall i | IsEntry(all, i, DATABASE) ensures DATABASE in q.dest && q.dest[DATABASE] == all[i].data {
      if i < |items| {
        assert IsEntry(items, i, DATABASE);
        assert Contains(items, DATABASE);
      }
    }
  }

  /** The loop's meaning: it survives a prefix exactly when the prefix is clean. */
  lemma {:induction false} TakeAllExactly<M>(items: seq<Item>, parse: seq<byte> -> Option<M>)
    ensures TakeAll(items, parse).Ok? <==> Clean(items, parse)
    ensures TakeAll(items, parse).Ok? ==> Describes(TakeAll(items, parse).value, items, parse)
  {
    if items != [] {
      var front, item := items[..|items| - 1], items[|items| - 1];
      assert items == front + [item];
      TakeAllExactly(front, parse);
      if Clean(items, parse) {
        CleanPrefix(front, item, parse);
      }
      if item.Entry? && KnownName(item.path) {
        KnownNamesAreSafe(item.path);
      }
      if TakeAll(items, parse).Ok? {
        CleanExtends(front, item, parse);
        DescribesExtends(TakeAll(front, parse).value, front, item, parse);
      }
    }
  }

  /** Both directions of the acceptance specification. */
  lemma ExtractedExactly<M>(items: seq<Item>, parse: seq<byte> -> Option<M>)
    ensures Extracted(items, parse).Ok? <==> Acceptable(items, parse)
    ensures Extracted(items, parse).Ok? ==> exists i, j ::
      && IsEntry(items, i, MANIFEST) && parse(items[i].data) == Some(Extracted(items, parse).value.manifest)
      && IsEntry(items, j, DATABASE) && items[j].data == Extracted(items, parse).value.snapshot
  {
    TakeAllExactly(items, parse);
    if Extracted(items, parse).Ok? {
      var i :| IsEntry(items, i, MANIFEST);
      var j :| IsEntry(items, j, DATABASE);
    }
  }

  // ------------------------------------------------------- which error it is

  /** What is wrong with entry `i`, given the entries before it. */
  ghost predicate Offends<M>(items: seq<Item>, i: nat, parse: seq<byte> -> Option<M>, e: ArchiveError)
    requires i < |items|
  {
    match items[i]
    case Unreadable => e == ReadFailed
    case Entry(name, kind, data) =>
      Listed(name)
      && if kind != Regular then e == NotRegular(name)
         else if exists j :: j < i && IsEntry(items, j, name) then e == DuplicateEntry(name)
         else name == "manifest.json"
              && if |data| > 1048576 then e == ManifestTooLarge else parse(data).None? && e == ManifestUnparseable
  }

  ghost predicate Innocent<M>(items: seq<Item>, i: nat, parse: seq<byte> -> Option<M>)
    requires i < |items|
  {
    forall e :: !Offends(items, i, parse, e)
  }

  /** The error is that of the first entry that offends. */
  ghost predicate FirstOffence<M>(items: seq<Item>, i: nat, parse: seq<byte> -> Option<M>, e: ArchiveError) {
    i < |items| && Offends(items, i, parse, e) && forall j: nat :: j < i ==> Innocent(items, j, parse)
  }

  lemma EarlierEntry(items: seq<Item>, i: nat, name: string)
    requires i < |items|
    ensures Contains(items[..i], name) <==> exists j :: j < i && IsEntry(items, j, name)
  {
    if j :| IsEntry(items[..i], j, name) {
      assert j < i && IsEntry(items, j, name);
    }
    if j :| j < i && IsEntry(items, j, name) {
      assert IsEntry(items[..i], j, name);
    }
  }

  /** One turn of the loop fails exactly on an offending entry, with its error. */
  lemma TakeFails<M>(items: seq<Item>, i: nat, parse: seq<byte> -> Option<M>, p: Progress<M>)
    requires i < |items| && Describes(p, items[..i], parse)
    ensures Take(p, items[i], parse).Err? ==> Offends(items, i, parse, Take(p, items[i], parse).error)
    ensures Take(p, items[i], parse).Ok? ==> Innocent(items, i, parse)
  {
    if items[i].Entry? && Listed(items[i].path) {
      KnownNamesAreSafe(items[i].path);
      EarlierEntry(items, i, items[i].path);
    }
  }

  ghost predicate AllInnocent<M>(items: seq<Item>, k: nat, parse: seq<byte> -> Option<M>)
    requires k <= |items|
  {
    forall j: nat :: j < k ==> Innocent(items, j, parse)
  }

  ghost predicate Explained<M>(items: seq<Item>, k: nat, parse: seq<byte> -> Option<M>,
                               r: Result<Progress<M>, ArchiveError>)
    requires k <= |items|
  {
    if r.Ok? then AllInnocent(items, k, parse) else exists i: nat :: i < k && FirstOffence(items, i, parse, r.error)
  }

  /** The turn for entry `k`, all before it being innocent. */
  lemma TurnFails<M>(items: seq<Item>, k: nat, parse: seq<byte> -> Option<M>, p: Progress<M>)
    requires k < |items| && Describes(p, items[..k], parse) && AllInnocent(items, k, parse)
    ensures Explained(items, k + 1, parse, Take(p, items[k], parse))
  {
    TakeFails(items, k, parse, p);
    var r := Take(p, items[k], parse);
    if r.Err? {
      assert FirstOffence(items, k, parse, r.error);
    }
  }

  lemma {:induction false} LoopFails<M>(items: seq<Item>, k: nat, parse: seq<byte> -> Option<M>)
    requires k <= |items|
    ensures Explained(items, k, parse, TakeAll(items[..k], parse))
  {
    if k > 0 {
      LoopFails(items, k - 1, parse);
      ReadPrefix(items, parse, k - 1);
      TakeAllExactly(items[..k - 1], parse);
      OneMoreTurn(items, k - 1, parse, TakeAll(items[..k - 1], parse));
    }
  }

  lemma OneMoreTurn<M>(items: seq<Item>, k: nat, parse: seq<byte> -> Option<M>, r: Result<Progress<M>, ArchiveError>)
    requires k < |items| && Explained(items, k, parse, r) && (r.Ok? ==> Describes(r.value, items[..k], parse))
    ensures Explained(items, k + 1, parse, match r { case Err(e) => Err(e) case Ok(p) => Take(p, items[k], parse) })
  {
    if r.Ok? {
      TurnFails(items, k, parse, r.value);
    }
  }

  /** A refused archive is refused for its first offending entry; else for the manifest, then for the snapshot. */
  lemma RefusedFor<M>(items: seq<Item>, parse: seq<byte> -> Option<M>)
    requires Extracted(items, parse).Err?
    ensures var e := Extracted(items, parse).error;
      if exists i: nat :: i < |items| && !Innocent(items, i, parse) then
        exists i: nat :: FirstOffence(items, i, parse, e)
      else if !Contains(items, "manifest.json") then e == MissingManifest
      else !Contains(items, "database.sqlite") && e == MissingSnapshot
  {
    assert items[..|items|] == items;
    LoopFails(items, |items|, parse);
    if TakeAll(items, parse).Err? {
      var e := TakeAll(items, parse).error;
      var i: nat :| i < |items| && FirstOffence(items, i, parse, e);
      assert Offends(items, i, parse, e) && !Innocent(items, i, parse);
    } else {
      TakeAllExactly(items, parse);
      assert Describes(TakeAll(items, parse).value, items, parse);
    }
  }

  /** No entry sequence has two first offences, so this says which error it is. */
  lemma OneFirstOffence<M>(items: seq<Item>, parse: seq<byte> -> Option<M>,
                           i: nat, e: ArchiveError, j: nat, f: ArchiveError)
    requires FirstOffence(items, i, parse, e) && FirstOffence(items, j, parse, f)
    ensures i == j && e == f
  {
    assert j < i ==> Innocent(items, j, parse);
    assert i < j ==> Innocent(items, i, parse);
  }

  // --------------------------------------------------- what does not matter

  /** An unknown or unsafe entry, anywhere, changes neither the result nor the error. */
  lemma {:induction false} SkippedEntryIrrelevant<M>(a: seq<Item>, item: Item, b: seq<Item>,
                                                     parse: seq<byte> -> Option<M>)
    requires Skipped(item)
    ensures Extracted(a + [item] + b, parse) == Extracted(a + b, parse)
  {
    SkippedInLoop(a, item, b, parse);
  }

  lemma {:induction false} SkippedInLoop<M>(a: seq<Item>, item: Item, b: seq<Item>, parse: seq<byte> -> Option<M>)
    requires Skipped(item)
    ensures TakeAll(a + [item] + b, parse) == TakeAll(a + b, parse)
    decreases |b|
  {
    if b == [] {
      assert a + [item] + b == a + [item] && a + b == a;
      TakeAllSnoc(a, item, parse);
    } else {
      var front, last := b[..|b| - 1], b[|b| - 1];
      assert a + [item] + b == (a + [item] + front) + [last] && a + b == (a + front) + [last];
      SkippedInLoop(a, item, front, parse);
      TakeAllSnoc(a + [item] + front, last, parse);
      TakeAllSnoc(a + front, last, parse);
    }
  }

  lemma TakeAllSnoc<M>(items: seq<Item>, item: Item, parse: seq<byte> -> Option<M>)
    ensures TakeAll(items + [item], parse)
         == match TakeAll(items, parse) { case Err(e) => Err(e) case Ok(p) => Take(p, item, parse) }
  {
    assert (items + [item])[..|items|] == items;
  }

  // -------------------------------------------------------------- round trip

  /** `write_tar`. */
  function WriteTar(manifestJson: seq<byte>, configJson: seq<byte>, metadataJson: seq<byte>, snapshot: seq<byte>)
    : seq<Item>
  {
    [ Entry(MANIFEST, Regular, manifestJson),
      Entry(CONFIG, Regular, configJson),
      Entry(METADATA, Regular, metadataJson),
      Entry(DATABASE, Regular, snapshot) ]
  }

  /** The archive written is read back exactly when its manifest fits the reader's bound and parses. */
  lemma RoundTrip<M>(manifestJson: seq<byte>, configJson: seq<byte>, metadataJson: seq<byte>,
                     snapshot: seq<byte>, parse: seq<byte> -> Option<M>)
    ensures var r := Extracted(WriteTar(manifestJson, configJson, metadataJson, snapshot), parse);
      && (r.Ok? <==> |manifestJson| <= MAX_MANIFEST_JSON_BYTES && parse(manifestJson).Some?)
      && (r.Ok? ==> Some(r.value.manifest) == parse(manifestJson) && r.value.snapshot == snapshot)
  {
    var items := WriteTar(manifestJson, configJson, metadataJson, snapshot);
    ExtractedExactly(items, parse);
    assert IsEntry(items, 0, MANIFEST) && IsEntry(items, 3, DATABASE);
    assert forall i, name :: IsEntry(items, i, name) ==>
      name == [MANIFEST, CONFIG, METADATA, DATABASE][i] && items[i].kind.Regular?;
    DistinctNames();
    if |manifestJson| <= MAX_MANIFEST_JSON_BYTES && parse(manifestJson).Some? {
      assert Clean(items, parse);
    }
  }

  lemma DistinctNames()
    ensures MANIFEST != CONFIG && MANIFEST != METADATA && MANIFEST != DATABASE
    ensures CONFIG != METADATA && CONFIG != DATABASE && METADATA != DATABASE
  {
    assert |MANIFEST| == 13 && |CONFIG| == 11 && |METADATA| == 13 && |DATABASE| == 15;
    assert MANIFEST[1] != METADATA[1];
  }

  // ------------------------------------------------- row counts of a restore

  /** A table the staged database does not have counts as empty. */
  function RowCount(counts: map<string, int>, table: string): int {
    if table in counts then counts[table] else 0
  }

  /** Which of the first `n` expected tables have another count, in the manifest's order. */
  function Mismatching(expected: seq<(string, int)>, actual: map<string, int>, n: nat): seq<string>
    requires n <= |expected|
  {
    if n == 0 then []
    else
      Mismatching(expected, actual, n - 1)
      + if RowCount(actual, expected[n - 1].0) != expected[n - 1].1 then [expected[n - 1].0] else []
  }

  /** The list is exactly the mismatching tables. */
  lemma {:induction false} MismatchingExactly(expected: seq<(string, int)>, actual: map<string, int>, n: nat, t: string)
    requires n <= |expected|
    ensures t in Mismatching(expected, actual, n) <==>
      exists i :: 0 <= i < n && expected[i].0 == t && (if t in actual then actual[t] else 0) != expected[i].1
  {
    if n > 0 {
      MismatchingExactly(expected, actual, n - 1, t);
    }
  }

  /** `verify_restore`: the manifest's counts, in order, against the staged database's. */
  method VerifyRestore(expected: seq<(string, int)>, actual: map<string, int>) returns (r: Result<(), seq<string>>)
    ensures r.Ok? <==> forall i :: 0 <= i < |expected| ==>
      var (table, rows) := expected[i]; (if table in actual then actual[table] else 0) == rows
    ensures r.Err? ==> r.error == Mismatching(expected, actual, |expected|)
  {
    var mismatches: seq<string> := [];
    for k := 0 to |expected|
      invariant mismatches == Mismatching(expected, actual, k)
      invariant mismatches == [] <==> forall i :: 0 <= i < k ==> RowCount(actual, expected[i].0) == expected[i].1
    {
      if RowCount(actual, expected[k].0) != expected[k].1 {
        mismatches := mismatches + [expected[k].0];
      }
    }
    r := if mismatches == [] then Ok(()) else Err(mismatches);
  }
}
