/**
 The translation-model manifest as a relation between the records and the result: what may be generated,
 without saying in which order anything is visited.
 */
module ManifestSpec {
  import opened Wrappers

  datatype Attachment = Attachment(location: Option<string>, mimetype: string, hash: Option<string>, size: Option<int>)

  datatype Record = Record(
    source: string, target: string, version: string, architecture: string, fileType: string,
    attachment: Option<Attachment>, decompressedHash: Option<string>, decompressedSize: Option<int>,
    lastModified: int)

  datatype Direction = Direction(source: string, target: string)

  datatype Key = Key(direction: Direction, version: string, architecture: string)

  datatype File = File(
    fileType: string, url: string, compressedSize: int, compressedSha256: string,
    decompressedSize: int, decompressedSha256: string, installedName: string)

  datatype Entry = Entry(
    source: string, target: string, direction: Direction, version: string, architecture: string, files: seq<File>)

  datatype Manifest = Manifest(revision: int, entries: seq<Entry>)

  const MODEL_MAJOR_VERSION := 3
  const PREFERRED := "base-memory"
  const OTHER := "base"
  const KNOWN_TYPES := {"model", "lex", "vocab", "srcvocab", "trgvocab"}
  const BASE_URL := "https://firefox-settings-attachments.cdn.mozilla.net/"

  // ---------------------------------------------------------------- versions

  predicate Digit(c: char) { '0' <= c <= '9' }

  function DigitValue(c: char): nat
    requires Digit(c)
  {
    c as int - '0' as int
  }

  /** The numbers of a dotted version, if it is nothing but numbers and single dots. */
  function VersionKey(version: string): (key: Option<seq<nat>>)
    ensures key.Some? ==> key.value != []
    decreases |version|
  {
    var n := |version|;
    if n == 0 || !Digit(version[n - 1]) then None
    else
      var d := DigitValue(version[n - 1]);
      if n == 1 then Some([d])
      else if version[n - 2] == '.' then
        match VersionKey(version[..n - 2])
        case None => None
        case Some(numbers) => Some(numbers + [d])
      else
        match VersionKey(version[..n - 1])
        case None => None
        case Some(numbers) => Some(numbers[..|numbers| - 1] + [10 * numbers[|numbers| - 1] + d])
  }

  predicate Below(a: seq<nat>, b: seq<nat>) {
    if b == [] then false
    else if a == [] then true
    else a[0] < b[0] || (a[0] == b[0] && Below(a[1..], b[1..]))
  }

  // ---------------------------------------------------------------- groups

  function KeyOf(r: Record): Key {
    Key(Direction(r.source, r.target), r.version, r.architecture)
  }

  predicate Eligible(r: Record) {
    var key := VersionKey(r.version);
    key.Some? && key.value[0] == MODEL_MAJOR_VERSION && (r.architecture == PREFERRED || r.architecture == OTHER)
  }

  function Group(records: seq<Record>, key: Key): seq<Record> {
    if records == [] then []
    else
      var init, last := records[..|records| - 1], records[|records| - 1];
      Group(init, key) + (if Eligible(last) && KeyOf(last) == key then [last] else [])
  }

  predicate HasType(files: seq<Record>, fileType: string) {
    exists r | r in files :: r.fileType == fileType
  }

  predicate Complete(files: seq<Record>) {
    HasType(files, "model") && HasType(files, "lex")
    && (HasType(files, "vocab") || (HasType(files, "srcvocab") && HasType(files, "trgvocab")))
  }

  predicate Candidate(records: seq<Record>, key: Key) {
    key.direction.source != "" && key.direction.target != "" && Complete(Group(records, key))
  }

  predicate KnownTypes(records: seq<Record>) {
    forall r | r in records && Eligible(r) :: r.fileType in KNOWN_TYPES
  }

  predicate Repeated(files: seq<Record>) {
    exists i, j :: 0 <= i < j < |files| && files[i].fileType == files[j].fileType
  }

  // ---------------------------------------------------------------- choice

  /** No complete candidate of the direction has a higher version. */
  ghost predicate Highest(records: seq<Record>, key: Key) {
    forall k: Key | Candidate(records, k) && k.direction == key.direction ::
      !Below(VersionKey(key.version).GetOr([]), VersionKey(k.version).GetOr([]))
  }

  /** The candidate of its direction: the highest version, and there the preferred architecture if complete. */
  ghost predicate Best(records: seq<Record>, key: Key) {
    && Candidate(records, key) && Highest(records, key)
    && (key.architecture == PREFERRED || !Candidate(records, key.(architecture := PREFERRED)))
  }

  function Directions(records: seq<Record>): set<Direction> {
    set r | r in records && Candidate(records, KeyOf(r)) :: KeyOf(r).direction
  }

  ghost predicate Chosen(records: seq<Record>, pick: map<Direction, Key>) {
    pick.Keys == Directions(records)
    && forall d | d in pick :: pick[d].direction == d && Best(records, pick[d])
  }

  // ---------------------------------------------------------------- files

  predicate StartsWith(s: string, prefix: string) { prefix <= s }

  function Lower(s: string): (r: string)
    ensures |r| == |s|
  {
    if s == [] then []
    else [if 'A' <= s[0] <= 'Z' then (s[0] as int + 32) as char else s[0]] + Lower(s[1..])
  }

  predicate Sha256(s: string) {
    |s| == 64 && forall c | c in s :: Digit(c) || 'a' <= c <= 'f'
  }

  predicate ValidHash(hash: Option<string>) { hash.Some? && Sha256(Lower(hash.value)) }

  predicate ValidSize(size: Option<int>) { size.Some? && size.value > 0 }

  predicate ValidLocation(location: Option<string>) {
    location.Some? && location.value != "" && !StartsWith(location.value, "http://")
    && !StartsWith(location.value, "https://")
  }

  predicate Valid(r: Record) {
    && r.attachment.Some? && ValidLocation(r.attachment.value.location)
    && r.attachment.value.mimetype == "application/zstd"
    && ValidHash(r.attachment.value.hash) && ValidHash(r.decompressedHash)
    && ValidSize(r.attachment.value.size) && ValidSize(r.decompressedSize)
  }

  function InstalledName(fileType: string): string {
    if fileType == "model" || fileType == "lex" then fileType + ".bin" else fileType + ".spm"
  }

  function FileOf(r: Record): (f: File)
    requires Valid(r)
    ensures f.fileType == r.fileType
  {
    var a := r.attachment.value;
    File(r.fileType, BASE_URL + a.location.value, a.size.value, Lower(a.hash.value),
         r.decompressedSize.value, Lower(r.decompressedHash.value), InstalledName(r.fileType))
  }

  // ---------------------------------------------------------------- order

  /** Python compares texts by code point. */
  predicate Before(a: string, b: string) {
    if b == [] then false
    else if a == [] then true
    else a[0] < b[0] || (a[0] == b[0] && Before(a[1..], b[1..]))
  }

  predicate Precedes(a: Direction, b: Direction) {
    Before(a.source, b.source) || (a.source == b.source && Before(a.target, b.target))
  }

  predicate FilesInOrder(files: seq<File>) {
    forall i, j | 0 <= i < j < |files| :: Before(files[i].fileType, files[j].fileType)
  }

  predicate EntriesInOrder(entries: seq<Entry>) {
    forall i, j | 0 <= i < j < |entries| :: Precedes(entries[i].direction, entries[j].direction)
  }

  // ---------------------------------------------------------------- the manifest

  function Hyphens(s: string): (r: string)
    ensures |r| == |s|
  {
    if s == [] then [] else [if s[0] == '_' then '-' else s[0]] + Hyphens(s[1..])
  }

  function EntryOf(key: Key, files: seq<File>): Entry {
    Entry(Hyphens(key.direction.source), Hyphens(key.direction.target), key.direction, key.version,
          key.architecture, files)
  }

  /** The files of a group, each once, in the order of their types. */
  predicate Lists(files: seq<File>, group: seq<Record>)
    requires forall r | r in group :: Valid(r)
  {
    FilesInOrder(files)
    && (forall f | f in files :: exists r :: r in group && f == FileOf(r))
    && (forall r | r in group :: FileOf(r) in files)
  }

  predicate Usable(records: seq<Record>, pick: map<Direction, Key>) {
    KnownTypes(records)
    && forall d | d in pick ::
      !Repeated(Group(records, pick[d])) && forall r | r in Group(records, pick[d]) :: Valid(r)
  }

  /** One entry for each direction, in order, describing the chosen candidate. */
  predicate Describes(records: seq<Record>, pick: map<Direction, Key>, entries: seq<Entry>)
    requires Usable(records, pick)
  {
    EntriesInOrder(entries)
    && (forall d | d in pick :: exists e :: e in entries && e.direction == d)
    && (forall e | e in entries :: e.direction in pick
          && e == EntryOf(pick[e.direction], e.files) && Lists(e.files, Group(records, pick[e.direction])))
  }

  function Latest(records: seq<Record>): int
    requires records != []
  {
    var last := records[|records| - 1].lastModified;
    if |records| == 1 then last
    else
      var before := Latest(records[..|records| - 1]);
      if last > before then last else before
  }

  predicate Revised(records: seq<Record>, revision: Option<int>) {
    revision.Some? || records != []
  }

  function Revision(records: seq<Record>, revision: Option<int>): int
    requires Revised(records, revision)
  {
    if revision.Some? then revision.value else Latest(records)
  }

  /** The result for these choices: nothing exactly when a record or a group makes generation fail. */
  predicate Result(records: seq<Record>, revision: Option<int>, pick: map<Direction, Key>, result: Option<Manifest>) {
    match result
    case None => !Revised(records, revision) || !Usable(records, pick)
    case Some(m) =>
      Revised(records, revision) && Usable(records, pick)
      && m.revision == Revision(records, revision) && Describes(records, pick, m.entries)
  }

  ghost predicate Generates(records: seq<Record>, revision: Option<int>, result: Option<Manifest>) {
    exists pick :: Chosen(records, pick) && Result(records, revision, pick, result)
  }
}
