/**
 The outbox: copies of uploads, possibly the only ones, kept in a plain directory until somebody else
 holds them. First the names, then the directory's operations, then what crashes and releases can do.
 */
module Outbox {
  import opened Types
  import opened FileBytes
  import opened Catalog
  import opened CatalogTables

  // ---- names ----

  const PARTIAL_SUFFIX: string := ".partial"

  /**
   How ids, drafts and contents are written: ids in simple hex, drafts as hyphenated ids, contents as a
   hex digest. Both id forms parse.
   */
  datatype Naming = Naming(
    text: FileId -> string, draft: int -> string, parse: string -> Option<FileId>, digest: Bytes -> Hash)
  {
    ghost predicate Sound() {
      (forall id :: '.' !in text(id) && '-' !in text(id) && parse(text(id)) == Some(id))
      && (forall u :: '.' !in draft(u) && '-' in draft(u))
      && (forall bytes :: '.' !in digest(bytes) && digest(bytes) != "partial")
    }

    function PartialName(u: int): string { draft(u) + PARTIAL_SUFFIX }

    function EntryName(file: FileId, hash: Hash): string { text(file) + "." + hash }

    /** A directory name read back as an entry, the way the listing does. */
    function Listed(name: string): Option<(FileId, Hash)> {
      match SplitOnce(name)
      case None => None
      case Some((id, hash)) =>
        if EndsWith(hash, PARTIAL_SUFFIX) || parse(id).None? then None else Some((parse(id).value, hash))
    }
  }

  function SplitOnce(name: string): Option<(string, string)> {
    if name == [] then None
    else if name[0] == '.' then Some(([], name[1..]))
    else match SplitOnce(name[1..])
         case None => None
         case Some((head, tail)) => Some(([name[0]] + head, tail))
  }

  predicate EndsWith(s: string, suffix: string) {
    |suffix| <= |s| && s[|s| - |suffix|..] == suffix
  }

  lemma {:induction false} SplitAtFirst(head: string, tail: string)
    requires '.' !in head
    ensures SplitOnce(head + "." + tail) == Some((head, tail))
  {
    var name := head + "." + tail;
    if head == [] {
      assert name[1..] == tail;
    } else {
      assert name[1..] == head[1..] + "." + tail;
      SplitAtFirst(head[1..], tail);
      assert head == [head[0]] + head[1..];
    }
  }

  /** Every complete entry is listed as what it is, and never taken for a partial. */
  lemma EntryIsListed(n: Naming, file: FileId, bytes: Bytes)
    requires n.Sound()
    ensures n.Listed(n.EntryName(file, n.digest(bytes))) == Some((file, n.digest(bytes)))
    ensures !EndsWith(n.EntryName(file, n.digest(bytes)), PARTIAL_SUFFIX)
  {
    var hash := n.digest(bytes);
    SplitAtFirst(n.text(file), hash);
    DotlessEnding(hash);
    if EndsWith(n.EntryName(file, hash), PARTIAL_SUFFIX) {
      OneDot(n.text(file), hash, |n.EntryName(file, hash)| - 8);
    }
  }

  lemma DotlessEnding(s: string)
    ensures EndsWith(s, PARTIAL_SUFFIX) ==> '.' in s
  {
    if EndsWith(s, PARTIAL_SUFFIX) { assert s[|s| - 8] == '.'; }
  }

  lemma CharAt(head: string, tail: string, k: nat)
    requires k < |head + "." + tail|
    ensures var c := (head + "." + tail)[k];
            (k < |head| && c in head) || (k == |head| && c == '.') || (k > |head| && c in tail)
  {
    assert k > |head| ==> (head + "." + tail)[k] == tail[k - |head| - 1];
  }

  lemma OneDot(head: string, tail: string, k: nat)
    requires '.' !in head && '.' !in tail && k < |head + "." + tail|
    requires (head + "." + tail)[k..] == PARTIAL_SUFFIX
    ensures tail == "partial"
  {
    var name := head + "." + tail;
    assert name[k] == name[k..][0] == '.';
    CharAt(head, tail, k);
    assert tail == name[k + 1..] == name[k..][1..];
  }

  /**
   A partial is listed as well, as the content "partial" of whatever id its draft name parses to: what
   follows the first dot is "partial", without the dot the listing looks for. So the listing is of
   complete entries only exactly when no draft name parses.
   */
  lemma PartialIsListed(n: Naming, u: int)
    requires n.Sound()
    ensures n.Listed(n.PartialName(u))
         == (if n.parse(n.draft(u)).Some? then Some((n.parse(n.draft(u)).value, "partial")) else None)
    ensures EndsWith(n.PartialName(u), PARTIAL_SUFFIX)
  {
    assert n.PartialName(u) == n.draft(u) + "." + "partial";
    SplitAtFirst(n.draft(u), "partial");
  }

  /** A name whose content part ends as a partial's does is not listed. */
  lemma SuffixedIsSkipped(n: Naming, head: string, tail: string)
    requires '.' !in head
    ensures n.Listed(head + "." + (tail + ".partial")).None?
  {
    SplitAtFirst(head, tail + ".partial");
  }

  /** Removing what was listed never removes a partial: the name is rebuilt from the id's simple form. */
  lemma RemovalMissesPartials(n: Naming, file: FileId, hash: Hash, u: int)
    requires n.Sound()
    ensures n.EntryName(file, hash) != n.PartialName(u)
  {
    assert n.PartialName(u) == n.draft(u) + "." + "partial";
    SplitAtFirst(n.draft(u), "partial");
    SplitAtFirst(n.text(file), hash);
  }

  lemma EntryNamesDiffer(n: Naming, file: FileId, hash: Hash, other: FileId, otherHash: Hash)
    requires n.Sound() && n.EntryName(file, hash) == n.EntryName(other, otherHash)
    ensures file == other && hash == otherHash
  {
    SplitAtFirst(n.text(file), hash);
    SplitAtFirst(n.text(other), otherHash);
  }

  // ---- the directory ----

  /** Where an ingest fails, if it does: copying, after some bytes, or renaming. */
  datatype Fault = NoFault | Midway(after: nat) | AtRename

  predicate Fails(fault: Fault, size: nat) { fault.AtRename? || (fault.Midway? && fault.after <= size) }

  datatype Verdict = Obsolete | Needed

  /** What the catalog alone says: gone, or superseded, is no longer needed. */
  function CatalogVerdict(r: Record, hash: Hash): Verdict {
    if r.purged then Obsolete
    else if r.Tombstoned() then Obsolete
    else if (exists v :: v in r.versions && v.hash == hash) && r.Latest().value.hash != hash then Obsolete
    else Needed
  }

  /** No longer needed: the file is purged or dead, or its history has the content and ends in another. */
  lemma ObsoleteIs(r: Record, hash: Hash)
    ensures CatalogVerdict(r, hash) == Obsolete <==>
              r.purged || (r.row.Some? && r.row.value.deleted)
              || (r.versions != [] && r.versions[|r.versions| - 1].hash != hash
                  && exists i :: 0 <= i < |r.versions| && r.versions[i].hash == hash)
  {
    if i :| 0 <= i < |r.versions| && r.versions[i].hash == hash { assert r.versions[i] in r.versions; }
  }

  class OutboxDirectory {
    const naming: Naming
    var files: map<string, Bytes>

    constructor (naming: Naming)
      ensures this.naming == naming && files == map[]
    {
      this.naming := naming;
      files := map[];
    }

    /**
     Copies the source while hashing it, however short the reads, and only then gives it its name. A source
     that cannot be opened leaves nothing, a copy that fails midway is removed again, and one that cannot be
     renamed stays behind as a partial.
     */
    method Ingest(source: Option<Bytes>, file: FileId, u: int, fault: Fault) returns (ingested: Option<(Hash, nat)>)
      requires naming.Sound() && naming.PartialName(u) !in files
      modifies this
      ensures ingested == if source.None? || Fails(fault, |source.value|) then None
                          else Some((naming.digest(source.value), |source.value|))
      ensures files == if ingested.Some? then old(files)[naming.EntryName(file, ingested.value.0) := source.value]
                       else if source.Some? && fault.AtRename? then old(files)[naming.PartialName(u) := source.value]
                       else old(files)
    {
      if source.None? { return None; }
      var partial := naming.PartialName(u);
      files := files[partial := []];
      var hashed: Bytes := [];
      while |hashed| < |source.value|
        invariant |hashed| <= |source.value| && hashed == source.value[..|hashed|]
        invariant files == old(files)[partial := hashed]
        invariant fault.Midway? ==> |hashed| <= fault.after
        decreases |source.value| - |hashed|
      {
        if fault == Midway(|hashed|) {
          files := files - {partial};
          return None;
        }
        var room := if fault.Midway? then Min(65536, fault.after - |hashed|) else 65536;
        var read := Read(source.value, |hashed|, room);
        hashed := hashed + read;
        files := files[partial := files[partial] + read];
      }
      assert hashed == source.value;
      if fault == Midway(|hashed|) {
        files := files - {partial};
        return None;
      }
      if fault.AtRename? { return None; }
      var hash := naming.digest(hashed);
      RemovalMissesPartials(naming, file, hash, u);
      var bytes := files[partial];
      files := (files - {partial})[naming.EntryName(file, hash) := bytes];
      ingested := Some((hash, |hashed|));
    }

    /** Drops exactly the partials; complete entries are kept, for they may be the only copy. */
    method Prepare()
      modifies this
      ensures files == map name | name in old(files) && !EndsWith(name, PARTIAL_SUFFIX) :: old(files)[name]
    {
      var names := Enumerate(files.Keys);
      for i := 0 to |names|
        invariant files == map name | name in old(files) && !(name in names[..i] && EndsWith(name, PARTIAL_SUFFIX))
                             :: old(files)[name]
      {
        assert names[..i + 1] == names[..i] + [names[i]];
        if EndsWith(names[i], PARTIAL_SUFFIX) { files := files - {names[i]}; }
      }
      assert names[..|names|] == names;
    }

    method Entries() returns (listed: seq<(FileId, Hash)>)
      ensures forall entry :: entry in listed <==> exists name <- files :: naming.Listed(name) == Some(entry)
    {
      var names := Enumerate(files.Keys);
      listed := [];
      for i := 0 to |names|
        invariant forall entry :: entry in listed <==> exists name <- names[..i] :: naming.Listed(name) == Some(entry)
      {
        assert names[..i + 1] == names[..i] + [names[i]];
        if naming.Listed(names[i]).Some? { listed := listed + [naming.Listed(names[i]).value]; }
      }
      assert names[..|names|] == names;
    }

    /**
     One pass, with the catalog and the holders as they are when each entry is visited: it lists once, and
     removes exactly the entries some visit found obsolete or held elsewhere. A complete entry stays exactly
     when no visit to it found that, whatever became of the others.
     */
    method ReleasePass(records: (nat, FileId) -> Record, held: (nat, FileId, Hash) -> bool)
      returns (listed: seq<(FileId, Hash)>)
      requires naming.Sound()
      modifies this`files
      ensures forall entry :: entry in listed <==> exists name <- old(files) :: naming.Listed(name) == Some(entry)
      ensures forall name :: name in files <==> name in old(files) && !Gone(records, held, listed, |listed|, name)
      ensures forall name <- files :: files[name] == old(files)[name]
      ensures forall file, bytes :: var name := naming.EntryName(file, naming.digest(bytes));
                name in old(files) ==>
                  (file, naming.digest(bytes)) in listed
                  && (name in files <==> !Released(records, held, listed, (file, naming.digest(bytes))))
    {
      listed := Entries();
      VisitAll(records, held, listed);
      forall file, bytes | naming.EntryName(file, naming.digest(bytes)) in old(files)
        ensures (file, naming.digest(bytes)) in listed
      {
        EntryIsListed(naming, file, bytes);
      }
      forall file, hash {
        GoneIsOwn(records, held, listed, file, hash);
      }
    }

    method VisitAll(records: (nat, FileId) -> Record, held: (nat, FileId, Hash) -> bool, listed: seq<(FileId, Hash)>)
      modifies this`files
      ensures forall name :: name in files <==> name in old(files) && !Gone(records, held, listed, |listed|, name)
      ensures forall name <- files :: files[name] == old(files)[name]
    {
      for i := 0 to |listed|
        invariant forall name :: name in files <==> name in old(files) && !Gone(records, held, listed, i, name)
        invariant forall name <- files :: name in old(files) && files[name] == old(files)[name]
      {
        var (file, hash) := listed[i];
        if CatalogVerdict(records(i, file), hash) == Obsolete || held(i, file, hash) {
          files := files - {naming.EntryName(file, hash)};
        }
      }
    }

    /** A visit removes no entry but its own. */
    lemma GoneIsOwn(records: (nat, FileId) -> Record, held: (nat, FileId, Hash) -> bool, listed: seq<(FileId, Hash)>,
                    file: FileId, hash: Hash)
      requires naming.Sound()
      ensures Gone(records, held, listed, |listed|, naming.EntryName(file, hash))
          <==> Released(records, held, listed, (file, hash))
    {
      if i :| 0 <= i < |listed| && naming.EntryName(file, hash) == naming.EntryName(listed[i].0, listed[i].1)
              && Releases(records, held, listed[i], i)
      {
        EntryNamesDiffer(naming, file, hash, listed[i].0, listed[i].1);
      }
    }

    /** Whether the `i`th visit gives its entry up. */
    predicate Releases(records: (nat, FileId) -> Record, held: (nat, FileId, Hash) -> bool, entry: (FileId, Hash),
                       i: nat) {
      CatalogVerdict(records(i, entry.0), entry.1) == Obsolete || held(i, entry.0, entry.1)
    }

    /** Whether some visit to the entry gives it up. */
    ghost predicate Released(records: (nat, FileId) -> Record, held: (nat, FileId, Hash) -> bool,
                             listed: seq<(FileId, Hash)>, entry: (FileId, Hash))
    {
      exists i :: 0 <= i < |listed| && listed[i] == entry && Releases(records, held, entry, i)
    }

    ghost predicate Gone(records: (nat, FileId) -> Record, held: (nat, FileId, Hash) -> bool,
                         listed: seq<(FileId, Hash)>, n: nat, name: string)
      requires n <= |listed|
    {
      exists i ::
        0 <= i < n && name == naming.EntryName(listed[i].0, listed[i].1) && Releases(records, held, listed[i], i)
    }
  }
}
