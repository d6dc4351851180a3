/**
 Content in transit: where the bytes of a file live and how a consumer may take them. The file-backed
 forms read and write a file system; the in-memory form is what they are measured against.
 */
module FileBytes {
  import opened Types

  type Path = string
  type Bytes = seq<bv8>
  type Files = map<Path, Bytes>

  datatype Content = InMemory(bytes: Bytes) | FileToCopy(source: Path) | FileToMove(source: Path) {
    /** The path behind the content, if any. */
    function Path(): (path: Option<Path>)
      ensures path.None? <==> InMemory?
    {
      match this
      case InMemory(_) => None
      case FileToCopy(source) => Some(source)
      case FileToMove(source) => Some(source)
    }

    /** The same content, given up by its producer where a file backs it. */
    function IntoMove(): (moved: Content)
      ensures moved.Path() == Path() && !moved.FileToCopy? && (FileToMove? ==> moved == this)
      ensures forall files: Files :: moved.In(files) == In(files)
    {
      match this
      case InMemory(_) => this
      case FileToCopy(source) => FileToMove(source)
      case FileToMove(_) => this
    }

    /** The bytes themselves; a missing file is an error. */
    function In(files: Files): Option<Bytes> {
      match this
      case InMemory(bytes) => Some(bytes)
      case FileToCopy(source) => if source in files then Some(files[source]) else None
      case FileToMove(source) => if source in files then Some(files[source]) else None
    }
  }

  function Min(a: nat, b: nat): nat { if a < b then a else b }

  // ---- chunked reads ----

  datatype Chunk = Chunk(bytes: Bytes, last: bool)

  /** The window a chunk request names, and whether it reaches the end; past the end it is empty and last. */
  function Window(bytes: Bytes, offset: nat, maxLen: nat): Chunk {
    var start := Min(offset, |bytes|);
    var end := Min(start + maxLen, |bytes|);
    Chunk(bytes[start..end], end >= |bytes|)
  }

  /** One operating-system read: at least a byte unless at the end or out of room, otherwise as short as it likes. */
  method Read(file: Bytes, position: nat, room: nat) returns (read: Bytes)
    ensures |read| <= room && (|read| == 0 <==> room == 0 || |file| <= position)
    ensures position + |read| <= |file| || read == []
    ensures position <= |file| ==> read == file[position..position + |read|]
  {
    if room == 0 || |file| <= position { return []; }
    var available := Min(room, |file| - position);
    var count :| 1 <= count <= available;
    read := file[position..position + count];
  }

  lemma WindowExtends(file: Bytes, offset: nat, filled: nat, read: Bytes)
    requires |Window(file, offset, filled).bytes| == filled && offset + filled + |read| <= |file|
    requires read == file[offset + filled..offset + filled + |read|]
    ensures Window(file, offset, filled).bytes + read == Window(file, offset, filled + |read|).bytes
  {
  }

  /** However short the reads, the file-backed loop returns the window the in-memory slice would. */
  method ReadChunkAt(files: Files, content: Content, offset: nat, maxLen: nat) returns (result: Option<Chunk>)
    ensures result == match content.In(files)
                      case None => None
                      case Some(bytes) => Some(Window(bytes, offset, maxLen))
  {
    if content.In(files).None? { return None; }
    match content {
      case InMemory(bytes) =>
        var start := Min(offset, |bytes|);
        var end := Min(start + maxLen, |bytes|);
        result := Some(Chunk(bytes[start..end], end >= |bytes|));
      case _ =>
        var file := files[content.source];
        var buffer: Bytes := [];
        while |buffer| < maxLen
          invariant |buffer| <= maxLen
          invariant buffer == Window(file, offset, |buffer|).bytes
          decreases maxLen - |buffer|
        {
          var read := Read(file, offset + |buffer|, maxLen - |buffer|);
          if |read| == 0 { break; }
          WindowExtends(file, offset, |buffer|, read);
          buffer := buffer + read;
        }
        result := Some(Chunk(buffer, offset + |buffer| >= |file|));
    }
  }

  /** Asking for chunks from `offset` on, each where the previous ended, until one says it is the last. */
  function Reassemble(bytes: Bytes, offset: nat, maxLen: nat): Bytes
    requires maxLen > 0
    decreases |bytes| - offset
  {
    var chunk := Window(bytes, offset, maxLen);
    if chunk.last then chunk.bytes else chunk.bytes + Reassemble(bytes, offset + |chunk.bytes|, maxLen)
  }

  lemma {:induction false} ReassembleFrom(bytes: Bytes, offset: nat, maxLen: nat)
    requires maxLen > 0 && offset <= |bytes|
    ensures Reassemble(bytes, offset, maxLen) == bytes[offset..]
    decreases |bytes| - offset
  {
    var chunk := Window(bytes, offset, maxLen);
    if !chunk.last {
      ReassembleFrom(bytes, offset + maxLen, maxLen);
    }
  }

  /** Concatenating chunks of any positive size gives back the content. */
  lemma ChunksReassemble(bytes: Bytes, maxLen: nat)
    requires maxLen > 0
    ensures Reassemble(bytes, 0, maxLen) == bytes
  {
    ReassembleFrom(bytes, 0, maxLen);
  }

  /** Only the final chunk is marked last, and every chunk before it is full. */
  lemma LastOnlyOnFinalChunk(bytes: Bytes, offset: nat, maxLen: nat)
    requires maxLen > 0
    ensures var chunk := Window(bytes, offset, maxLen);
            (chunk.last <==> offset + |chunk.bytes| >= |bytes|)
            && (!chunk.last ==> |chunk.bytes| == maxLen && offset + maxLen < |bytes|)
            && (chunk.last ==>
                  forall later :: later >= offset + |chunk.bytes| ==> Window(bytes, later, maxLen) == Chunk([], true))
  {
  }

  /** A bounded read is complete exactly when nothing was cut off. */
  method ReadAllBounded(files: Files, content: Content, maxLen: nat) returns (result: Option<(Bytes, bool)>)
    ensures content.In(files).None? ==> result == None
    ensures forall bytes :: content.In(files) == Some(bytes) ==>
              result == Some((bytes[..Min(|bytes|, maxLen)], |bytes| <= maxLen))
              && (result.value.1 <==> result.value.0 == bytes)
  {
    match content {
      case InMemory(bytes) =>
        result := Some((bytes[..Min(|bytes|, maxLen)], |bytes| <= maxLen));
      case _ =>
        if content.source !in files { return None; }
        var total := |files[content.source]|;
        var chunk := ReadChunkAt(files, content, 0, maxLen);
        result := Some((chunk.value.bytes, total <= |chunk.value.bytes|));
    }
  }

  // ---- placing ----

  /** The file system after the content has been put at `dest`; nothing happens when its source is missing. */
  function Placed(files: Files, content: Content, dest: Path): Option<Files> {
    match content
    case InMemory(bytes) => Some(files[dest := bytes])
    case FileToCopy(source) =>
      if source !in files then None
      else Some(files[dest := if source == dest then [] else files[source]])
    case FileToMove(source) =>
      if source !in files then None
      else if source == dest then Some(files)
      else Some(files[dest := files[source]] - {source})
  }

  /** A disk whose paths live on devices; a rename only works within one. */
  class FileSystem {
    var files: Files
    const device: Path -> int

    constructor (files: Files, device: Path -> int)
      ensures this.files == files && this.device == device
    {
      this.files := files;
      this.device := device;
    }

    /** Creating the destination truncates it first, which matters when it is the source. */
    method StreamCopy(source: Path, dest: Path) returns (ok: bool)
      modifies this
      ensures ok <==> Placed(old(files), FileToCopy(source), dest).Some?
      ensures files == if ok then Placed(old(files), FileToCopy(source), dest).value else old(files)
    {
      if source !in files { return false; }
      files := files[dest := []];
      files := files[dest := files[source]];
      ok := true;
    }

    /** Writes, copies or moves the content; a move across devices is a copy and a removal, with the same result. */
    method MaterializeTo(content: Content, dest: Path) returns (ok: bool)
      modifies this
      ensures ok <==> Placed(old(files), content, dest).Some?
      ensures files == if ok then Placed(old(files), content, dest).value else old(files)
    {
      match content {
        case InMemory(bytes) =>
          files := files[dest := bytes];
          ok := true;
        case FileToCopy(source) =>
          ok := StreamCopy(source, dest);
        case FileToMove(source) =>
          if source !in files { return false; }
          if device(source) == device(dest) {
            var bytes := files[source];
            files := (files - {source})[dest := bytes];
            ok := true;
          } else {
            ok := StreamCopy(source, dest);
            files := files - {source};
          }
      }
    }
  }

  /** Content placed onto its own source: a copy truncates it before it reads, a move leaves it as it is. */
  lemma PlacedOntoItself(files: Files, path: Path)
    requires path in files
    ensures Placed(files, FileToCopy(path), path) == Some(files[path := []])
    ensures Placed(files, FileToMove(path), path) == Some(files)
  {
  }

  /** Nothing is placed when the source is missing. */
  lemma PlacedNeedsSource(files: Files, content: Content, dest: Path)
    ensures Placed(files, content, dest).None? <==> content.Path().Some? && content.Path().value !in files
  {
  }

  /** A move leaves no second source; a copy keeps it; either way the destination has the bytes. */
  lemma PlacedMeans(files: Files, content: Content, dest: Path)
    requires content.In(files).Some? && content.Path() != Some(dest)
    ensures var after := Placed(files, content, dest);
            after.Some? && dest in after.value && after.value[dest] == content.In(files).value
            && (content.Path().Some? ==> (content.Path().value in after.value <==> !content.FileToMove?))
            && forall path :: path != dest && Some(path) != content.Path() ==>
                 (path in after.value <==> path in files) && (path in files ==> after.value[path] == files[path])
  {
  }
}
