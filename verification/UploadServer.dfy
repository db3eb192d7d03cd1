/**
 The upload endpoint: what one chunk request does to the partial file and to the
 finished file of one name, and what it answers. Disk failures are an input.
 */
module UploadServer {
  import opened Prelude

  newtype Byte = b: int | 0 <= b < 256
  type Bytes = seq<Byte>

  /** The two files behind one upload name: the partial copy and the finished one. */
  datatype Slot = Slot(part: Option<Bytes>, target: Option<Bytes>)

  datatype Chunk = Chunk(offset: nat, body: Bytes, last: bool)

  /** What the disk does while one request is handled. */
  datatype Disk =
    | Fine
    | WriteFails(touched: bool, written: nat, unlinked: bool)
    | RenameFails(unlinked: bool)
    | StatFails

  /** 200 with `received`, 200 with `saved`, 409 with `have`, and 500. */
  datatype Reply = Received(size: nat) | Saved | OutOfSync(have: nat) | ServerError

  predicate RangeEquals(file: Option<Bytes>, offset: nat, expected: Bytes) {
    file.Some? && offset + |expected| <= |file.value|
    && file.value[offset..offset + |expected|] == expected
  }

  function Handle(slot: Slot, chunk: Chunk, disk: Disk): (Slot, Reply) {
    if chunk.offset == 0 then
      Write(slot, [], chunk, disk)
    else
      match slot.part
      case None =>
        if chunk.last && RangeEquals(slot.target, chunk.offset, chunk.body)
           && |slot.target.value| == chunk.offset + |chunk.body|
        then (slot, Saved)
        else (slot, OutOfSync(0))
      case Some(part) =>
        if RangeEquals(slot.part, chunk.offset, chunk.body) then
          if !chunk.last then (slot, Received(|part|))
          else if |part| != chunk.offset + |chunk.body| then (slot, OutOfSync(|part|))
          else Finalize(slot, chunk, disk)
        else if |part| != chunk.offset then (slot, OutOfSync(|part|))
        else Write(slot, part, chunk, disk)
  }

  function Write(slot: Slot, base: Bytes, chunk: Chunk, disk: Disk): (Slot, Reply) {
    match disk
    case WriteFails(touched, written, unlinked) =>
      var left :=
        if unlinked then None
        else if touched then Some(base + chunk.body[..Min(written, |chunk.body|)])
        else slot.part;
      (slot.(part := left), ServerError)
    case _ =>
      Finalize(slot.(part := Some(base + chunk.body)), chunk, disk)
  }

  function Finalize(slot: Slot, chunk: Chunk, disk: Disk): (Slot, Reply) {
    if !chunk.last then (slot, Received(chunk.offset + |chunk.body|))
    else
      match disk
      case RenameFails(unlinked) =>
        (slot.(part := if unlinked then None else slot.part), ServerError)
      case StatFails => (Slot(None, slot.part), ServerError)
      case _ => (Slot(None, slot.part), Saved)
  }

  /** `chunk` is a piece of `file`, flagged last exactly when it reaches the end. */
  predicate Piece(chunk: Chunk, file: Bytes) {
    && chunk.offset + |chunk.body| <= |file|
    && chunk.body == file[chunk.offset..chunk.offset + |chunk.body|]
    && (chunk.last <==> chunk.offset + |chunk.body| == |file|)
  }

  /** The partial copy, when there is one, is a prefix of the file. */
  predicate Synced(slot: Slot, file: Bytes) {
    slot.part.Some? ==> slot.part.value <= file
  }

  /** A finished file of the right size and the wrong bytes. */
  predicate Mimics(target: Option<Bytes>, file: Bytes) {
    target.Some? && |target.value| == |file| && target.value != file
  }

  /** The retry check is about to take an older finished file for this one. */
  predicate Deceived(slot: Slot, chunk: Chunk, file: Bytes) {
    && chunk.last && chunk.offset > 0 && slot.part.None? && Mimics(slot.target, file)
    && chunk.offset <= |file| && slot.target.value[chunk.offset..] == chunk.body
  }

  /** One request: `saved` means the exact bytes, except precisely when the retry check is deceived. */
  lemma SavedIsExactUnlessDeceived(slot: Slot, chunk: Chunk, disk: Disk, file: Bytes)
    requires Piece(chunk, file) && (chunk.offset == 0 || Synced(slot, file))
    ensures var (slot', reply) := Handle(slot, chunk, disk);
            (reply.Saved? ==> slot'.target == Some(file)) <==> !Deceived(slot, chunk, file)
  {
    if chunk.offset > 0 {
      match slot.part
      case None =>
        if chunk.last && slot.target.Some? && |slot.target.value| == |file| {
          assert slot.target.value[chunk.offset..chunk.offset + |chunk.body|] == slot.target.value[chunk.offset..];
        }
      case Some(part) => JoinPiece(part, chunk, file);
    } else {
      JoinPiece([], chunk, file);
    }
  }

  lemma JoinPiece(part: Bytes, chunk: Chunk, file: Bytes)
    requires part <= file && Piece(chunk, file)
    ensures |part| == chunk.offset ==> part + chunk.body <= file
    ensures |part| == chunk.offset ==> forall n | 0 <= n <= |chunk.body| :: part + chunk.body[..n] <= file
    ensures chunk.offset + |chunk.body| <= |part| ==> RangeEquals(Some(part), chunk.offset, chunk.body)
    ensures |part| == |file| ==> part == file
    ensures |part| == chunk.offset && chunk.last ==> part + chunk.body == file
  {
    if |part| == chunk.offset {
      assert part + chunk.body == file[..chunk.offset + |chunk.body|];
      forall n | 0 <= n <= |chunk.body| ensures part + chunk.body[..n] <= file {
        assert part + chunk.body[..n] == file[..chunk.offset + n];
      }
    }
  }

  /** What every request keeps, whatever the disk does, and what each answer tells the client. */
  lemma HandleKeeps(slot: Slot, chunk: Chunk, disk: Disk, file: Bytes)
    requires Piece(chunk, file)
    requires chunk.offset == 0 || Synced(slot, file)
    ensures var (slot', reply) := Handle(slot, chunk, disk);
            && (Synced(slot', file) || (slot' == slot && reply.ServerError?))
            && (slot'.target == slot.target || slot'.target == Some(file))
            && (disk.Fine? && slot.part.Some? && slot'.part.None? ==> slot'.target == Some(file))
            && (disk.Fine? && chunk.offset == 0 ==> slot'.part.Some? || slot'.target == Some(file))
            && (reply.Saved? ==> chunk.last)
            && (reply.Received? ==> !chunk.last && chunk.offset + |chunk.body| <= reply.size <= |file|
                                    && slot'.part.Some? && |slot'.part.value| == reply.size)
            && (reply.OutOfSync? ==> slot' == slot && reply.have <= |file| && chunk.offset > 0
                                     && reply.have == if slot.part.Some? then |slot.part.value| else 0)
  {
    var base := if chunk.offset == 0 then [] else if slot.part.Some? then slot.part.value else [];
    JoinPiece(base, chunk, file);
  }

  /** A file has the bytes of the chunk where the chunk says. */
  predicate HasAt(file: Option<Bytes>, chunk: Chunk) {
    && file.Some? && chunk.offset + |chunk.body| <= |file.value|
    && forall i | 0 <= i < |chunk.body| :: file.value[chunk.offset + i] == chunk.body[i]
  }

  /** The bytes of the partial copy after the request: only a chunk that begins where they end is added. */
  function Joined(part: Bytes, chunk: Chunk): Bytes {
    if chunk.offset == 0 then chunk.body else if |part| == chunk.offset then part + chunk.body else part
  }

  lemma RangeIsHasAt(file: Option<Bytes>, chunk: Chunk)
    ensures RangeEquals(file, chunk.offset, chunk.body) <==> HasAt(file, chunk)
  {
    if file.Some? && chunk.offset + |chunk.body| <= |file.value| {
      var range := file.value[chunk.offset..chunk.offset + |chunk.body|];
      assert forall i | 0 <= i < |chunk.body| :: range[i] == file.value[chunk.offset + i];
    }
  }

  /**
   Whatever the files hold, on a disk that works: a request succeeds exactly when the copy holds its bytes
   afterwards where it says, and ends there if the chunk is the last; that ends the upload. Without a partial copy
   the finished file is looked at. Otherwise the answer tells how much there is.
   */
  lemma SucceedsExactlyWhenHeld(slot: Slot, chunk: Chunk)
    ensures var (slot', reply) := Handle(slot, chunk, Fine);
            if chunk.offset > 0 && slot.part.None? then
              && slot' == slot
              && reply == if chunk.last && HasAt(slot.target, chunk)
                             && |slot.target.value| == chunk.offset + |chunk.body| then Saved else OutOfSync(0)
            else
              var copy := Joined(if slot.part.Some? then slot.part.value else [], chunk);
              if HasAt(Some(copy), chunk) && chunk.last && |copy| == chunk.offset + |chunk.body| then
                (slot', reply) == (Slot(None, Some(copy)), Saved)
              else
                slot' == Slot(Some(copy), slot.target)
                && reply == if HasAt(Some(copy), chunk) && !chunk.last then Received(|copy|) else OutOfSync(|copy|)
  {
    RangeIsHasAt(slot.part, chunk);
    RangeIsHasAt(slot.target, chunk);
    JoinsAt(if slot.part.Some? then slot.part.value else [], chunk);
  }

  lemma JoinsAt(part: Bytes, chunk: Chunk)
    ensures |part| == chunk.offset ==> HasAt(Some(part + chunk.body), chunk)
    ensures chunk.body == [] ==> part + chunk.body == part
    ensures chunk.offset == 0 ==> HasAt(Some(chunk.body), chunk) && [] + chunk.body == chunk.body
  {
  }

  /** The request writes: it starts the copy, or adds bytes where the copy ends. */
  predicate Writes(slot: Slot, chunk: Chunk) {
    chunk.offset == 0 || (slot.part.Some? && |slot.part.value| == chunk.offset && chunk.body != [])
  }

  /** The request ends by making the partial copy the finished file. */
  predicate Renames(slot: Slot, chunk: Chunk) {
    Handle(slot, chunk, Fine).1.Saved? && (chunk.offset == 0 || slot.part.Some?)
  }

  /**
   A disk failure is answered with 500, by a request that it strikes, and changes nothing for others. A write
   that fails leaves the copy removed, longer by what was written, or as it was; a rename that fails, the copy
   removed or complete; the size of the finished file is asked for when that is in place.
   */
  lemma FailuresAreReported(slot: Slot, chunk: Chunk, disk: Disk)
    ensures var fine := Handle(slot, chunk, Fine);
            Handle(slot, chunk, disk) ==
            match disk
            case Fine => fine
            case WriteFails(touched, written, unlinked) =>
              if !Writes(slot, chunk) then fine
              else
                var base := if chunk.offset == 0 then [] else slot.part.value;
                (slot.(part := if unlinked then None
                               else if touched then Some(base + chunk.body[..Min(written, |chunk.body|)])
                               else slot.part), ServerError)
            case RenameFails(unlinked) =>
              if !Renames(slot, chunk) then fine
              else (Slot(if unlinked then None else fine.0.target, slot.target), ServerError)
            case StatFails => if Renames(slot, chunk) then (fine.0, ServerError) else fine
  {
    RangeIsHasAt(slot.part, chunk);
  }
}
