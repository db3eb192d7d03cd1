/** The upload endpoint as it works on the two files of a name, one system call after the other. */
module UploadServerFiles {
  import opened Prelude
  import opened UploadServer

  class UploadFiles {
    var part: Option<Bytes>
    var target: Option<Bytes>

    constructor (part: Option<Bytes>, target: Option<Bytes>)
      ensures this.part == part && this.target == target
    {
      this.part, this.target := part, target;
    }

    function View(): Slot
      reads this
    {
      Slot(part, target)
    }

    /** Opens, truncates unless appending, and writes: `failed` tells an exception, after some bytes or none. */
    method WriteUploadChunk(body: Bytes, append: bool, disk: Disk) returns (failed: bool)
      requires append ==> part.Some?
      modifies this`part
      ensures failed == disk.WriteFails?
      ensures !failed ==> part == Some((if append then old(part).value else []) + body)
      ensures failed ==> part == if disk.touched
                                 then Some((if append then old(part).value else []) + body[..Min(disk.written, |body|)])
                                 else old(part)
    {
      var base := if append then part.value else [];
      match disk {
        case WriteFails(touched, written, _) =>
          if touched {
            part := Some(base + body[..Min(written, |body|)]);
          }
          return true;
        case _ =>
          part := Some(base + body);
          return false;
      }
    }

    /** A later chunk: answered at once, appended, or failed. */
    method ContinuePartialUpload(chunk: Chunk, disk: Disk) returns (reply: Option<Reply>, failed: bool)
      requires chunk.offset > 0
      modifies this`part
      ensures reply.Some? ==> View() == old(View()) && Handle(old(View()), chunk, disk) == (View(), reply.value)
      ensures reply.None? && failed ==>
                && disk.WriteFails?
                && Handle(old(View()), chunk, disk) == (AfterUnlink(View(), disk.unlinked), ServerError)
      ensures reply.None? && !failed ==> part.Some? && Handle(old(View()), chunk, disk) == Finalize(View(), chunk, disk)
    {
      failed := false;
      if part.None? && chunk.last && RangeEquals(target, chunk.offset, chunk.body)
         && |target.value| == chunk.offset + |chunk.body| {
        return Some(Saved), false;
      }
      if RangeEquals(part, chunk.offset, chunk.body) {
        if !chunk.last {
          return Some(Received(|part.value|)), false;
        }
        if |part.value| != chunk.offset + |chunk.body| {
          return Some(OutOfSync(|part.value|)), false;
        }
        return None, false;
      }
      if part.None? || |part.value| != chunk.offset {
        return Some(OutOfSync(if part.None? then 0 else |part.value|)), false;
      }
      failed := WriteUploadChunk(chunk.body, true, disk);
      return None, failed;
    }

    method RenameToTarget(disk: Disk) returns (failed: bool)
      requires part.Some?
      modifies this
      ensures failed == disk.RenameFails?
      ensures View() == if failed then old(View()) else Slot(None, old(part))
    {
      if disk.RenameFails? {
        return true;
      }
      part, target := None, part;
      return false;
    }

    /** One request: write, rename after the last chunk, remove the partial file if either throws, and answer. */
    method ApplyUploadChunk(chunk: Chunk, disk: Disk) returns (reply: Reply)
      modifies this
      ensures (View(), reply) == Handle(old(View()), chunk, disk)
    {
      var answered: Option<Reply>, failed := None, false;
      if chunk.offset == 0 {
        failed := WriteUploadChunk(chunk.body, false, disk);
      } else {
        answered, failed := ContinuePartialUpload(chunk, disk);
        if answered.Some? {
          return answered.value;
        }
      }
      if !failed && chunk.last {
        failed := RenameToTarget(disk);
      }
      if failed {
        if disk.unlinked {
          part := None;
        }
        return ServerError;
      }
      if !chunk.last {
        return Received(chunk.offset + |chunk.body|);
      }
      return if disk.StatFails? then ServerError else Saved;
    }
  }

  function AfterUnlink(slot: Slot, unlinked: bool): Slot {
    if unlinked then slot.(part := None) else slot
  }
}
