/**
  Generation numbers come from blocks reserved in a durable file.  A block is written before any of
  its numbers is used, so numbers keep growing when the process is killed and another one starts.
 */
module Generation {
  import opened Wrappers

  const U64_LIMIT: nat := 0x1_0000_0000_0000_0000

  /** How a reservation's atomic replacement of the state file ended. */
  datatype Replacement = Replaced | NotReplaced | ReplacedUnsynced

  /** The state file of the allocator: the first number no process has reserved yet. */
  class StateFile {
    var next: Option<nat>

    constructor ()
      ensures next == None
    {
      next := None;
    }

    function Unreserved(): nat
      reads this
    {
      if next.Some? then next.value else 1
    }
  }

  class GenerationAllocator {
    const file: StateFile
    const blockSize: nat
    var next: nat
    var end: nat

    ghost predicate Valid()
      reads this, file
    {
      && blockSize > 0 && 0 < file.Unreserved() < U64_LIMIT
      && next <= end <= file.Unreserved()
      && (next < end ==> 0 < next)
    }

    constructor (file: StateFile, blockSize: nat)
      requires blockSize > 0 && 0 < file.Unreserved() < U64_LIMIT
      ensures Valid() && this.file == file && this.blockSize == blockSize
      ensures next == end == 0
    {
      this.file := file;
      this.blockSize := blockSize;
      next, end := 0, 0;
    }

    /** Writes the end of the block first and adopts the block only if that write succeeded. */
    method ReserveBlock(replacement: Replacement) returns (ok: bool)
      requires Valid()
      modifies this, file
      ensures Valid()
      ensures file.Unreserved() >= old(file.Unreserved())
      ensures ok == (replacement == Replaced && old(file.Unreserved()) + blockSize < U64_LIMIT)
      ensures ok ==> next == old(file.Unreserved()) && end == next + blockSize
      ensures !ok ==> next == old(next) && end == old(end)
    {
      var start := file.Unreserved();
      if start + blockSize >= U64_LIMIT || replacement == NotReplaced {
        return false;
      }
      file.next := Some(start + blockSize);
      if replacement == ReplacedUnsynced {
        return false;
      }
      next, end := start, start + blockSize;
      return true;
    }

    /** The next number: above everything issued before, here or by any earlier process. */
    method NextGeneration(replacement: Replacement) returns (generation: Option<nat>)
      requires Valid()
      modifies this, file
      ensures Valid()
      ensures file.Unreserved() >= old(file.Unreserved())
      ensures generation.Some? ==>
                && 0 < generation.value && next == generation.value + 1 <= file.Unreserved()
                && (old(next) < old(end) ==> generation.value == old(next))
                && (old(next) == old(end) ==> generation.value == old(file.Unreserved()))
                && old(next) <= generation.value
      ensures generation.None? ==> next == old(next) && end == old(end)
    {
      if next == end {
        var ok := ReserveBlock(replacement);
        if !ok {
          return None;
        }
      }
      generation := Some(next);
      next := next + 1;
    }
  }

  /** A process that starts reserves a block at once and does not come up without one. */
  datatype Event = Restart(blockSize: nat, replacement: Replacement) | Allocate(replacement: Replacement)

  /**
    Whole lives of a session: processes start, allocate and are killed in any order, and reservations
    fail in any way.  The numbers handed out are strictly increasing throughout.
   */
  method Issue(events: seq<Event>) returns (issued: seq<nat>)
    requires forall i :: 0 <= i < |events| && events[i].Restart? ==> events[i].blockSize > 0
    ensures forall i, j :: 0 <= i < j < |issued| ==> issued[i] < issued[j]
    ensures forall i :: 0 <= i < |issued| ==> 0 < issued[i] < U64_LIMIT
  {
    var file := new StateFile();
    var allocator := new GenerationAllocator(file, 64);
    var up := false;
    issued := [];
    for n := 0 to |events|
      invariant allocator.Valid() && allocator.file == file && fresh(file) && fresh(allocator)
      invariant forall i, j :: 0 <= i < j < |issued| ==> issued[i] < issued[j]
      invariant forall i :: 0 <= i < |issued| ==> 0 < issued[i] < file.Unreserved()
      invariant forall i :: 0 <= i < |issued| ==> issued[i] < allocator.next || allocator.next == allocator.end
    {
      match events[n]
      case Restart(blockSize, replacement) =>
        allocator := new GenerationAllocator(file, blockSize);
        up := allocator.ReserveBlock(replacement);
      case Allocate(replacement) =>
        if up {
          var generation := allocator.NextGeneration(replacement);
          if generation.Some? {
            issued := issued + [generation.value];
          }
        }
    }
  }
}
