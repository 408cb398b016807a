/** Correlation ids (src/async_connection.rs, `allocate_request_id`): one sequence, many callers. */
module RequestIds {
  import opened ByteStrings
  import opened Errors

  const U64_MAX: u64 := 0xFFFF_FFFF_FFFF_FFFF

  /**
   What others do between one caller's load and its exchange: allocate, and perhaps start the sequence
   again for a new session and allocate more. A weak exchange may also fail for nothing.
   */
  datatype Interference = Interference(before: nat, reset: bool, after: nat, spurious: bool)

  class RequestIds {
    var sequence: u64
    ghost var issued: seq<u64>

    /** The ids issued since the last reset are 1, 2, 3 and so on, and 0 follows the last there is. */
    ghost predicate Valid()
      reads this
    {
      && |issued| <= U64_MAX
      && (forall k :: 0 <= k < |issued| ==> issued[k] == k + 1)
      && sequence == if |issued| == U64_MAX then 0 else |issued| + 1
    }

    constructor ()
      ensures Valid() && issued == []
    {
      sequence, issued := 1, [];
    }

    /** A new session starts the sequence again. */
    method Reset()
      modifies this
      ensures Valid() && issued == []
    {
      sequence, issued := 1, [];
    }

    method CompareExchange(expected: u64, next: u64, spurious: bool) returns (swapped: bool)
      requires Valid() && expected != 0 && next == if expected == U64_MAX then 0 else expected + 1
      modifies this
      ensures Valid()
      ensures swapped <==> !spurious && old(sequence) == expected
      ensures issued == old(issued) + if swapped then [expected] else []
    {
      swapped := !spurious && sequence == expected;
      if swapped {
        issued := issued + [expected];
        sequence := next;
      }
    }

    method OthersAllocate(n: nat)
      requires Valid()
      modifies this
      ensures Valid() && old(issued) <= issued
    {
      for i := 0 to n
        invariant Valid() && old(issued) <= issued
      {
        if sequence != 0 {
          var _ := CompareExchange(sequence, if sequence == U64_MAX then 0 else sequence + 1, false);
        }
      }
    }

    method Interfere(interference: Interference)
      requires Valid()
      modifies this
      ensures Valid() && (!interference.reset ==> old(issued) <= issued)
    {
      OthersAllocate(interference.before);
      if interference.reset {
        Reset();
      }
      OthersAllocate(interference.after);
    }

    /**
     The id returned is positive and new: nobody else has been issued it since the last reset, even if
     that reset came between the load and the exchange.
     */
    method Allocate(interferences: seq<Interference>) returns (r: Result<u64>)
      requires Valid()
      modifies this
      ensures Valid()
      ensures r.Ok? ==> r.value > 0 && issued != [] && issued[|issued| - 1] == r.value && r.value !in issued[..|issued| - 1]
      ensures r.Ok? && (forall k :: 0 <= k < |interferences| ==> !interferences[k].reset) ==>
                old(issued) <= issued[..|issued| - 1]
      ensures r.Err? ==> |issued| == U64_MAX
    {
      var current: u64 := sequence;
      var i := 0;
      while true
        invariant Valid() && i <= |interferences|
        invariant current == 0 ==> |issued| == U64_MAX
        invariant (forall k :: 0 <= k < |interferences| ==> !interferences[k].reset) ==> old(issued) <= issued
        decreases |interferences| - i, if current == sequence then 0 else 1
      {
        if current == 0 {
          return Err(Protocol);
        }
        var next: u64 := if current == U64_MAX then 0 else current + 1;
        var spurious := false;
        if i < |interferences| {
          Interfere(interferences[i]);
          spurious := interferences[i].spurious;
          i := i + 1;
        }
        var swapped := CompareExchange(current, next, spurious);
        if swapped {
          return Ok(current);
        }
        current := sequence;
      }
    }
  }
}
