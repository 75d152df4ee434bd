/** Segments and chains of the virtual address space (virtual_log/types.py). */
module LogChains {
  import opened Wrappers

  /** A configuration only its Loglet adapter interprets; the parameters stay opaque. */
  datatype LogletConfiguration = LogletConfiguration(kind: string, version: nat, parameters: string)

  /** The half-open address range [virtualStart, virtualStop), open while virtualStop is None. */
  datatype LogSegment = LogSegment(
    segmentId: string,
    virtualStart: nat,
    virtualStop: Option<nat>,
    loglet: LogletConfiguration)
  {
    predicate Valid() {
      segmentId != "" && (virtualStop.Some? ==> virtualStart <= virtualStop.value)
    }

    predicate Contains(position: int) {
      virtualStart <= position && (virtualStop.Some? ==> position < virtualStop.value)
    }
  }

  datatype NewLogletConfiguration = NewLogletConfiguration(segmentId: string, loglet: LogletConfiguration)
  {
    function Activate(virtualStart: nat): LogSegment {
      LogSegment(segmentId, virtualStart, None, loglet)
    }
  }

  datatype LogletConfigurationUpdate = LogletConfigurationUpdate(segmentId: string, loglet: LogletConfiguration)

  datatype LogChain = LogChain(segments: seq<LogSegment>)
  {
    /** Exactly the load-time validators: distinct ids, contiguous ranges, one open segment at the end. */
    predicate Valid() {
      && segments != []
      && (forall i :: 0 <= i < |segments| ==> segments[i].Valid())
      && (forall i, j :: 0 <= i < j < |segments| ==> segments[i].segmentId != segments[j].segmentId)
      && (forall i :: 0 < i < |segments| ==>
            segments[i - 1].virtualStop == Some(segments[i].virtualStart))
      && segments[|segments| - 1].virtualStop == None
    }

    function Active(): LogSegment
      requires segments != []
    {
      segments[|segments| - 1]
    }

    function First(): LogSegment
      requires segments != []
    {
      segments[0]
    }

    /** The first segment, in chain order, whose range holds `position`. */
    function SegmentAt(position: int): (found: Option<LogSegment>)
      ensures found.Some? ==> found.value in segments && found.value.Contains(position)
      ensures found.None? && 0 <= position ==>
        forall i :: 0 <= i < |segments| ==> !segments[i].Contains(position)
    {
      if position < 0 then None else Scan(position, 0)
    }

    function Scan(position: int, i: nat): (found: Option<LogSegment>)
      requires i <= |segments|
      ensures found.Some? ==> found.value in segments && found.value.Contains(position)
      ensures found.None? ==> forall j :: i <= j < |segments| ==> !segments[j].Contains(position)
      decreases |segments| - i
    {
      if i == |segments| then None
      else if segments[i].Contains(position) then Some(segments[i])
      else Scan(position, i + 1)
    }

    /** In a valid chain the ranges come in address order, so later ranges lie above earlier ones. */
    lemma {:induction false} RangesAscend(i: nat, j: nat)
      requires Valid() && i < j < |segments|
      ensures segments[i].virtualStop.Some?
      ensures segments[i].virtualStop.value <= segments[j].virtualStart
      decreases j - i
    {
      assert segments[i].virtualStop == Some(segments[i + 1].virtualStart);
      if i + 1 < j {
        RangesAscend(i + 1, j);
        assert segments[i + 1].Valid();
      }
    }

    /** A valid chain routes every position from its first start on to exactly one segment. */
    lemma {:induction false} RoutesUniquely(position: int, i: nat)
      requires Valid() && i < |segments| && segments[i].Contains(position)
      ensures SegmentAt(position) == Some(segments[i])
      ensures forall j :: 0 <= j < |segments| && j != i ==> !segments[j].Contains(position)
    {
      forall j | 0 <= j < |segments| && j != i
        ensures !segments[j].Contains(position)
      {
        if j < i {
          RangesAscend(j, i);
        } else {
          RangesAscend(i, j);
        }
      }
    }

    /** There is no gap: every position at or above the first start is routed. */
    lemma {:induction false} RoutesEverything(position: int)
      requires Valid() && First().virtualStart <= position
      ensures SegmentAt(position).Some?
    {
      if SegmentAt(position).None? {
        NoGap(position, |segments| - 1);
      }
    }

    lemma {:induction false} NoGap(position: int, i: nat)
      requires Valid() && First().virtualStart <= position && i < |segments|
      requires forall j :: 0 <= j < |segments| ==> !segments[j].Contains(position)
      ensures segments[i].virtualStop.Some? && segments[i].virtualStop.value <= position
    {
      if 0 < i {
        NoGap(position, i - 1);
      }
      assert !segments[i].Contains(position);
    }
  }
}
