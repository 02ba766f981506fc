/** The daemon's main loop: ring-buffer records into the aggregator. */
module ReadLoop {
  import opened Words
  import opened Telemetry
  import opened Aggregation
  import opened FlowAggregator

  /** One return of the ring-buffer reader. */
  datatype Read = Sample(raw: seq<u8>) | Closed | Failed(cancelled: bool)

  predicate Stops(r: Read) {
    r.Closed? || (r.Failed? && r.cancelled)
  }

  /** The records that reach the aggregator: every frame that is long enough, up to the
      first read that ends the loop. */
  function Frames(records: seq<Read>): seq<FlowPacketMeta>
    decreases |records|
  {
    if records == [] || Stops(records[0]) then []
    else if records[0].Sample? && |records[0].raw| >= 24 then [Decoded(records[0].raw)] + Frames(records[1..])
    else Frames(records[1..])
  }

  /** A read error that is not a cancellation, or a frame that is too short, changes
      nothing: the loop goes on with the next read. */
  lemma {:induction false} TransientReadsAreSkipped(before: seq<Read>, r: Read, later: seq<Read>)
    requires r == Failed(false) || (r.Sample? && |r.raw| < 24)
    ensures Frames(before + [r] + later) == Frames(before + later)
    decreases |before|
  {
    if before == [] {
      assert [] + [r] + later == [r] + later && ([r] + later)[1..] == later && [] + later == later;
    } else {
      var x, rest := before[0], before[1..];
      assert before + [r] + later == [x] + (rest + [r] + later) && before + later == [x] + (rest + later);
      TransientReadsAreSkipped(rest, r, later);
      hide Decoded;
    }
  }

  lemma OneFrame(raw: seq<u8>)
    ensures Frames([Sample(raw)]) == if |raw| >= 24 then [Decoded(raw)] else []
  {
    hide Decoded;
    assert [Sample(raw)][1..] == [];
  }

  /** Reads that do not end the loop hand on their frames in order, each once. */
  lemma {:induction false} FramesInOrder(before: seq<Read>, later: seq<Read>)
    requires forall r <- before :: r != Closed && r != Failed(true)
    ensures Frames(before + later) == Frames(before) + Frames(later)
    decreases |before|
  {
    hide Decoded;
    if before == [] {
      assert before + later == later;
    } else {
      var x, rest := before[0], before[1..];
      assert before + later == [x] + (rest + later);
      assert x in before && forall r <- rest :: r in before;
      FramesInOrder(rest, later);
    }
  }

  /** The loop ends at a closed buffer or a cancelled read, and only there: what would
      come later is never read. */
  lemma {:induction false} OnlyClosingStops(before: seq<Read>, stop: Read, later: seq<Read>)
    requires stop in {Closed, Failed(true)}
    requires forall r <- before :: r != Closed && r != Failed(true)
    ensures Frames(before + [stop] + later) == Frames(before)
  {
    var rest := [stop] + later;
    assert rest[0] == stop && Frames(rest) == [];
    hide Frames;
    FramesInOrder(before, rest);
    assert before + [stop] + later == before + rest;
  }

  function IngestedAll(s: AggState, frames: seq<FlowPacketMeta>): AggState
    requires Sharded(s)
    decreases |frames|
  {
    if frames == [] then s
    else
      EnteredStaysSharded(s, frames[0]);
      RecordedStaysSharded(Entered(s, frames[0]), frames[0]);
      IngestedAll(Ingested(s, frames[0]), frames[1..])
  }

  /** One receiver record is reused for all frames; a frame that is too short is skipped
      and its predecessor is not ingested twice. */
  method Run(agg: Aggregator, records: seq<Read>)
    requires agg.Valid()
    modifies agg`droppedNewFlows, agg.flowTable.repr, agg.portTable.repr
    ensures agg.Valid()
    ensures agg.Model() == IngestedAll(old(agg.Model()), Frames(records))
  {
    hide Aggregator.TablesAreSound, Sharded, Ingested, Decoded;
    var meta := new PacketMeta();
    var i := 0;
    ghost var start := agg.Model();
    while i < |records|
      invariant 0 <= i <= |records| && agg.Valid() && Sharded(start)
      invariant fresh(agg.flowTable.repr - old(agg.flowTable.repr)) && fresh(agg.portTable.repr - old(agg.portTable.repr))
      invariant meta !in agg.flowTable.repr && meta !in agg.portTable.repr
      invariant IngestedAll(agg.Model(), Frames(records[i..])) == IngestedAll(start, Frames(records))
    {
      assert records[i..][0] == records[i] && records[i..][1..] == records[i + 1..];
      if records[i].Closed? {
        return;
      }
      if records[i].Failed? {
        if records[i].cancelled {
          return;
        }
      } else {
        var ok := meta.UnmarshalBinary(records[i].raw);
        if ok {
          agg.Ingest(meta.View());
        }
      }
      i := i + 1;
    }
  }
}
