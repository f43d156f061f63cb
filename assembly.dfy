/** How per-segment audio becomes a response: the 32 KiB slices a streamed
    segment is cut into, what a stream yields over all segments, and what
    `asyncio.gather` makes of the per-segment outcomes. */
module Assembly {
  import opened Base
  import opened Backend

  /** `chunk_size` in app.py's `generate_audio_stream`. */
  const ChunkSize: nat := 32768

  /** `[audio[i:i + size] for i in range(0, len(audio), size)]`. */
  function Slices(audio: Bytes, size: nat): seq<Bytes>
    requires size > 0
    decreases |audio|
  {
    if audio == [] then []
    else if |audio| <= size then [audio]
    else [audio[..size]] + Slices(audio[size..], size)
  }

  /** Every slice is non-empty and at most `size` long, and the slices put
      back together give the audio. */
  lemma {:induction false} SlicesPartition(audio: Bytes, size: nat)
    requires size > 0
    ensures forall p :: p in Slices(audio, size) ==> 0 < |p| <= size
    ensures Concat(Slices(audio, size)) == audio
    decreases |audio|
  {
    if audio != [] && |audio| > size {
      SlicesPartition(audio[size..], size);
      assert audio == audio[..size] + audio[size..];
    } else if audio != [] {
      ConcatSingleton(audio);
    }
  }

  /** The slice list from offset `i` on: one slice at `i`, then the rest. */
  lemma SlicesFrom(audio: Bytes, size: nat, i: nat)
    requires size > 0 && i < |audio|
    ensures Slices(audio[i..], size)
      == [audio[i..if i + size < |audio| then i + size else |audio|]]
         + Slices(audio[(if i + size < |audio| then i + size else |audio|)..], size)
  {
    var j := if i + size < |audio| then i + size else |audio|;
    if i + size < |audio| {
      assert audio[i..][size..] == audio[j..];
      assert audio[i..][..size] == audio[i..j];
    } else {
      assert audio[j..] == [];
      assert audio[i..] == audio[i..j];
    }
  }

  /** The audio of the segments that succeeded, in segment order. */
  function Delivered(outcomes: seq<Result<Bytes, Failure>>): seq<Bytes>
  {
    if outcomes == [] then []
    else (if outcomes[0].Ok? then [outcomes[0].value] else []) + Delivered(outcomes[1..])
  }

  /** What app.py's stream yields: each successful segment's slices, in
      order; a failed segment yields nothing. */
  function SlicedStream(outcomes: seq<Result<Bytes, Failure>>): seq<Bytes>
  {
    if outcomes == [] then []
    else (if outcomes[0].Ok? then Slices(outcomes[0].value, ChunkSize) else []) + SlicedStream(outcomes[1..])
  }

  /** The slices of a stream are non-empty and at most 32768 bytes long, and
      together they are exactly the successful segments' audio, in order. */
  lemma {:induction false} SlicedStreamCarriesAudio(outcomes: seq<Result<Bytes, Failure>>)
    ensures forall p :: p in SlicedStream(outcomes) ==> 0 < |p| <= ChunkSize
    ensures Concat(SlicedStream(outcomes)) == Concat(Delivered(outcomes))
  {
    if outcomes != [] {
      SlicedStreamCarriesAudio(outcomes[1..]);
      var head := if outcomes[0].Ok? then Slices(outcomes[0].value, ChunkSize) else [];
      var heads := if outcomes[0].Ok? then [outcomes[0].value] else [];
      ConcatAppend(head, SlicedStream(outcomes[1..]));
      ConcatAppend(heads, Delivered(outcomes[1..]));
      if outcomes[0].Ok? {
        SlicesPartition(outcomes[0].value, ChunkSize);
        ConcatSingleton(outcomes[0].value);
      }
    }
  }

  /** `asyncio.gather` over tasks in submission order: the first failure
      propagates, otherwise every result, in order. */
  function Gather(outcomes: seq<Result<Bytes, Failure>>): (r: Result<seq<Bytes>, Failure>)
  {
    if outcomes == [] then Ok([])
    else if outcomes[0].Err? then Err(outcomes[0].error)
    else match Gather(outcomes[1..])
      case Err(e) => Err(e)
      case Ok(rest) => Ok([outcomes[0].value] + rest)
  }

  /** `gather` succeeds exactly when every segment did; its results are then
      the segments' audio, one per segment, in order; otherwise it carries the
      first failure. */
  lemma {:induction false} GatherKeepsOrder(outcomes: seq<Result<Bytes, Failure>>)
    ensures Gather(outcomes).Ok? <==> forall i :: 0 <= i < |outcomes| ==> outcomes[i].Ok?
    ensures Gather(outcomes).Ok? ==>
      |Gather(outcomes).value| == |outcomes|
      && (forall i :: 0 <= i < |outcomes| ==> Gather(outcomes).value[i] == outcomes[i].value)
      && Gather(outcomes).value == Delivered(outcomes)
    ensures Gather(outcomes).Err? ==>
      exists i :: 0 <= i < |outcomes| && outcomes[i] == Err(Gather(outcomes).error)
                  && (forall j :: 0 <= j < i ==> outcomes[j].Ok?)
  {
    if outcomes != [] {
      GatherKeepsOrder(outcomes[1..]);
      if outcomes[0].Ok? && Gather(outcomes[1..]).Err? {
        var i :| 0 <= i < |outcomes[1..]| && outcomes[1..][i] == Err(Gather(outcomes[1..]).error)
          && forall j :: 0 <= j < i ==> outcomes[1..][j].Ok?;
        assert outcomes[i + 1] == outcomes[1..][i];
        assert forall j :: 0 <= j < i + 1 ==> outcomes[j].Ok? by {
          forall j | 0 <= j < i + 1 ensures outcomes[j].Ok? {
            if j > 0 {
              assert outcomes[j] == outcomes[1..][j - 1];
            }
          }
        }
      }
      if Gather(outcomes).Ok? {
        var rest := Gather(outcomes[1..]).value;
        assert forall i :: 1 <= i < |outcomes| ==> outcomes[i] == outcomes[1..][i - 1];
      } else if !outcomes[0].Err? {
        var i :| 0 <= i < |outcomes[1..]| && outcomes[1..][i].Err?;
        assert outcomes[i + 1].Err?;
      }
    }
  }


  /** One more outcome at the end: `gather` keeps the first failure, or
      extends the results by the new segment's audio. */
  lemma {:induction false} GatherSnoc(outcomes: seq<Result<Bytes, Failure>>, last: Result<Bytes, Failure>)
    ensures Gather(outcomes + [last])
      == match Gather(outcomes)
         case Err(e) => Err(e)
         case Ok(values) => if last.Ok? then Ok(values + [last.value]) else Err(last.error)
  {
    var all := outcomes + [last];
    if outcomes == [] {
      assert all == [last] && all[1..] == [];
      if last.Ok? {
        assert Gather(all) == Ok([last.value] + []);
        assert [last.value] + [] == [] + [last.value];
      }
    } else {
      assert all[0] == outcomes[0] && all[1..] == outcomes[1..] + [last];
      GatherSnoc(outcomes[1..], last);
      if outcomes[0].Ok? && Gather(outcomes[1..]).Ok? && last.Ok? {
        var values := Gather(outcomes[1..]).value;
        assert [outcomes[0].value] + (values + [last.value]) == ([outcomes[0].value] + values) + [last.value];
      }
    }
  }

  lemma {:induction false} DeliveredSnoc(outcomes: seq<Result<Bytes, Failure>>, last: Result<Bytes, Failure>)
    ensures Delivered(outcomes + [last]) == Delivered(outcomes) + (if last.Ok? then [last.value] else [])
  {
    var all := outcomes + [last];
    if outcomes == [] {
      assert all == [last] && all[1..] == [];
    } else {
      assert all[0] == outcomes[0] && all[1..] == outcomes[1..] + [last];
      DeliveredSnoc(outcomes[1..], last);
      var head := if outcomes[0].Ok? then [outcomes[0].value] else [];
      var tail := if last.Ok? then [last.value] else [];
      assert head + (Delivered(outcomes[1..]) + tail) == (head + Delivered(outcomes[1..])) + tail;
    }
  }
}
