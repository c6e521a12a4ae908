// pkg/transforms/batch.go: one caller's way through Batch, cut where the code can block.

module Batch {
  import opened Wrappers
  import opened Pipeline

  datatype Mode = CountOnly | TimeOnly | TimeAndCount

  // The fields callers share.
  datatype Buffer = Buffer(data: seq<Bytes>, timerActive: bool)

  // What a stretch of Batch ends in: a return that stops the pipeline (with or without an error), a
  // return that forwards a batch, the select on timer and channel, or the send on the channel.
  datatype Next = Stop | Fail(error: string) | Forward(batch: seq<Bytes>) | Wait | Send

  // The tail of Batch: everything buffered goes to this caller.
  function Flush(b: Buffer): (Buffer, Next) {
    if b.data != [] then (b.(data := []), Forward(b.data)) else (b, Stop)
  }

  // From the call to the first blocking point, for data that coerced.
  function Enter(mode: Mode, threshold: int, b: Buffer, item: Bytes): (Buffer, Next) {
    var b' := b.(data := b.data + [item]);
    if mode != CountOnly && !b.timerActive then (b'.(timerActive := true), Wait)
    else if mode == TimeOnly then (b', Stop)
    else if |b'.data| < threshold then (b', Stop)
    else if mode == TimeAndCount then (b', Send)
    else Flush(b')
  }

  // After the select: the timer is off, so the threshold is not looked at.
  function Wake(b: Buffer): (Buffer, Next) {
    Flush(b.(timerActive := false))
  }

  // `done` is nil exactly in count-only mode. The methods are the stretches between blocking points,
  // each taken as atomic.
  class BatchConfig {
    const batchMode: Mode
    const batchThreshold: int
    const hasDone: bool
    var batchData: seq<Bytes>
    var timerActive: bool

    ghost predicate Valid()
      reads this
    {
      hasDone <==> batchMode != CountOnly
    }

    function View(): Buffer
      reads this
    {
      Buffer(batchData, timerActive)
    }

    constructor (mode: Mode, threshold: int)
      ensures Valid() && batchMode == mode && batchThreshold == threshold && View() == Buffer([], false)
    {
      batchMode, batchThreshold, hasDone := mode, threshold, mode != CountOnly;
      batchData, timerActive := [], false;
    }

    // `duration` is what time.ParseDuration makes of the interval.
    static method NewBatchByTime(duration: Option<int>) returns (batch: BatchConfig?)
      ensures batch == null <==> duration == None
      ensures batch != null ==>
                fresh(batch) && batch.Valid() && batch.batchMode == TimeOnly && batch.View() == Buffer([], false)
    {
      if duration == None { return null; }
      batch := new BatchConfig(TimeOnly, 0);
    }

    static method NewBatchByCount(batchThreshold: int) returns (batch: BatchConfig)
      ensures fresh(batch) && batch.Valid() && batch.batchMode == CountOnly
      ensures batch.batchThreshold == batchThreshold && batch.View() == Buffer([], false)
    {
      batch := new BatchConfig(CountOnly, batchThreshold);
    }

    static method NewBatchByTimeAndCount(duration: Option<int>, batchThreshold: int) returns (batch: BatchConfig?)
      ensures batch == null <==> duration == None
      ensures batch != null ==>
                && fresh(batch) && batch.Valid() && batch.batchMode == TimeAndCount
                && batch.batchThreshold == batchThreshold && batch.View() == Buffer([], false)
    {
      if duration == None { return null; }
      batch := new BatchConfig(TimeAndCount, batchThreshold);
    }

    method Batch(params: seq<Value>) returns (next: Next)
      requires Valid()
      modifies this
      ensures if params == [] || CoerceType(params[0]).Failure? then next.Fail? && View() == old(View())
              else (View(), next) == Enter(batchMode, batchThreshold, old(View()), CoerceType(params[0]).value)
    {
      if |params| < 1 { return Fail("No Data Received"); }
      var data := CoerceType(params[0]);
      if data.Failure? { return Fail(data.error); }
      batchData := batchData + [data.value];
      if batchMode != CountOnly {
        if timerActive == false {
          timerActive := true;
          return Wait;
        } else if batchMode == TimeOnly {
          return Stop;
        }
      }
      next := CheckThreshold();
    }

    method AfterWait() returns (next: Next)
      requires Valid() && batchMode != CountOnly
      modifies this
      ensures (View(), next) == Wake(old(View()))
    {
      timerActive := false;
      next := CheckThreshold();
    }

    // From the threshold check on.
    method CheckThreshold() returns (next: Next)
      requires Valid()
      modifies this
      ensures (View(), next) ==
              if batchMode == CountOnly || (timerActive && batchMode == TimeAndCount) then
                if |old(batchData)| < batchThreshold then (old(View()), Stop)
                else if hasDone then (old(View()), Send)
                else Flush(old(View()))
              else Flush(old(View()))
      ensures timerActive == old(timerActive)
    {
      if batchMode != TimeOnly {
        if batchMode == CountOnly || (timerActive == true && batchMode == TimeAndCount) {
          if |batchData| < batchThreshold { return Stop; }
          if hasDone { return Send; }
        }
      }
      next := AfterSend();
    }

    method AfterSend() returns (next: Next)
      modifies this
      ensures (View(), next) == Flush(old(View())) && timerActive == old(timerActive)
    {
      if |batchData| > 0 {
        var copy := batchData;
        batchData := [];
        return Forward(copy);
      }
      return Stop;
    }
  }
}
