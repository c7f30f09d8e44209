// The control header at the start of every mapping, and the operations on its atomics.

module SharedHeader {
  import opened Bytes
  import opened ControlWord

  const CONTROL_MAGIC: U64 := 0x5348_4152_4542_5546
  const CONTROL_ABI_VERSION: U32 := 3
  const PAYLOAD_OFFSET: U64 := 64

  class ControlHeader {
    const magic: U64
    const abiVersion: U32
    const payloadSize: U64
    var ipcUid: U64
    var readerState: Word
    var publishTimestampUs: U64

    // How many more times other threads will change the word before they fall quiet: a failed
    // compare-and-swap means that one of them made progress. At 0 the header is quiet.
    ghost var pending: nat

    // The uid the header named when its stamp was last stored by this process.
    ghost var stampedUid: U64

    // Reader references this process has taken on the header, less those it has dropped.
    ghost var taken: int

    constructor (payloadSize: U64)
      ensures magic == 0x5348_4152_4542_5546 && abiVersion == 3 && this.payloadSize == payloadSize
      ensures ipcUid == 0 && readerState == 0 && publishTimestampUs == 0 && taken == 0 && pending == 0
    {
      magic, abiVersion, this.payloadSize := CONTROL_MAGIC, CONTROL_ABI_VERSION, payloadSize;
      ipcUid, readerState, publishTimestampUs, pending, taken := 0, 0, 0, 0, 0;
    }

    // Between two atomic operations of one thread, any other thread or process may run: callers
    // learn nothing about the atomics, save that the word cannot change forever.
    method Interfere()
      modifies this
      ensures taken == old(taken)
      ensures pending <= old(pending) && (readerState != old(readerState) ==> pending < old(pending))
      ensures old(pending) == 0 ==> ipcUid == old(ipcUid) && publishTimestampUs == old(publishTimestampUs)
    {
    }

    // One reader reference, by a load and a compare-and-swap loop. `seen` is the value of the word
    // at the operation that decided the outcome.
    method TryAcquireReader() returns (ok: bool, ghost seen: Word)
      modifies this
      ensures old(pending) == 0 ==> seen == old(readerState) && ipcUid == old(ipcUid) && pending == 0 && (!ok ==> readerState == seen)
      ensures ok ==> !AcquireRefused(seen) && readerState == PlusOne(seen)
      ensures ok ==> !Claimed(readerState) && Readers(readerState) == Readers(seen) + 1
      ensures !ok ==> AcquireRefused(seen)
      ensures taken == old(taken) + (if ok then 1 else 0)
    {
      Interfere();
      var value := readerState;
      seen := value;
      while true
        invariant seen == value == readerState && pending <= old(pending) && taken == old(taken)
        invariant old(pending) == 0 ==> seen == old(readerState) && ipcUid == old(ipcUid)
        decreases pending
      {
        if AcquireRefused(value) {
          return false, seen;
        }
        Interfere();
        if readerState == value {
          readerState, taken := PlusOne(value), taken + 1;
          AcquireAddsOne(seen);
          return true, seen;
        }
        value := readerState;
        seen := value;
      }
    }

    // The publisher's claim, one strong compare-and-swap from zero.
    method TryClaimReuse() returns (ok: bool)
      modifies this`readerState
      ensures ok <==> old(readerState) == 0
      ensures readerState == if ok then REUSE_CLAIMED else old(readerState)
    {
      ok := readerState == 0;
      if ok {
        readerState := REUSE_CLAIMED;
      }
    }

    // `fetch_sub(1)`.
    method ReleaseReader()
      modifies this`readerState, this`taken
      ensures readerState == MinusOne(old(readerState)) && taken == old(taken) - 1
    {
      readerState, taken := MinusOne(readerState), taken - 1;
    }

    method ReleaseReuseClaim()
      modifies this`readerState
      ensures readerState == 0
    {
      readerState := 0;
    }
  }
}
