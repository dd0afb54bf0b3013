/** The mass-storage handler and its disk image, updated in place, against the reference unit. */
module MassStorageHandler {
  import opened Basics
  import opened Bytes
  import opened MassStorage

  /** A disk image mapped into memory. */
  class RawImageBackend {
    const data: array<byte>
    const blockSize: nat
    const blockCount: nat

    ghost predicate Valid()
      reads data
    {
      blockSize > 0 && blockCount * blockSize <= data.Length
    }

    constructor (mapped: array<byte>, blockCount: nat, blockSize: nat)
      requires blockSize > 0 && blockCount * blockSize <= mapped.Length
      ensures Valid() && data == mapped && this.blockCount == blockCount && this.blockSize == blockSize
    {
      data, this.blockCount, this.blockSize := mapped, blockCount, blockSize;
    }

    ghost function Shape(readOnly: bool): Geometry {
      Geometry(blockSize, blockCount, readOnly)
    }

    /** Byte positions of a range of blocks; they lie inside the image. */
    lemma Positions(readOnly: bool, lba: nat, count: nat)
      requires Valid() && lba + count <= blockCount
      ensures var g := Shape(readOnly);
              && HasBlocks(g, data[..])
              && Extent(g, lba) == lba * blockSize && Extent(g, count) == count * blockSize
              && Extent(g, lba + count) == lba * blockSize + count * blockSize <= data.Length
    {
      var g := Shape(readOnly);
      ExtentIsProduct(g, lba);
      ExtentIsProduct(g, count);
      ExtentIsProduct(g, blockCount);
      RangeFits(g, data[..], lba, count);
    }

    method Read(lba: nat, count: nat) returns (bytes: seq<byte>)
      requires Valid() && lba + count <= blockCount
      ensures var g := Shape(false);
              Extent(g, lba) <= Extent(g, lba + count) <= data.Length
              && bytes == data[..][Extent(g, lba)..Extent(g, lba + count)]
    {
      Positions(false, lba, count);
      var total, offset := count * blockSize, lba * blockSize;
      bytes := data[offset..offset + total];
    }

    method Write(lba: nat, count: nat, bytes: seq<byte>)
      requires Valid() && lba + count <= blockCount && |bytes| >= count * blockSize
      modifies data
      ensures Extent(Shape(false), lba) + count * blockSize <= data.Length
      ensures data[..] == Overwritten(old(data[..]), Extent(Shape(false), lba), bytes[..count * blockSize])
    {
      Positions(false, lba, count);
      var total, offset := count * blockSize, lba * blockSize;
      forall i | 0 <= i < total { data[offset + i] := bytes[i]; }
    }

    /** The hole is clipped to the image: writing past its end is outside this model. */
    method PunchHole(lba: nat, count: nat)
      requires Valid()
      modifies data
      ensures data[..] == Punched(Shape(false), old(data[..]), lba, count)
    {
      var offset, length := lba * blockSize, count * blockSize;
      var first, end := Min(offset, data.Length), Min(offset + length, data.Length);
      forall i | first <= i < end { data[i] := 0; }
      assert data[..] == Overwritten(old(data[..]), first, Zeros(end - first));
    }
  }

  datatype BotState = Idle | DataIn | DataOut | Status

  class MscBulkOnlyHandler {
    const backend: RawImageBackend
    const readOnly: bool
    var state: BotState
    var currentTag: u32
    var stagingData: seq<byte>
    var stagingOffset: nat
    var dataResidue: u32
    var commandFailed: bool
    var writeLba: nat
    var writeCount: u16
    var dataOutUnmap: bool

    ghost function Shape(): Geometry {
      backend.Shape(readOnly)
    }

    /** The unit this handler stands for. */
    ghost function Unit(): MassStorage.Unit
      requires stagingOffset <= |stagingData|
      reads this, backend.data
    {
      var phase :=
        match state
        case Idle => Phase.Idle
        case DataIn => SendData(stagingData[stagingOffset..])
        case DataOut =>
          if dataOutUnmap then RecvUnmap(writeCount, stagingData)
          else RecvBlocks(writeLba, writeCount, stagingData)
        case Status => Report;
      MassStorage.Unit(phase, currentTag, commandFailed, backend.data[..])
    }

    ghost predicate Tidy()
      reads this
    {
      && stagingOffset <= |stagingData|
      && dataResidue == 0
      && (dataOutUnmap ==> state.DataOut?)
      && (!state.DataIn? ==> stagingOffset == 0)
    }

    ghost predicate Valid()
      reads this, backend.data
    {
      backend.Valid() && Tidy() && Good(Shape(), Unit())
    }

    constructor (backend: RawImageBackend, readOnly: bool)
      requires backend.Valid()
      ensures Valid() && this.backend == backend && this.readOnly == readOnly
      ensures Unit() == MassStorage.Unit(Phase.Idle, 0, false, backend.data[..])
    {
      this.backend, this.readOnly := backend, readOnly;
      state, currentTag, stagingData, stagingOffset := BotState.Idle, 0, [], 0;
      dataResidue, commandFailed, writeLba, writeCount, dataOutUnmap := 0, false, 0, 0, false;
      new;
      backend.Positions(readOnly, 0, backend.blockCount);
    }

    /** Interprets the command block; commands without a data phase leave the state alone. */
    method DoCbw(data: seq<byte>)
      requires Valid() && state.Idle?
      modifies this
      ensures Tidy()
      ensures var before := old(Unit()).(tag := TagOf(old(currentTag), data));
              var after := if IsCbw(data) then Start(Shape(), before, Interpret(Shape(), data))
                           else before.(phase := Report, failed := true);
              if state.Idle? then after == Unit().(phase := Report) else after == Unit()
    {
      if |data| < CBW_SIZE {
        commandFailed := true;
        return;
      }
      currentTag := ToU32LE(data[4..8]);
      if ToU32LE(data[0..4]) != CBW_SIGNATURE {
        commandFailed := true;
        return;
      }
      var cmd, transferLen := data[15], ToU32LE(data[8..12]);
      if cmd == 0x03 {
        BeginDataIn(Take(SENSE, transferLen));
      } else if cmd == 0x12 {
        BeginDataIn(Take(INQUIRY, transferLen));
      } else if cmd == 0x1A {
        BeginDataIn(Take([3, 0, if readOnly then 0x80 else 0, 0], transferLen));
      } else if cmd == 0x25 {
        var lastLba, size := (backend.blockCount - 1) % 0x1_0000_0000, backend.blockSize % 0x1_0000_0000;
        BeginDataIn(Take(U32BE(lastLba) + U32BE(size), transferLen));
      } else if cmd == 0x28 || cmd == 0x2A {
        ReadOrWrite(data);
      } else if cmd == 0x42 {
        BeginUnmap(ToU16BE(data[21..23]));
      } else if cmd != 0x00 && cmd != 0x1B && cmd != 0x1E && cmd != 0x2F {
        commandFailed := true;
      }
    }

    method BeginDataIn(bytes: seq<byte>)
      modifies this`stagingOffset, this`state, this`stagingData
      ensures stagingOffset == 0 && state == DataIn && stagingData == bytes
    {
      stagingOffset, state, stagingData := 0, DataIn, bytes;
    }

    /** UNMAP: refused when read-only, done at once for an empty list. */
    method BeginUnmap(paramLen: u16)
      modifies this`commandFailed, this`writeCount, this`dataOutUnmap, this`stagingOffset, this`stagingData, this`state
      ensures if readOnly then commandFailed && unchanged(this`writeCount, this`dataOutUnmap, this`stagingOffset,
                                                          this`stagingData, this`state)
              else if paramLen == 0 then unchanged(this)
              else unchanged(this`commandFailed) && writeCount == paramLen && dataOutUnmap && stagingOffset == 0
                   && stagingData == [] && state == DataOut
    {
      if readOnly {
        commandFailed := true;
      } else if paramLen != 0 {
        writeCount, dataOutUnmap, stagingOffset, stagingData, state := paramLen, true, 0, [], DataOut;
      }
    }

    method BeginRead(lba: nat, count: nat)
      requires backend.Valid() && lba + count <= backend.blockCount
      modifies this`stagingOffset, this`state, this`stagingData
      ensures stagingOffset == 0 && state == DataIn
      ensures var g := Shape();
              Extent(g, lba) <= Extent(g, lba + count) <= backend.data.Length
              && stagingData == backend.data[..][Extent(g, lba)..Extent(g, lba + count)]
    {
      var bytes := backend.Read(lba, count);
      SameExtent(lba);
      SameExtent(lba + count);
      BeginDataIn(bytes);
    }

    /** READ(10) and WRITE(10). */
    method ReadOrWrite(data: seq<byte>)
      requires Valid() && state.Idle? && IsCbw(data) && (data[15] == 0x28 || data[15] == 0x2A)
      modifies this
      ensures Tidy()
      ensures var after := Start(Shape(), old(Unit()), Interpret(Shape(), data));
              if state.Idle? then after == Unit().(phase := Report) else after == Unit()
    {
      var lba, count := ToU32BE(data[17..21]), ToU16BE(data[22..24]);
      if count == 0 { count := 256; }
      if lba + count > backend.blockCount {
        commandFailed := true;
      } else if data[15] == 0x28 {
        BeginRead(lba, count);
      } else if readOnly {
        commandFailed := true;
      } else {
        writeLba, writeCount, stagingOffset, stagingData, state := lba, count, 0, [], DataOut;
      }
    }

    lemma SameExtent(n: nat)
      ensures Extent(Shape(), n) == Extent(backend.Shape(false), n)
    {
      ExtentIsProduct(Shape(), n);
      ExtentIsProduct(backend.Shape(false), n);
    }

    method HandleBulkIn(length: nat) returns (reply: Reply)
      requires Valid()
      modifies this
      ensures Valid()
      ensures (Unit(), reply) == Step(Shape(), old(Unit()), In(length))
    {
      StepKeepsGood(Shape(), Unit(), In(length));
      match state
      case DataIn =>
        var len := Min(length, |stagingData| - stagingOffset);
        reply := Sent(stagingData[stagingOffset..stagingOffset + len]);
        assert reply.payload == Take(stagingData[stagingOffset..], length);
        stagingOffset := stagingOffset + len;
        if stagingOffset >= |stagingData| {
          stagingData, stagingOffset, dataResidue, state := [], 0, 0, Status;
        }
      case Status =>
        reply := Sent(U32LE(CSW_SIGNATURE) + U32LE(currentTag) + U32LE(dataResidue) + [if commandFailed then 1 else 0]);
        if commandFailed { commandFailed := false; }
        state := BotState.Idle;
      case _ =>
        reply := Stall;
    }

    method HandleBulkOut(data: seq<byte>) returns (reply: Reply)
      requires Valid()
      modifies this, backend.data
      ensures Valid()
      ensures (Unit(), reply) == Step(Shape(), old(Unit()), Out(data))
    {
      StepKeepsGood(Shape(), Unit(), Out(data));
      match state
      case Idle =>
        DoCbw(data);
        if state.Idle? { state := Status; }
        reply := Accepted(|data|);
      case DataOut =>
        stagingData := stagingData + data;
        if dataOutUnmap { FinishUnmap(); } else { FinishWrite(); }
        reply := Accepted(|data|);
      case _ =>
        reply := Stall;
    }

    /** The blocks go to the disk once they have all arrived. */
    method FinishWrite()
      requires backend.Valid() && Tidy() && state == DataOut && !dataOutUnmap
      requires InRange(Shape(), writeLba, writeCount)
      modifies this, backend.data
      ensures Tidy()
      ensures var start, total := Extent(Shape(), old(writeLba)), Extent(Shape(), old(writeCount));
              && start + total <= backend.data.Length
              && if |old(stagingData)| >= total
                 then Unit() == old(Unit()).(phase := Report,
                        disk := Overwritten(old(backend.data[..]), start, old(stagingData)[..total]))
                 else Unit() == old(Unit())
    {
      backend.Positions(readOnly, writeLba, writeCount);
      SameExtent(writeLba);
      if writeLba + writeCount <= backend.blockCount {
        if |stagingData| >= writeCount * backend.blockSize {
          backend.Write(writeLba, writeCount, stagingData);
          stagingData, dataResidue, state := [], 0, Status;
        }
      }
    }

    /** Every complete descriptor from offset 8 on punches a hole once the whole list has arrived. */
    method FinishUnmap()
      requires backend.Valid() && Tidy() && state == DataOut && dataOutUnmap
      modifies this, backend.data
      ensures Tidy()
      ensures if |old(stagingData)| >= old(writeCount)
              then Unit() == old(Unit()).(phase := Report,
                     disk := PunchedAll(Shape(), old(backend.data[..]), old(stagingData), 8))
              else Unit() == old(Unit())
    {
      if |stagingData| >= writeCount {
        var i, d := 8, stagingData;
        ghost var image := backend.data[..];
        while i + 16 <= |d|
          modifies backend.data
          invariant 8 <= i && d == old(stagingData)
          invariant PunchedAll(Shape(), backend.data[..], d, i) == PunchedAll(Shape(), image, d, 8)
        {
          ghost var was := backend.data[..];
          var lba, count := ToU64BE(d[i..i + 8]), ToU32BE(d[i + 8..i + 12]);
          backend.PunchHole(lba, count);
          assert backend.data[..] == Punched(Shape(), was, lba, count);
          i := i + 16;
        }
        stagingData, dataOutUnmap, dataResidue, state := [], false, 0, Status;
      }
    }
  }
}
