/**
 * The ADIS16000 driver object (lib/ADIS16000.cpp): register reads and writes
 * and the control operations built from them.
 *
 * The object records, in `log`, every register access it makes and, in
 * `mosi`, every byte it clocks out on the SPI bus. The numeric register
 * addresses come from the driver's header, which is not part of this model,
 * so they are a parameter `addressOf`. The device's answers to reads are the
 * register contents `registers`.
 *
 * Each control operation other than readFFT adds DataBytes of its trace to
 * `mosi`; by Commands.ControlBytes those are exactly the BusBytes of that
 * trace, whatever the register addresses are.
 */
module Driver {
  import opened Frame
  import opened Commands

  class Adis16000 {
    /** The register accesses made so far, in order. */
    var log: seq<Access>
    /** The bytes clocked out on the bus so far, in order. */
    var mosi: seq<Byte>
    /** The address byte of each register. */
    const addressOf: Reg -> Byte
    /** What the device sends back for each register. */
    const registers: Reg -> Word

    /** The chip-select and reset pins and the SPI set-up are not modelled. */
    constructor (addressOf: Reg -> Byte, registers: Reg -> Word)
      ensures log == [] && mosi == []
      ensures this.addressOf == addressOf && this.registers == registers
    {
      this.log := [];
      this.mosi := [];
      this.addressOf := addressOf;
      this.registers := registers;
    }

    /**
     * regRead: clock out the raw address and a fill byte, then two fill bytes
     * while the device answers with the MSB and the LSB of the register, and
     * join them into an int16_t.
     */
    method RegRead(reg: Reg) returns (value: Int16)
      modifies this
      ensures log == old(log) + [Read(reg)]
      ensures mosi == old(mosi) + [addressOf(reg), 0x00, 0x00, 0x00]
      ensures Pattern(value) == registers(reg)
      ensures value < 0 <==> registers(reg) >= 0x8000
    {
      var regAddr := addressOf(reg);
      mosi := mosi + [regAddr, 0x00];
      var msb: Byte := registers(reg) / 0x100;
      mosi := mosi + [0x00];
      var lsb: Byte := registers(reg) % 0x100;
      mosi := mosi + [0x00];
      value := Decode(msb, lsb);
      log := log + [Read(reg)];
      DecodePattern(msb, lsb);
    }

    /**
     * regWrite: pack the address and the datum into lowWord and highWord and
     * clock out the low byte of each. Both words fit in a uint16_t
     * (Frame.LowWordLayout, Frame.HighWordLayout), so that narrowing is the
     * identity.
     */
    method RegWrite(reg: Reg, regData: Word) returns (ok: int)
      modifies this
      ensures log == old(log) + [Write(reg, regData)]
      ensures mosi == old(mosi) + [regData % 0x100, regData / 0x100]
      ensures ok == 1
    {
      var regAddr := addressOf(reg);
      var lowWord := LowWord(regAddr, regData);
      var highWord := HighWord(regAddr, regData);
      mosi := mosi + [ToByte(lowWord)];
      mosi := mosi + [ToByte(highWord)];
      log := log + [Write(reg, regData)];
      WireBytesAreDatum(regAddr, regData);
      ok := 1;
    }

    /**
     * addSensor. The source declares it outside the class
     * (lib/ADIS16000.cpp:146), where regWrite is not in scope; it is
     * modelled as the member it is evidently meant to be.
     */
    method AddSensor(sensorAddr: Byte) returns (ok: int)
      modifies this
      ensures log == old(log) + Trace(Command.AddSensor(sensorAddr))
      ensures mosi == old(mosi) + [0x01, 0x00, sensorAddr, 0x00]
      ensures mosi == old(mosi) + DataBytes(Trace(Command.AddSensor(sensorAddr)))
      ensures SelectedPage(log) == SelectedPage(old(log))
      ensures ok == 1
    {
      var _ := RegWrite(GlobCmdG, 0x01);
      var _ := RegWrite(CmdData, sensorAddr);
      TracePage(old(log), Command.AddSensor(sensorAddr));
      TwoWritesData(GlobCmdG, 0x01, CmdData, sensorAddr);
      ok := 1;
    }

    method RemoveSensor(sensorAddr: Byte) returns (ok: int)
      modifies this
      ensures log == old(log) + Trace(Command.RemoveSensor(sensorAddr))
      ensures mosi == old(mosi) + [sensorAddr, 0x00, 0x00, 0x01]
      ensures mosi == old(mosi) + DataBytes(Trace(Command.RemoveSensor(sensorAddr)))
      ensures SelectedPage(log) == SelectedPage(old(log))
      ensures ok == 1
    {
      var _ := RegWrite(CmdData, sensorAddr);
      var _ := RegWrite(GlobCmdG, 0x100);
      TracePage(old(log), Command.RemoveSensor(sensorAddr));
      TwoWritesData(CmdData, sensorAddr, GlobCmdG, 0x100);
      ok := 1;
    }

    method SaveGatewaySettings() returns (ok: int)
      modifies this
      ensures log == old(log) + Trace(Command.SaveGatewaySettings)
      ensures mosi == old(mosi) + [0x00, 0x00, 0x40, 0x00]
      ensures mosi == old(mosi) + DataBytes(Trace(Command.SaveGatewaySettings))
      ensures SelectedPage(log) == Some(0)
      ensures ok == 1
    {
      var _ := RegWrite(PageId, 0x00);
      var _ := RegWrite(GlobCmdG, 0x40);
      TracePage(old(log), Command.SaveGatewaySettings);
      TwoWritesData(PageId, 0x00, GlobCmdG, 0x40);
      ok := 1;
    }

    method SaveSensorSettings(sensorAddr: Byte) returns (ok: int)
      modifies this
      ensures log == old(log) + Trace(Command.SaveSensorSettings(sensorAddr))
      ensures mosi == old(mosi) + [sensorAddr, 0x00, 0x40, 0x00, 0x00, 0x00, 0x02, 0x00]
      ensures mosi == old(mosi) + DataBytes(Trace(Command.SaveSensorSettings(sensorAddr)))
      ensures SelectedPage(log) == Some(0)
      ensures ok == 1
    {
      var _ := RegWrite(PageId, sensorAddr);
      var _ := RegWrite(GlobCmdS, 0x40);
      var _ := RegWrite(PageId, 0x00);
      var _ := RegWrite(GlobCmdG, 0x02);
      TracePage(old(log), Command.SaveSensorSettings(sensorAddr));
      FourWritesData(PageId, sensorAddr, GlobCmdS, 0x40, PageId, 0x00, GlobCmdG, 0x02);
      ok := 1;
    }

    /**
     * The first four writes of readFFTBuffer (lib/ADIS16000.cpp:175-178):
     * select the sensor's page, rewind the buffer pointer, start an
     * acquisition and send it to the sensor.
     */
    method ReadFftBufferStart(sensorAddr: Byte)
      modifies this
      ensures log == old(log) + Trace(Command.ReadFftBufferStart(sensorAddr))
      ensures mosi == old(mosi) + [sensorAddr, 0x00, 0x00, 0x00, 0x00, 0x08, 0x02, 0x00]
      ensures mosi == old(mosi) + DataBytes(Trace(Command.ReadFftBufferStart(sensorAddr)))
      ensures SelectedPage(log) == Some(sensorAddr)
    {
      var _ := RegWrite(PageId, sensorAddr);
      var _ := RegWrite(BufPntr, 0x00);
      var _ := RegWrite(GlobCmdS, 0x800);
      var _ := RegWrite(GlobCmdG, 0x02);
      TracePage(old(log), Command.ReadFftBufferStart(sensorAddr));
      FourWritesData(PageId, sensorAddr, BufPntr, 0x00, GlobCmdS, 0x800, GlobCmdG, 0x02);
    }

    /**
     * readFFT. The source stores the two samples at buffer[1] and buffer[2]
     * of a two-element local array and returns a pointer to it; here they go
     * to elements 0 and 1 of a new array.
     */
    method ReadFft(sample: Byte, sensorAddr: Byte) returns (buffer: array<Int16>)
      modifies this
      ensures log == old(log) + Trace(Command.ReadFft(sample, sensorAddr))
      ensures mosi == old(mosi) + [sensorAddr, 0x00, sample, 0x00]
                    + [addressOf(XBuf), 0x00, 0x00, 0x00, addressOf(YBuf), 0x00, 0x00, 0x00]
      ensures SelectedPage(log) == Some(sensorAddr)
      ensures fresh(buffer) && buffer.Length == 2
      ensures Pattern(buffer[0]) == registers(XBuf) && Pattern(buffer[1]) == registers(YBuf)
    {
      buffer := new Int16[2];
      var _ := RegWrite(PageId, sensorAddr);
      var _ := RegWrite(BufPntr, sample);
      ghost var written, sent := log, mosi;
      assert written == old(log) + [Write(PageId, sensorAddr), Write(BufPntr, sample)];
      assert sent == old(mosi) + [sensorAddr, 0x00, sample, 0x00];
      var x := RegRead(XBuf);
      var y := RegRead(YBuf);
      buffer[0] := x;
      buffer[1] := y;
      TracePage(old(log), Command.ReadFft(sample, sensorAddr));
    }

    /**
     * setDataReady. The source's second write names `GPO,CTRL`
     * (lib/ADIS16000.cpp:203), evidently GPO_CTRL. Its final test
     * `dio != 1 || 2` is always true, so every other dio returns 0.
     */
    method SetDataReady(dio: Byte) returns (r: int)
      modifies this
      ensures log == old(log) + Trace(Command.SetDataReady(dio))
      ensures dio == 1 ==> mosi == old(mosi) + [0x00, 0x00, 0x08, 0x00]
      ensures dio == 2 ==> mosi == old(mosi) + [0x00, 0x00, 0x20, 0x00]
      ensures dio != 1 && dio != 2 ==> mosi == old(mosi) + [0x00, 0x00]
      ensures SelectedPage(log) == Some(0)
      ensures mosi == old(mosi) + DataBytes(Trace(Command.SetDataReady(dio)))
      ensures r == if dio == 1 || dio == 2 then dio else 0
    {
      var _ := RegWrite(PageId, 0x00);
      TracePage(old(log), Command.SetDataReady(dio));
      if dio == 1 {
        var _ := RegWrite(GpoCtrl, 0x08);
        TwoWritesData(PageId, 0x00, GpoCtrl, 0x08);
        return dio;
      }
      if dio == 2 {
        var _ := RegWrite(GpoCtrl, 0x20);
        TwoWritesData(PageId, 0x00, GpoCtrl, 0x20);
        return dio;
      }
      OneWriteData(PageId, 0x00);
      return 0;
    }

    method SetPeriodicMode(interval: Word, scaleFactor: Byte, sensorAddr: Byte) returns (ok: int)
      modifies this
      ensures log == old(log) + Trace(Command.SetPeriodicMode(interval, scaleFactor, sensorAddr))
      ensures mosi == old(mosi) + [sensorAddr, 0x00, interval % 0x100, interval / 0x100, scaleFactor, 0x00, 0x00, 0x08]
      ensures mosi == old(mosi) + DataBytes(Trace(Command.SetPeriodicMode(interval, scaleFactor, sensorAddr)))
      ensures SelectedPage(log) == Some(sensorAddr)
      ensures ok == 1
    {
      var _ := RegWrite(PageId, sensorAddr);
      var _ := RegWrite(UpdatInt, interval);
      ghost var sent := mosi;
      assert sent == old(mosi) + [sensorAddr, 0x00, interval % 0x100, interval / 0x100];
      var _ := RegWrite(IntScl, scaleFactor);
      var _ := RegWrite(GlobCmdS, 0x800);
      TracePage(old(log), Command.SetPeriodicMode(interval, scaleFactor, sensorAddr));
      FourWritesData(PageId, sensorAddr, UpdatInt, interval, IntScl, scaleFactor, GlobCmdS, 0x800);
      ok := 1;
    }
  }
}
