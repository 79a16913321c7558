/**
 * The register traffic of the ADIS16000 control operations
 * (lib/ADIS16000.cpp:146-217): which registers each operation writes and
 * reads, in order, and which register page the device is left on.
 *
 * The numeric register addresses live in the driver's header, which is not
 * part of this model; Reg names the registers abstractly.
 */
module Commands {
  import opened Frame

  datatype Option<T> = None | Some(value: T)

  /** The device registers the driver names (PAGE_ID, GLOB_CMD_G, ... in the source). */
  datatype Reg =
    | PageId     // PAGE_ID: selects which sensor's register page is exposed
    | GlobCmdG   // GLOB_CMD_G: gateway global command
    | GlobCmdS   // GLOB_CMD_S: sensor global command
    | CmdData    // CMD_DATA: argument of a global command
    | BufPntr    // BUF_PNTR: FFT buffer pointer
    | GpoCtrl    // GPO_CTRL: data-ready output control
    | UpdatInt   // UPDAT_INT: periodic update interval
    | IntScl     // INT_SCL: scale of the update interval
    | XBuf       // X_BUF: x-axis buffer output
    | YBuf       // Y_BUF: y-axis buffer output

  /** One register access: a regWrite of a datum, or a regRead. */
  datatype Access = Write(reg: Reg, data: Word) | Read(reg: Reg)

  /** The control operations of the driver, with their arguments. */
  datatype Command =
    | AddSensor(sensorAddr: Byte)
    | RemoveSensor(sensorAddr: Byte)
    | SaveGatewaySettings
    | SaveSensorSettings(sensorAddr: Byte)
    | SetPeriodicMode(interval: Word, scaleFactor: Byte, sensorAddr: Byte)
    | SetDataReady(dio: Byte)
    | ReadFft(sample: Byte, sensorAddr: Byte)
    | ReadFftBufferStart(sensorAddr: Byte)

  /** The register accesses an operation performs, in order. */
  function Trace(c: Command): (t: seq<Access>)
  {
    match c
    case AddSensor(a) => [Write(GlobCmdG, 0x01), Write(CmdData, a)]
    case RemoveSensor(a) => [Write(CmdData, a), Write(GlobCmdG, 0x100)]
    case SaveGatewaySettings => [Write(PageId, 0x00), Write(GlobCmdG, 0x40)]
    case SaveSensorSettings(a) =>
      [Write(PageId, a), Write(GlobCmdS, 0x40), Write(PageId, 0x00), Write(GlobCmdG, 0x02)]
    case SetPeriodicMode(interval, scaleFactor, a) =>
      [Write(PageId, a), Write(UpdatInt, interval), Write(IntScl, scaleFactor), Write(GlobCmdS, 0x800)]
    case SetDataReady(dio) =>
      [Write(PageId, 0x00)]
      + (if dio == 1 then [Write(GpoCtrl, 0x08)] else if dio == 2 then [Write(GpoCtrl, 0x20)] else [])
    case ReadFft(sample, a) => [Write(PageId, a), Write(BufPntr, sample), Read(XBuf), Read(YBuf)]
    case ReadFftBufferStart(a) =>
      [Write(PageId, a), Write(BufPntr, 0x00), Write(GlobCmdS, 0x800), Write(GlobCmdG, 0x02)]
  }

  /** The page the last write to PAGE_ID in a trace selected, if any. */
  function SelectedPage(log: seq<Access>): (page: Option<Word>)
  {
    if log == [] then None
    else
      match log[|log| - 1]
      case Write(PageId, page) => Some(page)
      case _ => SelectedPage(log[..|log| - 1])
  }

  /** The page a later trace selects wins; without one, the earlier selection stays. */
  lemma {:induction false} SelectedPageAppend(log: seq<Access>, more: seq<Access>)
    ensures SelectedPage(log + more) == if SelectedPage(more).Some? then SelectedPage(more) else SelectedPage(log)
    decreases |more|
  {
    if more != [] {
      var all := log + more;
      assert all[|all| - 1] == more[|more| - 1];
      assert all[..|all| - 1] == log + more[..|more| - 1];
      SelectedPageAppend(log, more[..|more| - 1]);
    } else {
      assert log + more == log;
    }
  }

  /**
   * The page each operation leaves the device on, given the page selected before:
   * joining and removing a sensor do not touch PAGE_ID; saving settings and
   * setting up data-ready end on page 0; the others end on the sensor's page.
   */
  function PageAfter(c: Command, before: Option<Word>): (page: Option<Word>)
  {
    match c
    case AddSensor(_) => before
    case RemoveSensor(_) => before
    case SaveGatewaySettings => Some(0)
    case SaveSensorSettings(_) => Some(0)
    case SetPeriodicMode(_, _, a) => Some(a)
    case SetDataReady(_) => Some(0)
    case ReadFft(_, a) => Some(a)
    case ReadFftBufferStart(a) => Some(a)
  }

  /** The page selected after one access, given the page selected before it. */
  function PageOf(x: Access, before: Option<Word>): (page: Option<Word>)
  {
    if x.Write? && x.reg == PageId then Some(x.data) else before
  }

  /** One more access changes the selected page only when it writes PAGE_ID. */
  lemma SelectedPageSnoc(log: seq<Access>, x: Access)
    ensures SelectedPage(log + [x]) == PageOf(x, SelectedPage(log))
  {
    var all := log + [x];
    assert all[..|all| - 1] == log;
  }

  /** The page a two-access trace selects, access by access. */
  lemma SelectedPageOfTwo(w: Access, x: Access)
    ensures SelectedPage([w, x]) == PageOf(x, PageOf(w, None))
  {
    SelectedPageSnoc([], w);
    assert [] + [w] == [w];
    SelectedPageSnoc([w], x);
    assert [w] + [x] == [w, x];
  }

  /** The page a four-access trace selects, access by access. */
  lemma SelectedPageOfFour(w: Access, x: Access, y: Access, z: Access)
    ensures SelectedPage([w, x, y, z]) == PageOf(z, PageOf(y, PageOf(x, PageOf(w, None))))
  {
    SelectedPageOfTwo(w, x);
    SelectedPageSnoc([w, x], y);
    assert [w, x] + [y] == [w, x, y];
    SelectedPageSnoc([w, x, y], z);
    assert [w, x, y] + [z] == [w, x, y, z];
  }

  /** The page an operation's own trace selects, if it selects one. */
  lemma TraceSelects(c: Command)
    ensures SelectedPage(Trace(c)) == PageAfter(c, None)
  {
    var t := Trace(c);
    if |t| == 4 {
      SelectedPageOfFour(t[0], t[1], t[2], t[3]);
      assert t == [t[0], t[1], t[2], t[3]];
    } else if |t| == 2 {
      SelectedPageOfTwo(t[0], t[1]);
      assert t == [t[0], t[1]];
    } else {
      SelectedPageSnoc([], t[0]);
      assert [] + [t[0]] == t;
    }
  }

  /** Running an operation after any history leaves the device on the page PageAfter names. */
  lemma TracePage(log: seq<Access>, c: Command)
    ensures SelectedPage(log + Trace(c)) == PageAfter(c, SelectedPage(log))
  {
    SelectedPageAppend(log, Trace(c));
    TraceSelects(c);
  }

  /** The bytes the driver clocks out for an access, given the numeric register addresses. */
  function AccessBytes(addressOf: Reg -> Byte, x: Access): (bytes: seq<Byte>)
  {
    match x
    case Write(r, d) => WireBytes(addressOf(r), d)
    case Read(r) => [addressOf(r), 0x00, 0x00, 0x00]
  }

  /** The bytes the driver clocks out for a trace. */
  function BusBytes(addressOf: Reg -> Byte, log: seq<Access>): (bytes: seq<Byte>)
  {
    if log == [] then [] else BusBytes(addressOf, log[..|log| - 1]) + AccessBytes(addressOf, log[|log| - 1])
  }

  /**
   * A write puts only its datum on the bus, low byte first; a read puts the
   * raw register address and three fill bytes.
   */
  lemma AccessBytesMeaning(addressOf: Reg -> Byte, x: Access)
    ensures x.Write? ==> AccessBytes(addressOf, x) == [x.data % 0x100, x.data / 0x100]
    ensures x.Read? ==> AccessBytes(addressOf, x) == [addressOf(x.reg), 0, 0, 0]
  {
    if x.Write? {
      WireBytesAreDatum(addressOf(x.reg), x.data);
    }
  }

  /** The data bytes of the writes of a trace, each datum low byte first. */
  function DataBytes(log: seq<Access>): (bytes: seq<Byte>)
  {
    if log == [] then []
    else
      var x := log[|log| - 1];
      DataBytes(log[..|log| - 1]) + (if x.Write? then [x.data % 0x100, x.data / 0x100] else [])
  }

  /** Every access of the trace is a write. */
  predicate WritesOnly(log: seq<Access>)
  {
    forall i :: 0 <= i < |log| ==> log[i].Write?
  }

  /** The bus bytes of a trace of writes are its data bytes and nothing else. */
  lemma {:induction false} WritesCarryOnlyData(addressOf: Reg -> Byte, log: seq<Access>)
    requires WritesOnly(log)
    ensures BusBytes(addressOf, log) == DataBytes(log)
    ensures |BusBytes(addressOf, log)| == 2 * |log|
  {
    if log != [] {
      var front := log[..|log| - 1];
      assert WritesOnly(front) by {
        forall i | 0 <= i < |front| ensures front[i].Write? {
          assert front[i] == log[i];
        }
      }
      WritesCarryOnlyData(addressOf, front);
      AccessBytesMeaning(addressOf, log[|log| - 1]);
    }
  }

  /** The writes of a trace never put a register address on the bus: renumbering the registers changes nothing. */
  lemma WritesIgnoreAddresses(a: Reg -> Byte, b: Reg -> Byte, log: seq<Access>)
    requires WritesOnly(log)
    ensures BusBytes(a, log) == BusBytes(b, log)
  {
    WritesCarryOnlyData(a, log);
    WritesCarryOnlyData(b, log);
  }

  /**
   * Every control operation except readFFT only writes, so its bytes on the
   * bus are its data bytes, whatever the register addresses are.
   */
  lemma ControlBytes(addressOf: Reg -> Byte, c: Command)
    requires !c.ReadFft?
    ensures WritesOnly(Trace(c))
    ensures BusBytes(addressOf, Trace(c)) == DataBytes(Trace(c))
  {
    var t := Trace(c);
    assert WritesOnly(t) by {
      ControlWritesOnly(c);
    }
    WritesCarryOnlyData(addressOf, t);
  }

  /** The traces of the operations other than readFFT hold writes only. */
  lemma ControlWritesOnly(c: Command)
    requires !c.ReadFft?
    ensures WritesOnly(Trace(c))
  {
  }

  /** One more access adds its data bytes, if it writes, at the end. */
  lemma DataBytesSnoc(log: seq<Access>, x: Access)
    ensures DataBytes(log + [x]) == DataBytes(log) + (if x.Write? then [x.data % 0x100, x.data / 0x100] else [])
  {
    var all := log + [x];
    assert all[..|all| - 1] == log;
  }

  /** The data bytes of two traces run one after the other are those of the first, then those of the second. */
  lemma {:induction false} DataBytesAppend(a: seq<Access>, b: seq<Access>)
    ensures DataBytes(a + b) == DataBytes(a) + DataBytes(b)
    decreases |b|
  {
    if b == [] {
      assert a + b == a;
    } else {
      var front := b[..|b| - 1];
      var x := b[|b| - 1];
      assert b == front + [x];
      assert a + b == (a + front) + [x];
      DataBytesAppend(a, front);
      DataBytesSnoc(a + front, x);
      DataBytesSnoc(front, x);
    }
  }

  /** A single write carries its datum, low byte first. */
  lemma OneWriteData(r: Reg, d: Word)
    ensures DataBytes([Write(r, d)]) == [d % 0x100, d / 0x100]
  {
    DataBytesSnoc([], Write(r, d));
    assert [] + [Write(r, d)] == [Write(r, d)];
  }

  /** Two writes carry their data in order, each low byte first. */
  lemma TwoWritesData(r0: Reg, d0: Word, r1: Reg, d1: Word)
    ensures DataBytes([Write(r0, d0), Write(r1, d1)]) == [d0 % 0x100, d0 / 0x100, d1 % 0x100, d1 / 0x100]
  {
    DataBytesSnoc([], Write(r0, d0));
    assert [] + [Write(r0, d0)] == [Write(r0, d0)];
    DataBytesSnoc([Write(r0, d0)], Write(r1, d1));
    assert [Write(r0, d0)] + [Write(r1, d1)] == [Write(r0, d0), Write(r1, d1)];
  }

  /** Four writes carry their data in order, each low byte first. */
  lemma FourWritesData(r0: Reg, d0: Word, r1: Reg, d1: Word, r2: Reg, d2: Word, r3: Reg, d3: Word)
    ensures DataBytes([Write(r0, d0), Write(r1, d1), Write(r2, d2), Write(r3, d3)])
            == [d0 % 0x100, d0 / 0x100, d1 % 0x100, d1 / 0x100,
                d2 % 0x100, d2 / 0x100, d3 % 0x100, d3 / 0x100]
  {
    var front := [Write(r0, d0), Write(r1, d1)];
    TwoWritesData(r0, d0, r1, d1);
    DataBytesSnoc(front, Write(r2, d2));
    assert front + [Write(r2, d2)] == [Write(r0, d0), Write(r1, d1), Write(r2, d2)];
    DataBytesSnoc(front + [Write(r2, d2)], Write(r3, d3));
    assert front + [Write(r2, d2)] + [Write(r3, d3)] == [Write(r0, d0), Write(r1, d1), Write(r2, d2), Write(r3, d3)];
  }
}
