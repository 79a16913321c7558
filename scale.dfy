/**
 * The integer part of the four scale functions of the ADIS16000 driver
 * (lib/ADIS16000.cpp:219-299): the sign adjustment of the raw sample and the
 * choice of the range constant.
 *
 * The physical result is a float in the source. Here a scaled value is an
 * integer count of hundred-thousandths of the physical unit, so that the
 * constants 0.0305, 0.00044, ... are the exact integers 3050, 44, ...
 */
module Scale {
  import opened Bits
  import opened Frame

  /** Hundred-thousandths: the denominator of every constant and scaled value below. */
  const Unit: nat := 100000

  // ---------------------------------------------------------------------------
  // Sign adjustment
  // ---------------------------------------------------------------------------

  /**
   * `isNeg = sensorData & 0x8000`. The driver targets an 8-bit AVR board, where
   * `int` is 16 bits wide and the literal 0x8000 is an `unsigned int`, so the
   * AND is taken on the 16-bit pattern of the sample. Stored in the `int`
   * isNeg, a set bit reads as -32768, but `isNeg == 0x8000` converts isNeg
   * back to `unsigned int`, so the test is "bit 15 is set" either way; this
   * function gives the unsigned value.
   */
  function IsNeg(sensorData: Int16): (r: nat)
  {
    And(Pattern(sensorData), 0x8000)
  }

  /** The bit-15 test of the source is a sign test. */
  lemma IsNegIffNegative(sensorData: Int16)
    ensures IsNeg(sensorData) == if sensorData < 0 then 0x8000 else 0
  {
    Bit15(Pattern(sensorData));
  }

  /**
   * The sign adjustment as the source writes it, `sensorData - 0xFFFF` when
   * bit 15 is set, on the 16-bit `int` of the AVR target: 0xFFFF does not fit
   * in `int`, so it is an `unsigned int`, the subtraction is done on the
   * 16-bit unsigned pattern modulo 2^16, and the result is stored back in the
   * 16-bit `int` signedData.
   */
  function SignAdjust(sensorData: Int16): (r: Int16)
  {
    if IsNeg(sensorData) == 0x8000 then ToInt16(Pattern(sensorData) + 0x10000 - 0xFFFF) else sensorData
  }

  /** Adding one to a negative int16_t stays in range and is what the wrapped subtraction gives. */
  lemma WrappedSubtraction(x: Int16)
    requires x < 0
    ensures ToInt16(Pattern(x) + 0x10000 - 0xFFFF) == x + 1
  {
    var w := Pattern(x) + 1;
    assert w == x + 0x10001;
    if x == -1 {
      assert w % 0x10000 == 0;
    } else {
      assert w % 0x10000 == w;
    }
  }

  /**
   * Non-negative samples pass through unchanged; every negative sample comes
   * out one too large, in -32767..0, so -1 and 0 both give 0 and the sign is
   * kept only for samples below -1.
   */
  lemma SignAdjustCases(sensorData: Int16)
    ensures sensorData >= 0 ==> SignAdjust(sensorData) == sensorData
    ensures sensorData < 0 ==> SignAdjust(sensorData) == sensorData + 1
    ensures sensorData < 0 ==> -0x7FFF <= SignAdjust(sensorData) <= 0
    ensures SignAdjust(sensorData) < 0 <==> sensorData < -1
    ensures SignAdjust(sensorData) == 0 <==> sensorData == 0 || sensorData == -1
  {
    IsNegIffNegative(sensorData);
    if sensorData < 0 {
      WrappedSubtraction(sensorData);
    }
  }

  /**
   * The adjustment is off for every negative sample: -1 comes out as 0, the
   * same as 0, and the most negative sample as -32767, although 1 comes out as 1.
   */
  lemma SignAdjustMisreadsMinusOne()
    ensures SignAdjust(1) == 1
    ensures SignAdjust(-1) == 0 == SignAdjust(0)
    ensures SignAdjust(-0x8000) == -0x7FFF
    ensures SignAdjust(-1) != -SignAdjust(1)
  {
    IsNegIffNegative(1);
    IsNegIffNegative(0);
    IsNegIffNegative(-1);
    WrappedSubtraction(-1);
    IsNegIffNegative(-0x8000);
    WrappedSubtraction(-0x8000);
  }

  /**
   * The corrected adjustment: the two's-complement reading of the 16-bit
   * pattern, subtracting 0x10000 when bit 15 is set.
   */
  function SignedCount(sensorData: Int16): (r: int)
  {
    if IsNeg(sensorData) == 0x8000 then Pattern(sensorData) - 0x10000 else Pattern(sensorData)
  }

  /** The corrected adjustment gives back the signed sample itself, so it is odd and monotone. */
  lemma SignedCountIsSample(sensorData: Int16)
    ensures SignedCount(sensorData) == sensorData
    ensures sensorData > -0x8000 ==> SignedCount(-sensorData as Int16) == -SignedCount(sensorData)
    ensures forall other: Int16 :: sensorData <= other ==> SignedCount(sensorData) <= SignedCount(other)
  {
    IsNegIffNegative(sensorData);
    if sensorData > -0x8000 {
      IsNegIffNegative(-sensorData as Int16);
    }
    forall other: Int16 ensures SignedCount(other) == other {
      IsNegIffNegative(other);
    }
  }

  // ---------------------------------------------------------------------------
  // Range constants
  // ---------------------------------------------------------------------------

  /** The full-scale range selectors the switch statements name. */
  predicate IsRange(gRange: int)
  {
    gRange == 1 || gRange == 5 || gRange == 10 || gRange == 20
  }

  /** `lsbrange` of scaleTime (0.0305, 0.1526, 0.3052, 0.6104; default 0.0305), in hundred-thousandths. */
  function TimeLsb(gRange: int): (lsb: nat)
  {
    match gRange
    case 1 => 3050
    case 5 => 15260
    case 10 => 30520
    case 20 => 61040
    case _ => 3050
  }

  /** `lsbrange` of scaleFFT (0.0153, 0.0763, 0.1526, 0.3052; default 0.0153), in hundred-thousandths. */
  function FftLsb(gRange: int): (lsb: nat)
  {
    match gRange
    case 1 => 1530
    case 5 => 7630
    case 10 => 15260
    case 20 => 30520
    case _ => 1530
  }

  /** The constant of scaleSupply, 0.00044, in hundred-thousandths. */
  const SupplyLsb: nat := 44

  /** The constant of scaleTemp, 0.0815, in hundred-thousandths. */
  const TempLsb: nat := 8150

  /**
   * Each named selector picks its own constant, a larger range a coarser one,
   * and every other selector falls back to the constant of range 1.
   */
  lemma RangeSelection(gRange: int)
    ensures !IsRange(gRange) ==> TimeLsb(gRange) == TimeLsb(1) && FftLsb(gRange) == FftLsb(1)
    ensures TimeLsb(1) < TimeLsb(5) < TimeLsb(10) < TimeLsb(20)
    ensures FftLsb(1) < FftLsb(5) < FftLsb(10) < FftLsb(20)
    ensures 0 < TimeLsb(gRange) < Unit && 0 < FftLsb(gRange) < Unit
  {
  }

  // ---------------------------------------------------------------------------
  // scaleTime and scaleFFT as written: `int lsbrange`
  // ---------------------------------------------------------------------------

  /**
   * The value an `int` holds after being assigned one of the constants: C
   * truncates toward zero, and the constants are positive.
   */
  function IntLsbRange(lsb: nat): (r: int)
  {
    lsb / Unit
  }

  /**
   * scaleTime as written, `signedData * lsbrange` with `int lsbrange`, in
   * hundred-thousandths. The parameter list's missing `)` at
   * lib/ADIS16000.cpp:219 is taken as supplied.
   */
  function ScaleTimeAsWritten(sensorData: Int16, gRange: int): (r: int)
  {
    SignAdjust(sensorData) * IntLsbRange(TimeLsb(gRange)) * Unit
  }

  /**
   * scaleFFT as written, in hundred-thousandths. The parameter list's missing
   * `)` at lib/ADIS16000.cpp:248 is taken as supplied.
   */
  function ScaleFftAsWritten(sensorData: Int16, gRange: int): (r: int)
  {
    SignAdjust(sensorData) * IntLsbRange(FftLsb(gRange)) * Unit
  }

  /** Every constant truncates to 0, so scaleTime and scaleFFT as written return 0 for every sample. */
  lemma ScaleAsWrittenIsZero(sensorData: Int16, gRange: int)
    ensures ScaleTimeAsWritten(sensorData, gRange) == 0
    ensures ScaleFftAsWritten(sensorData, gRange) == 0
    ensures ScaleTimeAsWritten(100, 1) != 100 * TimeLsb(1)
  {
    RangeSelection(gRange);
    RangeSelection(1);
  }

  // ---------------------------------------------------------------------------
  // The scale functions with both corrections
  // ---------------------------------------------------------------------------

  /** scaleTime, in hundred-thousandths (the missing `)` at lib/ADIS16000.cpp:219 supplied). */
  function ScaleTime(sensorData: Int16, gRange: int): (r: int)
  {
    SignedCount(sensorData) * TimeLsb(gRange)
  }

  /** scaleFFT, in hundred-thousandths (the missing `)` at lib/ADIS16000.cpp:248 supplied). */
  function ScaleFft(sensorData: Int16, gRange: int): (r: int)
  {
    SignedCount(sensorData) * FftLsb(gRange)
  }

  /** scaleSupply, in hundred-thousandths. */
  function ScaleSupply(sensorData: Int16): (r: int)
  {
    SignedCount(sensorData) * SupplyLsb
  }

  /** scaleTemp, in hundred-thousandths. */
  function ScaleTemp(sensorData: Int16): (r: int)
  {
    SignedCount(sensorData) * TempLsb
  }

  /** A product with a positive constant keeps the sign of the sample and is odd in it. */
  lemma ScaledByPositive(x: int, c: int)
    requires c > 0
    ensures x * c < 0 <==> x < 0
    ensures x * c == 0 <==> x == 0
    ensures (-x) * c == -(x * c)
  {
    if x < 0 {
      assert x * c <= -c by {
        Bits.MultipleBounds(c, x);
      }
    } else if x > 0 {
      assert x * c >= c by {
        Bits.MultipleBounds(c, x);
      }
    }
  }

  /**
   * The scaled value is the sample times the constant of its range: zero exactly
   * for a zero sample, negative exactly for a negative one, odd in the sample,
   * and an unknown selector scales like range 1.
   */
  lemma ScaleTimeMeaning(sensorData: Int16, gRange: int)
    ensures ScaleTime(sensorData, gRange) == sensorData * TimeLsb(gRange)
    ensures ScaleTime(sensorData, gRange) < 0 <==> sensorData < 0
    ensures ScaleTime(sensorData, gRange) == 0 <==> sensorData == 0
    ensures sensorData > -0x8000 ==> ScaleTime(-sensorData as Int16, gRange) == -ScaleTime(sensorData, gRange)
    ensures !IsRange(gRange) ==> ScaleTime(sensorData, gRange) == ScaleTime(sensorData, 1)
  {
    SignedCountIsSample(sensorData);
    RangeSelection(gRange);
    ScaledByPositive(sensorData, TimeLsb(gRange));
  }

  /** The same facts for scaleFFT. */
  lemma ScaleFftMeaning(sensorData: Int16, gRange: int)
    ensures ScaleFft(sensorData, gRange) == sensorData * FftLsb(gRange)
    ensures ScaleFft(sensorData, gRange) < 0 <==> sensorData < 0
    ensures ScaleFft(sensorData, gRange) == 0 <==> sensorData == 0
    ensures sensorData > -0x8000 ==> ScaleFft(-sensorData as Int16, gRange) == -ScaleFft(sensorData, gRange)
    ensures !IsRange(gRange) ==> ScaleFft(sensorData, gRange) == ScaleFft(sensorData, 1)
  {
    SignedCountIsSample(sensorData);
    RangeSelection(gRange);
    ScaledByPositive(sensorData, FftLsb(gRange));
  }

  /** scaleSupply and scaleTemp: the sample times their fixed constant, with its sign. */
  lemma ScaleSupplyTempMeaning(sensorData: Int16)
    ensures ScaleSupply(sensorData) == sensorData * 44
    ensures ScaleTemp(sensorData) == sensorData * 8150
    ensures ScaleSupply(sensorData) < 0 <==> sensorData < 0
    ensures ScaleTemp(sensorData) < 0 <==> sensorData < 0
    ensures ScaleSupply(sensorData) == 0 <==> sensorData == 0
    ensures ScaleTemp(sensorData) == 0 <==> sensorData == 0
  {
    SignedCountIsSample(sensorData);
    ScaledByPositive(sensorData, SupplyLsb);
    ScaledByPositive(sensorData, TempLsb);
  }
}
