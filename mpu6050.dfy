/** The MPU6050 motion sensor (src/hal/sensors/mpu6050.c): decoding the 14-byte
    register burst, the post-processing of the filtered angles, the choice of a
    single dominant command, and the command names. The complementary filter
    itself is not modelled: its outputs enter as the angles. */
module Mpu6050 {
  /** `SCALE_FACTOR`, taken as the exact decimal. */
  const ScaleFactor: real := 1.7
  const Threshold: real := 10.0
  const DeadBand: real := 0.1

  // ---------------------------------------------------------------- raw samples

  /** An unsigned 8-bit register value. */
  newtype Byte = x: int | 0 <= x < 256

  /** `(int16_t)((hi << 8) | lo)`: a big-endian two's-complement 16-bit value. */
  function BeInt16(hi: Byte, lo: Byte): (v: int)
    ensures -0x8000 <= v < 0x8000
    ensures (v + 0x1_0000) % 0x1_0000 == hi as int * 256 + lo as int
    ensures v < 0 <==> hi >= 0x80
  {
    var u := hi as int * 256 + lo as int;
    if u >= 0x8000 then u - 0x1_0000 else u
  }

  function HighByte(v: int): Byte
    requires -0x8000 <= v < 0x8000
  {
    (((v + 0x1_0000) % 0x1_0000) / 256) as Byte
  }

  function LowByte(v: int): Byte
    requires -0x8000 <= v < 0x8000
  {
    (((v + 0x1_0000) % 0x1_0000) % 256) as Byte
  }

  /** Encoding an int16 as two bytes and decoding them gives it back. */
  lemma BeInt16OfBytes(v: int)
    requires -0x8000 <= v < 0x8000
    ensures BeInt16(HighByte(v), LowByte(v)) == v
  {
  }

  /** Decoding two bytes and encoding the value gives the bytes back. */
  lemma BytesOfBeInt16(hi: Byte, lo: Byte)
    ensures HighByte(BeInt16(hi, lo)) == hi && LowByte(BeInt16(hi, lo)) == lo
  {
  }

  datatype RawSample = RawSample(ax: int, ay: int, az: int, gx: int, gy: int, gz: int)

  predicate InRange(s: RawSample)
  {
    && -0x8000 <= s.ax < 0x8000 && -0x8000 <= s.ay < 0x8000 && -0x8000 <= s.az < 0x8000
    && -0x8000 <= s.gx < 0x8000 && -0x8000 <= s.gy < 0x8000 && -0x8000 <= s.gz < 0x8000
  }

  /** `mpu6050_read_raw`: accelerometer from bytes 0-5, gyroscope from bytes 8-13. */
  function DecodeBurst(buf: seq<Byte>): (s: RawSample)
    requires |buf| == 14
    ensures InRange(s)
  {
    RawSample(BeInt16(buf[0], buf[1]), BeInt16(buf[2], buf[3]), BeInt16(buf[4], buf[5]),
              BeInt16(buf[8], buf[9]), BeInt16(buf[10], buf[11]), BeInt16(buf[12], buf[13]))
  }

  /** The burst the sensor sends for a sample, with the temperature bytes `t0`, `t1`. */
  function EncodeBurst(s: RawSample, t0: Byte, t1: Byte): (buf: seq<Byte>)
    requires InRange(s)
    ensures |buf| == 14 && buf[6] == t0 && buf[7] == t1
  {
    [HighByte(s.ax), LowByte(s.ax), HighByte(s.ay), LowByte(s.ay), HighByte(s.az), LowByte(s.az),
     t0, t1,
     HighByte(s.gx), LowByte(s.gx), HighByte(s.gy), LowByte(s.gy), HighByte(s.gz), LowByte(s.gz)]
  }

  lemma DecodeEncode(s: RawSample, t0: Byte, t1: Byte)
    requires InRange(s)
    ensures DecodeBurst(EncodeBurst(s, t0, t1)) == s
  {
    BeInt16OfBytes(s.ax); BeInt16OfBytes(s.ay); BeInt16OfBytes(s.az);
    BeInt16OfBytes(s.gx); BeInt16OfBytes(s.gy); BeInt16OfBytes(s.gz);
  }

  /** Every burst is the encoding of its decoded sample and its own bytes 6 and 7. */
  lemma EncodeDecode(buf: seq<Byte>)
    requires |buf| == 14
    ensures EncodeBurst(DecodeBurst(buf), buf[6], buf[7]) == buf
  {
    BytesOfBeInt16(buf[0], buf[1]); BytesOfBeInt16(buf[2], buf[3]); BytesOfBeInt16(buf[4], buf[5]);
    BytesOfBeInt16(buf[8], buf[9]); BytesOfBeInt16(buf[10], buf[11]); BytesOfBeInt16(buf[12], buf[13]);
    var e := EncodeBurst(DecodeBurst(buf), buf[6], buf[7]);
    assert forall i :: 0 <= i < 14 ==> e[i] == buf[i];
  }

  /** The temperature bytes 6 and 7 do not influence the decoded sample. */
  lemma DecodeIgnoresTemperature(a: seq<Byte>, b: seq<Byte>)
    requires |a| == 14 && |b| == 14
    requires forall i :: 0 <= i < 14 && i != 6 && i != 7 ==> a[i] == b[i]
    ensures DecodeBurst(a) == DecodeBurst(b)
  {
    assert a[0] == b[0] && a[1] == b[1] && a[2] == b[2] && a[3] == b[3] && a[4] == b[4] && a[5] == b[5];
    assert a[8] == b[8] && a[9] == b[9] && a[10] == b[10] && a[11] == b[11] && a[12] == b[12] && a[13] == b[13];
  }

  // ---------------------------------------------------------------- commands

  datatype Command = Neutral | Up | Down | Left | Right

  /** The enum value of `CommandAction_t`. */
  function Code(c: Command): (n: int)
    ensures 0 <= n <= 4
    ensures c == Neutral <==> n == 0
  {
    match c
    case Neutral => 0
    case Up => 1
    case Down => 2
    case Left => 3
    case Right => 4
  }

  lemma CodeInjective(c: Command, d: Command)
    ensures Code(c) == Code(d) ==> c == d
  {
  }

  /** `command_to_string` over any enum value: the five names, otherwise "ERROR". */
  function CommandToString(action: int): (s: string)
    ensures s == "ERROR" <==> !(0 <= action <= 4)
  {
    match action
    case 0 => "NEUTRAL"
    case 1 => "UP"
    case 2 => "DOWN"
    case 3 => "LEFT"
    case 4 => "RIGHT"
    case _ => "ERROR"
  }

  /** Distinct commands have distinct names. */
  lemma CommandNamesDistinct(c: Command, d: Command)
    requires c != d
    ensures CommandToString(Code(c)) != CommandToString(Code(d))
  {
  }

  // ---------------------------------------------------------------- read

  datatype MotionState = MotionState(roll: real, pitch: real, actionRoll: Command, actionPitch: Command)

  function Abs(v: real): (a: real)
    ensures a >= 0.0 && (a == v || a == -v)
  {
    if v < 0.0 then -v else v
  }

  /** The 360-degree correction: only a roll above 180 is moved, once. */
  function Unwrap(v: real): (r: real)
    ensures v > 180.0 ==> r == v - 360.0
    ensures v <= 180.0 ==> r == v
    ensures v <= 540.0 ==> r <= 180.0
  {
    if v > 180.0 then v - 360.0 else v
  }

  /** The dead zone: a value strictly inside (-0.1, 0.1) becomes exactly 0. */
  function Deaden(v: real): (r: real)
    ensures r == 0.0 <==> -DeadBand < v < DeadBand
    ensures r != 0.0 ==> r == v && Abs(r) >= DeadBand
  {
    if v > -DeadBand && v < DeadBand then 0.0 else v
  }

  /** The prioritised choice: roll wins ties, pitch needs to be strictly larger. */
  function Classify(roll: real, pitch: real): (a: (Command, Command))
    ensures a.0 == Neutral || a.1 == Neutral
    ensures a.0 != Neutral <==> Abs(roll) >= Threshold && Abs(roll) >= Abs(pitch)
    ensures a.0 != Neutral ==> (a.0 == Up <==> roll > 0.0) && (a.0 == Down <==> roll <= 0.0)
    ensures a.1 != Neutral <==> Abs(pitch) >= Threshold && Abs(pitch) > Abs(roll)
    ensures a.1 != Neutral ==> (a.1 == Right <==> pitch < 0.0) && (a.1 == Left <==> pitch >= 0.0)
    ensures a.0 in {Neutral, Up, Down} && a.1 in {Neutral, Left, Right}
  {
    if Abs(roll) >= Threshold && Abs(roll) >= Abs(pitch) then (if roll > 0.0 then Up else Down, Neutral)
    else if Abs(pitch) >= Threshold && Abs(pitch) > Abs(roll) then (Neutral, if pitch < 0.0 then Right else Left)
    else (Neutral, Neutral)
  }

  /** `mpu6050_read` after the filter: `angleRoll`/`anglePitch` are the filtered
      angles and `tareRoll`/`tarePitch` the zero point. */
  method Read(angleRoll: real, anglePitch: real, tareRoll: real, tarePitch: real) returns (state: MotionState)
    ensures state.roll == Deaden(Unwrap((angleRoll - tareRoll) * ScaleFactor))
    ensures state.pitch == Deaden(-(anglePitch - tarePitch))
    ensures (state.actionRoll, state.actionPitch) == Classify(state.roll, state.pitch)
    ensures state.actionRoll == Neutral || state.actionPitch == Neutral
  {
    var outRoll := angleRoll - tareRoll;
    var outPitch := anglePitch - tarePitch;
    outRoll := outRoll * ScaleFactor;
    outPitch := -outPitch;
    if outRoll > 180.0 {
      outRoll := outRoll - 360.0;
    }
    if outRoll > -DeadBand && outRoll < DeadBand {
      outRoll := 0.0;
    }
    if outPitch > -DeadBand && outPitch < DeadBand {
      outPitch := 0.0;
    }
    var absRoll := Abs(outRoll);
    var absPitch := Abs(outPitch);
    state := MotionState(outRoll, outPitch, Neutral, Neutral);
    if absRoll >= Threshold && absRoll >= absPitch {
      if outRoll > 0.0 {
        state := state.(actionRoll := Up);
      } else {
        state := state.(actionRoll := Down);
      }
    } else if absPitch >= Threshold && absPitch > absRoll {
      if outPitch < 0.0 {
        state := state.(actionPitch := Right);
      } else {
        state := state.(actionPitch := Left);
      }
    }
  }

  /** The command `mpu6050_print_motion_state` prints. */
  function FinalCommand(state: MotionState): (s: string)
    ensures state.actionRoll != Neutral ==> s == CommandToString(Code(state.actionRoll))
    ensures state.actionRoll == Neutral && state.actionPitch != Neutral ==> s == CommandToString(Code(state.actionPitch))
    ensures state.actionRoll == Neutral && state.actionPitch == Neutral ==> s == "NEUTRAL"
  {
    if state.actionRoll != Neutral then CommandToString(Code(state.actionRoll))
    else if state.actionPitch != Neutral then CommandToString(Code(state.actionPitch))
    else "NEUTRAL"
  }

  /** For a classified state the printed command names the dominant tilt:
      "NEUTRAL" exactly when neither axis reaches the threshold with priority. */
  lemma FinalCommandOfClassified(roll: real, pitch: real)
    ensures var a := Classify(roll, pitch);
      var s := FinalCommand(MotionState(roll, pitch, a.0, a.1));
      && (s == "UP" <==> Abs(roll) >= Threshold && Abs(roll) >= Abs(pitch) && roll > 0.0)
      && (s == "DOWN" <==> Abs(roll) >= Threshold && Abs(roll) >= Abs(pitch) && roll <= 0.0)
      && (s == "RIGHT" <==> !(Abs(roll) >= Threshold && Abs(roll) >= Abs(pitch))
                            && Abs(pitch) >= Threshold && Abs(pitch) > Abs(roll) && pitch < 0.0)
      && (s == "LEFT" <==> !(Abs(roll) >= Threshold && Abs(roll) >= Abs(pitch))
                           && Abs(pitch) >= Threshold && Abs(pitch) > Abs(roll) && pitch >= 0.0)
      && (s == "NEUTRAL" <==> a == (Neutral, Neutral))
      && s != "ERROR"
  {
    var a := Classify(roll, pitch);
    var s := FinalCommand(MotionState(roll, pitch, a.0, a.1));
    assert "UP" != "DOWN" && "UP" != "LEFT" && "UP" != "RIGHT" && "UP" != "NEUTRAL";
    assert "DOWN" != "LEFT" && "DOWN" != "RIGHT" && "DOWN" != "NEUTRAL";
    assert "LEFT" != "RIGHT" && "LEFT" != "NEUTRAL" && "RIGHT" != "NEUTRAL";
  }
}
