/**
 The frame counter that the pacing probe draws as a Gray-code band and that the
 capture analyser decodes again.

 Bitwise operations act on natural numbers of any size, as they do in Python;
 the probe's 32-bit counter is the special case of a number below 2^32.
 */
module GrayCode {
  import opened Options

  const BARS := 20
  const SYNC_BARS := 4
  const ID_RANGE := 65536

  function Xor(a: nat, b: nat): nat
    decreases a + b
  {
    if a == 0 && b == 0 then 0
    else 2 * Xor(a / 2, b / 2) + (if a % 2 == b % 2 then 0 else 1)
  }

  /** Bit `i` of `n`, the low bit first. */
  predicate Bit(n: nat, i: nat)
  {
    if i == 0 then n % 2 == 1 else Bit(n / 2, i - 1)
  }

  function Pow2(k: nat): (p: nat)
    ensures p > 0
  {
    if k == 0 then 1 else 2 * Pow2(k - 1)
  }

  /** The low `k` bits of `n`. */
  function Low(n: nat, k: nat): (low: nat)
    ensures low < Pow2(k)
  {
    if k == 0 then 0 else n % 2 + 2 * Low(n / 2, k - 1)
  }

  /** The Gray code of a frame number: `frame ^ (frame >> 1)`. */
  function Encode(n: nat): nat
  {
    Xor(n, n / 2)
  }

  /** The exclusive or of all right shifts of `gray`. */
  function Decode(gray: nat): nat
  {
    if gray == 0 then 0 else Xor(gray, Decode(gray / 2))
  }

  function BitsValue(bits: seq<bool>): nat
  {
    if bits == [] then 0
    else (if bits[0] then 1 else 0) + 2 * BitsValue(bits[1..])
  }

  // ---------------------------------------------------------------------
  // Exclusive or

  lemma {:induction false} XorZero(a: nat)
    ensures Xor(a, 0) == a && Xor(0, a) == a
  {
    if a != 0 {
      XorZero(a / 2);
    }
  }

  lemma {:induction false} XorSelf(a: nat)
    ensures Xor(a, a) == 0
  {
    if a != 0 {
      XorSelf(a / 2);
    }
  }

  lemma {:induction false} XorAssociative(a: nat, b: nat, c: nat)
    ensures Xor(Xor(a, b), c) == Xor(a, Xor(b, c))
    decreases a + b + c
  {
    if a != 0 || b != 0 || c != 0 {
      XorAssociative(a / 2, b / 2, c / 2);
      XorHalf(a, b);
      XorHalf(b, c);
      XorHalf(Xor(a, b), c);
      XorHalf(a, Xor(b, c));
    }
  }

  lemma {:induction false} XorCommutative(a: nat, b: nat)
    ensures Xor(a, b) == Xor(b, a)
    decreases a + b
  {
    if a != 0 || b != 0 {
      XorCommutative(a / 2, b / 2);
    }
  }

  /** One unfolding: exclusive or works bit by bit. */
  lemma XorHalf(a: nat, b: nat)
    ensures Xor(a, b) / 2 == Xor(a / 2, b / 2)
    ensures Xor(a, b) % 2 == (if a % 2 == b % 2 then 0 else 1)
  {
  }

  lemma {:induction false} XorOnes(m: nat, k: nat)
    requires m < Pow2(k)
    ensures Xor(m, Pow2(k) - 1) == Pow2(k) - 1 - m
  {
    if k != 0 {
      XorOnes(m / 2, k - 1);
      assert (Pow2(k) - 1) / 2 == Pow2(k - 1) - 1;
      XorHalf(m, Pow2(k) - 1);
    }
  }

  // ---------------------------------------------------------------------
  // Decoding undoes encoding, and the reverse, on every natural number

  lemma {:induction false} DecodeUndoesEncode(n: nat)
    ensures Decode(Encode(n)) == n
  {
    if n == 0 {
    } else {
      EncodeHalf(n);
      DecodeUndoesEncode(n / 2);
      DecodeStep(Encode(n));
      XorAssociative(n, n / 2, n / 2);
      XorSelf(n / 2);
      XorZero(n);
    }
  }

  lemma {:induction false} EncodeUndoesDecode(gray: nat)
    ensures Encode(Decode(gray)) == gray
  {
    if gray != 0 {
      DecodeHalf(gray);
      XorAssociative(gray, Decode(gray / 2), Decode(gray / 2));
      XorSelf(Decode(gray / 2));
      XorZero(gray);
    }
  }

  lemma EncodeHalf(n: nat)
    ensures Encode(n) / 2 == Encode(n / 2)
  {
    XorHalf(n, n / 2);
  }

  lemma DecodeStep(gray: nat)
    ensures Decode(gray) == Xor(gray, Decode(gray / 2))
  {
  }

  lemma {:induction false} DecodeHalf(gray: nat)
    ensures Decode(gray) / 2 == Decode(gray / 2)
  {
    if gray != 0 {
      XorHalf(gray, Decode(gray / 2));
      DecodeHalf(gray / 2);
      DecodeStep(gray / 2);
    }
  }

  lemma {:induction false} DecodeLinear(a: nat, b: nat)
    ensures Decode(Xor(a, b)) == Xor(Decode(a), Decode(b))
    decreases a + b
  {
    if a != 0 || b != 0 {
      DecodeLinear(a / 2, b / 2);
      XorHalf(a, b);
      DecodeStep(Xor(a, b));
      DecodeStep(a);
      DecodeStep(b);
      var p, q := Decode(a / 2), Decode(b / 2);
      XorInterchange(a, b, p, q);
    }
  }

  lemma XorInterchange(a: nat, b: nat, p: nat, q: nat)
    ensures Xor(Xor(a, b), Xor(p, q)) == Xor(Xor(a, p), Xor(b, q))
  {
    XorAssociative(a, b, Xor(p, q));
    XorAssociative(b, p, q);
    XorCommutative(b, p);
    XorAssociative(p, b, q);
    XorAssociative(a, p, Xor(b, q));
  }

  // ---------------------------------------------------------------------
  // Successive frames differ in one bar

  lemma {:induction false} AdjacentFramesDifferInOneBit(n: nat) returns (k: nat)
    ensures Xor(Encode(n), Encode(n + 1)) == Pow2(k)
  {
    hide Xor, Encode;
    EncodeHalf(n);
    EncodeHalf(n + 1);
    XorHalf(Encode(n), Encode(n + 1));
    LowGrayBits(n);
    if n % 2 == 0 {
      k := 0;
      XorSelf(Encode(n / 2));
    } else {
      var j := AdjacentFramesDifferInOneBit(n / 2);
      k := j + 1;
    }
  }

  /** The lowest Gray bit changes exactly after an even frame. */
  lemma LowGrayBits(n: nat)
    ensures (n + 1) / 2 == n / 2 + n % 2
    ensures Encode(n) % 2 == Encode(n + 1) % 2 <==> n % 2 == 1
  {
    XorHalf(n, n / 2);
    XorHalf(n + 1, (n + 1) / 2);
  }

  // ---------------------------------------------------------------------
  // The sixteen drawn bars keep only the low sixteen Gray bits

  function High(n: nat, k: nat): nat
  {
    if k == 0 then n else High(n / 2, k - 1)
  }

  lemma {:induction false} SplitAtBit(n: nat, k: nat)
    ensures n == Pow2(k) * High(n, k) + Low(n, k)
  {
    if k != 0 {
      SplitAtBit(n / 2, k - 1);
      SplitStep(n, Pow2(k - 1), High(n / 2, k - 1), Low(n / 2, k - 1));
    }
  }

  lemma SplitStep(n: nat, p: nat, h: nat, low: nat)
    requires n / 2 == p * h + low
    ensures n == (2 * p) * h + (n % 2 + 2 * low)
  {
    assert (2 * p) * h == 2 * (p * h);
  }

  lemma LowIsRemainder(n: nat, k: nat)
    ensures Low(n, k) == n % Pow2(k)
  {
    SplitAtBit(n, k);
    RemainderIs(n, Pow2(k), High(n, k), Low(n, k));
  }

  lemma RemainderIs(n: nat, d: nat, q: nat, r: nat)
    requires r < d && n == d * q + r
    ensures n % d == r
  {
    var q', r' := n / d, n % d;
    assert d * q' + r' == d * q + r;
    if q' < q {
      MultipleAtLeast(d, q - q');
      assert false;
    } else if q < q' {
      MultipleAtLeast(d, q' - q);
      assert false;
    }
  }

  lemma MultipleAtLeast(d: nat, x: nat)
    requires x >= 1
    ensures d * x >= d
  {
  }

  lemma {:induction false} LowXor(a: nat, b: nat, k: nat)
    ensures Low(Xor(a, b), k) == Xor(Low(a, k), Low(b, k))
    decreases k
  {
    if k != 0 {
      XorHalf(a, b);
      LowXor(a / 2, b / 2, k - 1);
      XorAppend(Low(a / 2, k - 1), Low(b / 2, k - 1), a % 2, b % 2);
    } else {
      assert Xor(0, 0) == 0;
    }
  }

  lemma XorAppend(a: nat, b: nat, x: nat, y: nat)
    requires x < 2 && y < 2
    ensures Xor(x + 2 * a, y + 2 * b) == (if x == y then 0 else 1) + 2 * Xor(a, b)
  {
    assert (x + 2 * a) / 2 == a && (y + 2 * b) / 2 == b;
    XorHalf(x + 2 * a, y + 2 * b);
  }

  lemma {:induction false} LowBits(n: nat, bits: seq<bool>)
    requires forall i :: 0 <= i < |bits| ==> bits[i] == Bit(n, i)
    ensures BitsValue(bits) == Low(n, |bits|)
    decreases |bits|
  {
    if bits != [] {
      assert bits[0] == Bit(n, 0);
      forall i | 0 <= i < |bits[1..]|
        ensures bits[1..][i] == Bit(n / 2, i)
      {
        assert bits[i + 1] == Bit(n, i + 1);
      }
      LowBits(n / 2, bits[1..]);
    }
  }

  lemma {:induction false} LowTop(n: nat, k: nat)
    ensures Low(n, k + 1) == Low(n, k) + (if Bit(n, k) then Pow2(k) else 0)
  {
    if k != 0 {
      LowTop(n / 2, k - 1);
    }
  }

  /** Shifting right by one brings the next bit into the top of the window. */
  lemma LowOfHalf(n: nat, k: nat)
    ensures Low(n / 2, k) == Low(n, k + 1) / 2
  {
  }

  lemma {:induction false} DecodeTopBit(k: nat)
    ensures Decode(Pow2(k)) == Pow2(k + 1) - 1
  {
    if k != 0 {
      DecodeTopBit(k - 1);
      DecodeStep(Pow2(k));
      assert Pow2(k) / 2 == Pow2(k - 1);
      XorDisjointTop(k, Pow2(k) - 1);
    } else {
      assert Decode(1) == Xor(1, Decode(0));
    }
  }

  lemma {:induction false} XorDisjointTop(k: nat, m: nat)
    requires m < Pow2(k)
    ensures Xor(Pow2(k), m) == Pow2(k) + m
  {
    if k != 0 {
      XorDisjointTop(k - 1, m / 2);
      XorHalf(Pow2(k), m);
      assert Pow2(k) / 2 == Pow2(k - 1);
    } else {
      XorZero(1);
    }
  }

  /** The identifier a captured band carries: the low bits of the frame number,
      complemented in every second window. */
  function BandId(frame: nat, k: nat): nat
    requires k > 0
  {
    if Bit(frame, k) then Pow2(k) - 1 - Low(frame, k) else Low(frame, k)
  }

  lemma DecodeLowGray(frame: nat, k: nat)
    requires k > 0
    ensures Decode(Low(Encode(frame), k)) == BandId(frame, k)
  {
    hide Xor, Decode, Low, Bit, Pow2;
    var m := Low(frame, k);
    LowXor(frame, frame / 2, k);
    LowOfHalf(frame, k);
    LowTop(frame, k);
    if Bit(frame, k) {
      HalfOfTop(m, k);
      DecodeReflected(m, k);
    } else {
      DecodeUndoesEncode(m);
    }
  }

  lemma HalfOfTop(m: nat, k: nat)
    requires k > 0
    ensures (m + Pow2(k)) / 2 == Pow2(k - 1) + m / 2
  {
  }

  /** A set bit just above the window flips the top Gray bit, and with it every
      decoded bit. */
  lemma DecodeReflected(m: nat, k: nat)
    requires k > 0 && m < Pow2(k)
    ensures Decode(Xor(m, Pow2(k - 1) + m / 2)) == Pow2(k) - 1 - m
  {
    hide Xor, Decode;
    var top := Pow2(k - 1);
    XorDisjointTop(k - 1, m / 2);
    XorCommutative(top, m / 2);
    XorAssociative(m, m / 2, top);
    DecodeLinear(Encode(m), top);
    DecodeUndoesEncode(m);
    DecodeTopBit(k - 1);
    XorOnes(m, k);
  }

  // ---------------------------------------------------------------------
  // The band itself

  /** What a drawn band shows: the sync pattern, then Gray bits 0 to 15. */
  ghost predicate ShowsFrame(bars: seq<bool>, frame: nat)
  {
    && |bars| == BARS
    && Synced(bars)
    && forall i :: 0 <= i < BARS - SYNC_BARS ==> bars[SYNC_BARS + i] == Bit(Encode(frame), i)
  }

  predicate Synced(bars: seq<bool>)
    requires |bars| == BARS
  {
    bars[0] && !bars[1] && bars[2] && !bars[3]
  }

  method DrawCodeBand(frame: nat) returns (bars: seq<bool>)
    ensures ShowsFrame(bars, frame)
  {
    var gray := Encode(frame);
    bars := [];
    for bar := 0 to BARS
      invariant |bars| == bar
      invariant forall b :: 0 <= b < bar && b < SYNC_BARS ==> bars[b] == (b % 2 == 0)
      invariant forall i :: 0 <= i < bar - SYNC_BARS ==> bars[SYNC_BARS + i] == Bit(gray, i)
    {
      var white;
      if bar < SYNC_BARS {
        white := bar % 2 == 0;
      } else {
        white := Bit(gray, bar - SYNC_BARS);
      }
      bars := bars + [white];
    }
  }

  method GrayToBinary(gray: nat) returns (value: nat)
    ensures value == Decode(gray)
  {
    value := 0;
    var rest := gray;
    XorZero(Decode(gray));
    while rest != 0
      invariant Xor(value, Decode(rest)) == Decode(gray)
      decreases rest
    {
      XorAssociative(value, rest, Decode(rest / 2));
      value := Xor(value, rest);
      rest := rest / 2;
    }
    XorZero(value);
  }

  lemma {:induction false} BitsValueAppend(bits: seq<bool>, bit: bool)
    ensures BitsValue(bits + [bit]) == BitsValue(bits) + (if bit then Pow2(|bits|) else 0)
  {
    if bits != [] {
      assert (bits + [bit])[1..] == bits[1..] + [bit];
      BitsValueAppend(bits[1..], bit);
    }
  }

  /** A band whose sync bars do not alternate is not a reading. */
  method DecodeBand(bars: seq<bool>) returns (id: Option<nat>)
    requires |bars| == BARS
    ensures id == if Synced(bars) then Some(Decode(BitsValue(bars[SYNC_BARS..]))) else None
  {
    if !Synced(bars) {
      return None;
    }
    var encoded := 0;
    var data := bars[SYNC_BARS..];
    for bit := 0 to |data|
      invariant encoded == BitsValue(data[..bit])
    {
      assert data[..bit + 1] == data[..bit] + [data[bit]];
      BitsValueAppend(data[..bit], data[bit]);
      if data[bit] {
        encoded := encoded + Pow2(bit);
      }
    }
    assert data[..|data|] == data;
    var value := GrayToBinary(encoded);
    return Some(value);
  }

  /** The probe draws a band and the analyser reads it back. */
  method CaptureFrame(frame: nat) returns (id: Option<nat>)
    ensures id == Some(CapturedId(frame))
  {
    var bars := DrawCodeBand(frame);
    id := DecodeBand(bars);
    BandReadsBack(frame, bars);
  }

  /** The identifier read back from a frame's band, in plain arithmetic. */
  function CapturedId(frame: nat): (id: nat)
    ensures id < ID_RANGE
  {
    if (frame / ID_RANGE) % 2 == 0 then frame % ID_RANGE
    else ID_RANGE - 1 - frame % ID_RANGE
  }

  lemma BandReadsBack(frame: nat, bars: seq<bool>)
    requires ShowsFrame(bars, frame)
    ensures Decode(BitsValue(bars[SYNC_BARS..])) == CapturedId(frame)
  {
    var k := BARS - SYNC_BARS;
    LowBits(Encode(frame), bars[SYNC_BARS..]);
    DecodeLowGray(frame, k);
    SixteenBits(frame);
  }

  lemma SixteenBits(frame: nat)
    ensures Pow2(16) == ID_RANGE
    ensures Low(frame, 16) == frame % ID_RANGE
    ensures Bit(frame, 16) <==> (frame / ID_RANGE) % 2 == 1
  {
    assert Pow2(4) == 16;
    assert Pow2(8) == 256;
    assert Pow2(12) == 4096;
    assert Pow2(16) == ID_RANGE;
    LowIsRemainder(frame, 16);
    SplitAtBit(frame, 16);
    BitIsHigh(frame, 16);
  }

  lemma {:induction false} BitIsHigh(n: nat, k: nat)
    ensures Bit(n, k) <==> High(n, k) % 2 == 1
  {
    if k != 0 {
      BitIsHigh(n / 2, k - 1);
    }
  }

  /** Over a cycle of 131072 frames the identifier climbs and then descends. */
  lemma CapturedIdInCycle(frame: nat)
    ensures var r := frame % (2 * ID_RANGE);
            CapturedId(frame) == if r < ID_RANGE then r else 2 * ID_RANGE - 1 - r
  {
    var c, r := frame / (2 * ID_RANGE), frame % (2 * ID_RANGE);
    assert frame == ID_RANGE * (2 * c) + r;
    if r < ID_RANGE {
      assert frame / ID_RANGE == 2 * c && frame % ID_RANGE == r;
    } else {
      assert frame / ID_RANGE == 2 * c + 1 && frame % ID_RANGE == r - ID_RANGE;
    }
  }

  /** The analyser sees a step of exactly one between two successive frames in
      the first half of each 131072-frame cycle and nowhere else: in the second
      half the identifiers count down, and at both turning points they repeat. */
  lemma SuccessiveFramesStepByOne(frame: nat)
    ensures (CapturedId(frame + 1) - CapturedId(frame)) % ID_RANGE == 1
            <==> frame % (2 * ID_RANGE) < ID_RANGE - 1
  {
    CapturedIdInCycle(frame);
    CapturedIdInCycle(frame + 1);
    NextInCycle(frame);
    var r := frame % (2 * ID_RANGE);
    var step := CapturedId(frame + 1) - CapturedId(frame);
    assert step == if r < ID_RANGE - 1 then 1 else if r == ID_RANGE - 1 || r == 2 * ID_RANGE - 1 then 0 else -1;
    StepModulo(step);
  }

  lemma NextInCycle(frame: nat)
    ensures var r := frame % (2 * ID_RANGE);
            (frame + 1) % (2 * ID_RANGE) == if r == 2 * ID_RANGE - 1 then 0 else r + 1
  {
  }

  lemma StepModulo(step: int)
    requires -1 <= step <= 1
    ensures step % ID_RANGE == 1 <==> step == 1
  {
  }

  /** The identifier repeats at the first turning point and then falls. */
  lemma IdentifierRepeatsAtTurn()
    ensures CapturedId(ID_RANGE) == CapturedId(ID_RANGE - 1)
    ensures CapturedId(ID_RANGE + 1) == CapturedId(ID_RANGE) - 1
  {
  }
}
