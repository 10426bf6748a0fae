/**
 * Sample scaling: the integer samples pydub decodes (already resampled to
 * 16 kHz mono) become floats, divided by the full scale of their width.
 * Values are exact reals; the float32 rounding of the script is not modelled.
 */
module Samples {

  /** The divisor applied for a sample width in bytes; 1 stands for "left unscaled". */
  function FullScale(sampleWidth: int): (d: real)
    ensures d >= 1.0
    ensures sampleWidth == 2 ==> d == 32768.0
    ensures sampleWidth == 4 ==> d == 2147483648.0
    ensures sampleWidth != 2 && sampleWidth != 4 ==> d == 1.0
  {
    if sampleWidth == 2 then 32768.0
    else if sampleWidth == 4 then 2147483648.0
    else 1.0
  }

  /** The signed range of a sample `sampleWidth` bytes wide. */
  predicate InSignedRange(x: int, sampleWidth: int)
    requires sampleWidth == 2 || sampleWidth == 4
  {
    if sampleWidth == 2 then -32768 <= x < 32768
    else -2147483648 <= x < 2147483648
  }

  /** The samples the engine receives for `raw`. */
  function Scaled(raw: seq<int>, sampleWidth: int): (r: seq<real>)
    ensures |r| == |raw|
    ensures sampleWidth == 2 ==> forall i :: 0 <= i < |raw| ==> r[i] == raw[i] as real / 32768.0
    ensures sampleWidth == 4 ==> forall i :: 0 <= i < |raw| ==> r[i] == raw[i] as real / 2147483648.0
    ensures sampleWidth != 2 && sampleWidth != 4 ==>
              forall i :: 0 <= i < |raw| ==> r[i] == raw[i] as real
    ensures sampleWidth == 2 || sampleWidth == 4 ==>
              forall i :: 0 <= i < |raw| && InSignedRange(raw[i], sampleWidth) ==>
                -1.0 <= r[i] < 1.0
  {
    var d := FullScale(sampleWidth);
    var r := seq(|raw|, i requires 0 <= i < |raw| => raw[i] as real / d);
    assert forall i :: 0 <= i < |raw| ==> r[i] == raw[i] as real / d;
    r
  }

  /** `samples = samples / d`, done on the array itself. */
  method DivideAll(samples: array<real>, d: real)
    requires d != 0.0
    modifies samples
    ensures forall i :: 0 <= i < samples.Length ==> samples[i] == old(samples[i]) / d
  {
    for i := 0 to samples.Length
      invariant forall k :: 0 <= k < i ==> samples[k] == old(samples[k]) / d
      invariant forall k :: i <= k < samples.Length ==> samples[k] == old(samples[k])
    {
      samples[i] := samples[i] / d;
    }
  }

  /** `np.array(get_array_of_samples(), dtype=np.float32)` followed by the width branch. */
  method Normalize(raw: seq<int>, sampleWidth: int) returns (samples: array<real>)
    ensures samples[..] == Scaled(raw, sampleWidth)
  {
    samples := new real[|raw|](i requires 0 <= i < |raw| => raw[i] as real);
    if sampleWidth == 2 {
      DivideAll(samples, 32768.0);
    } else if sampleWidth == 4 {
      DivideAll(samples, 2147483648.0);
    }
    ghost var expected := Scaled(raw, sampleWidth);
    assert forall i :: 0 <= i < |raw| ==> expected[i] == raw[i] as real / FullScale(sampleWidth);
    assert samples[..] == expected;
  }
}
