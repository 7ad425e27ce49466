/** Amounts as real numbers and as whole nanos. */
module Nano {
  import opened Codec

  /** Truncates to whole nanos; the largest word stands for everything from 2^64 nanos up. */
  function ToNano(value: real): u64 {
    if value <= 0.0 then 0
    else
      var scaled := value * 1000000000.0;
      if scaled >= 18446744073709551616.0 then 0xFFFF_FFFF_FFFF_FFFF else scaled.Floor
  }

  function FromNano(n: u64): real {
    n as real / 1000000000.0
  }

  lemma NanoRoundTrip(n: u64)
    ensures ToNano(FromNano(n)) == n
  {
    assert FromNano(n) * 1000000000.0 == n as real;
  }

  /** Below saturation a conversion loses less than one nano and never gains. */
  lemma NanoTruncates(value: real)
    requires 0.0 <= value && value * 1000000000.0 < 18446744073709551616.0
    ensures FromNano(ToNano(value)) <= value < FromNano(ToNano(value)) + 0.000000001
    ensures ToNano(value) as real <= value * 1000000000.0 < ToNano(value) as real + 1.0
  {}

  lemma NanoNeverGains(value: real)
    requires 0.0 <= value
    ensures FromNano(ToNano(value)) <= value && ToNano(value) as real <= value * 1000000000.0
  {}

  lemma NanoGrows(a: real, b: real)
    requires a <= b
    ensures ToNano(a) <= ToNano(b)
  {}
}
