/** Byte strings. */
module OctetStrings {
  type Octet = x: int | 0 <= x < 256
  type Octets = seq<Octet>

  function Zeros(n: nat): (z: Octets)
    ensures |z| == n && forall i | 0 <= i < n :: z[i] == 0
  {
    if n == 0 then [] else Zeros(n - 1) + [0]
  }
}
