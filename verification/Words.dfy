/** Fixed-width integers and the packing of two 32-bit values into one 64-bit key.

    Modules (modid, cmdid) and hosts (ip, port) are both keyed by
    `((uint64_t)hi << 32) + lo`, computed on signed ints: the conversion to
    uint64_t sign-extends, the shift drops the high half and the sum wraps.
    Dafny's `%` is Euclidean, so one `% TWO_TO_THE_64` says all three. */
module Words {
  const TWO_TO_THE_31: int := 0x8000_0000
  const TWO_TO_THE_32: int := 0x1_0000_0000
  const TWO_TO_THE_64: int := 0x1_0000_0000_0000_0000

  type Int32 = x: int | -TWO_TO_THE_31 <= x < TWO_TO_THE_31
  type Uint32 = x: int | 0 <= x < TWO_TO_THE_32
  type Uint64 = x: int | 0 <= x < TWO_TO_THE_64

  /** The conversion to uint32_t. */
  function ToUint32(x: int): Uint32 {
    x % TWO_TO_THE_32
  }

  /** The (two's complement) conversion to int. */
  function ToInt32(x: int): Int32 {
    var m := x % TWO_TO_THE_32;
    if m < TWO_TO_THE_31 then m else m - TWO_TO_THE_32
  }

  function Pack(hi: int, lo: int): Uint64 {
    (hi * TWO_TO_THE_32 + lo) % TWO_TO_THE_64
  }

  /** `(uint32_t)(key >> 32)`, or the same bits read back as an int. */
  function High(key: Uint64): Uint32 {
    key / TWO_TO_THE_32
  }

  /** `(int)key`. */
  function Low(key: Uint64): Int32 {
    ToInt32(key)
  }

  /** Conversions keep the number up to multiples of 2^32. */
  lemma ConversionsWrap(x: int)
    ensures (x - ToUint32(x)) % TWO_TO_THE_32 == 0 && (x - ToInt32(x)) % TWO_TO_THE_32 == 0
  {
  }

  lemma ToInt32OfUint32(x: Int32)
    ensures ToInt32(ToUint32(x)) == x
  {
  }

  lemma Split32(x: int, q: int, r: int)
    requires x == q * TWO_TO_THE_32 + r && 0 <= r < TWO_TO_THE_32
    ensures x / TWO_TO_THE_32 == q && x % TWO_TO_THE_32 == r
  {
  }

  lemma Split64(x: int, q: int, r: int)
    requires x == q * TWO_TO_THE_64 + r && 0 <= r < TWO_TO_THE_64
    ensures x / TWO_TO_THE_64 == q && x % TWO_TO_THE_64 == r
  {
  }

  /** What the packed word's two halves are, for all pairs of ints: a negative
      low half borrows one from the high half. */
  lemma PackHalves(hi: int, lo: Int32)
    ensures High(Pack(hi, lo)) == ToUint32(if lo >= 0 then hi else hi - 1)
    ensures Low(Pack(hi, lo)) == lo
  {
    var carry := if lo >= 0 then hi else hi - 1;
    var high, low := ToUint32(carry), if lo >= 0 then lo else lo + TWO_TO_THE_32;
    Split64(hi * TWO_TO_THE_32 + lo, carry / TWO_TO_THE_32, high * TWO_TO_THE_32 + low);
    Split32(Pack(hi, lo), high, low);
  }

  /** Distinct pairs of ints never share a key. */
  lemma PackInjective(hi: Int32, lo: Int32, hi': Int32, lo': Int32)
    requires Pack(hi, lo) == Pack(hi', lo')
    ensures hi == hi' && lo == lo'
  {
    PackHalves(hi, lo);
    PackHalves(hi', lo');
  }

  /** Decoding a key returns the packed pair exactly when the low half is not negative. */
  lemma PackRoundTrip(hi: Int32, lo: Int32)
    ensures ToInt32(High(Pack(hi, lo))) == hi && Low(Pack(hi, lo)) == lo <==> lo >= 0
    ensures lo >= 0 ==> High(Pack(hi, lo)) == ToUint32(hi)
  {
    PackHalves(hi, lo);
  }

  /** Storing the high half as uint32_t first does not change the key. */
  lemma PackOfUint32(hi: int, lo: Int32)
    ensures Pack(ToUint32(hi), lo) == Pack(hi, lo)
  {
    var word := ToUint32(hi) * TWO_TO_THE_32 + lo;
    Split64(hi * TWO_TO_THE_32 + lo, hi / TWO_TO_THE_32 + word / TWO_TO_THE_64, word % TWO_TO_THE_64);
  }

  /** The high half of the pair that was packed, as uint32_t, whatever the sign of
      the low half. No code computes this; it names the pair behind a key. */
  function PackedHigh(key: Uint64): Uint32 {
    ToUint32((key - Low(key)) / TWO_TO_THE_32)
  }

  lemma PackedHighOfPack(hi: int, lo: Int32)
    ensures PackedHigh(Pack(hi, lo)) == ToUint32(hi)
  {
    PackHalves(hi, lo);
    var q := (hi * TWO_TO_THE_32 + lo) / TWO_TO_THE_64;
    Split32(Pack(hi, lo) - lo, hi - q * TWO_TO_THE_32, 0);
    Split32(hi - q * TWO_TO_THE_32, hi / TWO_TO_THE_32 - q, ToUint32(hi));
  }

  lemma PackOfPackedHigh(key: Uint64)
    ensures Pack(PackedHigh(key), Low(key)) == key
  {
    var lo, r := Low(key), key % TWO_TO_THE_32;
    var q := if r < TWO_TO_THE_31 then key / TWO_TO_THE_32 else key / TWO_TO_THE_32 + 1;
    Split32(key - lo, q, 0);
    PackOfUint32(q, lo);
  }

  /** A host address as messages carry it: two signed ints. */
  datatype Addr = Addr(ip: Int32, port: Int32)
  {
    function Key(): Uint64 {
      Pack(ip, port)
    }
  }

  /** The only address with this key. */
  function AddrOf(key: Uint64): Addr {
    Addr(ToInt32(PackedHigh(key)), Low(key))
  }

  lemma AddrOfKey(a: Addr)
    ensures AddrOf(a.Key()) == a
  {
    PackedHighOfPack(a.ip, a.port);
    PackHalves(a.ip, a.port);
    ToInt32OfUint32(a.ip);
  }

  lemma KeyOfAddrOf(key: Uint64)
    ensures AddrOf(key).Key() == key
  {
    PackOfPackedHigh(key);
    var a := AddrOf(key);
    assert ToUint32(a.ip) == PackedHigh(key);
    PackOfUint32(a.ip, a.port);
  }

  /** How the code decodes a key: its two halves as ints. */
  function Decoded(key: Uint64): Addr {
    Addr(ToInt32(High(key)), Low(key))
  }

  /** A key survives decoding and packing exactly when its low half is not negative. */
  lemma DecodedKey(key: Uint64)
    ensures Decoded(key).Key() == key <==> Low(key) >= 0
    ensures Low(key) >= 0 ==> Decoded(key) == AddrOf(key)
  {
    var a := AddrOf(key);
    KeyOfAddrOf(key);
    PackRoundTrip(a.ip, a.port);
    PackHalves(a.ip, a.port);
    if Decoded(key).Key() == key {
      PackInjective(a.ip, a.port, Decoded(key).ip, Decoded(key).port);
    }
  }
}
