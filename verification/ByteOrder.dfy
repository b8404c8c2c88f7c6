/** Host and network byte order. */
module ByteOrder {
  import opened Metrics

  datatype Host = LittleEndian | BigEndian

  function Pow256(n: nat): pos {
    if n == 0 then 1 else 256 * Pow256(n - 1)
  }

  /** The n bytes of v, least significant first */
  function Little(n: nat, v: nat): (r: seq<byte>)
    ensures |r| == n
    decreases n, v
  {
    if n == 0 then [] else [v % 256] + Little(n - 1, v / 256)
  }

  /** The n bytes of v, most significant first: network order */
  function Big(n: nat, v: nat): (r: seq<byte>)
    ensures |r| == n
    decreases n, v
  {
    if n == 0 then [] else Big(n - 1, v / 256) + [v % 256]
  }

  function FromLittle(bytes: seq<byte>): nat {
    if bytes == [] then 0 else bytes[0] + 256 * FromLittle(bytes[1..])
  }

  function FromBig(bytes: seq<byte>): nat {
    if bytes == [] then 0 else 256 * FromBig(bytes[..|bytes| - 1]) + bytes[|bytes| - 1]
  }

  /** How a host lays out an n-byte integer in memory, and reads one back */
  function InMemory(host: Host, n: nat, v: nat): (r: seq<byte>)
    ensures |r| == n
  {
    if host.LittleEndian? then Little(n, v) else Big(n, v)
  }

  function Loaded(host: Host, bytes: seq<byte>): nat {
    if host.LittleEndian? then FromLittle(bytes) else FromBig(bytes)
  }

  // ---------- The C library's conversions and libmonikor's own ----------

  function Hton(host: Host, n: nat, v: nat): nat {
    Loaded(host, Big(n, v))
  }

  function Ntoh(host: Host, n: nat, v: nat): nat {
    FromBig(InMemory(host, n, v))
  }

  predicate IsBigEndian(host: Host) {
    InMemory(host, 2, 1)[0] == 0
  }

  /** The two halves are swapped and each converted; the disjoint bits of `|` add up. */
  function Htonll(host: Host, v: uint64): nat {
    if IsBigEndian(host) then v else Hton(host, 4, v % TWO_32) * TWO_32 + Hton(host, 4, v / TWO_32)
  }

  function Ntohll(host: Host, v: uint64): nat {
    if IsBigEndian(host) then v else Ntoh(host, 4, v % TWO_32) * TWO_32 + Ntoh(host, 4, v / TWO_32)
  }

  // ---------- Round trips ----------

  lemma {:induction false} BigRoundTrip(n: nat, v: nat)
    requires v < Pow256(n)
    ensures FromBig(Big(n, v)) == v
  {
    if n > 0 {
      BigRoundTrip(n - 1, v / 256);
      assert Big(n, v)[..n - 1] == Big(n - 1, v / 256);
    }
  }

  lemma {:induction false} FromBigBound(bytes: seq<byte>)
    ensures FromBig(bytes) < Pow256(|bytes|)
    ensures Big(|bytes|, FromBig(bytes)) == bytes
  {
    if bytes != [] {
      var front := bytes[..|bytes| - 1];
      FromBigBound(front);
      assert bytes == front + [bytes[|bytes| - 1]];
    }
  }

  /** In network order the first byte weighs most. */
  lemma {:induction false} FirstWeighsMost(b: byte, bytes: seq<byte>)
    ensures FromBig([b] + bytes) == b * Pow256(|bytes|) + FromBig(bytes)
  {
    if bytes == [] {
      assert [b] + bytes == [b] && [b][..0] == [];
      assert FromBig([b]) == 256 * FromBig([]) + b;
    } else {
      var n := |bytes| - 1;
      FirstWeighsMost(b, bytes[..n]);
      assert ([b] + bytes)[..n + 1] == [b] + bytes[..n];
      assert 256 * (b * Pow256(n)) == b * Pow256(n + 1);
    }
  }

  lemma {:induction false} FromLittleBound(bytes: seq<byte>)
    ensures FromLittle(bytes) < Pow256(|bytes|)
    ensures Little(|bytes|, FromLittle(bytes)) == bytes
  {
    if bytes != [] {
      var v := FromLittle(bytes[1..]);
      FromLittleBound(bytes[1..]);
      assert (bytes[0] + 256 * v) % 256 == bytes[0] && (bytes[0] + 256 * v) / 256 == v;
      assert bytes == [bytes[0]] + bytes[1..];
    }
  }

  lemma {:induction false} LittleRoundTrip(n: nat, v: nat)
    requires v < Pow256(n)
    ensures FromLittle(Little(n, v)) == v
  {
    if n > 0 {
      LittleRoundTrip(n - 1, v / 256);
      assert Little(n, v)[1..] == Little(n - 1, v / 256);
    }
  }

  lemma Pow256Four()
    ensures Pow256(2) == 0x1_0000 && Pow256(4) == TWO_32 && Pow256(8) == TWO_64
  {
    assert Pow256(1) == 256;
    assert Pow256(2) == 256 * Pow256(1);
    assert Pow256(3) == 256 * Pow256(2);
    assert Pow256(4) == 256 * Pow256(3);
    assert Pow256(5) == 256 * Pow256(4);
    assert Pow256(6) == 256 * Pow256(5);
    assert Pow256(7) == 256 * Pow256(6);
    assert Pow256(8) == 256 * Pow256(7);
  }

  /** The low m bytes come first in little-endian order, and last in network order. */
  lemma {:induction false} LittleSplit(m: nat, n: nat, low: nat, high: nat)
    requires low < Pow256(m)
    ensures Little(m + n, low + Pow256(m) * high) == Little(m, low) + Little(n, high)
  {
    if m == 0 {
      assert [] + Little(n, high) == Little(n, high);
    } else {
      var c := Pow256(m - 1) * high;
      assert Pow256(m) * high == 256 * c;
      assert (low + 256 * c) % 256 == low % 256 && (low + 256 * c) / 256 == low / 256 + c;
      LittleSplit(m - 1, n, low / 256, high);
      assert [low % 256] + Little(m - 1, low / 256) + Little(n, high)
          == [low % 256] + (Little(m - 1, low / 256) + Little(n, high));
    }
  }

  lemma {:induction false} BigSplit(m: nat, n: nat, low: nat, high: nat)
    requires low < Pow256(m)
    ensures Big(m + n, low + Pow256(m) * high) == Big(n, high) + Big(m, low)
  {
    if m == 0 {
      assert Big(n, high) + [] == Big(n, high);
    } else {
      var c := Pow256(m - 1) * high;
      assert Pow256(m) * high == 256 * c;
      assert (low + 256 * c) % 256 == low % 256 && (low + 256 * c) / 256 == low / 256 + c;
      BigSplit(m - 1, n, low / 256, high);
      assert Big(n, high) + Big(m - 1, low / 256) + [low % 256]
          == Big(n, high) + (Big(m - 1, low / 256) + [low % 256]);
    }
  }

  /** A host's own test of its byte order is right. */
  lemma HostTest(host: Host)
    ensures IsBigEndian(host) <==> host.BigEndian?
  {
    assert Little(2, 1)[0] == 1;
    assert Big(2, 1) == Big(1, 0) + [1] && Big(1, 0)[0] == 0;
  }

  /** On either host, storing a converted integer puts it in memory in network order. */
  lemma StoreNetworkOrder(host: Host, n: nat, v: nat)
    requires v < Pow256(n)
    ensures Hton(host, n, v) < Pow256(n) && InMemory(host, n, Hton(host, n, v)) == Big(n, v)
  {
    FromBigBound(Big(n, v));
    FromLittleBound(Big(n, v));
  }

  lemma StoreNetworkOrder64(host: Host, v: uint64)
    ensures Htonll(host, v) < TWO_64 && InMemory(host, 8, Htonll(host, v)) == Big(8, v)
  {
    HostTest(host);
    Pow256Four();
    if host.LittleEndian? {
      StoreNetworkOrder(host, 4, v % TWO_32);
      StoreNetworkOrder(host, 4, v / TWO_32);
      LittleSplit(4, 4, Hton(host, 4, v / TWO_32), Hton(host, 4, v % TWO_32));
      BigSplit(4, 4, v % TWO_32, v / TWO_32);
      assert v == v % TWO_32 + TWO_32 * (v / TWO_32);
    }
  }

  /** On either host, converting what was loaded reads network order. */
  lemma LoadNetworkOrder(host: Host, bytes: seq<byte>)
    ensures Ntoh(host, |bytes|, Loaded(host, bytes)) == FromBig(bytes)
  {
    FromBigBound(bytes);
    FromLittleBound(bytes);
  }

  lemma LoadNetworkOrder64(host: Host, bytes: seq<byte>)
    requires |bytes| == 8
    ensures Loaded(host, bytes) < TWO_64 && Ntohll(host, Loaded(host, bytes)) == FromBig(bytes)
  {
    HostTest(host);
    Pow256Four();
    FromBigBound(bytes);
    FromLittleBound(bytes);
    if host.LittleEndian? {
      var v := FromLittle(bytes);
      var low, high := v % TWO_32, v / TWO_32;
      assert v == low + TWO_32 * high;
      LittleSplit(4, 4, low, high);
      FromBigBound(Little(4, low));
      FromBigBound(Little(4, high));
      BigSplit(4, 4, FromBig(Little(4, high)), FromBig(Little(4, low)));
      BigRoundTrip(8, FromBig(Little(4, high)) + TWO_32 * FromBig(Little(4, low)));
    }
  }
}
